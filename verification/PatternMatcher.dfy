/** The backtracking matcher. */
module PatternMatcher {
  import opened Common
  import opened LuaValues
  import opened PatternSyntax
  import opened PatternMatching

  /** Raised stands for the error about a malformed pattern. */
  datatype Outcome = Found(e: nat) | Fail | TooComplex | Raised

  /** What a matcher has to come up with: the best match and its captures, or no match and
      the captures as they were. With a malformed pattern nothing is found: there is an error
      exactly if what comes before the malformed place matches. */
  ghost predicate Answer(src: Str, pat: Str, items: seq<Item>, caps: seq<Capture>, i: nat, r: Outcome,
        caps': seq<Capture>, split: seq<nat>)
    requires ItemsOk(pat, items)
  {
    match r
    case Found(e) =>
      && !EndsBad(items) && IsBest(src, pat, items, caps, i, split)
      && split[|items|] == e && caps' == Captured(items, caps, split)
    case Raised => EndsBad(items) && IsBest(src, pat, items, caps, i, split)
    case Fail => NoMatch(src, pat, items, caps, i) && caps' == caps
    case TooComplex => true
  }

  /** The answer for items at j is the answer for items0 at i, with the places passed put in front. */
  ghost predicate Leads(src: Str, pat: Str, items0: seq<Item>, caps: seq<Capture>, i: nat, pre: seq<nat>,
        items: seq<Item>, j: nat)
    requires ItemsOk(pat, items0) && ItemsOk(pat, items)
  {
    forall r, caps', split :: Answer(src, pat, items, caps, j, r, caps', split) ==>
      Answer(src, pat, items0, caps, i, r, caps', pre + split)
  }

  lemma LeadsOn(src: Str, pat: Str, items0: seq<Item>, caps: seq<Capture>, i: nat, pre: seq<nat>, items: seq<Item>,
        j: nat, items': seq<Item>, k: nat)
    requires ItemsOk(pat, items0) && ItemsOk(pat, items) && ItemsOk(pat, items')
    requires Leads(src, pat, items0, caps, i, pre, items, j) && Leads(src, pat, items, caps, j, [j], items', k)
    ensures Leads(src, pat, items0, caps, i, pre + [j], items', k)
  {
    hide Answer;
    forall r, caps', split | Answer(src, pat, items', caps, k, r, caps', split)
      ensures Answer(src, pat, items0, caps, i, r, caps', (pre + [j]) + split)
    {
      assert Answer(src, pat, items, caps, j, r, caps', [j] + split);
      assert (pre + [j]) + split == pre + ([j] + split);
    }
  }

  lemma LeadsStart(src: Str, pat: Str, items: seq<Item>, caps: seq<Capture>, i: nat)
    requires ItemsOk(pat, items)
    ensures Leads(src, pat, items, caps, i, [], items, i)
  {
    hide Answer;
    forall r, caps', split: seq<nat> | Answer(src, pat, items, caps, i, r, caps', split)
      ensures Answer(src, pat, items, caps, i, r, caps', [] + split)
    {
      assert [] + split == split;
    }
  }

  /** A first item whose best end that may lead to a match is j. */
  lemma FoundVia(src: Str, pat: Str, items: seq<Item>, caps: seq<Capture>, i: nat, j: nat, r: Outcome,
        caps': seq<Capture>, rest: seq<nat>)
    requires ItemsOk(pat, items) && items != [] && ItemOk(pat, items[0]) && ItemsOk(pat, items[1..])
    requires Accepts(src, pat, items[0], caps, i, j) && NoBetter(src, pat, items, caps, i, j)
    requires Answer(src, pat, items[1..], Next(items[0], caps, i), j, r, caps', rest)
    requires (r.Found? || r.Raised?) && !items[0].Bad?
    ensures Answer(src, pat, items, caps, i, r, caps', [i] + rest)
  {
    Chosen(src, pat, items, caps, i, j, rest);
    hide IsBest, Captured, Accepts, NoBetter;
  }

  /** A first item with one end only. */
  ghost predicate Only(src: Str, pat: Str, items: seq<Item>, caps: seq<Capture>, i: nat, j: nat)
    requires ItemsOk(pat, items) && items != []
  {
    RestOk(pat, items);
    forall j': nat :: Accepts(src, pat, items[0], caps, i, j') <==> j' == j
  }

  /** An item with one end that leaves the captures alone passes the matcher on. */
  lemma OnlyLeads(src: Str, pat: Str, items: seq<Item>, caps: seq<Capture>, i: nat, j: nat)
    requires ItemsOk(pat, items) && items != [] && ItemsOk(pat, items[1..]) && Only(src, pat, items, caps, i, j)
    requires Next(items[0], caps, i) == caps && !items[0].Bad?
    ensures Leads(src, pat, items, caps, i, [i], items[1..], j)
  {
  }

  /** An item with no end. */
  ghost predicate Stuck(src: Str, pat: Str, items: seq<Item>, caps: seq<Capture>, i: nat)
    requires ItemsOk(pat, items) && items != []
  {
    RestOk(pat, items);
    forall j: nat :: !Accepts(src, pat, items[0], caps, i, j)
  }

  lemma StuckFails(src: Str, pat: Str, items: seq<Item>, caps: seq<Capture>, i: nat)
    requires ItemsOk(pat, items) && items != [] && Stuck(src, pat, items, caps, i)
    ensures NoMatch(src, pat, items, caps, i)
  {
  }

  /** What a single step of the matcher comes to: on with the next item, or an answer. */
  datatype StepResult = Goto(s: nat, p: nat) | Done(r: Outcome)

  /** Matching can go on after this. */
  predicate Goes(step: StepResult) {
    step.Goto? || step.r.Found? || step.r.Fail?
  }

  /** Places in the pattern and the subject, and captures made before. */
  ghost predicate Ready(src: Str, pat: Str, caps: seq<Capture>, s: nat, p: nat) {
    p <= |pat| && s <= |src| && CapturesIn(caps, s)
  }

  /** The items of the rest of a pattern, after these captures. */
  ghost function From(pat: Str, p: nat, caps: seq<Capture>): (items: seq<Item>)
    requires p <= |pat|
    ensures ItemsOk(pat, items)
  {
    ItemsAreOk(pat, p, Statuses(caps));
    Items(pat, p, Statuses(caps))
  }

  ghost predicate Fit(pat: Str, p: nat, caps: seq<Capture>) {
    Usable(pat, p, Statuses(caps))
  }

  /** The first item and the rest. */
  lemma ReadyFirst(src: Str, pat: Str, caps: seq<Capture>, s: nat, p: nat)
    requires Ready(src, pat, caps, s, p) && Fit(pat, p, caps)
    ensures p < |pat| && TokenAt(pat, p).Token? && p < TokenAt(pat, p).next <= |pat|
    ensures From(pat, p, caps) != [] && From(pat, p, caps)[0] == TokenAt(pat, p).item
    ensures !From(pat, p, caps)[0].Bad?
    ensures From(pat, p, caps)[1..] == From(pat, TokenAt(pat, p).next, Next(TokenAt(pat, p).item, caps, s))
    ensures ItemOk(pat, From(pat, p, caps)[0]) && ItemsOk(pat, From(pat, p, caps)[1..])
    ensures |From(pat, p, caps)| == 1 + |From(pat, TokenAt(pat, p).next, Next(TokenAt(pat, p).item, caps, s))|
    ensures ItemWell(TokenAt(pat, p).item, Statuses(caps))
  {
    TokenNotBad(pat, p);
    NextWell(TokenAt(pat, p).item, caps, s);
    hide TokenAt, ItemWell, NextStatus, Next;
  }

  lemma TokenNotBad(pat: Str, p: nat)
    requires p < |pat| && TokenAt(pat, p).Token?
    ensures !TokenAt(pat, p).item.Bad?
  {
  }

  /** What is next is ready, wherever the item ends. */
  lemma ReadyNext(src: Str, pat: Str, caps: seq<Capture>, s: nat, p: nat, j: nat)
    requires Ready(src, pat, caps, s, p) && Fit(pat, p, caps) && s <= j <= |src|
    ensures p < |pat| && TokenAt(pat, p).Token? && p < TokenAt(pat, p).next <= |pat|
    ensures Ready(src, pat, Next(TokenAt(pat, p).item, caps, s), j, TokenAt(pat, p).next)
  {
    NextIn(TokenAt(pat, p).item, caps, s, j);
  }

  /** Where the pattern is malformed. */
  lemma BadRaises(src: Str, pat: Str, caps: seq<Capture>, s: nat, p: nat, caps': seq<Capture>)
    requires Ready(src, pat, caps, s, p) && p < |pat| && !Fit(pat, p, caps)
    ensures StepOk(src, pat, p, s, caps, caps', Done(Raised), [s, s])
  {
    var items := From(pat, p, caps);
    assert items == [Bad] && items[1..] == [];
    assert [s, s][1..] == [s];
    forall b: seq<nat> | Matches(src, pat, items, caps, b) && b[0] == s ensures AsGood(items, [s, s], b) {
      assert b[1] == s;
    }
    assert Matches(src, pat, items, caps, [s, s]);
  }

  // ----- tests on single characters -----

  method MatchBracketClass(c: char, pat: Str, p: nat, ec: nat) returns (r: bool)
    requires p < ec < |pat|
    ensures r == InBracket(c, pat, p, ec)
  {
    var sig, q := true, p + 1;
    if CharAt(pat, q) == '^' {
      sig, q := false, q + 1;
    }
    ghost var q0 := q;
    while q < ec
      invariant InSet(c, pat, q0, ec) == InSet(c, pat, q, ec)
      decreases ec - q
    {
      if pat[q] == '%' {
        if MatchClass(c, CharAt(pat, q + 1)) {
          return sig;
        }
        q := q + 2;
      } else if CharAt(pat, q + 1) == '-' && q + 2 < ec {
        if pat[q] <= c <= pat[q + 2] {
          return sig;
        }
        q := q + 3;
      } else {
        if pat[q] == c {
          return sig;
        }
        q := q + 1;
      }
    }
    return !sig;
  }

  method ClassMatch(c: char, pat: Str, p: nat, ep: nat) returns (r: bool)
    requires ClassOk(pat, p, ep)
    ensures r == InClass(c, pat, p, ep)
  {
    if pat[p] == '.' {
      return true;
    } else if pat[p] == '%' {
      return MatchClass(c, pat[p + 1]);
    } else if pat[p] == '[' {
      r := MatchBracketClass(c, pat, p, ep - 1);
    } else {
      return pat[p] == c;
    }
  }

  class MatchState {
    const src: Str
    const pat: Str
    var matchdepth: nat
    var level: nat
    const capture: array<Capture>

    ghost predicate Valid()
      reads this
    {
      capture.Length == MAXCAPTURES && level <= MAXCAPTURES
    }

    /** The captures in use. */
    ghost function Caps(): seq<Capture>
      reads this, capture
    {
      if level <= capture.Length then capture[..level] else []
    }

    constructor (src: Str, pat: Str, depth: nat)
      ensures Valid() && this.src == src && this.pat == pat && matchdepth == depth && Caps() == [] && fresh(capture)
    {
      this.src, this.pat := src, pat;
      matchdepth, level := depth, 0;
      capture := new Capture[MAXCAPTURES](_ => Capture(0, 0));
    }

    method SingleMatch(s: nat, p: nat, ep: nat) returns (r: bool)
      requires ClassOk(pat, p, ep)
      ensures r == (s < |src| && InClass(src[s], pat, p, ep))
    {
      if s >= |src| {
        return false;
      }
      r := ClassMatch(src[s], pat, p, ep);
    }

    /** The end of the balanced text that starts at s. */
    method MatchBalance(s: nat, b: char, e: char) returns (j: Option<nat>)
      requires s <= |src|
      ensures j == if CharAt(src, s) == b && s < |src| then BalanceEnd(src, s + 1, b, e, 1) else None
    {
      if CharAt(src, s) != b {
        return None;
      }
      var cont: nat, i := 1, s + 1;
      while i < |src|
        invariant s < i && cont > 0
        invariant s < |src| ==> BalanceEnd(src, s + 1, b, e, 1) == BalanceEnd(src, i, b, e, cont)
        decreases |src| - i
      {
        if src[i] == e {
          cont := cont - 1;
          if cont == 0 {
            return Some(i + 1);
          }
        } else if src[i] == b {
          cont := cont + 1;
        }
        i := i + 1;
      }
      return None;
    }

    method CaptureToClose() returns (l: int)
      requires Valid()
      ensures l == ToClose(Caps())
    {
      l := level - 1;
      assert capture[..level] == Caps();
      while l >= 0
        invariant -1 <= l < level && ToClose(Caps()) == ToClose(capture[..l + 1])
      {
        if capture[l].len == UNFINISHED {
          return;
        }
        assert capture[..l + 1][..l] == capture[..l];
        l := l - 1;
      }
    }

    /** Where the text of a closed capture comes again. */
    method MatchCapture(s: nat, l: nat) returns (j: Option<nat>)
      requires Valid() && s <= |src| && l < level && capture[l].len != UNFINISHED && CapturesIn(Caps(), s)
      ensures j.Some? ==> BackHere(src, Caps(), l, s, j.value)
      ensures j.None? ==> forall k: nat :: !BackHere(src, Caps(), l, s, k)
    {
      assert Caps()[l] == capture[l];
      var init, len := capture[l].init, capture[l].len;
      if len < 0 {
        return None;
      }
      if |src| - s >= len && src[init..init + len] == src[s..s + len] {
        return Some(s + len);
      }
      return None;
    }
  
    // ----- the matcher -----

    /** Matches the pattern from p on at s. */
    method Match(s0: nat, p0: nat) returns (res: Outcome, ghost split: seq<nat>)
      requires Valid() && Ready(src, pat, Caps(), s0, p0)
      modifies `matchdepth, `level, capture
      ensures Valid() && Answer(src, pat, From(pat, p0, old(Caps())), old(Caps()), s0, res, Caps(), split)
      ensures res.Found? || res.Fail? ==> matchdepth == old(matchdepth)
      ensures old(matchdepth) > |From(pat, p0, old(Caps()))| ==> !res.TooComplex?
      decreases |pat| - p0, 4
    {
      hide Answer, Leads, Statuses, CapturesIn, Items;
      ghost var caps, pre: seq<nat> := Caps(), [];
      split := [];
      if matchdepth == 0 {
        Gives(src, pat, From(pat, p0, caps), caps, s0, caps);
        return TooComplex, split;
      }
      matchdepth := matchdepth - 1;
      var s, p := s0, p0;
      LeadsStart(src, pat, From(pat, p, caps), caps, s);
      while true
        invariant Valid() && Ready(src, pat, caps, s, p) && p <= |pat|
        invariant Caps() == caps == old(Caps()) && matchdepth == old(matchdepth) - 1
        invariant p0 <= p && |From(pat, p, caps)| <= |From(pat, p0, caps)|
        invariant Leads(src, pat, From(pat, p0, caps), caps, s0, pre, From(pat, p, caps), s)
        decreases |pat| - p
      {
        if p == |pat| {
          AtPatternEnd(src, pat, caps, s);
          LeadsTo(src, pat, From(pat, p0, caps), caps, s0, pre, From(pat, p, caps), s, Found(s), caps, [s]);
          res, split := Found(s), pre + [s];
          break;
        }
        var step, sub := Step(s, p);
        match step
        case Goto(s', p') =>
          LeadsOn(src, pat, From(pat, p0, caps), caps, s0, pre, From(pat, p, caps), s, From(pat, p', caps), s');
          pre := pre + [s];
          s, p := s', p';
        case Done(r) =>
          LeadsTo(src, pat, From(pat, p0, caps), caps, s0, pre, From(pat, p, caps), s, r, Caps(), sub);
          res, split := r, pre + sub;
          if r.TooComplex? || r.Raised? {
            return;
          }
          break;
      }
      matchdepth := matchdepth + 1;
    }

    /** One item. */
    method Step(s: nat, p: nat) returns (step: StepResult, ghost sub: seq<nat>)
      requires Valid() && Ready(src, pat, Caps(), s, p) && p < |pat|
      modifies `matchdepth, `level, capture
      ensures Valid() && p <= |pat| && StepOk(src, pat, p, s, old(Caps()), Caps(), step, sub)
      ensures Goes(step) ==> matchdepth == old(matchdepth)
      ensures old(matchdepth) >= |From(pat, p, old(Caps()))| ==> step != Done(TooComplex)
      decreases |pat| - p, 3
    {
      var c, c' := pat[p], CharAt(pat, p + 1);
      hide StepOk, Ready, Items, From, MatchState.Valid, MatchState.Caps, SingleToken, ClassEnd;
      if c == '(' {
        if c' == ')' {
          step, sub := StartCapture(s, p, p + 2, POSITION);
        } else {
          step, sub := StartCapture(s, p, p + 1, UNFINISHED);
        }
      } else if c == ')' {
        step, sub := EndCapture(s, p, p + 1);
      } else if c == '$' && p + 1 == |pat| {
        step, sub := MatchEnd(s, p);
      } else if c == '%' && c' == 'b' {
        step, sub := StepBalance(s, p);
      } else if c == '%' && c' == 'f' {
        step, sub := StepFrontier(s, p);
      } else if c == '%' && IsDigit(c') {
        step, sub := StepBack(s, p);
      } else {
        step, sub := StepSingle(s, p);
      }
    }
  
    /** Opens a capture, and takes it back if there is no match. */
    method StartCapture(s: nat, p: nat, next: nat, what: int) returns (step: StepResult, ghost sub: seq<nat>)
      requires Valid() && Ready(src, pat, Caps(), s, p) && p < |pat|
      requires TokenAt(pat, p) == Token(if what == POSITION then Position else Open, next)
      requires (what == POSITION || what == UNFINISHED)
      modifies `matchdepth, `level, capture
      ensures Valid() && p <= |pat| && StepOk(src, pat, p, s, old(Caps()), Caps(), step, sub)
      ensures Goes(step) ==> matchdepth == old(matchdepth)
      ensures old(matchdepth) >= |From(pat, p, old(Caps()))| ==> step != Done(TooComplex)
      decreases |pat| - p, 1
    {
      ghost var caps := Caps();
      if level >= MAXCAPTURES {
        BadRaises(src, pat, caps, s, p, caps);
        return Done(Raised), [s, s];
      }
      StartReady(src, pat, caps, s, p, next, what);
      hide StepOk, Ready, Items, From, TokenAt, Answer;
      capture[level] := Capture(s, what);
      level := level + 1;
      assert Caps() == caps + [Capture(s, what)];
      var r, rest := Match(s, next);
      StepDone(src, pat, p, next, s, s, caps, r, Caps(), rest);
      FailKeeps(src, pat, From(pat, next, caps + [Capture(s, what)]), caps + [Capture(s, what)], s, r, Caps(), rest);
      if r.Fail? {
        level := level - 1;
        assert Caps() == (caps + [Capture(s, what)])[..|caps|] == caps;
      }
      step, sub := Done(r), [s] + rest;
    }

    /** Closes the innermost open capture, and opens it again if there is no match. */
    method EndCapture(s: nat, p: nat, next: nat) returns (step: StepResult, ghost sub: seq<nat>)
      requires Valid() && Ready(src, pat, Caps(), s, p) && p < |pat| && TokenAt(pat, p) == Token(Close, next)
      modifies `matchdepth, `level, capture
      ensures Valid() && p <= |pat| && StepOk(src, pat, p, s, old(Caps()), Caps(), step, sub)
      ensures Goes(step) ==> matchdepth == old(matchdepth)
      ensures old(matchdepth) >= |From(pat, p, old(Caps()))| ==> step != Done(TooComplex)
      decreases |pat| - p, 1
    {
      ghost var caps := Caps();
      var l := CaptureToClose();
      if l < 0 {
        ToCloseSame(caps);
        BadRaises(src, pat, caps, s, p, caps);
        return Done(Raised), [s, s];
      }
      EndReady(src, pat, caps, s, p, next);
      assert caps[l] == capture[l] && caps[l].len == UNFINISHED;
      hide StepOk, Ready, Items, From, TokenAt, Answer;
      capture[l] := capture[l].(len := s - capture[l].init);
      ghost var closed := caps[l := caps[l].(len := s - caps[l].init)];
      assert Caps() == closed;
      var r, rest := Match(s, next);
      StepDone(src, pat, p, next, s, s, caps, r, Caps(), rest);
      FailKeeps(src, pat, From(pat, next, closed), closed, s, r, Caps(), rest);
      if r.Fail? {
        assert Caps()[l] == capture[l] == closed[l];
        capture[l] := capture[l].(len := UNFINISHED);
        assert Caps() == closed[l := caps[l]] == caps;
      }
      step, sub := Done(r), [s] + rest;
    }

    /** A `$` at the end of the pattern. */
    method MatchEnd(s: nat, p: nat) returns (step: StepResult, ghost sub: seq<nat>)
      requires Valid() && Ready(src, pat, Caps(), s, p) && p + 1 == |pat| && TokenAt(pat, p) == Token(AtEnd, p + 1)
      ensures StepOk(src, pat, p, s, Caps(), Caps(), step, sub) && step != Done(TooComplex)
    {
      ReadyFirst(src, pat, Caps(), s, p);
      if s == |src| {
        NothingLeft(src, pat, Caps(), s);
        OnlyDone(src, pat, From(pat, p, Caps()), Caps(), s, s, Found(s), Caps(), [s]);
        return Done(Found(s)), [s] + [s];
      }
      StuckFails(src, pat, From(pat, p, Caps()), Caps(), s);
      return Done(Fail), [];
    }

    method StepBalance(s: nat, p: nat) returns (step: StepResult, ghost sub: seq<nat>)
      requires Valid() && Ready(src, pat, Caps(), s, p) && p < |pat|
      requires pat[p] == '%' && CharAt(pat, p + 1) == 'b'
      ensures StepOk(src, pat, p, s, Caps(), Caps(), step, sub) && step != Done(TooComplex)
    {
      ghost var caps := Caps();
      if p + 3 >= |pat| {
        BadRaises(src, pat, caps, s, p, caps);
        return Done(Raised), [s, s];
      }
      ReadyFirst(src, pat, caps, s, p);
      var j := MatchBalance(s, pat[p + 2], pat[p + 3]);
      ghost var items := From(pat, p, caps);
      sub := [];
      if j.Some? {
        assert Only(src, pat, items, caps, s, j.value);
        GotoOk(src, pat, caps, s, p, j.value);
        return Goto(j.value, p + 4), sub;
      }
      assert Stuck(src, pat, items, caps, s);
      StuckFails(src, pat, items, caps, s);
      return Done(Fail), sub;
    }

    method StepFrontier(s: nat, p: nat) returns (step: StepResult, ghost sub: seq<nat>)
      requires Valid() && Ready(src, pat, Caps(), s, p) && p < |pat|
      requires pat[p] == '%' && CharAt(pat, p + 1) == 'f'
      ensures StepOk(src, pat, p, s, Caps(), Caps(), step, sub) && step != Done(TooComplex)
    {
      ghost var caps := Caps();
      if CharAt(pat, p + 2) != '[' {
        BadRaises(src, pat, caps, s, p, caps);
        return Done(Raised), [s, s];
      }
      var end := ClassEnd(pat, p + 2);
      if end.None? {
        BadRaises(src, pat, caps, s, p, caps);
        return Done(Raised), [s, s];
      }
      ReadyFirst(src, pat, caps, s, p);
      var ep := end.value;
      ghost var items := From(pat, p, caps);
      var previous := if s == 0 then '\0' else CharAt(src, s - 1);
      var before := MatchBracketClass(previous, pat, p + 2, ep - 1);
      var here := MatchBracketClass(CharAt(src, s), pat, p + 2, ep - 1);
      sub := [];
      if !before && here {
        assert Only(src, pat, items, caps, s, s);
        GotoOk(src, pat, caps, s, p, s);
        return Goto(s, ep), sub;
      }
      assert Stuck(src, pat, items, caps, s);
      StuckFails(src, pat, items, caps, s);
      return Done(Fail), sub;
    }

    method StepBack(s: nat, p: nat) returns (step: StepResult, ghost sub: seq<nat>)
      requires Valid() && Ready(src, pat, Caps(), s, p) && p + 1 < |pat| && IsDigit(pat[p + 1])
      requires TokenAt(pat, p) == Token(Back(pat[p + 1] as int - '1' as int), p + 2)
      ensures StepOk(src, pat, p, s, Caps(), Caps(), step, sub) && step != Done(TooComplex)
    {
      ghost var caps := Caps();
      var l := pat[p + 1] as int - '1' as int;
      assert 0 <= l < level ==> caps[l] == capture[l] && Statuses(caps)[l] == StatusOf(capture[l]);
      if l < 0 || l >= level || capture[l].len == UNFINISHED {
        BadRaises(src, pat, caps, s, p, caps);
        return Done(Raised), [s, s];
      }
      ReadyFirst(src, pat, caps, s, p);
      ghost var items := From(pat, p, caps);
      assert items[0] == Back(l);
      hide TokenAt, From, Items, StepOk, Ready, Only, Stuck;
      var j := MatchCapture(s, l);
      assert Caps() == caps;
      sub := [];
      BackEnds(src, pat, items, caps, l, s, j);
      if j.Some? {
        GotoOk(src, pat, caps, s, p, j.value);
        return Goto(j.value, p + 2), sub;
      }
      StuckFails(src, pat, items, caps, s);
      return Done(Fail), sub;
    }

    /** A single character class with its suffix. */
    method StepSingle(s: nat, p: nat) returns (step: StepResult, ghost sub: seq<nat>)
      requires Valid() && Ready(src, pat, Caps(), s, p) && p < |pat| && TokenAt(pat, p) == SingleToken(pat, p)
      modifies `matchdepth, `level, capture
      ensures Valid() && p <= |pat| && StepOk(src, pat, p, s, old(Caps()), Caps(), step, sub)
      ensures Goes(step) ==> matchdepth == old(matchdepth)
      ensures old(matchdepth) >= |From(pat, p, old(Caps()))| ==> step != Done(TooComplex)
      decreases |pat| - p, 2
    {
      ghost var caps := Caps();
      var end := ClassEnd(pat, p);
      if end.None? {
        BadRaises(src, pat, caps, s, p, caps);
        return Done(Raised), [s, s];
      }
      var suffix := SuffixOf(CharAt(pat, end.value));
      hide StepOk, Ready, Items, From, Answer;
      step, sub := StepClass(s, p, end.value, suffix);
    }

    method StepClass(s: nat, p: nat, ep: nat, suffix: Suffix) returns (step: StepResult, ghost sub: seq<nat>)
      requires Valid() && Ready(src, pat, Caps(), s, p) && ClassOk(pat, p, ep)
      requires TokenAt(pat, p) == Token(Single(p, ep, suffix), if suffix.One? then ep else ep + 1)
      modifies `matchdepth, `level, capture
      ensures Valid() && p <= |pat| && StepOk(src, pat, p, s, old(Caps()), Caps(), step, sub)
      ensures Goes(step) ==> matchdepth == old(matchdepth)
      ensures old(matchdepth) >= |From(pat, p, old(Caps()))| ==> step != Done(TooComplex)
      decreases |pat| - p, 1
    {
      ghost var caps := Caps();
      var m := SingleMatch(s, p, ep);
      sub := [];
      SingleReady(src, pat, caps, s, p, s);
      hide StepOk, Ready, Items, From, TokenAt, Answer, InClass, ClassOk, Fit;
      if !m {
        NotOnce(src, pat, caps, s, p, ep, suffix);
        if suffix.Opt? || suffix.Star? || suffix.Minus? {
          step := Goto(s, ep + 1);
        } else {
          step := Done(Fail);
        }
        return;
      }
      OnceReady(src, pat, caps, s, p, ep, suffix);
      match suffix
      case Opt =>
        var r, rest := Match(s + 1, ep + 1);
        OptDone(src, pat, caps, s, p, ep, r, Caps(), rest);
        FailKeeps(src, pat, From(pat, ep + 1, caps), caps, s + 1, r, Caps(), rest);
        if !r.Fail? {
          step, sub := Done(r), [s] + rest;
        } else {
          step := Goto(s, ep + 1);
        }
      case Plus => step, sub := MaxExpand(s, s + 1, p, ep);
      case Star => step, sub := MaxExpand(s, s, p, ep);
      case Minus => step, sub := MinExpand(s, p, ep);
      case One => step := Goto(s + 1, ep);
    }

    /** How often the class matches from s on. */
    method LongestRun(ghost start: nat, s: nat, p: nat, ep: nat) returns (i: nat)
      requires ClassOk(pat, p, ep) && start <= s && Run(src, pat, p, ep, start, s)
      ensures Run(src, pat, p, ep, start, s + i) && !(s + i < |src| && InClass(src[s + i], pat, p, ep))
    {
      hide ClassOk, InClass;
      i := 0;
      var m := SingleMatch(s + i, p, ep);
      while m
        invariant Run(src, pat, p, ep, start, s + i) && m == (s + i < |src| && InClass(src[s + i], pat, p, ep))
        decreases |src| - i
      {
        i := i + 1;
        m := SingleMatch(s + i, p, ep);
      }
    }

    /** As many repetitions as lead to a match, from s on. */
    method MaxExpand(ghost start: nat, s: nat, p: nat, ep: nat) returns (step: StepResult, ghost sub: seq<nat>)
      requires Valid() && Ready(src, pat, Caps(), start, p) && p < |pat| && ClassOk(pat, p, ep) && ep < |pat|
      requires s <= |src| && (s == start || s == start + 1) && Run(src, pat, p, ep, start, s)
      requires TokenAt(pat, p) == Token(Single(p, ep, if s == start then Star else Plus), ep + 1)
      modifies `matchdepth, `level, capture
      ensures Valid() && p <= |pat| && StepOk(src, pat, p, start, old(Caps()), Caps(), step, sub)
      ensures Goes(step) ==> matchdepth == old(matchdepth)
      ensures old(matchdepth) >= |From(pat, p, old(Caps()))| ==> step != Done(TooComplex)
      decreases |pat| - p, 0
    {
      ghost var caps := Caps();
      hide MaxEnds, StepOk, Ready, Items, From, TokenAt, Answer, InClass, ClassOk, Run, NoneIn;
      var run := LongestRun(start, s, p, ep);
      var i: int := run;
      ghost var most := s + i;
      MaxRun(src, pat, caps, start, s, p, ep, most);
      NoneEmpty(src, pat, From(pat, ep + 1, caps), caps, most);
      while i >= 0
        invariant -1 <= i <= most - s && Valid() && Caps() == caps && matchdepth == old(matchdepth)
        invariant NoneIn(src, pat, From(pat, ep + 1, caps), caps, s + i + 1, most)
        decreases i
      {
        MaxReady(src, pat, caps, start, s, p, ep, most, s + i);
        var r, rest := Match(s + i, ep + 1);
        MaxStep(src, pat, caps, start, s, p, ep, most, s + i, r, Caps(), rest);
        if !r.Fail? {
          step, sub := Done(r), [start] + rest;
          return;
        }
        i := i - 1;
      }
      MaxFails(src, pat, caps, start, s, p, ep, most);
      step, sub := Done(Fail), [];
    }

    /** As few repetitions as lead to a match. */
    method MinExpand(start: nat, p: nat, ep: nat) returns (step: StepResult, ghost sub: seq<nat>)
      requires Valid() && Ready(src, pat, Caps(), start, p) && p < |pat| && ClassOk(pat, p, ep) && ep < |pat|
      requires TokenAt(pat, p) == Token(Single(p, ep, Minus), ep + 1)
      modifies `matchdepth, `level, capture
      ensures Valid() && p <= |pat| && StepOk(src, pat, p, start, old(Caps()), Caps(), step, sub)
      ensures Goes(step) ==> matchdepth == old(matchdepth)
      ensures old(matchdepth) >= |From(pat, p, old(Caps()))| ==> step != Done(TooComplex)
      decreases |pat| - p, 0
    {
      ghost var caps := Caps();
      var s := start;
      MinStart(src, pat, caps, start, p, ep);
      hide StepOk, Ready, Items, From, TokenAt, Answer, InClass, ClassOk, Run, NoneBelow;
      while true
        invariant start <= s <= |src| && Run(src, pat, p, ep, start, s) && Valid() && Caps() == caps
        invariant matchdepth == old(matchdepth)
        invariant NoneBelow(src, pat, From(pat, ep + 1, caps), caps, start, s)
        decreases |src| - s
      {
        MinReady(src, pat, caps, start, p, ep, s);
        var r, rest := Match(s, ep + 1);
        MinStep(src, pat, caps, start, p, ep, s, r, Caps(), rest);
        if !r.Fail? {
          step, sub := Done(r), [start] + rest;
          return;
        }
        var m := SingleMatch(s, p, ep);
        MinMore(src, pat, caps, start, p, ep, s);
        if !m {
          step, sub := Done(Fail), [];
          return;
        }
        s := s + 1;
      }
    }
}

  /** What one step promises. */
  ghost predicate StepOk(src: Str, pat: Str, p: nat, s: nat, caps: seq<Capture>, caps': seq<Capture>, step: StepResult,
        sub: seq<nat>)
    requires p <= |pat|
  {
    match step
    case Goto(s', p') =>
      && p < p' && caps' == caps && Ready(src, pat, caps, s', p') && |From(pat, p', caps)| < |From(pat, p, caps)|
      && Leads(src, pat, From(pat, p, caps), caps, s, [s], From(pat, p', caps), s')
    case Done(r) => Answer(src, pat, From(pat, p, caps), caps, s, r, caps', sub)
  }

  lemma Gives(src: Str, pat: Str, items: seq<Item>, caps: seq<Capture>, i: nat, caps': seq<Capture>)
    requires ItemsOk(pat, items)
    ensures Answer(src, pat, items, caps, i, TooComplex, caps', [])
  {
  }

  lemma LeadsTo(src: Str, pat: Str, items0: seq<Item>, caps: seq<Capture>, i: nat, pre: seq<nat>, items: seq<Item>,
        j: nat, r: Outcome, caps': seq<Capture>, split: seq<nat>)
    requires ItemsOk(pat, items0) && ItemsOk(pat, items)
    requires Leads(src, pat, items0, caps, i, pre, items, j) && Answer(src, pat, items, caps, j, r, caps', split)
    ensures Answer(src, pat, items0, caps, i, r, caps', pre + split)
  {
  }

  lemma AtPatternEnd(src: Str, pat: Str, caps: seq<Capture>, s: nat)
    ensures Answer(src, pat, From(pat, |pat|, caps), caps, s, Found(s), caps, [s])
  {
  }

  lemma FailKeeps(src: Str, pat: Str, items: seq<Item>, caps: seq<Capture>, i: nat, r: Outcome, caps': seq<Capture>,
        split: seq<nat>)
    requires ItemsOk(pat, items) && Answer(src, pat, items, caps, i, r, caps', split)
    ensures r.Fail? ==> caps' == caps
  {
  }

  lemma OnlyDone(src: Str, pat: Str, items: seq<Item>, caps: seq<Capture>, i: nat, j: nat, r: Outcome,
        caps': seq<Capture>, rest: seq<nat>)
    requires ItemsOk(pat, items) && items != [] && ItemsOk(pat, items[1..]) && Only(src, pat, items, caps, i, j)
    requires Answer(src, pat, items[1..], Next(items[0], caps, i), j, r, caps', rest) && !items[0].Bad?
    ensures Answer(src, pat, items, caps, i, r, if r.Fail? then caps else caps', [i] + rest)
  {
  }

  /** The answer of the rest gives the answer for an item with one end. */
  lemma StepDone(src: Str, pat: Str, p: nat, next: nat, s: nat, j: nat, caps: seq<Capture>, r: Outcome,
        caps': seq<Capture>, rest: seq<nat>)
    requires Ready(src, pat, caps, s, p) && p < |pat| && TokenAt(pat, p).Token? && next == TokenAt(pat, p).next <= |pat|
    requires Fit(pat, p, caps) && From(pat, p, caps) != [] && Only(src, pat, From(pat, p, caps), caps, s, j)
    requires var caps1 := Next(TokenAt(pat, p).item, caps, s);
      Answer(src, pat, From(pat, next, caps1), caps1, j, r, caps', rest)
    ensures StepOk(src, pat, p, s, caps, if r.Fail? then caps else caps', Done(r), [s] + rest)
  {
    ReadyFirst(src, pat, caps, s, p);
    hide Only, Answer, From, Next, TokenAt, Ready, Fit;
    OnlyDone(src, pat, From(pat, p, caps), caps, s, j, r, caps', rest);
  }

  lemma StartReady(src: Str, pat: Str, caps: seq<Capture>, s: nat, p: nat, next: nat, what: int)
    requires Ready(src, pat, caps, s, p) && p < |pat|
    requires TokenAt(pat, p) == Token(if what == POSITION then Position else Open, next)
    requires (what == POSITION || what == UNFINISHED) && |caps| < MAXCAPTURES
    ensures Fit(pat, p, caps) && p < next <= |pat|
    ensures |From(pat, p, caps)| == 1 + |From(pat, next, caps + [Capture(s, what)])|
    ensures Next(TokenAt(pat, p).item, caps, s) == caps + [Capture(s, what)]
    ensures Ready(src, pat, caps + [Capture(s, what)], s, next) && Only(src, pat, From(pat, p, caps), caps, s, s)
  {
    ReadyFirst(src, pat, caps, s, p);
    ReadyNext(src, pat, caps, s, p, s);
  }

  lemma EndReady(src: Str, pat: Str, caps: seq<Capture>, s: nat, p: nat, next: nat)
    requires Ready(src, pat, caps, s, p) && p < |pat| && TokenAt(pat, p) == Token(Close, next)
    requires ToClose(caps) >= 0
    ensures Fit(pat, p, caps) && p < next <= |pat|
    ensures var l := ToClose(caps); var closed := caps[l := caps[l].(len := s - caps[l].init)];
      && Next(TokenAt(pat, p).item, caps, s) == closed && Ready(src, pat, closed, s, next)
      && |From(pat, p, caps)| == 1 + |From(pat, next, closed)|
    ensures Only(src, pat, From(pat, p, caps), caps, s, s)
  {
    ToCloseSame(caps);
    ReadyFirst(src, pat, caps, s, p);
    ReadyNext(src, pat, caps, s, p, s);
  }

  /** An item with one end and without captures hands over to the next. */
  lemma GotoOk(src: Str, pat: Str, caps: seq<Capture>, s: nat, p: nat, j: nat)
    requires Ready(src, pat, caps, s, p) && p < |pat| && s <= j <= |src| && From(pat, p, caps) != []
    requires Only(src, pat, From(pat, p, caps), caps, s, j) && Fit(pat, p, caps)
    requires Next(TokenAt(pat, p).item, caps, s) == caps
    ensures StepOk(src, pat, p, s, caps, caps, Goto(j, TokenAt(pat, p).next), [])
  {
    ReadyFirst(src, pat, caps, s, p);
    ReadyNext(src, pat, caps, s, p, j);
    hide Only, Answer, Leads;
    OnlyLeads(src, pat, From(pat, p, caps), caps, s, j);
  }

  lemma BackEnds(src: Str, pat: Str, items: seq<Item>, caps: seq<Capture>, l: nat, s: nat, j: Option<nat>)
    requires ItemsOk(pat, items) && items != [] && items[0] == Back(l)
    requires j.Some? ==> BackHere(src, caps, l, s, j.value)
    requires j.None? ==> forall k: nat :: !BackHere(src, caps, l, s, k)
    ensures j.Some? ==> Only(src, pat, items, caps, s, j.value)
    ensures j.None? ==> Stuck(src, pat, items, caps, s)
  {
  }

  // ----- repetitions -----

  /** What the rest needs, wherever a single class ends. */
  lemma SingleReady(src: Str, pat: Str, caps: seq<Capture>, s: nat, p: nat, j: nat)
    requires Ready(src, pat, caps, s, p) && p < |pat| && TokenAt(pat, p).Token? && TokenAt(pat, p).item.Single?
    requires s <= j <= |src|
    ensures var next := TokenAt(pat, p).next;
      && p < next <= |pat| && Ready(src, pat, caps, j, next) && |From(pat, p, caps)| == 1 + |From(pat, next, caps)|
      && From(pat, p, caps)[0] == TokenAt(pat, p).item && From(pat, p, caps)[1..] == From(pat, next, caps)
  {
  }

  /** The class does not match once: nothing is taken, if nothing will do. */
  lemma NotOnce(src: Str, pat: Str, caps: seq<Capture>, s: nat, p: nat, ep: nat, suffix: Suffix)
    requires Ready(src, pat, caps, s, p) && p < |pat| && ClassOk(pat, p, ep)
    requires TokenAt(pat, p) == Token(Single(p, ep, suffix), if suffix.One? then ep else ep + 1)
    requires !(s < |src| && InClass(src[s], pat, p, ep))
    ensures StepOk(src, pat, p, s, caps, caps,
      if suffix.Opt? || suffix.Star? || suffix.Minus? then Goto(s, ep + 1) else Done(Fail), [])
  {
    ReadyFirst(src, pat, caps, s, p);
    if suffix.Opt? || suffix.Star? || suffix.Minus? {
      OnlyEmpty(src, pat, From(pat, p, caps), caps, s);
      hide Only, StepOk, TokenAt, From, Ready;
      GotoOk(src, pat, caps, s, p, s);
    } else {
      assert Stuck(src, pat, From(pat, p, caps), caps, s);
      StuckFails(src, pat, From(pat, p, caps), caps, s);
    }
  }

  lemma OnlyEmpty(src: Str, pat: Str, items: seq<Item>, caps: seq<Capture>, s: nat)
    requires ItemsOk(pat, items) && items != [] && items[0].Single? && ItemOk(pat, items[0]) && s <= |src|
    requires items[0].suffix.Opt? || items[0].suffix.Star? || items[0].suffix.Minus?
    requires !(s < |src| && InClass(src[s], pat, items[0].p, items[0].ep))
    ensures Only(src, pat, items, caps, s, s)
  {
  }

  /** The class matches once. */
  lemma OnceReady(src: Str, pat: Str, caps: seq<Capture>, s: nat, p: nat, ep: nat, suffix: Suffix)
    requires Ready(src, pat, caps, s, p) && p < |pat| && ClassOk(pat, p, ep)
    requires TokenAt(pat, p) == Token(Single(p, ep, suffix), if suffix.One? then ep else ep + 1)
    requires s < |src| && InClass(src[s], pat, p, ep)
    ensures suffix.One? ==> StepOk(src, pat, p, s, caps, caps, Goto(s + 1, ep), [])
    ensures !suffix.One? ==>
      ep < |pat| && Ready(src, pat, caps, s + 1, ep + 1) && |From(pat, p, caps)| == 1 + |From(pat, ep + 1, caps)|
    ensures Run(src, pat, p, ep, s, s) && Run(src, pat, p, ep, s, s + 1)
  {
    SingleReady(src, pat, caps, s, p, s + 1);
    ReadyFirst(src, pat, caps, s, p);
    if suffix.One? {
      assert Only(src, pat, From(pat, p, caps), caps, s, s + 1);
      hide Only, StepOk, TokenAt, From, Ready;
      GotoOk(src, pat, caps, s, p, s + 1);
    }
  }

  /** No match of the rest from lo to hi. */
  ghost predicate NoneIn(src: Str, pat: Str, items: seq<Item>, caps: seq<Capture>, lo: int, hi: int)
    requires ItemsOk(pat, items)
  {
    forall j: nat :: lo <= j <= hi ==> NoMatch(src, pat, items, caps, j)
  }

  ghost predicate NoneBelow(src: Str, pat: Str, items: seq<Item>, caps: seq<Capture>, lo: int, hi: int)
    requires ItemsOk(pat, items)
  {
    forall j: nat :: lo <= j < hi ==> NoMatch(src, pat, items, caps, j)
  }

  lemma NoneEmpty(src: Str, pat: Str, items: seq<Item>, caps: seq<Capture>, hi: int)
    requires ItemsOk(pat, items)
    ensures NoneIn(src, pat, items, caps, hi + 1, hi)
  {
  }

  /** An optional class that matches: the rest after it, or else the rest without it. */
  lemma OptDone(src: Str, pat: Str, caps: seq<Capture>, s: nat, p: nat, ep: nat, r: Outcome, caps': seq<Capture>,
        rest: seq<nat>)
    requires Ready(src, pat, caps, s, p) && p < |pat| && ClassOk(pat, p, ep)
    requires TokenAt(pat, p) == Token(Single(p, ep, Opt), ep + 1)
    requires s < |src| && InClass(src[s], pat, p, ep) && ep < |pat|
    requires Answer(src, pat, From(pat, ep + 1, caps), caps, s + 1, r, caps', rest)
    ensures !r.Fail? ==> StepOk(src, pat, p, s, caps, caps', Done(r), [s] + rest)
    ensures r.Fail? ==> StepOk(src, pat, p, s, caps, caps, Goto(s, ep + 1), [])
  {
    ReadyFirst(src, pat, caps, s, p);
    SingleReady(src, pat, caps, s, p, s);
    var items := From(pat, p, caps);
    OptEnds(src, pat, items, caps, s);
    if r.Found? || r.Raised? {
      assert NoBetter(src, pat, items, caps, s, s + 1);
      hide NoBetter, Accepts;
      FoundVia(src, pat, items, caps, s, s + 1, r, caps', rest);
    } else if r.Fail? {
      assert Alone(src, pat, items, caps, s, s);
      hide Alone, Accepts, Leads, Answer;
      AloneLeads(src, pat, items, caps, s, s);
    }
  }

  lemma OptEnds(src: Str, pat: Str, items: seq<Item>, caps: seq<Capture>, s: nat)
    requires ItemsOk(pat, items) && items != [] && ItemOk(pat, items[0]) && items[0].Single? && items[0].suffix.Opt?
    requires s < |src| && InClass(src[s], pat, items[0].p, items[0].ep)
    ensures forall j: nat :: Accepts(src, pat, items[0], caps, s, j) <==> j == s || j == s + 1
  {
  }

  /** An end, and no other one that leads to a match. */
  ghost predicate Alone(src: Str, pat: Str, items: seq<Item>, caps: seq<Capture>, i: nat, j: nat)
    requires ItemsOk(pat, items) && items != []
  {
    RestOk(pat, items);
    && Accepts(src, pat, items[0], caps, i, j)
    && forall j': nat :: Accepts(src, pat, items[0], caps, i, j') && j' != j ==>
         NoMatch(src, pat, items[1..], Next(items[0], caps, i), j')
  }

  lemma AloneLeads(src: Str, pat: Str, items: seq<Item>, caps: seq<Capture>, i: nat, j: nat)
    requires ItemsOk(pat, items) && items != [] && ItemsOk(pat, items[1..]) && Alone(src, pat, items, caps, i, j)
    requires Next(items[0], caps, i) == caps
    requires !items[0].Bad?
    ensures Leads(src, pat, items, caps, i, [i], items[1..], j)
  {
  }

  /** The ends of a greedy repetition: everything up to the longest run. */
  lemma MaxRun(src: Str, pat: Str, caps: seq<Capture>, start: nat, s: nat, p: nat, ep: nat, most: nat)
    requires Ready(src, pat, caps, start, p) && p < |pat| && ClassOk(pat, p, ep) && ep < |pat| && s <= most
    requires s == start || s == start + 1
    requires TokenAt(pat, p) == Token(Single(p, ep, if s == start then Star else Plus), ep + 1)
    requires Run(src, pat, p, ep, start, most) && !(most < |src| && InClass(src[most], pat, p, ep))
    ensures |From(pat, p, caps)| == 1 + |From(pat, ep + 1, caps)|
    ensures MaxEnds(src, pat, caps, start, s, p, ep, most)
  {
  }

  ghost predicate MaxEnds(src: Str, pat: Str, caps: seq<Capture>, start: nat, s: nat, p: nat, ep: nat, most: nat) {
    && start <= s <= most <= |src| && Ready(src, pat, caps, start, p) && p < |pat| && ClassOk(pat, p, ep) && ep < |pat|
    && TokenAt(pat, p).Token? && TokenAt(pat, p).next == ep + 1 && TokenAt(pat, p).item.Single?
    && TokenAt(pat, p).item.p == p && TokenAt(pat, p).item.ep == ep && !TokenAt(pat, p).item.suffix.Minus?
    && forall j: nat :: Accepts(src, pat, TokenAt(pat, p).item, caps, start, j) <==> s <= j <= most
  }

  lemma MaxReady(src: Str, pat: Str, caps: seq<Capture>, start: nat, s: nat, p: nat, ep: nat, most: nat, j: nat)
    requires MaxEnds(src, pat, caps, start, s, p, ep, most) && s <= j <= most
    ensures Ready(src, pat, caps, j, ep + 1)
  {
  }

  /** The rest is tried after j: the best match of all, or one end less. */
  lemma MaxStep(src: Str, pat: Str, caps: seq<Capture>, start: nat, s: nat, p: nat, ep: nat, most: nat, j: nat,
        r: Outcome, caps': seq<Capture>, rest: seq<nat>)
    requires MaxEnds(src, pat, caps, start, s, p, ep, most) && s <= j <= most
    requires NoneIn(src, pat, From(pat, ep + 1, caps), caps, j + 1, most)
    requires Answer(src, pat, From(pat, ep + 1, caps), caps, j, r, caps', rest)
    ensures r.Fail? ==> caps' == caps && NoneIn(src, pat, From(pat, ep + 1, caps), caps, j, most)
    ensures !r.Fail? ==> StepOk(src, pat, p, start, caps, caps', Done(r), [start] + rest)
  {
    ReadyFirst(src, pat, caps, start, p);
    if r.Found? || r.Raised? {
      assert NoBetter(src, pat, From(pat, p, caps), caps, start, j);
      hide NoBetter, Accepts, NoneIn, Items;
      FoundVia(src, pat, From(pat, p, caps), caps, start, j, r, caps', rest);
    }
  }

  lemma MaxFails(src: Str, pat: Str, caps: seq<Capture>, start: nat, s: nat, p: nat, ep: nat, most: nat)
    requires MaxEnds(src, pat, caps, start, s, p, ep, most)
    requires NoneIn(src, pat, From(pat, ep + 1, caps), caps, s, most)
    ensures StepOk(src, pat, p, start, caps, caps, Done(Fail), [])
  {
    ReadyFirst(src, pat, caps, start, p);
    NoneChosen(src, pat, From(pat, p, caps), caps, start);
  }

  lemma MinStart(src: Str, pat: Str, caps: seq<Capture>, start: nat, p: nat, ep: nat)
    requires Ready(src, pat, caps, start, p) && p < |pat| && ClassOk(pat, p, ep) && ep < |pat|
    requires TokenAt(pat, p) == Token(Single(p, ep, Minus), ep + 1)
    ensures |From(pat, p, caps)| == 1 + |From(pat, ep + 1, caps)|
    ensures start <= |src|
    ensures Run(src, pat, p, ep, start, start) && NoneBelow(src, pat, From(pat, ep + 1, caps), caps, start, start)
  {
  }

  lemma MinReady(src: Str, pat: Str, caps: seq<Capture>, start: nat, p: nat, ep: nat, s: nat)
    requires Ready(src, pat, caps, start, p) && p < |pat| && TokenAt(pat, p) == Token(Single(p, ep, Minus), ep + 1)
    requires start <= s <= |src|
    ensures ep + 1 <= |pat| && Ready(src, pat, caps, s, ep + 1)
  {
  }

  /** The rest is tried after s: the best match of all, or one end more. */
  lemma MinStep(src: Str, pat: Str, caps: seq<Capture>, start: nat, p: nat, ep: nat, s: nat, r: Outcome,
        caps': seq<Capture>, rest: seq<nat>)
    requires Ready(src, pat, caps, start, p) && p < |pat| && ClassOk(pat, p, ep) && ep < |pat|
    requires TokenAt(pat, p) == Token(Single(p, ep, Minus), ep + 1)
    requires start <= s <= |src| && Run(src, pat, p, ep, start, s)
    requires NoneBelow(src, pat, From(pat, ep + 1, caps), caps, start, s)
    requires Answer(src, pat, From(pat, ep + 1, caps), caps, s, r, caps', rest)
    ensures r.Fail? ==> caps' == caps && NoneBelow(src, pat, From(pat, ep + 1, caps), caps, start, s + 1)
    ensures !r.Fail? ==> StepOk(src, pat, p, start, caps, caps', Done(r), [start] + rest)
  {
    ReadyFirst(src, pat, caps, start, p);
    if r.Found? || r.Raised? {
      hide Run, InClass, Ready, Items, From, TokenAt, Statuses, IsBest, Captured;
      MinNoBetter(src, pat, From(pat, p, caps), caps, start, s);
      FoundVia(src, pat, From(pat, p, caps), caps, start, s, r, caps', rest);
    }
  }

  lemma MinNoBetter(src: Str, pat: Str, items: seq<Item>, caps: seq<Capture>, start: nat, s: nat)
    requires ItemsOk(pat, items) && items != [] && ItemOk(pat, items[0]) && ItemsOk(pat, items[1..])
    requires items[0].Single? && items[0].suffix.Minus? && start <= s
    requires Run(src, pat, items[0].p, items[0].ep, start, s)
    requires NoneBelow(src, pat, items[1..], caps, start, s)
    ensures Accepts(src, pat, items[0], caps, start, s) && NoBetter(src, pat, items, caps, start, s)
  {
  }

  /** One more repetition, or no match. */
  lemma MinMore(src: Str, pat: Str, caps: seq<Capture>, start: nat, p: nat, ep: nat, s: nat)
    requires Ready(src, pat, caps, start, p) && p < |pat| && ClassOk(pat, p, ep) && ep < |pat|
    requires TokenAt(pat, p) == Token(Single(p, ep, Minus), ep + 1)
    requires start <= s <= |src| && Run(src, pat, p, ep, start, s)
    requires NoneBelow(src, pat, From(pat, ep + 1, caps), caps, start, s + 1)
    ensures if s < |src| && InClass(src[s], pat, p, ep) then Run(src, pat, p, ep, start, s + 1)
      else StepOk(src, pat, p, start, caps, caps, Done(Fail), [])
  {
    ReadyFirst(src, pat, caps, start, p);
    if !(s < |src| && InClass(src[s], pat, p, ep)) {
      MinEnds(src, pat, From(pat, p, caps), caps, start, s);
      hide Accepts, Run, InClass;
      NoneChosen(src, pat, From(pat, p, caps), caps, start);
    }
  }

  lemma MinEnds(src: Str, pat: Str, items: seq<Item>, caps: seq<Capture>, start: nat, s: nat)
    requires items != [] && ItemOk(pat, items[0]) && items[0].Single? && items[0].suffix.Minus? && start <= s <= |src|
    requires !(s < |src| && InClass(src[s], pat, items[0].p, items[0].ep))
    ensures forall j: nat :: Accepts(src, pat, items[0], caps, start, j) ==> start <= j < s + 1
  {
  }
}

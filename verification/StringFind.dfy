/** Searching for a pattern in a string. */
module StringFind {
  import opened Common
  import opened LuaValues
  import opened PatternSyntax
  import opened PatternMatching
  import opened PatternMatcher

  const MAXCCALLS: nat := 200

  datatype FindResult =
    | Match(start: nat, end: nat, caps: seq<Capture>)
    | NoneFound
    | PatternTooComplex
    | MalformedPattern

  /** The first place at or after init where the items match, and their best match there. A
      malformed pattern is reported exactly if what comes before the malformed place matches
      somewhere. */
  ghost predicate Leftmost(src: Str, pat: Str, items: seq<Item>, init: nat, anchored: bool, r: FindResult)
    requires ItemsOk(pat, items)
  {
    match r
    case Match(start, end, caps) =>
      && !EndsBad(items) && StartsAt(src, init, anchored, start)
      && (exists split: seq<nat> :: BestCaptures(src, pat, items, start, end, caps, split))
      && forall i: nat :: init <= i < start ==> NoMatch(src, pat, items, [], i)
    case NoneFound => forall i: nat :: StartsAt(src, init, anchored, i) ==> NoMatch(src, pat, items, [], i)
    case MalformedPattern =>
      EndsBad(items) && exists i: nat :: StartsAt(src, init, anchored, i) && !NoMatch(src, pat, items, [], i)
    case PatternTooComplex => true
  }

  /** Where a match may start. */
  predicate StartsAt(src: Str, init: nat, anchored: bool, i: nat) {
    init <= i <= |src| && (anchored ==> i == init)
  }

  ghost predicate BestCaptures(src: Str, pat: Str, items: seq<Item>, start: nat, end: nat, caps: seq<Capture>,
        split: seq<nat>)
    requires ItemsOk(pat, items)
  {
    IsBest(src, pat, items, [], start, split) && split[|items|] == end && caps == Captured(items, [], split)
  }

  /** Where the items start: a leading `^` only anchors the pattern. */
  function Body(pat: Str): (p: nat)
    ensures p <= |pat|
  {
    if CharAt(pat, 0) == '^' then 1 else 0
  }

  ghost function ItemsOf(pat: Str): (items: seq<Item>)
    ensures ItemsOk(pat, items)
  {
    From(pat, Body(pat), [])
  }

  ghost predicate WellFormed(pat: Str) {
    !EndsBad(ItemsOf(pat))
  }

  /** A search with the matcher, from one place after the other. */
  method PatternFind(src: Str, pat: Str, init: nat) returns (r: FindResult)
    requires init <= |src|
    ensures Leftmost(src, pat, ItemsOf(pat), init, CharAt(pat, 0) == '^', r)
    ensures |ItemsOf(pat)| < MAXCCALLS ==> !r.PatternTooComplex?
  {
    var anchor := CharAt(pat, 0) == '^';
    var p := if anchor then 1 else 0;
    var ms := new MatchState(src, pat, MAXCCALLS);
    var s1 := init;
    hide Items, NoMatch, IsBest;
    while true
      invariant init <= s1 <= |src| && ms.Valid() && ms.src == src && ms.pat == pat && fresh(ms) && fresh(ms.capture)
      invariant ms.matchdepth == MAXCCALLS && (anchor ==> s1 == init)
      invariant forall i: nat :: init <= i < s1 ==> NoMatch(src, pat, ItemsOf(pat), [], i)
      decreases |src| - s1
    {
      ms.level := 0;
      assert ms.Caps() == [];
      var res, split := ms.Match(s1, p);
      match res
      case Found(e) =>
        assert BestCaptures(src, pat, ItemsOf(pat), s1, e, ms.Caps(), split);
        return Match(s1, e, ms.capture[..ms.level]);
      case Raised =>
        BestIsMatch(src, pat, ItemsOf(pat), s1, split);
        return MalformedPattern;
      case TooComplex => return PatternTooComplex;
      case Fail =>
        if s1 >= |src| || anchor {
          return NoneFound;
        }
        s1 := s1 + 1;
    }
  }

  lemma BestIsMatch(src: Str, pat: Str, items: seq<Item>, i: nat, a: seq<nat>)
    requires ItemsOk(pat, items) && IsBest(src, pat, items, [], i, a)
    ensures !NoMatch(src, pat, items, [], i)
  {
  }

  /** A search that found something or complained did so at a place where the items match. */
  lemma LeftmostMatches(src: Str, pat: Str, items: seq<Item>, init: nat, anchored: bool, r: FindResult)
    requires ItemsOk(pat, items) && Leftmost(src, pat, items, init, anchored, r)
    ensures r.Match? ==> StartsAt(src, init, anchored, r.start) && !NoMatch(src, pat, items, [], r.start)
  {
    if r.Match? {
      var a: seq<nat> :| BestCaptures(src, pat, items, r.start, r.end, r.caps, a);
      BestIsMatch(src, pat, items, r.start, a);
    }
  }

  /** A search has one answer. */
  lemma LeftmostUnique(src: Str, pat: Str, items: seq<Item>, init: nat, anchored: bool, r: FindResult, r': FindResult)
    requires ItemsOk(pat, items) && !r.PatternTooComplex? && !r'.PatternTooComplex?
    requires Leftmost(src, pat, items, init, anchored, r) && Leftmost(src, pat, items, init, anchored, r')
    ensures r == r'
  {
    LeftmostMatches(src, pat, items, init, anchored, r);
    LeftmostMatches(src, pat, items, init, anchored, r');
    hide Matches, AsGood, Captured;
    if r.Match? && r'.Match? {
      var a: seq<nat> :| BestCaptures(src, pat, items, r.start, r.end, r.caps, a);
      var b: seq<nat> :| BestCaptures(src, pat, items, r'.start, r'.end, r'.caps, b);
      BestUnique(src, pat, items, [], r.start, a, b);
    }
  }

  // ----- plain searches -----

  predicate Occurs(src: Str, pat: Str, i: nat) {
    i + |pat| <= |src| && src[i..i + |pat|] == pat
  }

  /** The first occurrence at or after init. */
  ghost predicate FirstAt(src: Str, pat: Str, init: nat, r: Option<nat>) {
    match r
    case Some(k) => init <= k && Occurs(src, pat, k) && forall i: nat :: init <= i < k ==> !Occurs(src, pat, i)
    case None => forall i: nat :: init <= i ==> !Occurs(src, pat, i)
  }

  method PlainFind(src: Str, pat: Str, init: nat) returns (r: Option<nat>)
    requires init <= |src|
    ensures FirstAt(src, pat, init, r)
  {
    if |pat| == 0 {
      return Some(init);
    }
    var i := init;
    while i + |pat| <= |src|
      invariant init <= i && forall k: nat :: init <= k < i ==> !Occurs(src, pat, k)
      decreases |src| - i
    {
      if src[i] == pat[0] && src[i..i + |pat|] == pat {
        return Some(i);
      }
      i := i + 1;
    }
    return None;
  }

  predicate Special(c: char) {
    c in "^$*+?.([%-"
  }

  predicate NoSpecials(pat: Str) {
    forall k: nat :: k < |pat| ==> !Special(pat[k])
  }

  /** A pattern without special characters is well formed exactly when it has no closing
      parenthesis: that is not special, but there is nothing that it could close. */
  lemma NoCloseExactly(pat: Str)
    requires NoSpecials(pat)
    ensures WellFormed(pat) <==> forall k: nat :: k < |pat| ==> pat[k] != ')'
  {
    NoAnchor(pat);
    NoCloseFrom(pat, 0);
  }

  lemma NoAnchor(pat: Str)
    requires NoSpecials(pat)
    ensures Body(pat) == 0 && CharAt(pat, 0) != '^'
  {
    if pat != [] { assert !Special(pat[0]); }
  }

  lemma {:induction false} NoCloseFrom(pat: Str, p: nat)
    requires p <= |pat| && NoSpecials(pat)
    ensures !EndsBad(From(pat, p, [])) <==> forall k: nat :: p <= k < |pat| ==> pat[k] != ')'
    decreases |pat| - p
  {
    if p < |pat| {
      PlainItem(pat, p);
      NoCloseFrom(pat, p + 1);
    }
  }

  /** The text before the first closing parenthesis from p on. */
  function Head(pat: Str, p: nat): Str
    requires p <= |pat|
    decreases |pat| - p
  {
    if p == |pat| || pat[p] == ')' then [] else [pat[p]] + Head(pat, p + 1)
  }

  function BeforeClose(pat: Str): Str {
    Head(pat, 0)
  }

  /** Where items that stand for the characters of that text start, from i on. */
  function Steps(pat: Str, p: nat, i: nat): (split: seq<nat>)
    requires p <= |pat|
    ensures |split| > 0 && split[0] == i && split[|split| - 1] == i + |Head(pat, p)|
    decreases |pat| - p
  {
    if p == |pat| then [i] else if pat[p] == ')' then [i, i] else [i] + Steps(pat, p + 1, i + 1)
  }

  /** A character that is not special, and is not followed by one, stands for itself; a
      closing parenthesis is out of place. */
  lemma PlainItem(pat: Str, p: nat)
    requires p < |pat| && NoSpecials(pat)
    ensures pat[p] == ')' ==> From(pat, p, []) == [Bad]
    ensures pat[p] != ')' ==> From(pat, p, []) == [Single(p, p + 1, One)] + From(pat, p + 1, [])
  {
    assert Statuses([]) == [];
    if pat[p] == ')' {
      assert TokenAt(pat, p) == Token(Close, p + 1);
    } else {
      assert TokenAt(pat, p) == Token(Single(p, p + 1, One), p + 1);
    }
  }

  lemma PlainClass(pat: Str, p: nat, c: char)
    requires p < |pat| && NoSpecials(pat)
    ensures ClassOk(pat, p, p + 1) && (InClass(c, pat, p, p + 1) <==> c == pat[p])
  {
  }

  lemma OccursFirst(src: Str, pat: Str, i: nat)
    requires pat != []
    ensures Occurs(src, pat, i) <==> i < |src| && src[i] == pat[0] && Occurs(src, pat[1..], i + 1)
  {
  }

  /** Items for the characters themselves match where the text occurs, in one way. */
  lemma {:induction false} PlainMatches(src: Str, pat: Str, p: nat, i: nat, split: seq<nat>)
    requires p <= |pat| && NoSpecials(pat) && i <= |src| && |split| > 0 && split[0] == i
    ensures Matches(src, pat, From(pat, p, []), [], split) <==>
      Occurs(src, Head(pat, p), i) && split == Steps(pat, p, i)
    decreases |pat| - p
  {
    if p == |pat| {
      assert Occurs(src, [], i);
    } else if pat[p] == ')' {
      PlainItem(pat, p);
      BadMatches(src, pat, From(pat, p, []), i, split);
    } else {
      hide Matches, Occurs, From, Head, Steps, NoSpecials;
      if |split| > 1 && split[1] == i + 1 && i < |src| { PlainMatches(src, pat, p + 1, i + 1, split[1..]); }
      PlainCons(src, pat, p, i, split);
    }
  }

  lemma PlainCons(src: Str, pat: Str, p: nat, i: nat, split: seq<nat>)
    requires p < |pat| && pat[p] != ')' && NoSpecials(pat) && i <= |src| && |split| > 0 && split[0] == i
    requires |split| > 1 && split[1] == i + 1 && i < |src| ==>
      (Matches(src, pat, From(pat, p + 1, []), [], split[1..]) <==>
        Occurs(src, Head(pat, p + 1), i + 1) && split[1..] == Steps(pat, p + 1, i + 1))
    ensures Matches(src, pat, From(pat, p, []), [], split) <==>
      Occurs(src, Head(pat, p), i) && split == Steps(pat, p, i)
  {
    hide *;
    PlainFirst(pat, p, i);
    PlainStep(src, pat, From(pat, p, []), i, split);
    if i < |src| { PlainClass(pat, p, src[i]); }
    OccursFirst(src, Head(pat, p), i);
    ConsSplit(split, i, Steps(pat, p + 1, i + 1));
  }

  lemma PlainFirst(pat: Str, p: nat, i: nat)
    requires p < |pat| && pat[p] != ')' && NoSpecials(pat)
    ensures Head(pat, p) != [] && Head(pat, p)[0] == pat[p] && Head(pat, p)[1..] == Head(pat, p + 1)
    ensures Steps(pat, p, i) == [i] + Steps(pat, p + 1, i + 1)
    ensures From(pat, p, []) != [] && From(pat, p, [])[0] == Single(p, p + 1, One)
    ensures From(pat, p, [])[1..] == From(pat, p + 1, []) && ItemOk(pat, Single(p, p + 1, One))
  {
    PlainItem(pat, p);
    PlainClass(pat, p, pat[p]);
    hide From;
  }

  lemma ConsSplit(split: seq<nat>, i: nat, rest: seq<nat>)
    requires |split| > 0 && split[0] == i && |rest| > 0
    ensures split == [i] + rest <==> |split| > 1 && split[1] == rest[0] && split[1..] == rest
  {
    assert split == [split[0]] + split[1..];
  }

  lemma BadMatches(src: Str, pat: Str, items: seq<Item>, i: nat, split: seq<nat>)
    requires items == [Bad] && ItemsOk(pat, items) && |split| > 0 && split[0] == i && i <= |src|
    ensures Matches(src, pat, items, [], split) <==> split == [i, i]
    ensures Occurs(src, [], i)
  {
    if |split| == 2 { assert split == [split[0], split[1]]; }
    assert src[i..i] == [];
  }

  lemma PlainStep(src: Str, pat: Str, items: seq<Item>, i: nat, split: seq<nat>)
    requires ItemsOk(pat, items) && items != [] && |split| > 0 && split[0] == i && i <= |src|
    requires items[0].Single? && items[0].suffix.One? && ItemOk(pat, items[0]) && ItemsOk(pat, items[1..])
    ensures Matches(src, pat, items, [], split) <==>
      && |split| > 1 && split[1] == i + 1 && i < |src| && InClass(src[i], pat, items[0].p, items[0].ep)
      && Matches(src, pat, items[1..], [], split[1..])
  {
  }

  lemma {:induction false} PlainCaptures(pat: Str, p: nat, split: seq<nat>)
    requires p <= |pat| && NoSpecials(pat) && |split| == |From(pat, p, [])| + 1
    ensures Captured(From(pat, p, []), [], split) == []
    decreases |pat| - p
  {
    if p < |pat| {
      PlainItem(pat, p);
      if pat[p] != ')' {
        assert From(pat, p, [])[1..] == From(pat, p + 1, []);
        PlainCaptures(pat, p + 1, split[1..]);
      } else {
        assert Captured(From(pat, p, []), [], split) == Captured([], [], split[1..]);
      }
    }
  }

  /** What the matcher finds at one place for a pattern without special characters. */
  lemma PlainHere(src: Str, pat: Str, i: nat)
    requires NoSpecials(pat) && i <= |src|
    ensures var h := Head(pat, 0);
      && (Occurs(src, h, i) ==> BestCaptures(src, pat, ItemsOf(pat), i, i + |h|, [], Steps(pat, 0, i)))
      && (!Occurs(src, h, i) ==> NoMatch(src, pat, ItemsOf(pat), [], i))
  {
    NoAnchor(pat);
    var items := ItemsOf(pat);
    forall b: seq<nat> | Matches(src, pat, items, [], b) && b[0] == i
      ensures Occurs(src, Head(pat, 0), i) && b == Steps(pat, 0, i) {
      PlainMatches(src, pat, 0, i, b);
    }
    if Occurs(src, Head(pat, 0), i) {
      PlainMatches(src, pat, 0, i, Steps(pat, 0, i));
      PlainCaptures(pat, 0, Steps(pat, 0, i));
      SameAsGood(items, Steps(pat, 0, i));
    }
  }

  lemma {:induction false} SameAsGood(items: seq<Item>, a: seq<nat>)
    requires |a| == |items| + 1
    ensures AsGood(items, a, a)
    decreases |items|
  {
    if items != [] { SameAsGood(items[1..], a[1..]); }
  }

  /** The answer a plain search stands for. */
  function PlainResult(pat: Str, r: Option<nat>): FindResult {
    match r
    case Some(k) => Match(k, k + |pat|, [])
    case None => NoneFound
  }

  lemma {:induction false} HeadIsAll(pat: Str, p: nat)
    requires p <= |pat| && forall k: nat :: p <= k < |pat| ==> pat[k] != ')'
    ensures Head(pat, p) == pat[p..]
    decreases |pat| - p
  {
    if p < |pat| { HeadIsAll(pat, p + 1); }
  }

  /** Without special characters a plain search finds just what the matcher would, if the
      pattern is well formed. */
  lemma PlainIsPattern(src: Str, pat: Str, init: nat, r: Option<nat>)
    requires WellFormed(pat) && NoSpecials(pat) && init <= |src|
    ensures FirstAt(src, pat, init, r) <==> Leftmost(src, pat, ItemsOf(pat), init, false, PlainResult(pat, r))
  {
    NoCloseExactly(pat);
    HeadIsAll(pat, 0);
    assert Head(pat, 0) == pat;
    hide NoSpecials, Head, Occurs, NoMatch, BestCaptures, ItemsOf, WellFormed;
    forall i: nat | i <= |src|
      ensures Occurs(src, pat, i) ==> BestCaptures(src, pat, ItemsOf(pat), i, i + |pat|, [], Steps(pat, 0, i))
      ensures Occurs(src, pat, i) <==> !NoMatch(src, pat, ItemsOf(pat), [], i)
    {
      PlainHere(src, pat, i);
      HeadExactly(src, pat, i);
    }
    WellAgrees(src, pat, ItemsOf(pat), init, r);
  }

  /** The plain search and the matcher agree if they do at each place. */
  lemma WellAgrees(src: Str, pat: Str, items: seq<Item>, init: nat, r: Option<nat>)
    requires ItemsOk(pat, items) && !EndsBad(items) && init <= |src|
    requires forall i: nat :: i <= |src| ==> (Occurs(src, pat, i) <==> !NoMatch(src, pat, items, [], i))
    requires forall i: nat :: i <= |src| && Occurs(src, pat, i) ==>
      BestCaptures(src, pat, items, i, i + |pat|, [], Steps(pat, 0, i))
    ensures FirstAt(src, pat, init, r) <==> Leftmost(src, pat, items, init, false, PlainResult(pat, r))
  {
    forall i: nat | Occurs(src, pat, i) ensures i <= |src| {}
    LeftmostIs(src, pat, items, init, r, if r.Some? then Steps(pat, 0, r.value) else []);
    hide NoMatch, BestCaptures, Occurs, Leftmost, Steps, Head, ItemsOk;
    if r.Some? && Occurs(src, pat, r.value) {
      assert BestCaptures(src, pat, items, r.value, r.value + |pat|, [], Steps(pat, 0, r.value));
    }
  }

  lemma LeftmostIs(src: Str, pat: Str, items: seq<Item>, init: nat, r: Option<nat>, split: seq<nat>)
    requires ItemsOk(pat, items) && !EndsBad(items)
    ensures r.None? ==> (Leftmost(src, pat, items, init, false, PlainResult(pat, r)) <==>
      forall i: nat :: init <= i <= |src| ==> NoMatch(src, pat, items, [], i))
    ensures r.Some? && Leftmost(src, pat, items, init, false, PlainResult(pat, r)) ==>
      && init <= r.value <= |src| && !NoMatch(src, pat, items, [], r.value)
      && forall i: nat :: init <= i < r.value ==> NoMatch(src, pat, items, [], i)
    ensures r.Some? && init <= r.value <= |src| ==>
      BestCaptures(src, pat, items, r.value, r.value + |pat|, [], split) ==>
      ((forall i: nat :: init <= i < r.value ==> NoMatch(src, pat, items, [], i)) ==>
        Leftmost(src, pat, items, init, false, PlainResult(pat, r)))
  {
    hide NoMatch, BestCaptures, ItemsOk;
    if Leftmost(src, pat, items, init, false, PlainResult(pat, r)) {
      LeftmostMatches(src, pat, items, init, false, PlainResult(pat, r));
    }
  }

  lemma HeadExactly(src: Str, pat: Str, i: nat)
    requires NoSpecials(pat) && i <= |src|
    ensures Occurs(src, BeforeClose(pat), i) <==> !NoMatch(src, pat, ItemsOf(pat), [], i)
  {
    PlainHere(src, pat, i);
    hide NoSpecials, BeforeClose, Occurs, NoMatch;
    if Occurs(src, BeforeClose(pat), i) { BestIsMatch(src, pat, ItemsOf(pat), i, Steps(pat, 0, i)); }
  }

  lemma {:induction false} HeadOccurs(src: Str, pat: Str, p: nat, i: nat)
    requires p <= |pat| && Occurs(src, pat[p..], i)
    ensures Occurs(src, Head(pat, p), i)
    decreases |pat| - p
  {
    if p < |pat| && pat[p] != ')' {
      OccursFirst(src, pat[p..], i);
      assert pat[p..][1..] == pat[p + 1..] && Head(pat, p)[1..] == Head(pat, p + 1);
      HeadOccurs(src, pat, p + 1, i + 1);
      OccursFirst(src, Head(pat, p), i);
    } else {
      assert src[i..i] == [];
    }
  }

  /** For any pattern without special characters, the plain search gives the matcher's answer
      exactly if there is no closing parenthesis in it, or what comes before the first one
      does not occur. Otherwise the matcher complains about the pattern. */
  lemma ShortcutExactly(src: Str, pat: Str, init: nat, r: Option<nat>)
    requires NoSpecials(pat) && init <= |src| && FirstAt(src, pat, init, r)
    ensures Leftmost(src, pat, ItemsOf(pat), init, false, PlainResult(pat, r)) <==>
      || (forall k: nat :: k < |pat| ==> pat[k] != ')')
      || (forall i: nat :: init <= i ==> !Occurs(src, BeforeClose(pat), i))
    ensures !Leftmost(src, pat, ItemsOf(pat), init, false, PlainResult(pat, r)) ==>
      Leftmost(src, pat, ItemsOf(pat), init, false, MalformedPattern)
  {
    hide *;
    NoCloseExactly(pat);
    if WellFormed(pat) {
      PlainIsPattern(src, pat, init, r);
    } else {
      FirstHead(src, pat, init, r);
      forall i: nat | i <= |src|
        ensures Occurs(src, BeforeClose(pat), i) <==> !NoMatch(src, pat, ItemsOf(pat), [], i)
      {
        HeadExactly(src, pat, i);
      }
      BadAgrees(src, pat, ItemsOf(pat), BeforeClose(pat), init, r);
    }
  }

  lemma FirstHead(src: Str, pat: Str, init: nat, r: Option<nat>)
    requires FirstAt(src, pat, init, r)
    ensures !WellFormed(pat) <==> EndsBad(ItemsOf(pat))
    ensures r.Some? ==> init <= r.value && Occurs(src, BeforeClose(pat), r.value)
  {
    assert pat[0..] == pat;
    if r.Some? { HeadOccurs(src, pat, 0, r.value); }
  }

  /** The matcher complains exactly if the text before the malformed place occurs. */
  lemma BadAgrees(src: Str, pat: Str, items: seq<Item>, head: Str, init: nat, r: Option<nat>)
    requires ItemsOk(pat, items) && EndsBad(items) && init <= |src|
    requires forall i: nat :: i <= |src| ==> (Occurs(src, head, i) <==> !NoMatch(src, pat, items, [], i))
    requires r.Some? ==> init <= r.value && Occurs(src, head, r.value)
    ensures Leftmost(src, pat, items, init, false, PlainResult(pat, r)) <==>
      forall i: nat :: init <= i ==> !Occurs(src, head, i)
    ensures !Leftmost(src, pat, items, init, false, PlainResult(pat, r)) ==>
      Leftmost(src, pat, items, init, false, MalformedPattern)
  {
    forall i: nat | Occurs(src, head, i) ensures i <= |src| {}
    hide NoMatch, Occurs, ItemsOk, BestCaptures;
  }

  /** So `find` accepts "a)", which the matcher complains about. */
  lemma CloseIsNotSpecial()
    ensures NoSpecials("a)") && FirstAt("a)", "a)", 0, Some(0))
    ensures Leftmost("a)", "a)", ItemsOf("a)"), 0, false, MalformedPattern)
  {
    assert "a)"[1] == ')';
    assert "a)"[0..2] == "a)";
    assert Head("a)", 1) == "" && BeforeClose("a)") == "a" && "a)"[0..1] == "a";
    assert Occurs("a)", BeforeClose("a)"), 0);
    ShortcutExactly("a)", "a)", 0, Some(0));
  }

  // ----- find and match -----

  /** A start position: negative ones count from the end, and those before the start mean the start. */
  function StartAt(init: int, n: nat): (k: nat)
    ensures 1 <= -init <= n ==> k + -init == n
    ensures 1 <= init ==> k + 1 == init
    ensures init == 0 || init + n < 0 ==> k == 0
  {
    var pos := if init >= 0 then init else if -init > n then 0 else n + 1 + init;
    if pos < 1 then 0 else pos - 1
  }

  /** `string.find` and `string.match`. The matcher is left out when the caller asks for it,
      or when the pattern has no special characters. */
  method Search(src: Str, pat: Str, init: int, find: bool, plain: bool) returns (r: FindResult)
    ensures init > |src| + 1 ==> r == NoneFound
    ensures StartAt(init, |src|) <= |src| && find && (plain || NoSpecials(pat)) ==>
      exists k :: r == PlainResult(pat, k) && FirstAt(src, pat, StartAt(init, |src|), k)
    ensures StartAt(init, |src|) <= |src| && !(find && plain) && (WellFormed(pat) || !find || !NoSpecials(pat)) ==>
      Leftmost(src, pat, ItemsOf(pat), StartAt(init, |src|), CharAt(pat, 0) == '^', r)
    ensures r.PatternTooComplex? ==> |ItemsOf(pat)| >= MAXCCALLS
  {
    var start := StartAt(init, |src|);
    hide Leftmost, FirstAt, WellFormed, ItemsOf, StartAt;
    if start > |src| {
      return NoneFound;
    }
    if find && (plain || NoSpecials(pat)) {
      var k := PlainFind(src, pat, start);
      r := PlainResult(pat, k);
      if !plain && WellFormed(pat) {
        PlainIsPattern(src, pat, start, k);
        NoAnchor(pat);
      }
    } else {
      r := PatternFind(src, pat, start);
    }
  }
}

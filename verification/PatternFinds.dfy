/** What searches find: for patterns as they are written, in terms of the subject alone. */
module PatternFinds {
  import opened Common
  import opened LuaValues
  import opened PatternSyntax
  import opened PatternMatching
  import opened PatternMatcher
  import opened StringFind
  import opened PatternText
  import opened PatternPieces

  // ----- what a piece takes -----

  ghost predicate AllIn(src: Str, i: nat, j: nat, cl: Class) {
    i <= j <= |src| && forall k: nat :: i <= k < j ==> src[k] in ClassChars(cl)
  }

  /** How often a class may be repeated. */
  predicate Times(suffix: Suffix, n: int) {
    match suffix
    case One => n == 1
    case Opt => n == 0 || n == 1
    case Star => n >= 0
    case Plus => n >= 1
    case Minus => n >= 0
  }

  /** The text of capture number d again. */
  predicate SameText(src: Str, caps: seq<Capture>, d: int, i: nat, j: nat) {
    && 1 <= d <= |caps| && i <= j <= |src|
    && var c := caps[d - 1]; c.len >= 0 && c.init + c.len <= |src| && src[i..j] == src[c.init..c.init + c.len]
  }

  /** The piece can take the subject from i to j. */
  ghost predicate Takes(src: Str, e: Piece, caps: seq<Capture>, i: nat, j: nat) {
    match e
    case Take(cl, suffix) => AllIn(src, i, j, cl) && Times(suffix, j - i)
    case Again(d) => SameText(src, caps, d as int - '0' as int, i, j)
    case Between(x, y) => i < |src| && src[i] == x && Balanced(src, i + 1, x, y, 1, j)
    case Border(complement, parts) =>
      var chars := ClassChars(Set(complement, parts));
      && j == i && (if 0 < i <= |src| then src[i - 1] else '\0') !in chars
      && (if i < |src| then src[i] else '\0') in chars
    case Last => j == i == |src|
    case Group => j == i
    case Place => j == i
    case End => j == i
  }

  lemma PieceTakes(src: Str, pat: Str, item: Item, e: Piece, caps: seq<Capture>, i: nat, j: nat)
    requires Stands(pat, item, e) && ItemOk(pat, item) && i <= |src|
    ensures Accepts(src, pat, item, caps, i, j) == Takes(src, e, caps, i, j)
  {
    hide ClassOk, InClass, ClassChars, Balanced, BalanceEnd;
    match e
    case Between(x, y) => BalanceIs(src, i + 1, x, y, 1, j);
    case _ =>
  }

  /** What is left of the captures. */
  lemma PieceKeeps(pat: Str, item: Item, e: Piece, caps: seq<Capture>, i: nat)
    requires Stands(pat, item, e)
    ensures !e.Group? && !e.Place? && !e.End? ==> Next(item, caps, i) == caps
    ensures e.Group? ==> Next(item, caps, i) == caps + [Capture(i, -1)]
    ensures e.Place? ==> Next(item, caps, i) == caps + [Capture(i, -2)]
    ensures !item.Bad?
  {
    hide ClassIs;
  }

  /** An end closes the capture that was opened last among those still open. */
  lemma {:induction false} EndCloses(caps: seq<Capture>, l: nat, i: nat)
    requires l < |caps| && caps[l].len == -1 && forall k: nat :: l < k < |caps| ==> caps[k].len != -1
    ensures Next(Close, caps, i) == caps[l := Capture(caps[l].init, i - caps[l].init)]
    decreases |caps|
  {
    assert ToClose(caps) == l by { ClosesAt(caps, l); }
  }

  lemma {:induction false} ClosesAt(caps: seq<Capture>, l: nat)
    requires l < |caps| && caps[l].len == -1 && forall k: nat :: l < k < |caps| ==> caps[k].len != -1
    ensures ToClose(caps) == l
    decreases |caps|
  {
    if l < |caps| - 1 { ClosesAt(caps[..|caps| - 1], l); }
  }

  // ----- from one piece to the next -----

  datatype Outcome = Nowhere | Ends(end: nat, caps: seq<Capture>)

  ghost predicate Along(src: Str, pat: Str, items: seq<Item>, caps: seq<Capture>, i: nat, end: nat, caps': seq<Capture>,
        split: seq<nat>)
    requires ItemsOk(pat, items)
  {
    && IsBest(src, pat, items, caps, i, split)
    && |split| == |items| + 1 && split[|items|] == end && Captured(items, caps, split) == caps'
  }

  /** The best match of the items from i on. */
  ghost predicate Best(src: Str, pat: Str, items: seq<Item>, caps: seq<Capture>, i: nat, r: Outcome) {
    && ItemsOk(pat, items)
    && match r
       case Nowhere => NoMatch(src, pat, items, caps, i)
       case Ends(end, caps') =>
         exists split: seq<nat> :: Along(src, pat, items, caps, i, end, caps', split)
  }

  /** A first item, what it takes, and the others. */
  ghost predicate First(src: Str, pat: Str, items: seq<Item>, caps: seq<Capture>, i: nat, e: Piece) {
    && |items| > 0 && ItemsOk(pat, items) && Stands(pat, items[0], e) && i <= |src|
  }

  lemma FirstTakes(src: Str, pat: Str, items: seq<Item>, caps: seq<Capture>, i: nat, e: Piece)
    requires First(src, pat, items, caps, i, e)
    ensures ItemOk(pat, items[0]) && ItemsOk(pat, items[1..])
    ensures forall j: nat :: Accepts(src, pat, items[0], caps, i, j) == Takes(src, e, caps, i, j)
  {
    hide Accepts, Takes, Stands, ItemOk;
    RestOk(pat, items);
    forall j: nat ensures Accepts(src, pat, items[0], caps, i, j) == Takes(src, e, caps, i, j) {
      PieceTakes(src, pat, items[0], e, caps, i, j);
    }
  }

  lemma NoneLeft(src: Str, pat: Str, caps: seq<Capture>, i: nat)
    ensures Best(src, pat, [], caps, i, Ends(i, caps))
  {
    NothingLeft(src, pat, caps, i);
    assert Along(src, pat, [], caps, i, i, caps, [i]);
  }

  /** The piece would rather end at j' than at j: `-` takes as little as it can, others as much. */
  predicate Rather(e: Piece, j': nat, j: nat) {
    if e.Take? && e.suffix.Minus? then j' < j else j < j'
  }

  /** The piece takes the subject up to j, and wherever it would rather end the rest fails. */
  lemma TakesBest(src: Str, pat: Str, items: seq<Item>, caps: seq<Capture>, i: nat, e: Piece, j: nat,
        caps': seq<Capture>, r: Outcome)
    requires First(src, pat, items, caps, i, e) && Next(items[0], caps, i) == caps' && r.Ends?
    requires Takes(src, e, caps, i, j) && Best(src, pat, items[1..], caps', j, r)
    requires forall j': nat :: Takes(src, e, caps, i, j') && Rather(e, j', j) ==>
      Best(src, pat, items[1..], caps', j', Nowhere)
    ensures Best(src, pat, items, caps, i, r)
  {
    FirstTakes(src, pat, items, caps, i, e);
    var rest: seq<nat> :| Along(src, pat, items[1..], caps', j, r.end, r.caps, rest);
    assert items[0].Single? && items[0].suffix.Minus? <==> e.Take? && e.suffix.Minus?;
    hide Accepts, Takes, IsBest, Captured, Stands, NoMatch;
    assert NoBetter(src, pat, items, caps, i, j);
    Chosen(src, pat, items, caps, i, j, rest);
    assert Along(src, pat, items, caps, i, r.end, r.caps, [i] + rest);
  }

  /** Wherever the piece may end, the rest fails. */
  lemma TakesNone(src: Str, pat: Str, items: seq<Item>, caps: seq<Capture>, i: nat, e: Piece, caps': seq<Capture>)
    requires First(src, pat, items, caps, i, e) && Next(items[0], caps, i) == caps'
    requires forall j: nat :: Takes(src, e, caps, i, j) ==> Best(src, pat, items[1..], caps', j, Nowhere)
    ensures Best(src, pat, items, caps, i, Nowhere)
  {
    FirstTakes(src, pat, items, caps, i, e);
    hide Accepts, Takes, Stands, NoMatch;
    NoneChosen(src, pat, items, caps, i);
  }

  /** A search finds the first place where there is a match. */
  lemma FindsFirst(src: Str, pat: Str, init: nat, anchor: bool, i: nat, r: Outcome)
    requires StartsAt(src, init, anchor, i) && WellFormed(pat) && r.Ends? && Best(src, pat, ItemsOf(pat), [], i, r)
    requires forall i': nat :: init <= i' < i ==> Best(src, pat, ItemsOf(pat), [], i', Nowhere)
    ensures Leftmost(src, pat, ItemsOf(pat), init, anchor, Match(i, r.end, r.caps))
  {
    hide NoMatch, ItemsOf, Captured, IsBest;
    var items := ItemsOf(pat);
    var split: seq<nat> :| Along(src, pat, items, [], i, r.end, r.caps, split);
    assert BestCaptures(src, pat, items, i, r.end, r.caps, split);
    forall i': nat | init <= i' < i ensures NoMatch(src, pat, items, [], i') {
      assert Best(src, pat, items, [], i', Nowhere);
    }
  }

  lemma FindsNothing(src: Str, pat: Str, init: nat, anchor: bool)
    requires forall i: nat :: StartsAt(src, init, anchor, i) ==> Best(src, pat, ItemsOf(pat), [], i, Nowhere)
    ensures Leftmost(src, pat, ItemsOf(pat), init, anchor, NoneFound)
  {
    hide NoMatch, ItemsOf;
    forall i: nat | StartsAt(src, init, anchor, i) ensures NoMatch(src, pat, ItemsOf(pat), [], i) {
      assert Best(src, pat, ItemsOf(pat), [], i, Nowhere);
    }
  }

  // ----- whole patterns -----

  /** What a piece that starts at i makes of the captures: they are numbered as they are
      opened, and an end closes the last one still open. */
  ghost predicate After(e: Piece, caps: seq<Capture>, i: nat, caps': seq<Capture>) {
    match e
    case Group => caps' == caps + [Capture(i, -1)]
    case Place => caps' == caps + [Capture(i, -2)]
    case End => exists l: nat :: LastOpen(caps, l) && caps' == caps[l := Capture(caps[l].init, i - caps[l].init)]
    case _ => caps' == caps
  }

  ghost predicate LastOpen(caps: seq<Capture>, l: nat) {
    l < |caps| && caps[l].len == -1 && forall k: nat :: l < k < |caps| ==> caps[k].len != -1
  }

  /** The pieces match from i on as r says. */
  ghost predicate WalksTo(src: Str, es: seq<Piece>, caps: seq<Capture>, i: nat, r: Outcome)
    decreases |es|, 2
  {
    if |es| == 0 then r == Ends(i, caps)
    else exists caps' :: After(es[0], caps, i, caps') && GoesOn(src, es, caps, i, caps', r)
  }

  /** The first piece takes as much as it would rather have and the others can go on from. */
  ghost predicate GoesOn(src: Str, es: seq<Piece>, caps: seq<Capture>, i: nat, caps': seq<Capture>, r: Outcome)
    requires |es| > 0
    decreases |es|, 1
  {
    if r.Nowhere? then forall j: nat :: Takes(src, es[0], caps, i, j) ==> WalksTo(src, es[1..], caps', j, Nowhere)
    else exists j: nat :: Picks(src, es, caps, i, caps', j, r)
  }

  ghost predicate Picks(src: Str, es: seq<Piece>, caps: seq<Capture>, i: nat, caps': seq<Capture>, j: nat, r: Outcome)
    requires |es| > 0
    decreases |es|, 0
  {
    && Takes(src, es[0], caps, i, j) && WalksTo(src, es[1..], caps', j, r)
    && forall j': nat :: Takes(src, es[0], caps, i, j') && Rather(es[0], j', j) ==>
         WalksTo(src, es[1..], caps', j', Nowhere)
  }

  lemma AfterIs(pat: Str, item: Item, e: Piece, caps: seq<Capture>, i: nat, caps': seq<Capture>)
    requires Stands(pat, item, e) && After(e, caps, i, caps')
    ensures Next(item, caps, i) == caps'
  {
    PieceKeeps(pat, item, e, caps, i);
    hide ClassIs, Next;
    if e.End? {
      var l: nat :| LastOpen(caps, l) && caps' == caps[l := Capture(caps[l].init, i - caps[l].init)];
      EndCloses(caps, l, i);
    }
  }

  lemma StandRest(pat: Str, items: seq<Item>, es: seq<Piece>)
    requires |es| > 0 && Stand(pat, items, es)
    ensures |items| > 0 && Stands(pat, items[0], es[0]) && Stand(pat, items[1..], es[1..])
  {
    hide Stands;
    forall k: nat | k < |es[1..]| ensures Stands(pat, items[1..][k], es[1..][k]) {
      assert items[1..][k] == items[k + 1];
    }
  }

  lemma TakesIn(src: Str, e: Piece, caps: seq<Capture>, i: nat, j: nat)
    requires Takes(src, e, caps, i, j) && i <= |src|
    ensures i <= j <= |src|
  {
    hide ClassChars, Excess;
  }

  /** Walking from piece to piece is matching the items. */
  lemma {:induction false} WalkIsBest(src: Str, pat: Str, items: seq<Item>, es: seq<Piece>, caps: seq<Capture>, i: nat,
        r: Outcome)
    requires Stand(pat, items, es) && ItemsOk(pat, items) && i <= |src| && WalksTo(src, es, caps, i, r)
    ensures Best(src, pat, items, caps, i, r)
    decreases |es|
  {
    hide Takes, Best, After, Stand, Stands, ItemsOk, Rather, Next;
    if |es| == 0 {
      NothingStands(pat, items, es);
      NoneLeft(src, pat, caps, i);
    } else {
      var caps' := FirstWalks(src, es, caps, i, r);
      StandRest(pat, items, es);
      AfterIs(pat, items[0], es[0], caps, i, caps');
      RestOk(pat, items);
      if r.Nowhere? {
        forall j: nat | Takes(src, es[0], caps, i, j) ensures Best(src, pat, items[1..], caps', j, Nowhere) {
          TakesIn(src, es[0], caps, i, j);
          WalkIsBest(src, pat, items[1..], es[1..], caps', j, Nowhere);
        }
        TakesNone(src, pat, items, caps, i, es[0], caps');
      } else {
        var j: nat :| Picks(src, es, caps, i, caps', j, r);
        TakesIn(src, es[0], caps, i, j);
        WalkIsBest(src, pat, items[1..], es[1..], caps', j, r);
        forall j': nat | Takes(src, es[0], caps, i, j') && Rather(es[0], j', j)
          ensures Best(src, pat, items[1..], caps', j', Nowhere)
        {
          TakesIn(src, es[0], caps, i, j');
          WalkIsBest(src, pat, items[1..], es[1..], caps', j', Nowhere);
        }
        TakesBest(src, pat, items, caps, i, es[0], j, caps', r);
      }
    }
  }

  lemma FirstWalks(src: Str, es: seq<Piece>, caps: seq<Capture>, i: nat, r: Outcome) returns (caps': seq<Capture>)
    requires |es| > 0 && WalksTo(src, es, caps, i, r)
    ensures After(es[0], caps, i, caps') && GoesOn(src, es, caps, i, caps', r)
  {
    hide Takes, After, Rather;
    caps' :| After(es[0], caps, i, caps') && GoesOn(src, es, caps, i, caps', r);
  }

  lemma NothingStands(pat: Str, items: seq<Item>, es: seq<Piece>)
    requires |es| == 0 && Stand(pat, items, es)
    ensures items == []
  {
  }

  /** The pieces match the subject from i on as r says. */
  ghost predicate Leads(src: Str, es: seq<Piece>, i: nat, r: Outcome) {
    WalksTo(src, es, [], i, r)
  }

  /** No place before i leads to a match. */
  ghost predicate NoneBefore(src: Str, es: seq<Piece>, init: nat, i: nat) {
    forall i': nat :: init <= i' < i ==> Leads(src, es, i', Nowhere)
  }

  ghost predicate NoneAt(src: Str, es: seq<Piece>, init: nat, anchor: bool) {
    forall i: nat :: init <= i <= |src| && (anchor ==> i == init) ==> Leads(src, es, i, Nowhere)
  }

  lemma LeadsBest(src: Str, pat: Str, es: seq<Piece>, i: nat, r: Outcome)
    requires Stand(pat, ItemsOf(pat), es) && i <= |src| && Leads(src, es, i, r)
    ensures Best(src, pat, ItemsOf(pat), [], i, r)
  {
    hide Stand, Best, ItemsOf;
    WalkIsBest(src, pat, ItemsOf(pat), es, [], i, r);
  }

  /** A search finds the first place from which the pieces match, and ends where they lead. */
  lemma SearchFinds(src: Str, anchor: bool, es: seq<Piece>, init: nat, i: nat, r: Outcome)
    requires Readable(anchor, es) && Nested(es, 0, [])
    requires init <= i <= |src| && (anchor ==> i == init)
    requires r.Ends? && Leads(src, es, i, r) && NoneBefore(src, es, init, i)
    ensures var pat := Written(anchor, es);
      Leftmost(src, pat, ItemsOf(pat), init, anchor, Match(i, r.end, r.caps))
  {
    hide Readable, Nested, Leads, Leftmost, Best, Stand, ItemsOf, Written, WellFormed;
    var pat := Written(anchor, es);
    WrittenRead(anchor, es);
    LeadsBest(src, pat, es, i, r);
    forall i': nat | init <= i' < i ensures Best(src, pat, ItemsOf(pat), [], i', Nowhere) {
      LeadsBest(src, pat, es, i', Nowhere);
    }
    FindsFirst(src, pat, init, anchor, i, r);
  }

  lemma SearchFails(src: Str, anchor: bool, es: seq<Piece>, init: nat)
    requires Readable(anchor, es) && Nested(es, 0, []) && NoneAt(src, es, init, anchor)
    ensures var pat := Written(anchor, es); Leftmost(src, pat, ItemsOf(pat), init, anchor, NoneFound)
  {
    hide Readable, Nested, Leads, Leftmost, Best, Stand, ItemsOf, Written, WellFormed;
    var pat := Written(anchor, es);
    WrittenRead(anchor, es);
    forall i: nat | StartsAt(src, init, anchor, i) ensures Best(src, pat, ItemsOf(pat), [], i, Nowhere) {
      LeadsBest(src, pat, es, i, Nowhere);
    }
    FindsNothing(src, pat, init, anchor);
  }

  // ----- every search is such a walk -----

  /** The captures of a walk: which of them are open, and that they start before i. */
  ghost predicate OpenIn(caps: seq<Capture>, open: seq<nat>, i: nat) {
    && (forall k: nat :: k < |caps| ==> (caps[k].len == -1 <==> k in open) && caps[k].init <= i)
    && (forall k: nat :: k < |open| ==> open[k] < |caps|)
    && (forall k: nat, m: nat :: k < m < |open| ==> open[k] < open[m])
  }

  lemma AfterExists(e: Piece, caps: seq<Capture>, i: nat, open: seq<nat>) returns (caps': seq<Capture>)
    requires Fits(e, |caps|, open) && OpenIn(caps, open, i)
    ensures After(e, caps, i, caps') && |caps'| == Count(e, |caps|) && OpenIn(caps', Opened(e, |caps|, open), i)
  {
    match e
    case Group => caps' := caps + [Capture(i, -1)];
    case Place => caps' := caps + [Capture(i, -2)];
    case End =>
      var l := open[|open| - 1];
      caps' := caps[l := Capture(caps[l].init, i - caps[l].init)];
      CloseOpen(caps, i, open);
    case _ => caps' := caps;
  }

  lemma CloseOpen(caps: seq<Capture>, i: nat, open: seq<nat>)
    requires |open| > 0 && OpenIn(caps, open, i)
    ensures var l := open[|open| - 1];
      LastOpen(caps, l) && OpenIn(caps[l := Capture(caps[l].init, i - caps[l].init)], open[..|open| - 1], i)
  {
    var l, front := open[|open| - 1], open[..|open| - 1];
    assert open == front + [l] && l in open;
    forall k: nat | l < k < |caps| ensures caps[k].len != -1 {
      assert k !in open;
    }
  }

  lemma OpenLater(caps: seq<Capture>, open: seq<nat>, i: nat, j: nat)
    requires OpenIn(caps, open, i) && i <= j
    ensures OpenIn(caps, open, j)
  {
  }

  /** Of finitely many places there is one that the piece would rather have than any other. */
  lemma Favourite(e: Piece, s: set<nat>) returns (j: nat)
    requires s != {}
    ensures j in s && forall j': nat :: j' in s ==> !Rather(e, j', j)
    decreases |s|
  {
    j :| j in s;
    var rest := s - {j};
    if rest != {} {
      var k := Favourite(e, rest);
      forall j': nat | j' in s ensures j' == j || j' in rest {
      }
      if Rather(e, k, j) { j := k; }
    }
  }

  ghost predicate WalksOn(src: Str, es: seq<Piece>, caps: seq<Capture>, i: nat) {
    exists end: nat, caps' :: WalksTo(src, es, caps, i, Ends(end, caps'))
  }

  lemma {:induction false} WalkExists(src: Str, es: seq<Piece>, caps: seq<Capture>, i: nat, open: seq<nat>)
    returns (r: Outcome)
    requires Nested(es, |caps|, open) && OpenIn(caps, open, i) && i <= |src|
    ensures WalksTo(src, es, caps, i, r)
    decreases |es|
  {
    hide Takes, After, Rather, OpenIn, Fits, Count, Opened;
    if |es| == 0 {
      return Ends(i, caps);
    }
    var e, rest := es[0], es[1..];
    var caps' := AfterExists(e, caps, i, open);
    var open' := Opened(e, |caps|, open);
    forall j: nat | Takes(src, e, caps, i, j) && !WalksOn(src, rest, caps', j)
      ensures WalksTo(src, rest, caps', j, Nowhere)
    {
      TakesIn(src, e, caps, i, j);
      OpenLater(caps', open', i, j);
      var r' := WalkExists(src, rest, caps', j, open');
    }
    var good := set j: nat | i <= j <= |src| && Takes(src, e, caps, i, j) && WalksOn(src, rest, caps', j);
    forall j: nat | Takes(src, e, caps, i, j) ensures i <= j <= |src| { TakesIn(src, e, caps, i, j); }
    if good == {} {
      r := Nowhere;
      forall j: nat | Takes(src, e, caps, i, j) ensures WalksTo(src, rest, caps', j, r) {
        assert j !in good;
      }
    } else {
      var j := Favourite(e, good);
      var end: nat, last :| WalksTo(src, rest, caps', j, Ends(end, last));
      r := Ends(end, last);
      assert r.Ends? && Takes(src, e, caps, i, j);
      PicksThis(src, es, caps, i, caps', j, r);
    }
    WalksThis(src, es, caps, i, caps', r);
  }

  lemma PicksThis(src: Str, es: seq<Piece>, caps: seq<Capture>, i: nat, caps': seq<Capture>, j: nat, r: Outcome)
    requires |es| > 0 && r.Ends? && Takes(src, es[0], caps, i, j) && WalksTo(src, es[1..], caps', j, r)
    requires forall j': nat :: Takes(src, es[0], caps, i, j') && Rather(es[0], j', j) ==>
      WalksTo(src, es[1..], caps', j', Nowhere)
    ensures GoesOn(src, es, caps, i, caps', r)
  {
    hide Takes, Rather;
    assert Picks(src, es, caps, i, caps', j, r);
  }

  lemma WalksThis(src: Str, es: seq<Piece>, caps: seq<Capture>, i: nat, caps': seq<Capture>, r: Outcome)
    requires |es| > 0 && After(es[0], caps, i, caps')
    requires if r.Nowhere? then forall j: nat :: Takes(src, es[0], caps, i, j) ==> WalksTo(src, es[1..], caps', j, r)
      else GoesOn(src, es, caps, i, caps', r)
    ensures WalksTo(src, es, caps, i, r)
  {
    hide Takes, After;
    assert GoesOn(src, es, caps, i, caps', r);
  }

  /** The first place from i on, up to last, from which the pieces match. */
  lemma {:induction false} FirstWalk(src: Str, es: seq<Piece>, i: nat, last: nat) returns (k: nat, r: Outcome)
    requires Nested(es, 0, []) && i <= last <= |src|
    ensures i <= k <= last && Leads(src, es, k, r) && NoneBefore(src, es, i, k)
    ensures r.Nowhere? ==> k == last
    decreases last - i
  {
    hide WalksTo, Nested;
    k := i;
    r := WalkExists(src, es, [], i, []);
    if r.Nowhere? && i < last {
      k, r := FirstWalk(src, es, i + 1, last);
    }
  }

  /** A search finds what the walks from piece to piece lead to, and nothing else. */
  lemma SearchExactly(src: Str, anchor: bool, es: seq<Piece>, init: nat, i: nat, end: nat, caps: seq<Capture>)
    requires Readable(anchor, es) && Nested(es, 0, []) && init <= |src|
    ensures var pat := Written(anchor, es);
      && (Leftmost(src, pat, ItemsOf(pat), init, anchor, Match(i, end, caps)) <==>
            && init <= i <= |src| && (anchor ==> i == init)
            && Leads(src, es, i, Ends(end, caps)) && NoneBefore(src, es, init, i))
      && (Leftmost(src, pat, ItemsOf(pat), init, anchor, NoneFound) <==> NoneAt(src, es, init, anchor))
  {
    hide Readable, Nested, Leads, Leftmost, ItemsOf, Written, NoneAt, NoneBefore;
    var pat := Written(anchor, es);
    var k, r := FirstWalk(src, es, init, if anchor then init else |src|);
    if r.Ends? {
      assert r == Ends(r.end, r.caps);
      SearchFinds(src, anchor, es, init, k, r);
      OneAnswer(src, pat, init, anchor, Match(k, r.end, r.caps), Match(i, end, caps));
      OneAnswer(src, pat, init, anchor, Match(k, r.end, r.caps), NoneFound);
    } else {
      NoneUpTo(src, es, init, anchor, k);
      SearchFails(src, anchor, es, init);
      OneAnswer(src, pat, init, anchor, NoneFound, Match(i, end, caps));
    }
    if init <= i <= |src| && (anchor ==> i == init) && Leads(src, es, i, Ends(end, caps)) &&
      NoneBefore(src, es, init, i)
    {
      SearchFinds(src, anchor, es, init, i, Ends(end, caps));
    }
    if NoneAt(src, es, init, anchor) { SearchFails(src, anchor, es, init); }
  }

  lemma NoneUpTo(src: Str, es: seq<Piece>, init: nat, anchor: bool, k: nat)
    requires NoneBefore(src, es, init, k) && Leads(src, es, k, Nowhere) && k == if anchor then init else |src|
    ensures NoneAt(src, es, init, anchor)
  {
    hide Leads;
  }

  lemma OneAnswer(src: Str, pat: Str, init: nat, anchor: bool, r: FindResult, r': FindResult)
    requires Leftmost(src, pat, ItemsOf(pat), init, anchor, r) && !r.PatternTooComplex? && !r'.PatternTooComplex?
    ensures Leftmost(src, pat, ItemsOf(pat), init, anchor, r') ==> r == r'
  {
    hide Leftmost, ItemsOf;
    if Leftmost(src, pat, ItemsOf(pat), init, anchor, r') {
      LeftmostUnique(src, pat, ItemsOf(pat), init, anchor, r, r');
    }
  }
}

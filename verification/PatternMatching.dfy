/** What it is for a subject to match a pattern, and which match is the best one. */
module PatternMatching {
  import opened Common
  import opened LuaValues
  import opened PatternSyntax

  /** A capture starts at init; len is its length, or says that it is not closed or a position. */
  datatype Capture = Capture(init: nat, len: int)

  const UNFINISHED: int := -1
  const POSITION: int := -2

  // ----- what an item matches -----

  /** The innermost capture that is not closed; -1 if there is none. */
  function ToClose(caps: seq<Capture>): (l: int)
    ensures -1 <= l < |caps|
    ensures l >= 0 ==> caps[l].len == UNFINISHED
  {
    if caps == [] then -1
    else if caps[|caps| - 1].len == UNFINISHED then |caps| - 1
    else ToClose(caps[..|caps| - 1])
  }

  /** Where the text that starts at i is in balance, with n openings still to be closed. */
  function BalanceEnd(src: Str, i: nat, b: char, e: char, n: nat): (j: Option<nat>)
    requires n > 0
    ensures j.Some? ==> i < j.value <= |src|
    decreases |src| - i
  {
    if i >= |src| then None
    else if src[i] == e then (if n == 1 then Some(i + 1) else BalanceEnd(src, i + 1, b, e, n - 1))
    else BalanceEnd(src, i + 1, b, e, if src[i] == b then n + 1 else n)
  }

  function Weight(c: char, b: char, e: char): int {
    if c == e then -1 else if c == b then 1 else 0
  }

  /** How many more b than e there are from i to j. */
  function Excess(src: Str, i: nat, j: nat, b: char, e: char): int
    requires j <= |src|
    decreases j
  {
    if j <= i then 0
    else Excess(src, i, j - 1, b, e) + Weight(src[j - 1], b, e)
  }

  lemma {:induction false} ExcessFirst(src: Str, i: nat, j: nat, b: char, e: char)
    requires i < j <= |src|
    ensures Excess(src, i, j, b, e) == Weight(src[i], b, e) + Excess(src, i + 1, j, b, e)
    decreases j
  {
    if i + 1 < j { ExcessFirst(src, i, j - 1, b, e); }
  }

  /** At j for the first time n more e than b have come. */
  ghost predicate Balanced(src: Str, i: nat, b: char, e: char, n: int, j: nat) {
    && i < j <= |src| && Excess(src, i, j, b, e) == -n
    && forall k: nat :: i <= k < j ==> Excess(src, i, k, b, e) > -n
  }

  lemma BalancedStep(src: Str, i: nat, b: char, e: char, n: nat, j: nat)
    requires i < |src| && n > 0 && n + Weight(src[i], b, e) > 0
    ensures Balanced(src, i, b, e, n, j) <==> Balanced(src, i + 1, b, e, n + Weight(src[i], b, e), j)
  {
    var n' := n + Weight(src[i], b, e);
    assert Excess(src, i, i + 1, b, e) == Weight(src[i], b, e) by { assert Excess(src, i, i, b, e) == 0; }
    if i + 1 < j <= |src| {
      ExcessFirst(src, i, j, b, e);
      if Balanced(src, i + 1, b, e, n', j) {
        forall k: nat | i <= k < j ensures Excess(src, i, k, b, e) > -(n as int) {
          if k > i { ExcessFirst(src, i, k, b, e); }
        }
      }
      if Balanced(src, i, b, e, n, j) {
        var i' := i + 1;
        forall k: nat | i' <= k < j ensures Excess(src, i', k, b, e) > -n' {
          ExcessFirst(src, i, k, b, e);
        }
      }
    }
  }

  /** The balanced text ends where for the first time everything opened is closed. When both
      delimiters are the same character, it closes. */
  lemma {:induction false} BalanceIs(src: Str, i: nat, b: char, e: char, n: nat, j: nat)
    requires n > 0
    ensures BalanceEnd(src, i, b, e, n) == Some(j) <==> Balanced(src, i, b, e, n, j)
    decreases |src| - i
  {
    if i < |src| {
      assert Excess(src, i, i, b, e) == 0;
      assert Excess(src, i, i + 1, b, e) == Weight(src[i], b, e);
      if n + Weight(src[i], b, e) > 0 {
        BalancedStep(src, i, b, e, n, j);
        BalanceIs(src, i + 1, b, e, n + Weight(src[i], b, e), j);
      }
    }
  }

  /** The text of a closed capture. */
  predicate BackHere(src: Str, caps: seq<Capture>, l: int, i: nat, j: nat) {
    && 0 <= l < |caps| && caps[l].len >= 0 && i <= j <= |src| && j == i + caps[l].len
    && caps[l].init + caps[l].len <= |src| && src[caps[l].init..caps[l].init + caps[l].len] == src[i..j]
  }

  ghost predicate Run(src: Str, pat: Str, p: nat, ep: nat, i: nat, j: nat)
    requires ClassOk(pat, p, ep)
  {
    i <= j <= |src| && forall k: nat :: i <= k < j ==> InClass(src[k], pat, p, ep)
  }

  /** An item can match the subject from i to j. */
  ghost predicate Accepts(src: Str, pat: Str, item: Item, caps: seq<Capture>, i: nat, j: nat)
    requires ItemOk(pat, item)
  {
    match item
    case Open => j == i
    case Position => j == i
    case Close => j == i
    case Bad => j == i
    case AtEnd => j == i == |src|
    case Balance(b, e) => CharAt(src, i) == b && i < |src| && BalanceEnd(src, i + 1, b, e, 1) == Some(j)
    case Frontier(p, ep) =>
      && j == i && !InClass(if i == 0 then '\0' else CharAt(src, i - 1), pat, p, ep)
      && InClass(CharAt(src, i), pat, p, ep)
    case Back(l) => BackHere(src, caps, l, i, j)
    case Single(p, ep, suffix) =>
      && Run(src, pat, p, ep, i, j)
      && match suffix
         case One => j == i + 1
         case Opt => j <= i + 1
         case Star => true
         case Plus => j > i
         case Minus => true
  }

  /** The captures after an item that starts at i. */
  function Next(item: Item, caps: seq<Capture>, i: nat): seq<Capture> {
    match item
    case Open => caps + [Capture(i, UNFINISHED)]
    case Position => caps + [Capture(i, POSITION)]
    case Close =>
      var l := ToClose(caps);
      if l >= 0 then caps[l := caps[l].(len := i - caps[l].init)] else caps
    case _ => caps
  }

  /** Of two ends for an item the one that is tried first: `-` takes as little as it can, the others as much. */
  predicate Prefers(item: Item, j: nat, j': nat) {
    if item.Single? && item.suffix.Minus? then j < j' else j > j'
  }

  // ----- what a list of items matches -----

  /** A split says where each item starts, and where the last one ends. */
  ghost predicate Matches(src: Str, pat: Str, items: seq<Item>, caps: seq<Capture>, split: seq<nat>)
    requires ItemsOk(pat, items)
  {
    && |split| == |items| + 1
    && (items != [] ==>
      && Accepts(src, pat, items[0], caps, split[0], split[1])
      && Matches(src, pat, items[1..], Next(items[0], caps, split[0]), split[1..]))
  }

  /** The captures when the items have matched along a split. */
  function Captured(items: seq<Item>, caps: seq<Capture>, split: seq<nat>): seq<Capture>
    requires |split| == |items| + 1
  {
    if items == [] then caps else Captured(items[1..], Next(items[0], caps, split[0]), split[1..])
  }

  /** The first item on which two splits differ decides. */
  ghost predicate AsGood(items: seq<Item>, a: seq<nat>, b: seq<nat>)
    requires |a| == |b| == |items| + 1
  {
    items != [] ==>
      if a[1] == b[1] then AsGood(items[1..], a[1..], b[1..]) else Prefers(items[0], a[1], b[1])
  }

  ghost predicate IsBest(src: Str, pat: Str, items: seq<Item>, caps: seq<Capture>, i: nat, split: seq<nat>)
    requires ItemsOk(pat, items)
  {
    && Matches(src, pat, items, caps, split) && split[0] == i
    && forall b: seq<nat> :: Matches(src, pat, items, caps, b) && b[0] == i ==> AsGood(items, split, b)
  }

  ghost predicate NoMatch(src: Str, pat: Str, items: seq<Item>, caps: seq<Capture>, i: nat)
    requires ItemsOk(pat, items)
  {
    forall b: seq<nat> :: Matches(src, pat, items, caps, b) ==> b[0] != i
  }

  // ----- the best match, item by item -----

  lemma NothingLeft(src: Str, pat: Str, caps: seq<Capture>, i: nat)
    ensures IsBest(src, pat, [], caps, i, [i])
    ensures Captured([], caps, [i]) == caps
  {
  }

  lemma RestOk(pat: Str, items: seq<Item>)
    requires ItemsOk(pat, items) && items != []
    ensures ItemOk(pat, items[0]) && ItemsOk(pat, items[1..])
  {
    assert forall k: nat :: k < |items[1..]| ==> items[1..][k] == items[k + 1];
  }

  /** A match of the items is an end for the first one and a match of the rest. */
  lemma SplitRest(src: Str, pat: Str, items: seq<Item>, caps: seq<Capture>, b: seq<nat>)
    requires ItemsOk(pat, items) && items != [] && Matches(src, pat, items, caps, b)
    ensures ItemOk(pat, items[0]) && ItemsOk(pat, items[1..]) && |b| > 1
    ensures Accepts(src, pat, items[0], caps, b[0], b[1])
    ensures Matches(src, pat, items[1..], Next(items[0], caps, b[0]), b[1..])
    ensures !NoMatch(src, pat, items[1..], Next(items[0], caps, b[0]), b[1])
  {
    RestOk(pat, items);
    assert b[1..][0] == b[1];
  }

  /** No better end for the first item leads to a match. */
  ghost predicate NoBetter(src: Str, pat: Str, items: seq<Item>, caps: seq<Capture>, i: nat, j: nat)
    requires ItemsOk(pat, items) && items != []
  {
    RestOk(pat, items);
    forall j': nat :: Accepts(src, pat, items[0], caps, i, j') && j' != j && !Prefers(items[0], j, j') ==>
      NoMatch(src, pat, items[1..], Next(items[0], caps, i), j')
  }

  /** The best match of the rest, after the best end for the first item that leads to one. */
  lemma Chosen(src: Str, pat: Str, items: seq<Item>, caps: seq<Capture>, i: nat, j: nat, rest: seq<nat>)
    requires ItemsOk(pat, items) && items != []
    requires ItemOk(pat, items[0]) && ItemsOk(pat, items[1..])
    requires Accepts(src, pat, items[0], caps, i, j) && NoBetter(src, pat, items, caps, i, j)
    requires IsBest(src, pat, items[1..], Next(items[0], caps, i), j, rest)
    ensures IsBest(src, pat, items, caps, i, [i] + rest)
    ensures Captured(items, caps, [i] + rest) == Captured(items[1..], Next(items[0], caps, i), rest)
  {
    var a := [i] + rest;
    assert a[1..] == rest;
    hide Accepts, Captured, NoMatch, Prefers;
    forall b: seq<nat> | Matches(src, pat, items, caps, b) && b[0] == i ensures AsGood(items, a, b) {
      SplitRest(src, pat, items, caps, b);
    }
  }

  /** No end for the first item leads to a match. */
  lemma NoneChosen(src: Str, pat: Str, items: seq<Item>, caps: seq<Capture>, i: nat)
    requires ItemsOk(pat, items) && items != []
    requires ItemOk(pat, items[0]) && ItemsOk(pat, items[1..])
    requires forall j: nat :: Accepts(src, pat, items[0], caps, i, j) ==>
      NoMatch(src, pat, items[1..], Next(items[0], caps, i), j)
    ensures NoMatch(src, pat, items, caps, i)
  {
    forall b: seq<nat> | Matches(src, pat, items, caps, b) ensures b[0] != i {
      hide NoMatch, Accepts, Matches;
      SplitRest(src, pat, items, caps, b);
    }
  }

  /** The best match is the only best one. */
  lemma {:induction false} BestUnique(src: Str, pat: Str, items: seq<Item>, caps: seq<Capture>, i: nat, a: seq<nat>,
        b: seq<nat>)
    requires ItemsOk(pat, items) && IsBest(src, pat, items, caps, i, a) && IsBest(src, pat, items, caps, i, b)
    ensures a == b
  {
    assert AsGood(items, a, b) && AsGood(items, b, a);
    BothAsGood(items, a, b);
  }

  lemma {:induction false} BothAsGood(items: seq<Item>, a: seq<nat>, b: seq<nat>)
    requires |a| == |b| == |items| + 1 && a[0] == b[0] && AsGood(items, a, b) && AsGood(items, b, a)
    ensures a == b
    decreases |items|
  {
    if items != [] {
      BothAsGood(items[1..], a[1..], b[1..]);
      assert a == [a[0]] + a[1..] && b == [b[0]] + b[1..];
    }
  }

  // ----- the captures along a match -----

  function StatusOf(c: Capture): Status {
    if c.len == UNFINISHED then Unfinished else if c.len == POSITION then Pos else Closed
  }

  function Statuses(caps: seq<Capture>): seq<Status> {
    seq(|caps|, k requires 0 <= k < |caps| => StatusOf(caps[k]))
  }

  lemma {:induction false} ToCloseSame(caps: seq<Capture>)
    ensures ToClose(caps) == ToCloseIn(Statuses(caps))
  {
    if caps != [] {
      var front := caps[..|caps| - 1];
      ToCloseSame(front);
      assert Statuses(caps)[..|caps| - 1] == Statuses(front);
    }
  }

  /** Captures lie before the place matching has come to. */
  ghost predicate CapturesIn(caps: seq<Capture>, i: nat) {
    forall k: nat :: k < |caps| ==> POSITION <= caps[k].len && caps[k].init <= i && caps[k].init + caps[k].len <= i
  }

  /** What an item that can be used finds. */
  lemma NextWell(item: Item, caps: seq<Capture>, i: nat)
    requires ItemWell(item, Statuses(caps)) && CapturesIn(caps, i)
    ensures Statuses(Next(item, caps, i)) == NextStatus(item, Statuses(caps))
    ensures item.Close? ==> ToClose(caps) >= 0
    ensures item.Open? || item.Position? ==> |caps| < MAXCAPTURES
    ensures item.Back? ==> 0 <= item.l < |caps| && caps[item.l].len != UNFINISHED
  {
    ToCloseSame(caps);
    NextStatuses(item, caps, i);
    assert item.Back? ==> 0 <= item.l < |caps| && Statuses(caps)[item.l] == StatusOf(caps[item.l]);
    hide Statuses, Next, ToClose, ToCloseIn;
  }

  lemma NextStatuses(item: Item, caps: seq<Capture>, i: nat)
    requires CapturesIn(caps, i)
    ensures Statuses(Next(item, caps, i)) ==
      if item.Open? then Statuses(caps) + [Unfinished]
      else if item.Position? then Statuses(caps) + [Pos]
      else if item.Close? && ToClose(caps) >= 0 then Statuses(caps)[ToClose(caps) := Closed]
      else Statuses(caps)
  {
  }

  lemma NextIn(item: Item, caps: seq<Capture>, i: nat, j: nat)
    requires CapturesIn(caps, i) && i <= j
    ensures CapturesIn(Next(item, caps, i), j)
  {
  }
}

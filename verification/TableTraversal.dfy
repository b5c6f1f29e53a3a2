/** Length and traversal of tables. */
module TableTraversal {
  import opened Common
  import opened LuaValues
  import opened TableNodes
  import opened TableCounts
  import opened TableSizes
  import opened TableContents
  import opened LuaTable

  const MAX_INT: nat := 0x7FFF_FFFF

  // ----- the length -----

  /** An index that has a value, or 0, whose successor has none. */
  ghost predicate Border(a: seq<Value>, ns: seq<Node>, n: nat) {
    Present(a, ns, n) && AtIn(a, ns, Integer(n + 1)) == Nil
  }

  ghost predicate Present(a: seq<Value>, ns: seq<Node>, n: nat) {
    n == 0 || AtIn(a, ns, Integer(n)) != Nil
  }

  /** A run of present keys is no longer than the table. */
  lemma {:induction false} RunBound(a: seq<Value>, ns: seq<Node>, n: nat)
    requires UniqueKeys(ns) && forall x: nat :: 1 <= x <= n ==> AtIn(a, ns, Integer(x)) != Nil
    ensures n <= CountArr(a, 0, n) + CountNodes(ns, 0, n)
    ensures n <= |a| + |ns|
  {
    if n > 0 {
      RunBound(a, ns, n - 1);
      assert AtIn(a, ns, Integer(n)) != Nil;
      CountNodesSplit(ns, 0, n - 1, n);
      if n > |a| { FoundCounts(ns, n); }
    }
    OutsideRest(ns, n);
    if n <= |a| {
      CountArrBound(a, 0, n);
    } else {
      CountArrSplit(a, 0, |a|, n);
      CountArrBeyond(a, |a|, n);
      CountArrBound(a, 0, |a|);
    }
  }

  lemma FoundCounts(ns: seq<Node>, n: nat)
    requires n > 0 && Lookup(ns, Integer(n)) != Nil
    ensures CountNodes(ns, n - 1, n) >= 1
  {
    var i: nat :| i < |ns| && ns[i].key == Integer(n) && ns[i].val != Nil;
    CountedNode(ns, i, n);
  }

  lemma {:induction false} CountedNode(ns: seq<Node>, i: nat, n: nat)
    requires n > 0 && i < |ns| && ns[i].key == Integer(n) && ns[i].val != Nil
    ensures CountNodes(ns, n - 1, n) >= 1
  {
    if i > 0 { CountedNode(ns[1..], i - 1, n); }
  }

  lemma PresentIs(a: seq<Value>, ns: seq<Node>)
    ensures forall n: nat :: Present(a, ns, n) <==> n == 0 || AtIn(a, ns, Integer(n)) != Nil
    ensures forall n: nat :: Border(a, ns, n) <==> Present(a, ns, n) && AtIn(a, ns, Integer(n + 1)) == Nil
  {
  }

  /** The value of an integer key. */
  method GetInt(t: Table, i: nat) returns (v: Value)
    requires t.Valid()
    ensures v == AtIn(t.arr[..], t.node[..], Integer(i))
  {
    v := t.Get(Integer(i));
  }

  method UnboundSearch(t: Table, from: nat) returns (n: nat)
    requires t.Valid() && Present(t.arr[..], t.node[..], from)
    ensures Border(t.arr[..], t.node[..], n)
  {
    ghost var a, ns := t.arr[..], t.node[..];
    hide *;
    PresentIs(a, ns);
    var i: nat, j: nat := from, from + 1;
    var v := GetInt(t, j);
    while v != Nil
      invariant i < j && Present(a, ns, i) && v == AtIn(a, ns, Integer(j))
      decreases if j > MAX_INT then 0 else MAX_INT + 1 - j
    {
      i := j;
      if j > MAX_INT / 2 {
        n := LinearSearch(t);
        return;
      }
      j := j * 2;
      v := GetInt(t, j);
    }
    n := BinarySearch(t, i, j);
  }

  function Mid(i: nat, j: nat): (m: nat)
    requires j - i > 1
    ensures i < m < j
  {
    (i + j) / 2
  }

  /** Halves the distance between a present index, or 0, and an absent one. */
  method BinarySearch(t: Table, from: nat, to: nat) returns (n: nat)
    requires t.Valid() && from < to
    requires Present(t.arr[..], t.node[..], from) && AtIn(t.arr[..], t.node[..], Integer(to)) == Nil
    ensures Border(t.arr[..], t.node[..], n)
  {
    ghost var a, ns := t.arr[..], t.node[..];
    hide *;
    PresentIs(a, ns);
    var i: nat, j: nat := from, to;
    while j - i > 1
      invariant i < j && Present(a, ns, i) && AtIn(a, ns, Integer(j)) == Nil
    {
      var m := Mid(i, j);
      var v := GetInt(t, m);
      if v == Nil { j := m; } else { i := m; }
    }
    return i;
  }

  method LinearSearch(t: Table) returns (n: nat)
    requires t.Valid()
    ensures Border(t.arr[..], t.node[..], n)
  {
    ghost var a, ns := t.arr[..], t.node[..];
    assert UniqueKeys(ns);
    hide *;
    PresentIs(a, ns);
    var i: nat := 1;
    var v := GetInt(t, i);
    while v != Nil
      invariant i >= 1 && v == AtIn(a, ns, Integer(i))
      invariant forall x: nat :: 1 <= x < i ==> AtIn(a, ns, Integer(x)) != Nil
      decreases |a| + |ns| - i
    {
      RunBound(a, ns, i);
      i := i + 1;
      v := GetInt(t, i);
    }
    return i - 1;
  }

  /** The length of a table is one of its borders. */
  method GetN(t: Table) returns (n: nat)
    requires t.Valid()
    ensures Border(t.arr[..], t.node[..], n)
  {
    ghost var a, ns := t.arr[..], t.node[..];
    var j := t.arr.Length;
    if j > 0 && t.arr[j - 1] == Nil {
      var i := 0;
      while j - i > 1
        invariant 0 <= i < j <= t.arr.Length && t.arr[..] == a
        invariant (i == 0 || t.arr[i - 1] != Nil) && t.arr[j - 1] == Nil
      {
        var m := (i + j) / 2;
        if t.arr[m - 1] == Nil { j := m; } else { i := m; }
      }
      return i;
    }
    if t.dummy {
      LookupNone(ns, Integer(j + 1));
      return j;
    }
    n := UnboundSearch(t, j);
  }

  // ----- traversal -----

  /** Positions number the array part first, then the nodes. */
  function KeyAt(a: seq<Value>, ns: seq<Node>, p: nat): Value
    requires p < |a| + |ns|
  {
    if p < |a| then Integer(p + 1) else ns[p - |a|].key
  }

  function ValAt(a: seq<Value>, ns: seq<Node>, p: nat): Value
    requires p < |a| + |ns|
  {
    if p < |a| then a[p] else ns[p - |a|].val
  }

  /** The first entry with a value from position p on. */
  function FirstFrom(a: seq<Value>, ns: seq<Node>, p: nat): Option<nat>
    requires p <= |a| + |ns|
    decreases |a| + |ns| - p
  {
    if p == |a| + |ns| then None else if ValAt(a, ns, p) != Nil then Some(p) else FirstFrom(a, ns, p + 1)
  }

  datatype NextResult = Done | Entry(key: Value, val: Value) | InvalidKey

  /** What `next` gives for a key: the first entry after it. */
  ghost predicate IsNext(a: seq<Value>, ns: seq<Node>, key: Value, n: NextResult) {
    if key == Nil then
      n == EntryFrom(a, ns, 0)
    else if exists p: nat :: p < |a| + |ns| && KeyAt(a, ns, p) == key then
      exists p: nat :: p < |a| + |ns| && KeyAt(a, ns, p) == key && n == EntryFrom(a, ns, p + 1)
    else
      n == InvalidKey
  }

  function EntryFrom(a: seq<Value>, ns: seq<Node>, p: nat): NextResult
    requires p <= |a| + |ns|
  {
    match FirstFrom(a, ns, p)
    case None => Done
    case Some(q) => FirstFromIs(a, ns, p); Entry(KeyAt(a, ns, q), ValAt(a, ns, q))
  }

  lemma {:induction false} FirstFromIs(a: seq<Value>, ns: seq<Node>, p: nat)
    requires p <= |a| + |ns|
    ensures FirstFrom(a, ns, p).Some? ==> p <= FirstFrom(a, ns, p).value < |a| + |ns|
    ensures FirstFrom(a, ns, p).Some? ==> ValAt(a, ns, FirstFrom(a, ns, p).value) != Nil
    decreases |a| + |ns| - p
  {
    if p < |a| + |ns| && ValAt(a, ns, p) == Nil { FirstFromIs(a, ns, p + 1); }
  }

  /** The position after a key; none if the table never had the key. */
  method FindIndex(t: Table, key: Value) returns (i: Option<nat>)
    requires t.Valid()
    ensures key == Nil ==> i == Some(0)
    ensures key != Nil && i.Some? ==>
      0 < i.value <= t.arr.Length + t.node.Length && KeyAt(t.arr[..], t.node[..], i.value - 1) == key
    ensures key != Nil && i.None? ==> forall p: nat :: p < t.arr.Length + t.node.Length ==>
      KeyAt(t.arr[..], t.node[..], p) != key
  {
    if key == Nil {
      return Some(0);
    }
    if t.InArray(key) {
      return Some(key.i);
    }
    var found := t.FindNode(key);
    match found
    case Some(n) => return Some(n + 1 + t.arr.Length);
    case None => return None;
  }

  lemma EntryStep(a: seq<Value>, ns: seq<Node>, p: nat)
    requires p <= |a| + |ns|
    ensures EntryFrom(a, ns, p) == if p == |a| + |ns| then Done
      else if ValAt(a, ns, p) != Nil then Entry(KeyAt(a, ns, p), ValAt(a, ns, p)) else EntryFrom(a, ns, p + 1)
  {
  }

  /** The first entry from a position on. */
  method NextFrom(t: Table, start: nat) returns (n: NextResult)
    requires start <= t.arr.Length + t.node.Length
    ensures n == EntryFrom(t.arr[..], t.node[..], start)
  {
    hide FirstFrom, EntryFrom;
    ghost var a, ns := t.arr[..], t.node[..];
    var i := start;
    while i < t.arr.Length
      invariant start <= i <= |a| + |ns| && EntryFrom(a, ns, i) == EntryFrom(a, ns, start)
    {
      EntryStep(a, ns, i);
      if t.arr[i] != Nil {
        return Entry(Integer(i + 1), t.arr[i]);
      }
      i := i + 1;
    }
    i := i - t.arr.Length;
    while i < t.node.Length
      invariant 0 <= i <= |ns| && EntryFrom(a, ns, i + |a|) == EntryFrom(a, ns, start)
    {
      EntryStep(a, ns, i + |a|);
      if t.node[i].val != Nil {
        return Entry(t.node[i].key, t.node[i].val);
      }
      i := i + 1;
    }
    EntryStep(a, ns, i + |a|);
    return Done;
  }

  method Next(t: Table, key: Value) returns (n: NextResult)
    requires t.Valid()
    ensures IsNext(t.arr[..], t.node[..], key, n)
  {
    var start := FindIndex(t, key);
    NextIs(t.arr[..], t.node[..], key, start);
    hide *;
    if start.None? {
      return InvalidKey;
    }
    n := NextFrom(t, start.value);
  }

  /** What FindIndex promises is what `next` needs. */
  lemma NextIs(a: seq<Value>, ns: seq<Node>, key: Value, start: Option<nat>)
    requires key == Nil ==> start == Some(0)
    requires key != Nil && start.Some? ==> 0 < start.value <= |a| + |ns| && KeyAt(a, ns, start.value - 1) == key
    requires key != Nil && start.None? ==> forall p: nat :: p < |a| + |ns| ==> KeyAt(a, ns, p) != key
    ensures start.Some? ==> start.value <= |a| + |ns| && IsNext(a, ns, key, EntryFrom(a, ns, start.value))
    ensures start.None? ==> IsNext(a, ns, key, InvalidKey)
  {
    hide EntryFrom;
    if key != Nil && start.Some? {
      var p: nat := start.value - 1;
      assert KeyAt(a, ns, p) == key;
    }
  }

  /** The positions a traversal visits from p on. */
  function Visited(a: seq<Value>, ns: seq<Node>, p: nat): seq<nat>
    requires p <= |a| + |ns|
    decreases |a| + |ns| - p
  {
    match FirstFrom(a, ns, p)
    case None => []
    case Some(q) => FirstFromIs(a, ns, p); [q] + Visited(a, ns, q + 1)
  }

  /** Exactly the positions with a value are visited, in increasing order. */
  lemma {:induction false} VisitedAll(a: seq<Value>, ns: seq<Node>, p: nat)
    requires p <= |a| + |ns|
    ensures forall q: nat :: q in Visited(a, ns, p) <==> p <= q < |a| + |ns| && ValAt(a, ns, q) != Nil
    ensures forall i: nat, j: nat :: i < j < |Visited(a, ns, p)| ==> Visited(a, ns, p)[i] < Visited(a, ns, p)[j]
    decreases |a| + |ns| - p
  {
    if p < |a| + |ns| {
      if ValAt(a, ns, p) != Nil {
        VisitedAll(a, ns, p + 1);
        var rest := Visited(a, ns, p + 1);
        assert Visited(a, ns, p) == [p] + rest;
        assert forall i: nat :: i < |rest| ==> rest[i] in rest;
      } else {
        VisitedAll(a, ns, p + 1);
        assert Visited(a, ns, p) == Visited(a, ns, p + 1);
      }
    }
  }

  /** A traversal visits every key with a value once, with that value, and no other. */
  lemma TraversalIsComplete(r: Rules, a: seq<Value>, ns: seq<Node>)
    requires UniqueKeys(ns) && KeysOk(r, |a|, ns) && forall i: nat :: i < |ns| && ns[i].key == Nil ==> ns[i].val == Nil
    ensures forall q :: AtIn(a, ns, q) != Nil ==> exists i: nat :: i < |Visited(a, ns, 0)| && VisitedKey(a, ns, i) == q
    ensures forall i: nat :: i < |Visited(a, ns, 0)| ==>
      AtIn(a, ns, VisitedKey(a, ns, i)) == VisitedVal(a, ns, i) != Nil
    ensures forall i: nat, j: nat :: i < j < |Visited(a, ns, 0)| ==> VisitedKey(a, ns, i) != VisitedKey(a, ns, j)
  {
    VisitedAll(a, ns, 0);
    var vs := Visited(a, ns, 0);
    forall q | AtIn(a, ns, q) != Nil ensures exists i: nat :: i < |vs| && VisitedKey(a, ns, i) == q {
      var p := Position(a, ns, q);
      assert p in vs;
      var i: nat :| i < |vs| && vs[i] == p;
      assert VisitedKey(a, ns, i) == q;
    }
    forall i: nat | i < |vs| ensures AtIn(a, ns, VisitedKey(a, ns, i)) == VisitedVal(a, ns, i) != Nil {
      assert vs[i] in vs;
      AtPosition(r, a, ns, vs[i]);
    }
    forall i: nat, j: nat | i < j < |vs| ensures VisitedKey(a, ns, i) != VisitedKey(a, ns, j) {
      assert vs[i] in vs && vs[j] in vs && vs[i] < vs[j];
      KeysDiffer(r, a, ns, vs[i], vs[j]);
    }
  }

  function VisitedKey(a: seq<Value>, ns: seq<Node>, i: nat): Value
    requires i < |Visited(a, ns, 0)|
  {
    VisitedAll(a, ns, 0);
    assert Visited(a, ns, 0)[i] in Visited(a, ns, 0);
    KeyAt(a, ns, Visited(a, ns, 0)[i])
  }

  function VisitedVal(a: seq<Value>, ns: seq<Node>, i: nat): Value
    requires i < |Visited(a, ns, 0)|
  {
    VisitedAll(a, ns, 0);
    assert Visited(a, ns, 0)[i] in Visited(a, ns, 0);
    ValAt(a, ns, Visited(a, ns, 0)[i])
  }

  ghost function Position(a: seq<Value>, ns: seq<Node>, q: Value): (p: nat)
    requires AtIn(a, ns, q) != Nil
    ensures p < |a| + |ns| && KeyAt(a, ns, p) == q && ValAt(a, ns, p) != Nil
  {
    if KeyIn(q, 0, |a|) then q.i - 1 else
      var i: nat :| i < |ns| && ns[i].key == q && ns[i].val != Nil; i + |a|
  }

  lemma AtPosition(r: Rules, a: seq<Value>, ns: seq<Node>, p: nat)
    requires UniqueKeys(ns) && KeysOk(r, |a|, ns) && p < |a| + |ns| && ValAt(a, ns, p) != Nil
    requires forall i: nat :: i < |ns| && ns[i].key == Nil ==> ns[i].val == Nil
    ensures AtIn(a, ns, KeyAt(a, ns, p)) == ValAt(a, ns, p)
  {
    if p >= |a| { LookupAt(ns, p - |a|); }
  }

  lemma KeysDiffer(r: Rules, a: seq<Value>, ns: seq<Node>, p: nat, q: nat)
    requires UniqueKeys(ns) && KeysOk(r, |a|, ns) && p < q < |a| + |ns|
    requires ValAt(a, ns, p) != Nil && forall i: nat :: i < |ns| && ns[i].key == Nil ==> ns[i].val == Nil
    ensures KeyAt(a, ns, p) != KeyAt(a, ns, q)
  {
    if p < |a| <= q && ns[q - |a|].key != Nil {
      assert !KeyIn(ns[q - |a|].key, 0, |a|) && KeyIn(Integer(p + 1), 0, |a|);
    }
  }

  lemma {:induction false} VisitedNext(a: seq<Value>, ns: seq<Node>, p: nat, i: nat)
    requires p <= |a| + |ns| && i < |Visited(a, ns, p)| && Visited(a, ns, p)[i] < |a| + |ns|
    ensures FirstFrom(a, ns, Visited(a, ns, p)[i] + 1) ==
      if i + 1 < |Visited(a, ns, p)| then Some(Visited(a, ns, p)[i + 1]) else None
    decreases i
  {
    var q := FirstFrom(a, ns, p).value;
    FirstFromIs(a, ns, p);
    assert Visited(a, ns, p) == [q] + Visited(a, ns, q + 1);
    if i > 0 { VisitedNext(a, ns, q + 1, i - 1); }
  }

  /** Calling `next` on each visited key in turn gives the visited entries in turn. */
  lemma TraversalFollowsNext(r: Rules, a: seq<Value>, ns: seq<Node>, i: nat, n: NextResult)
    requires UniqueKeys(ns) && KeysOk(r, |a|, ns) && forall x: nat :: x < |ns| && ns[x].key == Nil ==> ns[x].val == Nil
    requires i < |Visited(a, ns, 0)| && IsNext(a, ns, VisitedKey(a, ns, i), n)
    ensures n == if i + 1 < |Visited(a, ns, 0)| then Entry(VisitedKey(a, ns, i + 1), VisitedVal(a, ns, i + 1)) else Done
  {
    hide *;
    VisitedIs(a, ns, i);
    var p := Visited(a, ns, 0)[i];
    VisitedNext(a, ns, 0, i);
    HasKey(a, ns, p);
    NextPosition(r, a, ns, p, n);
    EntryIs(a, ns, p + 1);
    if i + 1 < |Visited(a, ns, 0)| { VisitedIs(a, ns, i + 1); }
  }

  lemma HasKey(a: seq<Value>, ns: seq<Node>, p: nat)
    requires p < |a| + |ns| && ValAt(a, ns, p) != Nil
    requires forall x: nat :: x < |ns| && ns[x].key == Nil ==> ns[x].val == Nil
    ensures KeyAt(a, ns, p) != Nil
  {
  }

  lemma EntryIs(a: seq<Value>, ns: seq<Node>, p: nat)
    requires p <= |a| + |ns|
    ensures FirstFrom(a, ns, p) == None ==> EntryFrom(a, ns, p) == Done
    ensures FirstFrom(a, ns, p).Some? ==> var q := FirstFrom(a, ns, p).value;
      q < |a| + |ns| && EntryFrom(a, ns, p) == Entry(KeyAt(a, ns, q), ValAt(a, ns, q))
  {
    FirstFromIs(a, ns, p);
  }

  lemma VisitedIs(a: seq<Value>, ns: seq<Node>, i: nat)
    requires i < |Visited(a, ns, 0)|
    ensures Visited(a, ns, 0)[i] < |a| + |ns| && ValAt(a, ns, Visited(a, ns, 0)[i]) != Nil
    ensures VisitedKey(a, ns, i) == KeyAt(a, ns, Visited(a, ns, 0)[i])
    ensures VisitedVal(a, ns, i) == ValAt(a, ns, Visited(a, ns, 0)[i])
  {
    VisitedAll(a, ns, 0);
    assert Visited(a, ns, 0)[i] in Visited(a, ns, 0);
  }

  lemma NextPosition(r: Rules, a: seq<Value>, ns: seq<Node>, p: nat, n: NextResult)
    requires UniqueKeys(ns) && KeysOk(r, |a|, ns) && p < |a| + |ns| && KeyAt(a, ns, p) != Nil
    requires IsNext(a, ns, KeyAt(a, ns, p), n)
    ensures n == EntryFrom(a, ns, p + 1)
  {
    var key := KeyAt(a, ns, p);
    var q: nat :| q < |a| + |ns| && KeyAt(a, ns, q) == key && n == EntryFrom(a, ns, q + 1);
    SamePosition(r, a, ns, p, q);
  }

  lemma SamePosition(r: Rules, a: seq<Value>, ns: seq<Node>, p: nat, q: nat)
    requires UniqueKeys(ns) && KeysOk(r, |a|, ns) && p < |a| + |ns| && q < |a| + |ns|
    requires KeyAt(a, ns, p) == KeyAt(a, ns, q) != Nil
    ensures p == q
  {
  }
}

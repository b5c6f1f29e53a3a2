/** What a node vector holds, and how much of it is in use. */
module TableCounts {
  import opened Common
  import opened LuaValues
  import opened TableNodes

  /** The value of a key; nil if it has none. */
  ghost function Lookup(ns: seq<Node>, k: Value): Value {
    if i: nat :| i < |ns| && ns[i].key == k then ns[i].val else Nil
  }

  lemma LookupAt(ns: seq<Node>, i: nat)
    requires UniqueKeys(ns) && i < |ns| && ns[i].key != Nil
    ensures Lookup(ns, ns[i].key) == ns[i].val
  {
  }

  lemma LookupNone(ns: seq<Node>, k: Value)
    requires forall i: nat :: i < |ns| ==> ns[i].key != k
    ensures Lookup(ns, k) == Nil
  {
  }

  /** The same keys with the same values, apart from dead keys and a new one without value. */
  ghost predicate SameLive(ns: seq<Node>, ns': seq<Node>, k: Value) {
    && (forall i: nat :: i < |ns| && ns[i].key != Nil && ns[i].val != Nil ==>
          exists j: nat :: j < |ns'| && ns'[j].key == ns[i].key && ns'[j].val == ns[i].val)
    && (forall j: nat :: j < |ns'| && ns'[j].key != Nil && ns'[j].key != k ==>
          exists i: nat :: i < |ns| && ns[i].key == ns'[j].key && ns[i].val == ns'[j].val)
    && (forall j: nat :: j < |ns'| && ns'[j].key == k ==> ns'[j].val == Nil)
    && (forall i: nat :: i < |ns| ==> ns[i].key != k)
  }

  lemma SameLookup(ns: seq<Node>, ns': seq<Node>, k: Value, q: Value)
    requires SameLive(ns, ns', k) && UniqueKeys(ns) && UniqueKeys(ns') && q != Nil
    ensures Lookup(ns', q) == Lookup(ns, q)
  {
  }

  lemma PutHereSame(ns: seq<Node>, m: nat, k: Value)
    requires m < |ns| && ns[m].val == Nil && k != Nil && forall i: nat :: i < |ns| ==> ns[i].key != k
    ensures SameLive(ns, PutHere(ns, m, k), k)
  {
    var ns' := PutHere(ns, m, k);
    forall i: nat | i < |ns| && ns[i].key != Nil && ns[i].val != Nil
      ensures exists j: nat ::
        j < |ns'| && ns'[j].key == ns[i].key && ns'[j].val == ns[i].val { assert ns'[i] == ns[i]; }
    forall j: nat | j < |ns'| && ns'[j].key != Nil && ns'[j].key != k
      ensures exists i: nat ::
        i < |ns| && ns[i].key == ns'[j].key && ns[i].val == ns'[j].val { assert ns[j] == ns'[j]; }
  }

  lemma PutAfterSame(ns: seq<Node>, m: nat, f: nat, k: Value)
    requires m < |ns| && f < |ns| && f != m && ns[f] == EMPTY && k != Nil && forall i: nat :: i < |ns| ==>
      ns[i].key != k
    ensures SameLive(ns, PutAfter(ns, m, f, k), k)
  {
    var ns' := PutAfter(ns, m, f, k);
    forall i: nat | i < |ns| && ns[i].key != Nil && ns[i].val != Nil
      ensures exists j: nat ::
        j < |ns'| && ns'[j].key == ns[i].key && ns'[j].val == ns[i].val { assert ns'[i].key == ns[i].key; }
    forall j: nat | j < |ns'| && ns'[j].key != Nil && ns'[j].key != k
      ensures exists i: nat ::
        i < |ns| && ns[i].key == ns'[j].key && ns[i].val == ns'[j].val { assert ns[j].key == ns'[j].key; }
  }

  lemma MoveSame(ns: seq<Node>, rank: seq<nat>, p: nat, m: nat, f: nat, k: Value)
    requires Movable(ns, rank, p, m, f, k) && forall i: nat :: i < |ns| ==> ns[i].key != k
    ensures SameLive(ns, Move(ns, p, m, f, k), k)
  {
    var ns' := Move(ns, p, m, f, k);
    MoveLinks(ns, rank, p, m, f, k, p);
    MoveNew(ns, p, m, f, k);
    hide Move, Movable, Ranked, SinglePred, LinksOk;
    forall i: nat | i < |ns| && ns[i].key != Nil && ns[i].val != Nil
      ensures exists j: nat :: j < |ns'| && ns'[j].key == ns[i].key && ns'[j].val == ns[i].val
    {
      MoveBack(ns, rank, p, m, f, k, i);
    }
    forall j: nat | j < |ns'| && ns'[j].key != Nil && ns'[j].key != k
      ensures exists i: nat :: i < |ns| && ns[i].key == ns'[j].key && ns[i].val == ns'[j].val
    {
      MoveKey(ns, rank, p, m, f, k, j);
    }
    forall j: nat | j < |ns'| && ns'[j].key == k ensures ns'[j].val == Nil {
      if j != m { MoveKey(ns, rank, p, m, f, k, j); }
    }
  }

  /** A used node is still there after the move, perhaps at f. */
  lemma MoveBack(ns: seq<Node>, rank: seq<nat>, p: nat, m: nat, f: nat, k: Value, i: nat)
    requires Movable(ns, rank, p, m, f, k) && i < |ns| && ns[i].key != Nil
    ensures var ns' := Move(ns, p, m, f, k); var j := if i == m then f else i;
      |ns'| == |ns| && ns'[j].key == ns[i].key && ns'[j].val == ns[i].val
  {
  }

  // ----- how many nodes are used -----

  function Used(ns: seq<Node>): nat {
    if ns == [] then 0 else (if ns[0].key != Nil then 1 else 0) + Used(ns[1..])
  }

  lemma {:induction false} UsedUpdate(ns: seq<Node>, i: nat, x: Node)
    requires i < |ns|
    ensures Used(ns[i := x]) == Used(ns) - Bit(ns[i].key != Nil) + Bit(x.key != Nil)
  {
    if i == 0 {
      assert ns[i := x][1..] == ns[1..];
    } else {
      assert ns[i := x][1..] == ns[1..][i - 1 := x];
      UsedUpdate(ns[1..], i - 1, x);
    }
  }

  /** A vector that is not full has an unused node. */
  lemma {:induction false} UsedBound(ns: seq<Node>)
    ensures Used(ns) <= |ns|
    ensures Used(ns) < |ns| ==> exists i: nat :: i < |ns| && ns[i].key == Nil
  {
    if ns != [] {
      UsedBound(ns[1..]);
      if ns[0].key != Nil && Used(ns) < |ns| {
        var i: nat :| i < |ns[1..]| && ns[1..][i].key == Nil;
        assert ns[i + 1].key == Nil;
      }
    }
  }

  ghost predicate AllEmpty(ns: seq<Node>) {
    forall i: nat :: i < |ns| ==> ns[i] == EMPTY
  }

  lemma {:induction false} UsedEmpty(ns: seq<Node>)
    requires AllEmpty(ns)
    ensures Used(ns) == 0
    decreases |ns|
  {
    if ns != [] { UsedEmpty(ns[1..]); }
  }

  /** A new vector of empty nodes. */
  lemma EmptyOk(h: (Value, nat) -> nat, ns: seq<Node>)
    requires ns != [] && AllEmpty(ns)
    ensures NodesOk(h, ns, seq(|ns|, _ => 0))
    ensures forall q :: Lookup(ns, q) == Nil
  {
  }
}

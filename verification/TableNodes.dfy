/** The hash part of a table: a chained scatter table whose links are relative offsets
    between nodes of one vector, with Brent's variation. */
module TableNodes {
  import opened LuaValues

  /** `next` is the distance to the next node of the chain, 0 at its end. A node with a nil
      key has never been used; one with a key and a nil value is dead but still linked. */
  datatype Node = Node(key: Value, val: Value, next: int)

  const EMPTY := Node(Nil, Nil, 0)

  /** Where the hash of a key puts it among n nodes. */
  function Main(h: (Value, nat) -> nat, k: Value, n: nat): (p: nat)
    requires n > 0
    ensures p < n
  {
    h(k, n) % n
  }

  predicate Linked(ns: seq<Node>, i: nat)
    requires i < |ns|
  {
    ns[i].next != 0
  }

  function Succ(ns: seq<Node>, i: nat): int
    requires i < |ns|
  {
    i + ns[i].next
  }

  /** Links stay inside the vector and lead to used nodes; unused nodes are not linked. */
  ghost predicate LinksOk(ns: seq<Node>) {
    && (forall i: nat :: i < |ns| && Linked(ns, i) ==> 0 <= Succ(ns, i) < |ns| && ns[Succ(ns, i)].key != Nil)
    && (forall i: nat :: i < |ns| && ns[i].key == Nil ==> ns[i] == EMPTY)
  }

  /** Following links a rank goes down, so there are no cycles. */
  ghost predicate Ranked(ns: seq<Node>, rank: seq<nat>) {
    && LinksOk(ns) && |rank| == |ns|
    && forall i: nat :: i < |ns| && Linked(ns, i) ==> rank[Succ(ns, i)] < rank[i]
  }

  /** Following links from i leads to j. */
  ghost predicate Reach(ns: seq<Node>, rank: seq<nat>, i: nat, j: nat)
    requires Ranked(ns, rank) && i < |ns|
    decreases rank[i]
  {
    i == j || (Linked(ns, i) && Reach(ns, rank, Succ(ns, i), j))
  }

  /** No two nodes are followed by the same node. */
  ghost predicate SinglePred(ns: seq<Node>) {
    forall i: nat, j: nat :: i < j < |ns| && Linked(ns, i) && Linked(ns, j) ==> Succ(ns, i) != Succ(ns, j)
  }

  ghost predicate UniqueKeys(ns: seq<Node>) {
    forall i: nat, j: nat :: i < j < |ns| && ns[i].key != Nil ==> ns[i].key != ns[j].key
  }

  /** Every key is on the chain that starts at its main position. */
  ghost predicate KeysReached(h: (Value, nat) -> nat, ns: seq<Node>, rank: seq<nat>)
    requires Ranked(ns, rank)
  {
    forall i: nat :: i < |ns| && ns[i].key != Nil ==> Reach(ns, rank, Main(h, ns[i].key, |ns|), i)
  }

  /** Brent's variation: if a key is not in its main position, the key there is in its own. */
  ghost predicate Brent(h: (Value, nat) -> nat, ns: seq<Node>) {
    forall i: nat :: i < |ns| && ns[i].key != Nil ==>
      var m := Main(h, ns[i].key, |ns|);
      ns[m].key != Nil && Main(h, ns[m].key, |ns|) == m
  }

  ghost predicate NodesOk(h: (Value, nat) -> nat, ns: seq<Node>, rank: seq<nat>) {
    |ns| > 0 && Ranked(ns, rank) && SinglePred(ns) && UniqueKeys(ns) && KeysReached(h, ns, rank) && Brent(h, ns)
  }

  // ----- a key in an unused or dead main position -----

  function PutHere(ns: seq<Node>, m: nat, k: Value): seq<Node>
    requires m < |ns|
  {
    ns[m := ns[m].(key := k)]
  }

  /** Reaching does not depend on keys. */
  lemma {:induction false} ReachSameLinks(ns: seq<Node>, ns': seq<Node>, rank: seq<nat>, i: nat, j: nat)
    requires Ranked(ns, rank) && Ranked(ns', rank) && |ns| == |ns'| && i < |ns| && Reach(ns, rank, i, j)
    requires forall x: nat :: x < |ns| ==> ns'[x].next == ns[x].next
    ensures Reach(ns', rank, i, j)
    decreases rank[i]
  {
    if i != j { ReachSameLinks(ns, ns', rank, Succ(ns, i), j); }
  }

  lemma PutHereOk(h: (Value, nat) -> nat, ns: seq<Node>, rank: seq<nat>, m: nat, k: Value)
    requires NodesOk(h, ns, rank) && k != Nil && m == Main(h, k, |ns|) && ns[m].val == Nil
    requires forall i: nat :: i < |ns| ==> ns[i].key != k
    ensures NodesOk(h, PutHere(ns, m, k), rank)
  {
    var ns' := PutHere(ns, m, k);
    assert LinksOk(ns') by {
      forall i: nat | i < |ns'| && Linked(ns', i) ensures 0 <= Succ(ns', i) < |ns'| && ns'[Succ(ns', i)].key != Nil {
        assert Linked(ns, i) && Succ(ns, i) == Succ(ns', i);
      }
    }
    assert Ranked(ns', rank) by {
      forall i: nat | i < |ns'| && Linked(ns', i)
        ensures rank[Succ(ns', i)] < rank[i] { assert Linked(ns, i) && Succ(ns, i) == Succ(ns', i); }
    }
    forall i: nat, j: nat | i < j < |ns'| && Linked(ns', i) && Linked(ns', j) ensures Succ(ns', i) != Succ(ns', j) {
      assert Linked(ns, i) && Linked(ns, j) && Succ(ns, i) != Succ(ns, j);
    }
    forall i: nat | i < |ns'| && ns'[i].key != Nil ensures Reach(ns', rank, Main(h, ns'[i].key, |ns'|), i) {
      if i != m { ReachSameLinks(ns, ns', rank, Main(h, ns[i].key, |ns|), i); }
    }
  }

  // ----- a new key behind a key in its own main position -----

  function PutAfter(ns: seq<Node>, m: nat, f: nat, k: Value): seq<Node>
    requires m < |ns| && f < |ns|
  {
    ns[f := Node(k, Nil, if Linked(ns, m) then Succ(ns, m) - f else 0)][m := ns[m].(next := f - m)]
  }

  /** Ranks that leave room for f just below m. */
  function RankAfter(rank: seq<nat>, m: nat, f: nat): seq<nat>
    requires m < |rank|
  {
    seq(|rank|, i requires 0 <= i < |rank| => if i == f then 2 * rank[m] else 2 * rank[i] + 1)
  }

  lemma PutAfterRanked(ns: seq<Node>, rank: seq<nat>, m: nat, f: nat, k: Value)
    requires Ranked(ns, rank) && m < |ns| && f < |ns| && f != m && ns[f].key == Nil && ns[m].key != Nil && k != Nil
    ensures Ranked(PutAfter(ns, m, f, k), RankAfter(rank, m, f))
  {
    var ns', rank' := PutAfter(ns, m, f, k), RankAfter(rank, m, f);
    forall i: nat | i < |ns'| && Linked(ns', i)
      ensures 0 <= Succ(ns', i) < |ns'| && ns'[Succ(ns', i)].key != Nil && rank'[Succ(ns', i)] < rank'[i]
    {
      if i == f {
        assert Linked(ns, m) && Succ(ns', i) == Succ(ns, m);
      } else if i != m {
        assert Linked(ns, i) && Succ(ns', i) == Succ(ns, i);
      }
    }
  }

  lemma {:induction false} PutAfterReach(ns: seq<Node>, rank: seq<nat>, m: nat, f: nat, k: Value, i: nat, j: nat)
    requires Ranked(ns, rank) && m < |ns| && f < |ns| && f != m && ns[f].key == Nil && ns[m].key != Nil && k != Nil
    requires i < |ns| && i != f && Reach(ns, rank, i, j)
    ensures Ranked(PutAfter(ns, m, f, k), RankAfter(rank, m, f))
    ensures Reach(PutAfter(ns, m, f, k), RankAfter(rank, m, f), i, j)
    decreases rank[i]
  {
    PutAfterRanked(ns, rank, m, f, k);
    var ns', rank' := PutAfter(ns, m, f, k), RankAfter(rank, m, f);
    if i != j {
      var s := Succ(ns, i);
      assert s != f;
      PutAfterReach(ns, rank, m, f, k, s, j);
      if i == m {
        assert Linked(ns', f) && Succ(ns', f) == s && Reach(ns', rank', f, j);
        assert Linked(ns', m) && Succ(ns', m) == f;
      } else {
        assert Linked(ns', i) && Succ(ns', i) == s;
      }
    }
  }

  lemma PutAfterSingle(ns: seq<Node>, rank: seq<nat>, m: nat, f: nat, k: Value)
    requires Ranked(ns, rank) && SinglePred(ns) && m < |ns| && f < |ns| && f != m && ns[f].key == Nil
    ensures SinglePred(PutAfter(ns, m, f, k))
  {
    var ns' := PutAfter(ns, m, f, k);
    forall i: nat, j: nat | i < j < |ns'| && Linked(ns', i) && Linked(ns', j) ensures Succ(ns', i) != Succ(ns', j) {
      var a, b := if i == f then m else i, if j == f then m else j;
      if i != m && j != m {
        assert Linked(ns, a) && Linked(ns, b) && Succ(ns', i) == Succ(ns, a) && Succ(ns', j) == Succ(ns, b);
      } else {
        var x := if i == m then j else i;
        assert Linked(ns, if x == f then m else x);
      }
    }
  }

  lemma PutAfterOk(h: (Value, nat) -> nat, ns: seq<Node>, rank: seq<nat>, m: nat, f: nat, k: Value)
    requires NodesOk(h, ns, rank) && k != Nil && m == Main(h, k, |ns|) && ns[m].key != Nil
    requires Main(h, ns[m].key, |ns|) == m
    requires f < |ns| && ns[f].key == Nil && forall i: nat :: i < |ns| ==> ns[i].key != k
    ensures NodesOk(h, PutAfter(ns, m, f, k), RankAfter(rank, m, f))
  {
    var ns', rank' := PutAfter(ns, m, f, k), RankAfter(rank, m, f);
    PutAfterRanked(ns, rank, m, f, k);
    PutAfterSingle(ns, rank, m, f, k);
    forall i: nat | i < |ns'| && ns'[i].key != Nil ensures Reach(ns', rank', Main(h, ns'[i].key, |ns'|), i) {
      if i == f {
        assert Linked(ns', m) && Succ(ns', m) == f && Reach(ns', rank', f, f);
      } else {
        var c := Main(h, ns[i].key, |ns|);
        assert ns[c].key != Nil;
        PutAfterReach(ns, rank, m, f, k, c, i);
      }
    }
    forall i: nat | i < |ns'| && ns'[i].key != Nil
      ensures var c := Main(h, ns'[i].key, |ns'|); ns'[c].key != Nil && Main(h, ns'[c].key, |ns'|) == c
    {
      if i != f { assert ns[i].key != Nil; }
    }
  }

  // ----- a new key whose main position holds a key that belongs elsewhere -----

  /** The node at m moves to f, behind its predecessor p, and k takes its place. */
  function Move(ns: seq<Node>, p: nat, m: nat, f: nat, k: Value): seq<Node>
    requires p < |ns| && m < |ns| && f < |ns|
  {
    ns[p := ns[p].(next := f - p)]
      [f := Node(ns[m].key, ns[m].val, if Linked(ns, m) then Succ(ns, m) - f else 0)]
      [m := Node(k, Nil, 0)]
  }

  ghost predicate Movable(ns: seq<Node>, rank: seq<nat>, p: nat, m: nat, f: nat, k: Value) {
    && Ranked(ns, rank) && SinglePred(ns) && p < |ns| && m < |ns| && f < |ns| && k != Nil
    && ns[m].key != Nil && ns[f].key == Nil && Linked(ns, p) && Succ(ns, p) == m
  }

  lemma MoveLinks(ns: seq<Node>, rank: seq<nat>, p: nat, m: nat, f: nat, k: Value, i: nat)
    requires Movable(ns, rank, p, m, f, k) && i < |ns| && i != m
    ensures p != f && p != m && f != m
    ensures var ns' := Move(ns, p, m, f, k); var a := if i == f then m else i;
      Linked(ns', i) == Linked(ns, a) && (Linked(ns, a) ==> Succ(ns', i) == if a == p then f else Succ(ns, a))
  {
    assert rank[m] < rank[p];
  }

  lemma MoveRanked(ns: seq<Node>, rank: seq<nat>, p: nat, m: nat, f: nat, k: Value)
    requires Movable(ns, rank, p, m, f, k)
    ensures Ranked(Move(ns, p, m, f, k), rank[f := rank[m]])
  {
    var ns', rank' := Move(ns, p, m, f, k), rank[f := rank[m]];
    forall i: nat | i < |ns'| && Linked(ns', i)
      ensures 0 <= Succ(ns', i) < |ns'| && ns'[Succ(ns', i)].key != Nil && rank'[Succ(ns', i)] < rank'[i]
    {
      assert i != m;
      MoveLinks(ns, rank, p, m, f, k, i);
    }
  }

  lemma {:induction false} MoveReach(ns: seq<Node>, rank: seq<nat>, p: nat, m: nat, f: nat, k: Value, i: nat, j: nat)
    requires Movable(ns, rank, p, m, f, k) && i < |ns| && j < |ns| && i != f && j != f && Reach(ns, rank, i, j)
    ensures Ranked(Move(ns, p, m, f, k), rank[f := rank[m]])
    ensures Reach(Move(ns, p, m, f, k), rank[f := rank[m]], if i == m then f else i, if j == m then f else j)
    decreases rank[i]
  {
    MoveRanked(ns, rank, p, m, f, k);
    if i != j {
      var s := Succ(ns, i);
      assert s != f;
      MoveReach(ns, rank, p, m, f, k, s, j);
      MoveLinks(ns, rank, p, m, f, k, if i == m then f else i);
      assert s == m ==> i == p;
    }
  }

  lemma MoveSingle(ns: seq<Node>, rank: seq<nat>, p: nat, m: nat, f: nat, k: Value)
    requires Movable(ns, rank, p, m, f, k)
    ensures SinglePred(Move(ns, p, m, f, k))
  {
    var ns' := Move(ns, p, m, f, k);
    forall i: nat, j: nat | i < j < |ns'| && Linked(ns', i) && Linked(ns', j) ensures Succ(ns', i) != Succ(ns', j) {
      assert i != m && j != m;
      MoveLinks(ns, rank, p, m, f, k, i);
      MoveLinks(ns, rank, p, m, f, k, j);
      var a, b := if i == f then m else i, if j == f then m else j;
      assert Linked(ns, a) && Linked(ns, b) && Succ(ns, a) != Succ(ns, b);
      assert ns[Succ(ns, a)].key != Nil && ns[Succ(ns, b)].key != Nil;
    }
  }

  /** No key away from m belongs there, since the key at m does not. */
  lemma NobodyElse(h: (Value, nat) -> nat, ns: seq<Node>, rank: seq<nat>, m: nat, i: nat)
    requires NodesOk(h, ns, rank) && m < |ns| && ns[m].key != Nil && Main(h, ns[m].key, |ns|) != m
    requires i < |ns| && ns[i].key != Nil
    ensures Main(h, ns[i].key, |ns|) != m && ns[Main(h, ns[i].key, |ns|)].key != Nil
  {
  }

  lemma MoveKey(ns: seq<Node>, rank: seq<nat>, p: nat, m: nat, f: nat, k: Value, i: nat)
    requires Movable(ns, rank, p, m, f, k) && i < |ns| && i != m
    ensures Move(ns, p, m, f, k)[i].key == ns[if i == f then m else i].key
    ensures Move(ns, p, m, f, k)[i].val == ns[if i == f then m else i].val
  {
    MoveLinks(ns, rank, p, m, f, k, i);
  }

  lemma MoveNew(ns: seq<Node>, p: nat, m: nat, f: nat, k: Value)
    requires p < |ns| && m < |ns| && f < |ns|
    ensures |Move(ns, p, m, f, k)| == |ns| && Move(ns, p, m, f, k)[m] == Node(k, Nil, 0)
  {
  }

  /** A key after the move: where it is, and who is in its main position. */
  lemma MovedKey(h: (Value, nat) -> nat, ns: seq<Node>, rank: seq<nat>, p: nat, m: nat, f: nat, k: Value, i: nat)
    requires NodesOk(h, ns, rank) && Movable(ns, rank, p, m, f, k) && Main(h, ns[m].key, |ns|) != m
    requires i < |ns| && i != m && ns[if i == f then m else i].key != Nil
    ensures var ns', rank' := Move(ns, p, m, f, k), rank[f := rank[m]];
      var c := Main(h, ns'[i].key, |ns'|);
      && Ranked(ns', rank') && Reach(ns', rank', c, i) && ns'[c].key != Nil && Main(h, ns'[c].key, |ns'|) == c
  {
    var a := if i == f then m else i;
    var c := Main(h, ns[a].key, |ns|);
    NobodyElse(h, ns, rank, m, a);
    assert Reach(ns, rank, c, a) && Main(h, ns[c].key, |ns|) == c;
    MoveKey(ns, rank, p, m, f, k, i);
    MoveKey(ns, rank, p, m, f, k, c);
    hide NodesOk, Move;
    MoveReach(ns, rank, p, m, f, k, c, a);
  }

  lemma MoveUnique(h: (Value, nat) -> nat, ns: seq<Node>, rank: seq<nat>, p: nat, m: nat, f: nat, k: Value)
    requires UniqueKeys(ns) && Movable(ns, rank, p, m, f, k) && forall i: nat :: i < |ns| ==> ns[i].key != k
    ensures UniqueKeys(Move(ns, p, m, f, k))
  {
    var ns' := Move(ns, p, m, f, k);
    forall i: nat, j: nat | i < j < |ns'| && ns'[i].key != Nil ensures ns'[i].key != ns'[j].key {
      if i != m { MoveKey(ns, rank, p, m, f, k, i); }
      if j != m { MoveKey(ns, rank, p, m, f, k, j); }
    }
  }

  lemma MoveOk(h: (Value, nat) -> nat, ns: seq<Node>, rank: seq<nat>, p: nat, m: nat, f: nat, k: Value)
    requires NodesOk(h, ns, rank) && Movable(ns, rank, p, m, f, k)
    requires m == Main(h, k, |ns|) && Main(h, ns[m].key, |ns|) != m && forall i: nat :: i < |ns| ==> ns[i].key != k
    ensures NodesOk(h, Move(ns, p, m, f, k), rank[f := rank[m]])
  {
    var ns', rank' := Move(ns, p, m, f, k), rank[f := rank[m]];
    MoveRanked(ns, rank, p, m, f, k);
    MoveSingle(ns, rank, p, m, f, k);
    MoveUnique(h, ns, rank, p, m, f, k);
    forall i: nat | i < |ns'| && ns'[i].key != Nil
      ensures Reach(ns', rank', Main(h, ns'[i].key, |ns'|), i)
      ensures var c := Main(h, ns'[i].key, |ns'|); ns'[c].key != Nil && Main(h, ns'[c].key, |ns'|) == c
    {
      if i != m {
        MoveKey(ns, rank, p, m, f, k, i);
        MovedKey(h, ns, rank, p, m, f, k, i);
      } else {
        assert ns'[m] == Node(k, Nil, 0);
      }
    }
  }
}

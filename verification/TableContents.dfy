/** What a whole table holds: array part and hash part together. */
module TableContents {
  import opened Common
  import opened LuaValues
  import opened TableNodes
  import opened TableCounts
  import opened TableSizes

  /** How keys are hashed, and what is known of the opaque floats: their integer value if
      they have one, and which of them are not a number. */
  datatype Rules = Rules(hash: (Value, nat) -> nat, integral: nat -> Option<int>, isNaN: nat -> bool)

  /** Floats with an integer value are the same key as that integer. */
  function Norm(r: Rules, k: Value): Value {
    if k.Float? && r.integral(k.bits).Some? then Integer(r.integral(k.bits).value) else k
  }

  /** Every value but nil and NaN can be a key. */
  predicate IsKey(r: Rules, k: Value) {
    k != Nil && !(k.Float? && r.isNaN(k.bits))
  }

  /** The integer a key stands for, if any. */
  function IntegerOf(r: Rules, k: Value): Option<int> {
    match k
    case Integer(i) => Some(i)
    case Float(b) => r.integral(b)
    case _ => None
  }

  /** The program cannot tell these keys apart: they are the same value, or stand for the
      same integer. */
  predicate SameKey(r: Rules, p: Value, q: Value) {
    p == q || (IntegerOf(r, p).Some? && IntegerOf(r, p) == IntegerOf(r, q))
  }

  lemma NormSame(r: Rules, p: Value, q: Value)
    ensures Norm(r, p) == Norm(r, q) <==> SameKey(r, p, q)
  {
  }

  /** Nil, and a float that is not a number, cannot be keys; everything else can. */
  lemma KeysExactly(r: Rules, k: Value)
    ensures IsKey(r, Norm(r, k)) <==>
      !k.Nil? && (k.Float? ==> r.integral(k.bits).Some? || !r.isNaN(k.bits))
  {
  }

  /** The keys in the nodes are normal, and none belongs to an array part of size n. */
  ghost predicate KeysOk(r: Rules, n: nat, ns: seq<Node>) {
    forall i: nat :: i < |ns| && ns[i].key != Nil ==>
      Norm(r, ns[i].key) == ns[i].key && IsKey(r, ns[i].key) && !KeyIn(ns[i].key, 0, n)
  }

  /** The value of a normal key. */
  ghost function AtIn(a: seq<Value>, ns: seq<Node>, k: Value): Value {
    if k == Nil then Nil else if KeyIn(k, 0, |a|) then a[k.i - 1] else Lookup(ns, k)
  }

  ghost predicate SameAt(a: seq<Value>, ns: seq<Node>, ns': seq<Node>) {
    forall q :: AtIn(a, ns', q) == AtIn(a, ns, q)
  }

  /** A key was added at node m, with no value yet, and every node from f on is used. */
  ghost predicate Inserted(h: (Value, nat) -> nat, ns: seq<Node>, ns': seq<Node>, rank: seq<nat>, m: nat, f: nat,
        k: Value) {
    && |ns'| == |ns| && m < |ns| && NodesOk(h, ns', rank) && SameLive(ns, ns', k) && Used(ns') <= Used(ns) + 1
    && ns'[m].key == k && ns'[m].val == Nil && UsedTail(ns', f)
  }

  ghost predicate AbsentIn(ns: seq<Node>, k: Value) {
    forall i: nat :: i < |ns| ==> ns[i].key != k
  }

  ghost predicate UsedTail(ns: seq<Node>, x: nat) {
    forall i: nat :: x <= i < |ns| ==> ns[i].key != Nil
  }

  /** Adding a key without value changes no value. */
  lemma InsertedKeeps(r: Rules, a: seq<Value>, ns: seq<Node>, ns': seq<Node>, rank: seq<nat>, m: nat, f: nat, k: Value)
    requires Inserted(r.hash, ns, ns', rank, m, f, k) && UniqueKeys(ns) && KeysOk(r, |a|, ns)
    requires k != Nil && Norm(r, k) == k && IsKey(r, k) && !KeyIn(k, 0, |a|)
    ensures SameAt(a, ns, ns') && KeysOk(r, |a|, ns')
  {
    forall q | q != Nil ensures Lookup(ns', q) == Lookup(ns, q) { SameLookup(ns, ns', k, q); }
    forall j: nat | j < |ns'| && ns'[j].key != Nil
      ensures Norm(r, ns'[j].key) == ns'[j].key && IsKey(r, ns'[j].key) && !KeyIn(ns'[j].key, 0, |a|)
    {
      if ns'[j].key != k {
        var i: nat :| i < |ns| && ns[i].key == ns'[j].key && ns[i].val == ns'[j].val;
      }
    }
  }

  // ----- walking a chain -----

  /** The chain goes on from n to m. */
  ghost predicate Before(ns: seq<Node>, rank: seq<nat>, n: nat, m: nat) {
    Ranked(ns, rank) && n < |ns| && m < |ns| && n != m && Reach(ns, rank, n, m)
  }

  /** The key, if it is anywhere, is at n or after it. */
  ghost predicate Ahead(ns: seq<Node>, rank: seq<nat>, n: nat, k: Value)
    requires Ranked(ns, rank) && n < |ns|
  {
    forall i: nat :: i < |ns| && ns[i].key == k ==> Reach(ns, rank, n, i)
  }

  lemma ChainFirst(h: (Value, nat) -> nat, ns: seq<Node>, rank: seq<nat>, k: Value)
    requires NodesOk(h, ns, rank) && k != Nil
    ensures Ranked(ns, rank) && |rank| == |ns| && Ahead(ns, rank, Main(h, k, |ns|), k)
  {
  }

  lemma ChainNext(ns: seq<Node>, rank: seq<nat>, n: nat, k: Value)
    requires Ranked(ns, rank) && n < |ns| && Ahead(ns, rank, n, k) && ns[n].key != k
    ensures if ns[n].next == 0 then AbsentIn(ns, k) else
      var s := n + ns[n].next; 0 <= s < |ns| && |rank| == |ns| && rank[s] < rank[n] && Ahead(ns, rank, s, k)
  {
    assert Linked(ns, n) == (ns[n].next != 0) && Succ(ns, n) == n + ns[n].next;
  }

  lemma ChainStep(ns: seq<Node>, rank: seq<nat>, n: nat, m: nat)
    requires Before(ns, rank, n, m)
    ensures n < |ns| == |rank| && Linked(ns, n)
    ensures var s := n + ns[n].next;
      && Succ(ns, n) == s && 0 <= s < |ns| && rank[s] < rank[n] && (s != m ==> Before(ns, rank, s, m))
  {
  }

  // ----- the three ways to add a key -----

  lemma PutHereDone(h: (Value, nat) -> nat, ns: seq<Node>, rank: seq<nat>, m: nat, f: nat, k: Value)
    requires NodesOk(h, ns, rank) && k != Nil && m == Main(h, k, |ns|) && ns[m].val == Nil && AbsentIn(ns, k)
    requires UsedTail(ns, f)
    ensures Inserted(h, ns, PutHere(ns, m, k), rank, m, f, k)
  {
    assert forall i: nat :: i < |ns| ==> ns[i].key != k;
    assert UsedTail(PutHere(ns, m, k), f);
    hide NodesOk, SameLive, Used, Reach, LinksOk, Ranked;
    PutHereOk(h, ns, rank, m, k);
    PutHereSame(ns, m, k);
    UsedUpdate(ns, m, ns[m].(key := k));
  }

  /** A used node is on the chain of its key. */
  lemma Colliding(h: (Value, nat) -> nat, ns: seq<Node>, rank: seq<nat>, m: nat)
    requires NodesOk(h, ns, rank) && m < |ns| && ns[m].key != Nil && Main(h, ns[m].key, |ns|) != m
    ensures Before(ns, rank, Main(h, ns[m].key, |ns|), m)
  {
  }

  lemma MoveDone(h: (Value, nat) -> nat, ns: seq<Node>, rank: seq<nat>, p: nat, m: nat, f: nat, k: Value)
    requires NodesOk(h, ns, rank) && p < |ns| && m < |ns| && f < |ns| && Linked(ns, p) && Succ(ns, p) == m
    requires k != Nil && ns[m].key != Nil && ns[f].key == Nil
    requires m == Main(h, k, |ns|) && Main(h, ns[m].key, |ns|) != m && AbsentIn(ns, k) && UsedTail(ns, f + 1)
    ensures p != m && p != f && m != f
    ensures Inserted(h, ns, Move(ns, p, m, f, k), rank[f := rank[m]], m, f, k)
  {
    MoveLinks(ns, rank, p, m, f, k, p);
    MoveTail(ns, p, m, f, k);
    assert ns[p].key != Nil && Movable(ns, rank, p, m, f, k);
    assert forall i: nat :: i < |ns| ==> ns[i].key != k;
    hide NodesOk, SameLive, Used, Move, Movable, Reach, LinksOk, Ranked;
    MoveOk(h, ns, rank, p, m, f, k);
    MoveSame(ns, rank, p, m, f, k);
    MoveUsed(ns, rank, p, m, f, k);
  }

  lemma MoveTail(ns: seq<Node>, p: nat, m: nat, f: nat, k: Value)
    requires p < |ns| && m < |ns| && f < |ns| && p != m && p != f && m != f && ns[m].key != Nil && k != Nil
    requires UsedTail(ns, f + 1)
    ensures var ns' := Move(ns, p, m, f, k); |ns'| == |ns| && ns'[m].key == k && ns'[m].val == Nil && UsedTail(ns', f)
  {
  }

  lemma PutAfterDone(h: (Value, nat) -> nat, ns: seq<Node>, rank: seq<nat>, m: nat, f: nat, k: Value)
    requires NodesOk(h, ns, rank) && m < |ns| && f < |ns| && k != Nil && AbsentIn(ns, k) && UsedTail(ns, f + 1)
    requires ns[f] == EMPTY && ns[m].key != Nil && m == Main(h, k, |ns|) == Main(h, ns[m].key, |ns|)
    ensures Inserted(h, ns, PutAfter(ns, m, f, k), RankAfter(rank, m, f), f, f, k)
  {
    PutAfterTail(ns, m, f, k);
    assert forall i: nat :: i < |ns| ==> ns[i].key != k;
    hide NodesOk, SameLive, Used, PutAfter, Reach, LinksOk, Ranked;
    PutAfterOk(h, ns, rank, m, f, k);
    PutAfterSame(ns, m, f, k);
    PutAfterUsed(ns, m, f, k);
  }

  lemma PutAfterTail(ns: seq<Node>, m: nat, f: nat, k: Value)
    requires m < |ns| && f < |ns| && f != m && k != Nil && UsedTail(ns, f + 1)
    ensures var ns' := PutAfter(ns, m, f, k); |ns'| == |ns| && ns'[f].key == k && ns'[f].val == Nil && UsedTail(ns', f)
  {
  }

  lemma PutAfterUsed(ns: seq<Node>, m: nat, f: nat, k: Value)
    requires m < |ns| && f < |ns| && f != m && ns[f].key == Nil && ns[m].key != Nil && k != Nil
    ensures Used(PutAfter(ns, m, f, k)) == Used(ns) + 1
  {
    var x := Node(k, Nil, if Linked(ns, m) then Succ(ns, m) - f else 0);
    UsedUpdate(ns, f, x);
    UsedUpdate(ns[f := x], m, ns[m].(next := f - m));
  }

  lemma MoveUsed(ns: seq<Node>, rank: seq<nat>, p: nat, m: nat, f: nat, k: Value)
    requires Movable(ns, rank, p, m, f, k) && ns[p].key != Nil
    ensures Used(Move(ns, p, m, f, k)) == Used(ns) + 1
  {
    MoveLinks(ns, rank, p, m, f, k, p);
    var n1 := ns[p := ns[p].(next := f - p)];
    var x := Node(ns[m].key, ns[m].val, if Linked(ns, m) then Succ(ns, m) - f else 0);
    UsedUpdate(ns, p, n1[p]);
    UsedUpdate(n1, f, x);
    UsedUpdate(n1[f := x], m, Node(k, Nil, 0));
  }

  /** A vector without unused nodes is full. */
  lemma FullOk(ns: seq<Node>)
    requires UsedTail(ns, 0)
    ensures Used(ns) == |ns|
  {
  }

  // ----- storing a value in a node -----

  function Store(ns: seq<Node>, i: nat, v: Value): seq<Node>
    requires i < |ns|
  {
    ns[i := ns[i].(val := v)]
  }

  lemma StoreOk(h: (Value, nat) -> nat, ns: seq<Node>, rank: seq<nat>, i: nat, v: Value)
    requires NodesOk(h, ns, rank) && i < |ns| && ns[i].key != Nil
    ensures NodesOk(h, Store(ns, i, v), rank) && Used(Store(ns, i, v)) == Used(ns)
    ensures forall q :: q != Nil ==> Lookup(Store(ns, i, v), q) == if q == ns[i].key then v else Lookup(ns, q)
  {
    var ns' := Store(ns, i, v);
    StoreLinks(ns, rank, i, v);
    UsedUpdate(ns, i, ns'[i]);
    forall x: nat | x < |ns| && ns'[x].key != Nil ensures Reach(ns', rank, Main(h, ns'[x].key, |ns'|), x) {
      ReachSameLinks(ns, ns', rank, Main(h, ns[x].key, |ns|), x);
    }
    hide Reach, LinksOk, Ranked, SinglePred, Used;
    forall q | q != Nil ensures Lookup(ns', q) == if q == ns[i].key then v
      else Lookup(ns, q) { StoreLookup(ns, i, v, q); }
  }

  lemma StoreLinks(ns: seq<Node>, rank: seq<nat>, i: nat, v: Value)
    requires Ranked(ns, rank) && SinglePred(ns) && i < |ns| && ns[i].key != Nil
    ensures Ranked(Store(ns, i, v), rank) && SinglePred(Store(ns, i, v))
  {
    var ns' := Store(ns, i, v);
    forall x: nat | x < |ns| ensures Linked(ns', x) == Linked(ns, x) && Succ(ns', x) == Succ(ns, x) {}
    forall x: nat | x < |ns'| && Linked(ns', x)
      ensures 0 <= Succ(ns', x) < |ns'| && ns'[Succ(ns', x)].key != Nil && rank[Succ(ns', x)] < rank[x]
    {
      assert Linked(ns, x);
    }
    forall x: nat, y: nat | x < y < |ns'| && Linked(ns', x) && Linked(ns', y) ensures Succ(ns', x) != Succ(ns', y) {
      assert Linked(ns, x) && Linked(ns, y);
    }
  }

  lemma StoreLookup(ns: seq<Node>, i: nat, v: Value, q: Value)
    requires UniqueKeys(ns) && i < |ns| && ns[i].key != Nil && q != Nil
    ensures Lookup(Store(ns, i, v), q) == if q == ns[i].key then v else Lookup(ns, q)
  {
    var ns' := Store(ns, i, v);
    assert UniqueKeys(ns');
    if q == ns[i].key {
      LookupAt(ns', i);
    } else if x: nat :| x < |ns| && ns[x].key == q {
      LookupAt(ns, x);
      LookupAt(ns', x);
    } else {
      LookupNone(ns, q);
      LookupNone(ns', q);
    }
  }

  // ----- moving everything to new vectors -----

  function Merge(x: Value, y: Value): Value {
    if x != Nil then x else y
  }

  /** The value of a key in a node vector. */
  ghost function NodeAt(ns: seq<Node>, k: Value): Value {
    if k == Nil then Nil else Lookup(ns, k)
  }

  /** The value of a key in positions lo+1..hi of an array part. */
  function SliceAt(a: seq<Value>, lo: nat, hi: nat, k: Value): Value
    requires hi <= |a|
  {
    if KeyIn(k, lo, hi) then a[k.i - 1] else Nil
  }

  function Resized(a: seq<Value>, n: nat): seq<Value> {
    seq(n, i requires 0 <= i < n => if i < |a| then a[i] else Nil)
  }

  /** One node more. */
  lemma NodeAtStep(ns: seq<Node>, j: nat, k: Value)
    requires UniqueKeys(ns) && j < |ns| && (ns[j].key == Nil ==> ns[j].val == Nil)
    ensures NodeAt(ns[j..], k) == if ns[j].val != Nil && ns[j].key == k then ns[j].val else NodeAt(ns[j + 1..], k)
  {
  }

  lemma {:induction false} OutsideSuffix(ns: seq<Node>, j: nat, n: nat)
    requires j <= |ns|
    ensures Outside(ns[j..], n) <= Outside(ns, n)
  {
    if j > 0 {
      assert ns[j..] == ns[1..][j - 1..];
      OutsideSuffix(ns[1..], j - 1, n);
    } else {
      assert ns[0..] == ns;
    }
  }

  lemma OutsideStep(ns: seq<Node>, j: nat, n: nat)
    requires j < |ns|
    ensures Outside(ns[j..], n) == Bit(ns[j].val != Nil
      && !KeyIn(ns[j].key, 0, n)) + Outside(ns[j + 1..], n) <= Outside(ns, n)
  {
    OutsideSuffix(ns, j, n);
    assert ns[j..][0] == ns[j] && ns[j..][1..] == ns[j + 1..];
  }

  /** Everything is where it should be in the new vectors. */
  lemma ResizeSame(r: Rules, a: seq<Value>, ns: seq<Node>, n: nat, empty: seq<Node>, k: Value)
    requires KeysOk(r, |a|, ns) && UniqueKeys(ns) && AllEmpty(empty)
    ensures AtIn(a, ns, k) == Merge(NodeAt(ns, k),
      Merge(if n < |a| then SliceAt(a, n, |a|, k) else Nil, AtIn(Resized(a, n), empty, k)))
  {
  }

  // ----- sizes for a rehash -----

  /** As many entries as the counters can count. */
  predicate Countable(a: seq<Value>, ns: seq<Node>) {
    |a| + |ns| < Pow2(MAXABITS) / 2
  }

  lemma KeysSmall(a: seq<Value>, ns: seq<Node>, ek: Value)
    requires Countable(a, ns)
    ensures |a| <= Pow2(MAXABITS) && CountArr(a, 0, |a|) == CountArr(a, 0, Pow2(MAXABITS))
    ensures Keys(a, ns, ek, 0, Pow2(MAXABITS)) <= Pow2(MAXABITS) / 2
  {
    var m := Pow2(MAXABITS);
    hide Pow2;
    CountArrSplit(a, 0, |a|, m);
    CountArrBeyond(a, |a|, m);
    CountArrBound(a, 0, |a|);
    OutsideRest(ns, m);
  }

  /** The entries that do not go to an array part of size n. */
  function Rest(a: seq<Value>, ns: seq<Node>, n: nat): nat {
    CountArr(a, n, |a|) + Outside(ns, n)
  }

  lemma RestIs(a: seq<Value>, ns: seq<Node>, ek: Value, n: nat)
    ensures CountArr(a, 0, |a|) + Live(ns) + 1 - Keys(a, ns, ek, 0, n) ==
      Rest(a, ns, n) + Bit(!KeyIn(ek, 0, n))
  {
    OutsideRest(ns, n);
    if n <= |a| {
      CountArrSplit(a, 0, n, |a|);
    } else {
      CountArrSplit(a, 0, |a|, n);
      CountArrBeyond(a, |a|, n);
      assert CountArr(a, n, |a|) == 0;
    }
  }
}

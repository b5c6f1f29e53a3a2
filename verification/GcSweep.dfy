/** Sweeping frees dead objects only and leaves the others white. */
module GcSweep {
  import opened Common
  import opened GcHeap
  import opened GcMarking
  import opened GcInvariant
  import opened GcAtomic
  import opened GcClean
  import opened GcMachine
  import opened GcSound

  /** Objects outside the list stay; of the list, dead objects go, others may turn white. */
  ghost predicate Swept(h: Heap, white: bool, list: seq<Id>, r: Sweep) {
    && (forall o :: o in r.heap ==> o in h && r.heap[o] == h[o].(color := r.heap[o].color))
    && (forall o :: o in r.heap && r.heap[o].color != h[o].color ==>
         r.heap[o].color == White(white) && h[o].color != White(!white))
    && (forall o :: o in h && o !in r.heap ==> h[o].color == White(!white))
    && (forall o :: o in h && o !in list ==> o in r.heap && r.heap[o] == h[o])
    && (forall o :: o in r.list <==> o in list && o in r.heap)
    && NoRepeats(r.list)
  }

  /** Of the objects from position i on, those not yet swept are still ahead. */
  ghost predicate Ahead(white: bool, list: seq<Id>, i: nat, r: Sweep)
    requires i <= |list|
  {
    && (r.at.Some? ==> r.at.value <= |r.list|)
    && forall o :: o in list[i..] && o in r.heap ==>
         r.heap[o].color == White(white) || (r.at.Some? && r.at.value <= |r.list| && o in r.list[r.at.value..])
  }

  /** The list without its i-th element. */
  function Cut(list: seq<Id>, i: nat): seq<Id>
    requires i < |list|
  {
    list[..i] + list[i + 1..]
  }

  lemma CutIn(list: seq<Id>, i: nat)
    requires i < |list| && NoRepeats(list)
    ensures NoRepeats(Cut(list, i))
    ensures forall o :: o in Cut(list, i) <==> o in list && o != list[i]
    ensures forall o :: o in list[i..] <==> o in Cut(list, i)[i..] || o == list[i]
  {
    var c := Cut(list, i);
    forall o | o in list && o != list[i] ensures o in c {
      var k :| 0 <= k < |list| && list[k] == o;
      assert if k < i then c[k] == o else c[k - 1] == o;
    }
    forall o | o in c ensures o in list && o != list[i] {
      var k :| 0 <= k < |c| && c[k] == o;
      assert c[k] == if k < i then list[k] else list[k + 1];
    }
    assert c[i..] == list[i + 1..];
    assert list[i..] == [list[i]] + list[i + 1..];
  }

  lemma CutHeap(h: Heap, list: seq<Id>, i: nat)
    requires i < |list| && NoRepeats(list) && forall o :: o in list ==> o in h
    ensures NoRepeats(Cut(list, i)) && |Cut(list, i)| == |list| - 1 && forall o :: o in Cut(list, i) ==>
      o in h - {list[i]}
  {
    CutIn(list, i);
  }

  lemma SweptNothing(h: Heap, white: bool, list: seq<Id>, at: Option<nat>)
    requires NoRepeats(list) && forall o :: o in list ==> o in h
    ensures Swept(h, white, list, Sweep(h, list, at))
  {
  }

  /** One dead object is freed, and the rest is swept. */
  lemma SweptDead(h: Heap, white: bool, list: seq<Id>, i: nat, r: Sweep)
    requires i < |list| && NoRepeats(list) && list[i] in h && h[list[i]].color == White(!white)
    requires Swept(h - {list[i]}, white, Cut(list, i), r) && Ahead(white, Cut(list, i), i, r)
    ensures Swept(h, white, list, r) && Ahead(white, list, i, r)
  {
    CutIn(list, i);
  }

  /** One live object turns white, and the rest is swept. */
  lemma SweptLive(h: Heap, white: bool, list: seq<Id>, i: nat, r: Sweep)
    requires i < |list| && NoRepeats(list) && list[i] in h && h[list[i]].color != White(!white)
    requires var o := list[i];
      Swept(h[o := h[o].(color := White(white))], white, list, r) && Ahead(white, list, i + 1, r)
    ensures Swept(h, white, list, r) && Ahead(white, list, i, r)
  {
    var o := list[i];
    var h1 := h[o := h[o].(color := White(white))];
    assert list[i..] == [o] + list[i + 1..];
    assert o in r.heap ==> r.heap[o].color == White(white);
  }

  /** Sweeping from position i on does what it should. */
  ghost predicate SweepsList(h: Heap, white: bool, list: seq<Id>, i: nat, n: nat)
    requires i <= |list|
  {
    var r := SweepList(h, white, list, i, n); Swept(h, white, list, r) && Ahead(white, list, i, r)
  }

  lemma SweepDead(h: Heap, white: bool, list: seq<Id>, i: nat, n: nat)
    requires i < |list| && n > 0 && NoRepeats(list) && list[i] in h && h[list[i]].color == White(!white)
    requires SweepsList(h - {list[i]}, white, Cut(list, i), i, n - 1)
    ensures SweepsList(h, white, list, i, n)
  {
    var r := SweepList(h, white, list, i, n);
    assert r == SweepList(h - {list[i]}, white, Cut(list, i), i, n - 1);
    hide SweepList, Swept, Ahead;
    SweptDead(h, white, list, i, r);
  }

  lemma SweepLive(h: Heap, white: bool, list: seq<Id>, i: nat, n: nat)
    requires i < |list| && n > 0 && NoRepeats(list) && list[i] in h && h[list[i]].color != White(!white)
    requires SweepsList(h[list[i] := h[list[i]].(color := White(white))], white, list, i + 1, n - 1)
    ensures SweepsList(h, white, list, i, n)
  {
    var r := SweepList(h, white, list, i, n);
    assert r == SweepList(h[list[i] := h[list[i]].(color := White(white))], white, list, i + 1, n - 1);
    hide SweepList, Swept, Ahead;
    SweptLive(h, white, list, i, r);
  }

  lemma {:induction false} SweepListOk(h: Heap, white: bool, list: seq<Id>, i: nat, n: nat)
    requires i <= |list| && NoRepeats(list) && forall o :: o in list ==> o in h
    ensures SweepsList(h, white, list, i, n)
    decreases n
  {
    if i >= |list| || n == 0 {
      SweptNothing(h, white, list, if i >= |list| then None else Some(i));
    } else {
      hide SweepsList, NoRepeats, Cut;
      if h[list[i]].color == White(!white) {
        CutHeap(h, list, i);
        SweepListOk(h - {list[i]}, white, Cut(list, i), i, n - 1);
        SweepDead(h, white, list, i, n);
      } else {
        SweepListOk(h[list[i] := h[list[i]].(color := White(white))], white, list, i + 1, n - 1);
        SweepLive(h, white, list, i, n);
      }
    }
  }

  lemma {:induction false} SweepToLiveOk(h: Heap, white: bool, list: seq<Id>, i: nat)
    requires i <= |list| && NoRepeats(list) && forall o :: o in list ==> o in h
    ensures var r := SweepToLive(h, white, list, i); Swept(h, white, list, r) && Ahead(white, list, i, r)
    decreases |list| - i
  {
    if i >= |list| {
      SweptNothing(h, white, list, None);
    } else {
      var o := list[i];
      var r := SweepToLive(h, white, list, i);
      if h[o].color == White(!white) {
        CutHeap(h, list, i);
        SweepToLiveOk(h - {o}, white, Cut(list, i), i);
        SweptDead(h, white, list, i, r);
      } else {
        var h1 := h[o := h[o].(color := White(white))];
        SweptNothing(h1, white, list, r.at);
        SweptLive(h, white, list, i, r);
      }
    }
  }
}

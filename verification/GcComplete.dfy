/** A whole cycle that is not disturbed collects everything that nothing forces it to keep. */
module GcComplete {
  import opened Common
  import opened GcHeap
  import opened GcMarking
  import opened GcInvariant
  import opened GcTraverse
  import opened GcConverge
  import opened GcLeast
  import opened GcAtomic
  import C = GcClean
  import opened GcMachine
  import opened GcSound
  import opened GcRuns
  import U = GcUnguarded
  import opened GcFinish

  /** All of these are in S, strings apart. */
  ghost predicate AllIn(h: Heap, refs: seq<Id>, S: set<Id>) {
    forall r :: r in refs ==> In(h, Some(r), S)
  }

  lemma {:induction false} WhitesAmong(h: Heap, os: seq<Id>)
    ensures forall o :: o in WhitesOf(h, os) ==> o in os
  {
    if os != [] { WhitesAmong(h, os[1..]); }
  }

  /** What was marked in S and is closed stays so when entries go and strings are marked. */
  lemma ClearsBounded(g: Gc, g': Gc, S: set<Id>)
    requires Clears(g, g') && Bounded(g, S)
    ensures Bounded(g', S)
  {
    forall x | x in S && x in g'.heap ensures Forces(g'.heap, g'.heap[x], S) {
      assert Forces(g.heap, g.heap[x], S);
    }
  }

  lemma MarkAndPropagateBounded(g: Gc, refs: seq<Id>, pass: seq<Id>, S: set<Id>)
    requires Tri(g, true, pass) && Bounded(g, S) && AllIn(g.heap, refs, S) && forall r :: r in refs ==> r in g.heap
    ensures Bounded(MarkAndPropagate(g, refs), S)
  {
    var m := MarkAll(g, refs);
    MarkAllBounded(g, refs, S);
    MarkAllMarks(g, refs);
    MarksTri(g, m, true, pass);
    hide Tri, Bounded, Marks;
    PropagateAllBounded(m, true, pass, S);
  }

  /** The first half of the atomic phase. */
  lemma FirstBounded(g: Gc, S: set<Id>)
    requires AtAtomic(g) && Bounded(g, S) && AllIn(g.heap, g.roots, S)
    ensures var g1 := PropagateAll(g).(phase := InsideAtomic);
      Bounded(MarkAndPropagate(g1, g1.roots), S)
  {
    var g0 := PropagateAll(g);
    var g1 := g0.(phase := InsideAtomic);
    PropagateAllBounded(g, false, [], S);
    PropagateAllTri(g, false, []);
    ProgressLater(g, g0);
    Relist(g0);
    assert Bounded(g1, S) && AllIn(g1.heap, g1.roots, S);
    hide Tri, PropagateAll, Bounded, AllIn, Progress;
    MarkAndPropagateBounded(g1, g1.roots, g1.grayagain, S);
  }

  lemma SecondBounded(g2: Gc, L: seq<Id>, S: set<Id>)
    requires Tri(g2, true, L) && g2.gray == [] && Bounded(g2, S)
    ensures Bounded(Converge(PropagateAll(g2.(gray := L, grayagain := []))), S)
  {
    Unlist(g2, L);
    var g3 := g2.(gray := L, grayagain := []);
    assert Bounded(g3, S);
    hide Tri, Bounded;
    PropagateAllTri(g3, true, []);
    PropagateAllBounded(g3, true, [], S);
    ConvergeBounded(PropagateAll(g3), S);
  }

  lemma ReachableBounded(g: Gc, S: set<Id>)
    requires AtAtomic(g) && Bounded(g, S) && AllIn(g.heap, g.roots, S)
    ensures Bounded(MarkReachable(g), S)
  {
    hide AtAtomic, Bounded, PropagateAll, Converge, Tri;
    FirstHalfOk(g);
    FirstBounded(g, S);
    var g1 := PropagateAll(g).(phase := InsideAtomic);
    SecondBounded(MarkAndPropagate(g1, g1.roots), g1.grayagain, S);
  }

  lemma ResurrectBounded(s: Gc, S: set<Id>)
    requires Tri(s, true, []) && s.gray == [] && Bounded(s, S) && AllIn(s.heap, s.tobefnz, S)
    requires forall o :: o in s.tobefnz ==> o in s.heap
    ensures Bounded(Resurrect(s), S)
  {
    hide Tri, Bounded, AllIn, PropagateAll, Converge;
    MarkAndPropagateBounded(s, s.tobefnz, [], S);
    MarkAndPropagateOk(s, s.tobefnz, []);
    ConvergeBounded(MarkAndPropagate(s, s.tobefnz), S);
  }

  lemma AllInLater(h: Heap, h': Heap, a: seq<Id>, b: seq<Id>, c: seq<Id>, S: set<Id>)
    requires AllIn(h, a, S) && AllIn(h, b, S) && h'.Keys == h.Keys && forall o :: o in h ==> h'[o].kind == h[o].kind
    requires forall o :: o in c ==> o in a || o in b
    ensures AllIn(h', c, S)
  {
  }

  /** The atomic step marks nothing outside a closed set that holds the roots, what was marked,
      and the objects with finalizers. */
  lemma AtomicBounded(g: Gc, S: set<Id>)
    requires AtAtomic(g) && Bounded(g, S)
    requires AllIn(g.heap, g.roots, S) && AllIn(g.heap, g.tobefnz, S) && AllIn(g.heap, g.finobj, S)
    ensures Bounded(AtomicMark(g), S) && Later(g, AtomicMark(g))
  {
    hide Tri, Bounded, AllIn, MarkReachable, Clears, Later, C.Done, Resurrect, ClearTables;
    var m := MarkReachable(g);
    MarkReachableOk(g);
    ReachableBounded(g, S);
    var v := ClearAllValues(m);
    C.ClearAllValuesOk(m);
    ClearsBounded(m, v, S);
    var s := Separate(v);
    ClearsLater(m, v);
    ClearsLists(m, v);
    C.SeparateOk(g, m, v);
    WhitesAmong(v.heap, g.finobj);
    SameBounded(v, s, S);
    LaterTrans(g, m, v);
    LaterTrans(g, v, s);
    LaterKinds(g, s);
    AllInLater(g.heap, s.heap, g.tobefnz, g.finobj, s.tobefnz, S);
    var r := Resurrect(s);
    C.ResurrectOk(s);
    ResurrectBounded(s, S);
    DoneBefore(m, v, s, r);
    C.ClearRestOk(s, r);
    ClearsBounded(r, AtomicMark(g), S);
    C.AtomicClean(g);
  }

  lemma ClearsLists(g: Gc, g': Gc)
    requires Clears(g, g')
    ensures g'.weak == g.weak && g'.allweak == g.allweak
  {
  }

  lemma LaterKinds(g: Gc, g': Gc)
    requires Later(g, g')
    ensures g'.heap.Keys == g.heap.Keys && forall o :: o in g.heap ==> g'.heap[o].kind == g.heap[o].kind
  {
  }

  lemma SameBounded(g: Gc, g': Gc, S: set<Id>)
    requires Bounded(g, S) && g'.heap == g.heap
    ensures Bounded(g', S)
  {
  }

  /** The tables that were cleared of values before are still so. */
  lemma DoneBefore(m: Gc, v: Gc, s: Gc, r: Gc)
    requires C.Done(v, m.weak, false) && C.Done(v, m.allweak, false) && v.weak == m.weak && v.allweak == m.allweak
    requires s == Separate(v) && Later(s, r)
    ensures C.Done(r, s.weak, false) && C.Done(r, s.allweak, false)
  {
    hide Later;
    assert C.Done(s, s.weak, false) && C.Done(s, s.allweak, false);
    C.DoneLater(s, r, s.weak, false);
    C.DoneLater(s, r, s.allweak, false);
  }

  // ----- a whole cycle -----

  lemma {:induction false} RunsOn(g: Gc, first: seq<Step>, rest: seq<Step>)
    requires IsRun(g, first) && IsRun(After(g, first), rest)
    ensures IsRun(g, first + rest) && After(g, first + rest) == After(After(g, first), rest)
    decreases |first|
  {
    hide Enabled, Next;
    if first == [] {
      assert first + rest == rest;
    } else {
      Unfolds(g, first);
      RunsOn(Next(g, first[0]), first[1..], rest);
      RunFirst(g, first[0], first[1..] + rest);
      assert [first[0]] + (first[1..] + rest) == first + rest;
    }
  }

  lemma Unfolds(g: Gc, steps: seq<Step>)
    requires steps != [] && IsRun(g, steps)
    ensures Enabled(g, steps[0]) && IsRun(Next(g, steps[0]), steps[1..])
    ensures After(g, steps) == After(Next(g, steps[0]), steps[1..])
  {
    hide Enabled, Next;
  }

  predicate OnlyCollector(steps: seq<Step>) {
    forall i :: 0 <= i < |steps| ==> steps[i].Collect?
  }

  /** S holds the roots, the objects with finalizers, and with an object all that the object
      keeps alive: strong references, keys of tables with weak values, and in an ephemeron
      table the values of the keys in S. */
  ghost predicate Keeps(g: Gc, S: set<Id>) {
    Closed(g.heap, S) && AllIn(g.heap, g.roots, S) && AllIn(g.heap, g.tobefnz, S) && AllIn(g.heap, g.finobj, S)
  }

  /** A whole cycle, from its start to the point where finalizers are called, with nothing
      but collector steps: of the objects there were, those are left that nothing else can
      be kept without; strings may stay. */
  lemma GarbageIsCollected(g: Gc, n: nat) returns (steps: seq<Step>)
    requires Sound(g) && g.phase.Pause? && n > 0
    ensures OnlyCollector(steps) && IsRun(g, steps) && After(g, steps).phase.CallFin?
    ensures forall S :: Keeps(g, S) ==>
      forall o :: o in After(g, steps).heap ==> o in S || (o in g.heap && g.heap[o].kind.Str?)
  {
    hide Sound, SingleStep, U.Finished, Keeps, AtomicMark, Enabled, Next;
    StepSound(g, Collect(n));
    StartsMarking(g, n);
    var g1 := SingleStep(g, n);
    var first := U.FinishedRun(g1);
    var f := U.Finished(g1);
    var last := CycleEnds(f, n);
    RunsOn(g1, first, last);
    RunFirst(g, Collect(n), first + last);
    steps := [Collect(n)] + (first + last);
    forall S | Keeps(g, S) ensures forall o :: o in AtomicMark(f).heap && Marked(AtomicMark(f).heap, o) ==>
      o in S || (o in g.heap && g.heap[o].kind.Str?)
    {
      CycleBounded(g, n, S);
    }
  }

  lemma StartsMarking(g: Gc, n: nat)
    requires g.phase.Pause?
    ensures Enabled(g, Collect(n)) && Next(g, Collect(n)) == SingleStep(g, n) == Restart(g)
    ensures SingleStep(g, n).phase.Propagate?
  {
    MarkAllMarks(Restarted(g), g.roots + g.tobefnz);
  }

  lemma CycleBounded(g: Gc, n: nat, S: set<Id>)
    requires Sound(g) && g.phase.Pause? && Keeps(g, S)
    ensures var a := AtomicMark(U.Finished(SingleStep(g, n)));
      forall o :: o in a.heap && Marked(a.heap, o) ==> o in S || (o in g.heap && g.heap[o].kind.Str?)
  {
    var g1 := SingleStep(g, n);
    var f := U.Finished(g1);
    StepSound(g, Collect(n));
    StartsMarking(g, n);
    StartBounded(g, S);
    hide SingleStep, Restart, AtomicMark;
    FinishBounded(g1, S);
    AtomicBounded(f, S);
    BoundedIs(g, f, AtomicMark(f), S);
  }

  lemma BoundedIs(g: Gc, f: Gc, a: Gc, S: set<Id>)
    requires SameShape(g.heap, f.heap) && Later(f, a) && Bounded(a, S)
    ensures forall o :: o in a.heap && Marked(a.heap, o) ==> o in S || (o in g.heap && g.heap[o].kind.Str?)
  {
    hide Closed;
  }

  lemma StartBounded(g: Gc, S: set<Id>)
    requires Sound(g) && g.phase.Pause? && Keeps(g, S)
    ensures var g1 := Restart(g);
      Bounded(g1, S) && Keeps(g1, S) && SameShape(g.heap, g1.heap)
  {
    var g0 := Restarted(g);
    assert Bounded(g0, S);
    assert AllIn(g0.heap, g.roots + g.tobefnz, S);
    MarkAllBounded(g0, g.roots + g.tobefnz, S);
    MarkAllMarks(g0, g.roots + g.tobefnz);
  }

  /** Marking goes on to the atomic step. */
  lemma FinishBounded(g: Gc, S: set<Id>)
    requires Sound(g) && g.phase.Propagate? && Bounded(g, S) && Keeps(g, S)
    ensures var f := U.Finished(g);
      && AtAtomic(f) && Bounded(f, S) && SameShape(g.heap, f.heap)
      && AllIn(f.heap, f.roots, S) && AllIn(f.heap, f.tobefnz, S) && AllIn(f.heap, f.finobj, S)
  {
    hide *;
    var p := PropagateAll(g);
    SoundMarking(g);
    PropagateAllBounded(g, false, [], S);
    PropagateAllTri(g, false, []);
    SameBounded(p, p.(phase := Atomic), S);
    PhaseTri(p);
    FinishKeeps(g, p, S);
  }

  lemma SoundMarking(g: Gc)
    requires Sound(g) && g.phase.Propagate?
    ensures Tri(g, false, []) && U.Finished(g) == PropagateAll(g).(phase := Atomic)
    ensures (forall r :: r in g.roots ==> r in g.heap) && forall o :: o in g.tobefnz || o in g.finobj ==> o in g.heap
  {
    hide Tri, GrayListed, PropagateAll;
    forall o | o in g.tobefnz || o in g.finobj ensures o in g.heap { ListedIn(g, o); }
  }

  lemma FinishKeeps(g: Gc, p: Gc, S: set<Id>)
    requires Progress(g, p) && Keeps(g, S) && Tri(p.(phase := Atomic), false, [])
    requires (forall r :: r in g.roots ==> r in g.heap) && forall o :: o in g.tobefnz || o in g.finobj ==> o in g.heap
    ensures var f := p.(phase := Atomic);
      && AtAtomic(f) && SameShape(g.heap, f.heap)
      && AllIn(f.heap, f.roots, S) && AllIn(f.heap, f.tobefnz, S) && AllIn(f.heap, f.finobj, S)
  {
    hide Tri, Closed;
  }

  lemma PhaseTri(p: Gc)
    requires Tri(p, false, [])
    ensures Tri(p.(phase := Atomic), false, [])
  {
    var q := p.(phase := Atomic);
    forall o | Marked(q.heap, o) ensures Good(q, false, [], o) { assert Good(p, false, [], o); }
  }

  // ----- the order of finalizers -----

  lemma {:induction false} WhitesInOrder(h: Heap, os: seq<Id>, i: nat, j: nat) returns (k: nat, l: nat)
    requires i < j < |os| && IsWhite(h, os[i]) && IsWhite(h, os[j])
    ensures k < l < |WhitesOf(h, os)| && WhitesOf(h, os)[k] == os[i] && WhitesOf(h, os)[l] == os[j]
    decreases |os|
  {
    var d := if IsWhite(h, os[0]) then 1 else 0;
    if i == 0 {
      k := 0;
      l := WhiteAt(h, os[1..], j - 1);
    } else {
      k, l := WhitesInOrder(h, os[1..], i - 1, j - 1);
      k := k + d;
    }
    l := l + d;
  }

  lemma {:induction false} WhiteAt(h: Heap, os: seq<Id>, j: nat) returns (l: nat)
    requires j < |os| && IsWhite(h, os[j])
    ensures l < |WhitesOf(h, os)| && WhitesOf(h, os)[l] == os[j]
  {
    if j == 0 {
      l := 0;
    } else {
      l := WhiteAt(h, os[1..], j - 1);
      l := l + if IsWhite(h, os[0]) then 1 else 0;
    }
  }

  /** Objects with finalizers that are not marked when values have been cleared go to the end
      of the list of those to be finalized. */
  lemma SeparatedAre(g: Gc, o: Id)
    requires AtAtomic(g)
    ensures var fnz := AtomicMark(g).tobefnz;
      && |g.tobefnz| <= |fnz| && fnz[..|g.tobefnz|] == g.tobefnz
      && (o in fnz[|g.tobefnz|..] <==> o in g.finobj && IsWhite(C.Before(g).heap, o))
      && (o in AtomicMark(g).finobj <==> o in g.finobj && !IsWhite(C.Before(g).heap, o))
  {
    hide *;
    SeparatedList(g);
    Separated(C.Before(g).heap, g.finobj, o);
    var fnz := AtomicMark(g).tobefnz;
    assert fnz[|g.tobefnz|..] == WhitesOf(C.Before(g).heap, g.finobj);
  }

  lemma {:induction false} Separated(h: Heap, os: seq<Id>, o: Id)
    ensures o in WhitesOf(h, os) <==> o in os && IsWhite(h, o)
    ensures o in OthersOf(h, os) <==> o in os && !IsWhite(h, o)
  {
    if os != [] {
      Separated(h, os[1..], o);
      assert os == [os[0]] + os[1..];
    }
  }

  /** Those that got their finalizers later are finalized earlier: a new one goes to the front
      of its list, and from there they keep their order. */
  lemma FinalizedInReverse(g: Gc, i: nat, j: nat) returns (k: nat, l: nat)
    requires AtAtomic(g) && i < j < |g.finobj|
    requires IsWhite(C.Before(g).heap, g.finobj[i]) && IsWhite(C.Before(g).heap, g.finobj[j])
    ensures var fnz := AtomicMark(g).tobefnz;
      |g.tobefnz| <= k < l < |fnz| && fnz[k] == g.finobj[i] && fnz[l] == g.finobj[j]
  {
    hide *;
    SeparatedList(g);
    k, l := WhitesInOrder(C.Before(g).heap, g.finobj, i, j);
    k, l := k + |g.tobefnz|, l + |g.tobefnz|;
  }

  lemma SeparatedList(g: Gc)
    requires AtAtomic(g)
    ensures AtomicMark(g).tobefnz == g.tobefnz + WhitesOf(C.Before(g).heap, g.finobj)
    ensures AtomicMark(g).finobj == OthersOf(C.Before(g).heap, g.finobj)
  {
    C.AtomicClean(g);
  }
}

/** A run with the unguarded write, after which the program refers to a freed object. */
module GcDangling {
  import opened Common
  import opened GcHeap
  import opened GcMarking
  import opened GcInvariant
  import opened GcAtomic
  import opened GcMachine
  import opened GcSound
  import opened GcRuns

  ghost predicate Reachable(g: Gc) {
    exists steps :: IsRun(Start(0), steps) && After(Start(0), steps) == g
  }

  lemma {:induction false} RunSnoc(g: Gc, steps: seq<Step>, st: Step)
    requires IsRun(g, steps) && Enabled(After(g, steps), st)
    ensures IsRun(g, steps + [st]) && After(g, steps + [st]) == Next(After(g, steps), st)
    decreases |steps|
  {
    hide Next, Enabled;
    if steps == [] {
      assert [st][1..] == [];
    } else {
      assert (steps + [st])[1..] == steps[1..] + [st];
      RunSnoc(Next(g, steps[0]), steps[1..], st);
    }
  }

  lemma Reach(g: Gc, st: Step)
    requires Reachable(g) && Enabled(g, st)
    ensures Reachable(Next(g, st))
  {
    hide Next, Enabled;
    var steps :| IsRun(Start(0), steps) && After(Start(0), steps) == g;
    RunSnoc(Start(0), steps, st);
  }

  /** Object 0 is the main thread, 1 a table with weak keys and values, 2 its metatable. */
  function State(heap: Heap, phase: Phase, gray: seq<Id>, grayagain: seq<Id>, allweak: seq<Id>, allgc: seq<Id>): Gc {
    Gc(heap, false, phase, 0, [0], gray, grayagain, [], [], allweak, allgc, [], [], None)
  }

  function Main(c: Color, refs: seq<Id>): Obj {
    Obj(Thread, c, refs, [])
  }

  lemma RootAccessible(g: Gc, o: Id)
    requires o in g.roots
    ensures Accessible(g, o)
  {
    assert Path(g.heap, [o]) && [o][0] == o;
  }

  lemma RefAccessible(g: Gc, x: Id, o: Id)
    requires x in g.roots && x in g.heap && o in g.heap[x].refs
    ensures Accessible(g, o)
  {
    assert Edge(g.heap[x], o);
    var p := [x, o];
    assert Path(g.heap, p) && IsRoot(g, p[0]) && p[|p| - 1] == o;
  }

  lemma Started()
    ensures Reachable(Start(0))
  {
    assert IsRun(Start(0), []) && After(Start(0), []) == Start(0);
  }

  /** The program creates the table. */
  lemma Created() returns (g: Gc)
    ensures Reachable(g)
    ensures g == State(map[0 := Main(White(false), [1]), 1 := Obj(AllWeak, White(false), [], [])], Pause, [], [], [],
      [1])
  {
    Started();
    RootAccessible(Start(0), 0);
    hide Reachable, Accessible;
    Reach(Start(0), New(1, AllWeak, 0));
    g := Next(Start(0), New(1, AllWeak, 0));
    assert g.heap[0].refs == [1] && g.allgc == [1];
    assert g.heap == map[0 := Main(White(false), [1]), 1 := Obj(AllWeak, White(false), [], [])];
  }

  /** The collector marks and visits it. */
  lemma Visited() returns (g: Gc)
    ensures Reachable(g)
    ensures g == State(map[0 := Main(Gray, [1]), 1 := Obj(AllWeak, Gray, [], [])], Atomic, [], [0], [1], [1])
  {
    var g0 := Created();
    hide Reachable, Accessible;
    Reach(g0, Collect(0));
    var g1 := Next(g0, Collect(0));
    RestartRun(g0);
    Reach(g1, Collect(0));
    var g2 := Next(g1, Collect(0));
    VisitMain(g1);
    Reach(g2, Collect(0));
    g := Next(g2, Collect(0));
    VisitTable(g2);
  }

  lemma RestartRun(g: Gc)
    requires g == State(map[0 := Main(White(false), [1]), 1 := Obj(AllWeak, White(false), [], [])], Pause, [], [],
      [], [1])
    ensures SingleStep(g, 0) == State(map[0 := Main(Gray, [1]), 1 := Obj(AllWeak, White(false), [], [])], Propagate,
      [0], [], [], [1])
  {
    assert [0] + [] == [0];
    var g0 := g.(phase := Propagate);
    assert MarkAll(g0, [0]) == MarkAll(MarkIf(g0, 0), []);
  }

  lemma VisitMain(g: Gc)
    requires g == State(map[0 := Main(Gray, [1]), 1 := Obj(AllWeak, White(false), [], [])], Propagate, [0], [], [], [1])
    ensures SingleStep(g, 0) == State(map[0 := Main(Gray, [1]), 1 := Obj(AllWeak, Gray, [], [])], Propagate, [1],
      [0], [], [1])
  {
    var g0 := g.(gray := [], grayagain := [0]);
    assert g.gray[1..] == [] && [0] + g.grayagain == [0];
    assert MarkAll(g0, [1]) == MarkAll(MarkIf(g0, 1), []);
    assert PropagateMark(g) == MarkAll(g0, [1]);
  }

  lemma VisitTable(g: Gc)
    requires g == State(map[0 := Main(Gray, [1]), 1 := Obj(AllWeak, Gray, [], [])], Propagate, [1], [0], [], [1])
    ensures SingleStep(g, 0) == State(map[0 := Main(Gray, [1]), 1 := Obj(AllWeak, Gray, [], [])], Atomic, [], [0],
      [1], [1])
  {
    assert g.gray[1..] == [];
    assert MarkAll(g.(gray := []), []) == g.(gray := []);
  }

  function Heap3(refs: seq<Id>, meta: seq<Id>): Heap {
    map[0 := Main(Gray, refs), 1 := Obj(AllWeak, Gray, meta, []), 2 := Obj(Table, White(false), [], [])]
  }

  function At(refs: seq<Id>, meta: seq<Id>): Gc {
    State(Heap3(refs, meta), Atomic, [], [0], [1], [2, 1])
  }

  /** The program creates a metatable. */
  lemma MetatableCreated() returns (g: Gc)
    ensures Reachable(g) && g == At([1, 2], [])
  {
    var g0 := Visited();
    EnabledNew(g0);
    NextNew(g0);
    hide *;
    Reach(g0, New(2, Table, 0));
    g := Next(g0, New(2, Table, 0));
  }

  lemma EnabledNew(g: Gc)
    requires g == State(map[0 := Main(Gray, [1]), 1 := Obj(AllWeak, Gray, [], [])], Atomic, [], [0], [1], [1])
    ensures Enabled(g, New(2, Table, 0))
  {
    RootAccessible(g, 0);
  }

  lemma NextNew(g: Gc)
    requires g == State(map[0 := Main(Gray, [1]), 1 := Obj(AllWeak, Gray, [], [])], Atomic, [], [0], [1], [1])
    requires Enabled(g, New(2, Table, 0))
    ensures Next(g, New(2, Table, 0)) == At([1, 2], [])
  {
    hide Enabled;
    var g' := Pushed(Allocated(g, 2, Table), 0, 2);
    assert g'.heap[0].refs == [1, 2] && g'.allgc == [2, 1];
    assert g'.heap == Heap3([1, 2], []);
  }

  /** It gives the table the new metatable; no barrier is taken. */
  lemma MetatableSet() returns (g: Gc)
    ensures Reachable(g) && g == At([1, 2], [2])
  {
    var g0 := MetatableCreated();
    EnabledWrite(g0);
    NextWrite(g0, 1, [2], 2, At([1, 2], [2]));
    hide *;
    Reach(g0, SetRefs(1, [2], 2, false));
    g := Next(g0, SetRefs(1, [2], 2, false));
  }

  /** That write is the unguarded one. */
  lemma EnabledWrite(g: Gc)
    requires g == At([1, 2], [])
    ensures Enabled(g, SetRefs(1, [2], 2, false)) && Unguarded(g, SetRefs(1, [2], 2, false))
  {
    RefAccessible(g, 0, 1);
    RefAccessible(g, 0, 2);
  }

  lemma NextWrite(g: Gc, p: Id, refs: seq<Id>, v: Id, g': Gc)
    requires Enabled(g, SetRefs(p, refs, v, false))
    requires p in g.heap && g.heap[p].color.Gray? && g' == g.(heap := g'.heap)
    requires g'.heap == g.heap[p := g.heap[p].(refs := refs)]
    ensures Next(g, SetRefs(p, refs, v, false)) == g'
  {
    hide Enabled;
  }

  /** It forgets its own reference to the metatable. */
  lemma Rewritten() returns (g: Gc)
    ensures Reachable(g) && g == At([1], [2])
  {
    var g0 := MetatableSet();
    EnabledForget(g0);
    NextForget(g0);
    hide *;
    Reach(g0, SetRefs(0, [1], 1, false));
    g := Next(g0, SetRefs(0, [1], 1, false));
  }

  lemma NextForget(g: Gc)
    requires g == At([1, 2], [2]) && Enabled(g, SetRefs(0, [1], 1, false))
    ensures Next(g, SetRefs(0, [1], 1, false)) == At([1], [2])
  {
    hide Enabled;
    assert At([1], [2]).heap == g.heap[0 := g.heap[0].(refs := [1])];
    NextWrite(g, 0, [1], 1, At([1], [2]));
  }

  lemma EnabledForget(g: Gc)
    requires g == At([1, 2], [2])
    ensures Enabled(g, SetRefs(0, [1], 1, false))
  {
    RootAccessible(g, 0);
    RefAccessible(g, 0, 1);
  }

  /** Nothing is left to mark, so the atomic step marks nothing. */
  lemma AtomicQuiet(g: Gc)
    requires g == At([1], [2])
    ensures AtomicMark(g) == g.(phase := InsideAtomic)
  {
    var g1 := g.(phase := InsideAtomic);
    assert MarkAll(g1, [0]) == MarkAll(g1, []) == g1;
    var g2 := g1.(gray := [0], grayagain := []);
    assert PropagateMark(g2) == MarkAll(g1, [1]) == MarkAll(g1, []) by { assert g2.gray[1..] == [] && [0] + [] == [0]; }
    assert PropagateAll(g2) == PropagateAll(g1) == g1;
    assert EphemeronPass(g1, []) == Pass(g1, false);
    assert MarkReachable(g) == g1;
    assert ClearTable(g1, 1, false) == g1 && ClearTable(g1, 1, true) == g1;
    assert ClearTables(g1, [1], false) == ClearTables(g1, [], false) == g1;
    assert ClearTables(g1, [1], true) == ClearTables(g1, [], true) == g1;
    assert Separate(g1) == g1;
    assert Resurrect(g1) == g1;
    assert Newer(g1.weak, g1.weak) == [] && Newer(g1.allweak, g1.allweak) == [];
    assert ClearRest(g1, g1) == g1;
  }

  /** The sweep frees object 2 and stops at object 1. */
  lemma FirstSweep(h: Heap)
    requires h == Heap3([1], [2])
    ensures SweepToLive(h, true, [2, 1], 0).heap == (h - {2})[1 := Obj(AllWeak, White(true), [2], [])]
  {
    assert [2, 1][..0] + [2, 1][1..] == [1];
    assert SweepToLive(h, true, [2, 1], 0) == SweepToLive(h - {2}, true, [1], 0);
  }

  lemma SweepMetatable(g: Gc)
    requires g == At([1], [2])
    ensures var g' := AtomicStep(g);
      2 !in g'.heap && g'.roots == [0] && 0 in g'.heap && 1 in g'.heap && 1 in g'.heap[0].refs && 2 in g'.heap[1].refs
  {
    AtomicQuiet(g);
    FirstSweep(g.heap);
    StepHeap(g, g.(phase := InsideAtomic));
    hide AtomicMark, AtomicStep, SweepToLive;
    FreedHeap(AtomicStep(g).heap);
  }

  lemma StepHeap(g: Gc, g1: Gc)
    requires g == At([1], [2]) && g1 == g.(phase := InsideAtomic) && AtomicMark(g) == g1
    ensures AtomicStep(g).heap == SweepToLive(g.heap, true, [2, 1], 0).heap && AtomicStep(g).roots == [0]
  {
    hide AtomicMark, SweepToLive;
  }

  lemma FreedHeap(h: Heap)
    requires h == (Heap3([1], [2]) - {2})[1 := Obj(AllWeak, White(true), [2], [])]
    ensures 2 !in h && 0 in h && 1 in h && 1 in h[0].refs && 2 in h[1].refs
  {
  }

  lemma EnabledCollect(g: Gc)
    requires g.phase.Atomic?
    ensures Enabled(g, Collect(0)) && Next(g, Collect(0)) == AtomicStep(g)
  {
  }

  lemma Dangles(g: Gc)
    requires g.roots == [0] && 0 in g.heap && 1 in g.heap && 1 in g.heap[0].refs && 2 in g.heap[1].refs
    ensures Accessible(g, 2)
  {
    var p := [0, 1, 2];
    assert Edge(g.heap[0], 1) && Edge(g.heap[1], 2);
    assert Path(g.heap, p) && IsRoot(g, p[0]) && p[|p| - 1] == 2;
  }

  /** The metatable is freed while the table still refers to it. */
  lemma MetatableIsFreed() returns (g: Gc)
    ensures Reachable(g) && Accessible(g, 2) && 2 !in g.heap
  {
    var g0 := Rewritten();
    g := AtomicStep(g0);
    SweepMetatable(g0);
    EnabledCollect(g0);
    hide *;
    Reach(g0, Collect(0));
    Dangles(g);
  }
}

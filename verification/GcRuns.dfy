/** The collector is safe in every run that does not make the one unguarded write, and
    a run that does make it. */
module GcRuns {
  import opened Common
  import opened GcHeap
  import opened GcMarking
  import opened GcInvariant
  import opened GcAtomic
  import C = GcClean
  import opened GcMachine
  import opened GcSound
  import opened GcSweepSteps
  import opened GcMutator

  // ----- collector steps -----

  lemma SweepEndOk(g: Gc)
    requires Sound(g) && g.phase.SweepEnd?
    ensures Sound(SingleStep(g, 0))
  {
    var g' := SingleStep(g, 0);
    assert Unswept(g) == [];
    assert forall o :: OnList(g', o) == OnList(g, o);
    forall o | o in g'.heap ensures ObjOk(g'.heap, g'.heap[o]) {
      assert Live(g, o) && LiveOk(g, o) && ShapeOk(g.heap[o]);
    }
  }

  lemma CollectOk(g: Gc, n: nat)
    requires Sound(g) && Enabled(g, Collect(n))
    ensures Sound(SingleStep(g, n))
  {
    var g' := SingleStep(g, n);
    match g.phase
    case Pause =>
      RestartOk(g);
      RestartListed(g, g');
    case Propagate =>
      PropagateStepOk(g);
      ProgressListed(g, g');
    case Atomic => AtomicStepOk(g);
    case SweepAll => SweepAllOk(g, n);
    case SweepFin => SweepFinOk(g, n);
    case SweepToBeFin => SweepToBeFinOk(g, n);
    case SweepEnd => SweepEndOk(g);
    case CallFin =>
      if g.tobefnz == [] { assert forall o :: OnList(g', o) == OnList(g, o); }
  }

  lemma RestartListed(g: Gc, g': Gc)
    requires Listed(g) && Anchored(g) && g'.heap.Keys == g.heap.Keys && g'.roots == g.roots && g'.main == g.main
    requires g'.allgc == g.allgc && g'.finobj == g.finobj && g'.tobefnz == g.tobefnz
    requires g'.heap[g.main].kind == g.heap[g.main].kind
    ensures Listed(g') && Anchored(g')
  {
    assert forall o :: OnList(g', o) == OnList(g, o);
  }

  // ----- runs -----

  lemma StepSound(g: Gc, st: Step)
    requires Sound(g) && Enabled(g, st) && !Unguarded(g, st)
    ensures Sound(Next(g, st))
  {
    forall o | Accessible(g, o) ensures Live(g, o) { AccessibleLive(g, o); }
    match st
    case Collect(n) => CollectOk(g, n);
    case Abort => AbortOk(g);
    case New(id, kind, th) => NewOk(g, id, kind, th);
    case SetRefs(p, refs, v, back) => SetRefsOk(g, p, refs, v, back);
    case SetEntries(p, es, e) => SetEntriesOk(g, p, es, e);
    case SetMode(p, kind, refs, es) => SetModeOk(g, p, Obj(kind, g.heap[p].color, refs, es));
    case SetRoots(roots) => SetRootsOk(g, roots);
    case SetFinalizer(o) => SetFinalizerOk(g, o);
    case Finalize(th) => FinalizeOk(g, th);
  }

  /** A program starts with its main thread. */
  function Start(main: Id): Gc {
    Gc(map[main := Obj(Thread, White(false), [], [])], false, Pause, main, [main], [], [], [], [], [], [], [], [], None)
  }

  lemma StartSound(main: Id)
    ensures Sound(Start(main))
  {
  }

  ghost predicate IsRun(g: Gc, steps: seq<Step>)
    decreases |steps|
  {
    steps == [] || (Enabled(g, steps[0]) && IsRun(Next(g, steps[0]), steps[1..]))
  }

  ghost function After(g: Gc, steps: seq<Step>): Gc
    requires IsRun(g, steps)
    decreases |steps|
  {
    if steps == [] then g else After(Next(g, steps[0]), steps[1..])
  }

  /** The run never makes the unguarded write. */
  ghost predicate Guarded(g: Gc, steps: seq<Step>)
    requires IsRun(g, steps)
    decreases |steps|
  {
    steps == [] || (!Unguarded(g, steps[0]) && Guarded(Next(g, steps[0]), steps[1..]))
  }

  lemma {:induction false} RunSound(g: Gc, steps: seq<Step>)
    requires Sound(g) && IsRun(g, steps) && Guarded(g, steps)
    ensures Sound(After(g, steps))
    decreases |steps|
  {
    hide Sound, Enabled, Next, Unguarded;
    if steps != [] {
      StepSound(g, steps[0]);
      RunSound(Next(g, steps[0]), steps[1..]);
    }
  }

  /** In every state such a run reaches: nothing the program can reach has been freed or is
      dead, and while marking no black object refers to a white one. */
  lemma CollectorIsSafe(main: Id, steps: seq<Step>)
    requires IsRun(Start(main), steps) && Guarded(Start(main), steps)
    ensures var g := After(Start(main), steps);
      && (forall o :: Accessible(g, o) ==> o in g.heap && !Dead(g, o))
      && (MarkingPhase(g.phase) ==>
            && (forall o, r :: o in g.heap && g.heap[o].color.Black? && r in g.heap[o].refs ==>
                 r in g.heap && !IsWhite(g.heap, r))
            && (forall o :: o in g.heap && g.heap[o].color.Gray? ==> o in g.gray || o in g.grayagain || o in g.allweak))
  {
    var g := After(Start(main), steps);
    StartSound(main);
    RunSound(Start(main), steps);
    hide IsRun, Guarded, After, Start;
    forall o | Accessible(g, o) ensures Live(g, o) { AccessibleLive(g, o); }
    if MarkingPhase(g.phase) {
      forall o, r | o in g.heap && g.heap[o].color.Black? && r in g.heap[o].refs
        ensures r in g.heap && !IsWhite(g.heap, r) {
        BlackNeverPointsToWhite(g, false, [], o, r);
      }
    }
  }

  /** A sweeping step frees only objects the program cannot reach. */
  lemma SweepFreesOnlyGarbage(main: Id, steps: seq<Step>, n: nat, o: Id)
    requires IsRun(Start(main), steps) && Guarded(Start(main), steps)
    requires var g := After(Start(main), steps); Sweeping(g.phase) && o in g.heap && o !in SingleStep(g, n).heap
    ensures !Accessible(After(Start(main), steps), o)
  {
    var g := After(Start(main), steps);
    StartSound(main);
    RunSound(Start(main), steps);
    hide IsRun, Guarded, After, Start;
    if Accessible(g, o) { AccessibleLive(g, o); }
    match g.phase
    case SweepAll => SweepAllOk(g, n);
    case SweepFin => SweepFinOk(g, n);
    case SweepToBeFin => SweepToBeFinOk(g, n);
    case SweepEnd =>
  }

  // ----- strong references through the atomic step -----

  /** A path of strong references. */
  ghost predicate StrongPath(h: Heap, p: seq<Id>) {
    && p != []
    && forall i :: 0 <= i < |p| - 1 ==> p[i] in h && p[i + 1] in h[p[i]].refs
  }

  /** Whatever strong references lead to from the roots survives the atomic step. */
  lemma AtomicKeepsStrong(g: Gc, p: seq<Id>)
    requires Sound(g) && g.phase.Atomic? && StrongPath(g.heap, p) && p[0] in g.roots
    ensures Marked(AtomicMark(g).heap, p[|p| - 1])
  {
    forall o | o in g.tobefnz || o in g.finobj ensures o in g.heap { ListedIn(g, o); }
    C.AtomicClean(g);
    hide Sound;
    StrongMarked(g, AtomicMark(g), p);
  }

  lemma {:induction false} StrongMarked(g: Gc, g': Gc, p: seq<Id>)
    requires StrongPath(g.heap, p) && Later(g, g') && Clean(g') && Marked(g'.heap, p[0])
    ensures Marked(g'.heap, p[|p| - 1])
    decreases |p|
  {
    if |p| > 1 {
      var q := p[..|p| - 1];
      assert q[0] == p[0];
      StrongMarked(g, g', q);
      var x := p[|p| - 2];
      assert q[|q| - 1] == x;
      assert AllMarked(g'.heap, g'.heap[x].refs);
    }
  }

  // ----- the unguarded write -----

  /** A write of references keeps the collector's invariant exactly when it is guarded. */
  lemma GuardIsExact(g: Gc, p: Id, refs: seq<Id>, v: Id, back: bool)
    requires Sound(g) && Enabled(g, SetRefs(p, refs, v, back))
    ensures var st := SetRefs(p, refs, v, back); Sound(Next(g, st)) <==> !Unguarded(g, st)
  {
    var st := SetRefs(p, refs, v, back);
    if Unguarded(g, st) {
      var g' := Next(g, st);
      assert g.heap[p].color.Gray?;
      assert g' == SetObj(g, p, g.heap[p].(refs := refs));
      assert !Pending(g', false, [], p) && !Marked(g'.heap, v);
      assert Sound(g') ==> Good(g', false, [], p);
    } else {
      StepSound(g, st);
    }
  }
}

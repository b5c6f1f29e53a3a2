/** What the unguarded write does: exactly when the rest of the collection would not mark
    the new reference on its own, the program is left with a reference to a dead object. */
module GcUnguarded {
  import opened Common
  import opened GcHeap
  import opened GcMarking
  import opened GcInvariant
  import opened GcTraverse
  import opened GcConverge
  import opened GcAtomic
  import C = GcClean
  import opened GcClearing
  import opened GcMachine
  import opened GcSound
  import opened GcSweep
  import opened GcRuns
  import opened GcAside

  // ----- on to the atomic step -----

  /** The collector goes on by itself until only the atomic step is left of marking. */
  function Finished(g: Gc): Gc {
    if g.phase.Propagate? then PropagateAll(g).(phase := Atomic) else g
  }

  predicate OnlyCollects(steps: seq<Step>) {
    forall i :: 0 <= i < |steps| ==> steps[i] == Collect(0)
  }

  lemma FinishedStep(g: Gc)
    requires Sound(g) && g.phase.Propagate?
    ensures var g1 := SingleStep(g, 0);
      Finished(g) == Finished(g1) && (g1.phase.Propagate? ==> g1.gray != [])
        && (g1.phase.Propagate? || g1.phase.Atomic?)
  {
    PropagateMarkTri(g, false, []);
    var m := PropagateMark(g);
    assert m.phase == g.phase;
    assert PropagateAll(g) == PropagateAll(m);
    hide PropagateMark;
    assert m.gray == [] ==> PropagateAll(m) == m;
  }

  /** That is a run of collector steps. */
  lemma {:induction false} FinishedRun(g: Gc) returns (steps: seq<Step>)
    requires Sound(g) && MarkingPhase(g.phase)
    ensures OnlyCollects(steps) && IsRun(g, steps) && After(g, steps) == Finished(g)
    ensures Sound(Finished(g)) && Finished(g).phase.Atomic?
    decreases Whites(g.heap), |g.gray|
  {
    if g.phase.Atomic? {
      steps := [];
    } else {
      var g1 := SingleStep(g, 0);
      FinishedStep(g);
      StepSound(g, Collect(0));
      hide Sound, Finished, PropagateMark;
      assert Whites(g1.heap) < Whites(g.heap) || Whites(g1.heap) == Whites(g.heap);
      var rest := FinishedRun(g1);
      steps := [Collect(0)] + rest;
      RunCons(g, g1, steps, rest);
    }
  }

  lemma RunCons(g: Gc, g1: Gc, steps: seq<Step>, rest: seq<Step>)
    requires steps == [Collect(0)] + rest && Enabled(g, Collect(0)) && g1 == Next(g, Collect(0)) && IsRun(g1, rest)
    requires OnlyCollects(rest)
    ensures OnlyCollects(steps) && IsRun(g, steps) && After(g, steps) == After(g1, rest)
  {
    hide Next, Enabled;
    assert steps[1..] == rest;
  }

  // ----- the write is not seen -----

  /** The table is set aside, and nothing but its references changes. */
  lemma WrittenAside(g: Gc, p: Id, refs: seq<Id>, v: Id, back: bool)
    requires Sound(g) && Enabled(g, SetRefs(p, refs, v, back)) && Unguarded(g, SetRefs(p, refs, v, back))
    ensures Aside(g, p) && Next(g, SetRefs(p, refs, v, back)) == With(g, p, AllWeak, refs) && v in refs && v in g.heap
  {
    assert Marked(g.heap, p) && g.heap[p].color.Gray?;
  }

  lemma FinishedWith(g: Gc, p: Id, kd: Nonstring, refs: seq<Id>)
    requires Aside(g, p)
    ensures p in Finished(g).heap && Finished(With(g, p, kd, refs)) == With(Finished(g), p, kd, refs)
    ensures Aside(Finished(g), p)
  {
    if g.phase.Propagate? { PropagateAllWith(g, p, kd, refs); }
    hide PropagateAll;
  }

  /** Marking is the same with and without the unguarded write. */
  lemma UnguardedMarksNothing(g: Gc, p: Id, refs: seq<Id>, v: Id, back: bool)
    requires Sound(g) && Enabled(g, SetRefs(p, refs, v, back)) && Unguarded(g, SetRefs(p, refs, v, back))
    ensures var a, a' := AtomicMark(Finished(g)), AtomicMark(Finished(Next(g, SetRefs(p, refs, v, back))));
      p in a.heap && a' == With(a, p, AllWeak, refs) && Marked(a'.heap, p) && v in a'.heap[p].refs
  {
    WrittenAside(g, p, refs, v, back);
    hide *;
    FinishedWith(g, p, AllWeak, refs);
    AtomicMarkWith(Finished(g), p, AllWeak, refs);
    WithKeeps(AtomicMark(Finished(g)), p, AllWeak, refs);
  }

  lemma WithKeeps(g: Gc, p: Id, kd: Nonstring, refs: seq<Id>)
    requires Aside(g, p)
    ensures var g' := With(g, p, kd, refs);
      && p in g.heap && p in g'.heap && Marked(g'.heap, p)
      && g'.heap[p] == g.heap[p].(kind := kd, refs := refs)
  {
  }

  // ----- a mode that changes -----

  /** A new mode does not take effect on a table that was visited before, in the same
      cycle. A table that was all weak when it was visited, and then gets a metatable without
      a weak mode, still is cleared as a weak table: an entry stays exactly if its value is
      marked when values are cleared and its key is when keys are. */
  lemma ModeChangeComesTooLate(g: Gc, p: Id, meta: seq<Id>)
    requires Sound(g) && MarkingPhase(g.phase) && p in g.heap && g.heap[p].kind.AllWeak? && g.heap[p].color.Gray?
    requires p in g.allweak && !(p in g.gray || p in g.grayagain)
    ensures var a, a' := AtomicMark(Finished(g)), AtomicMark(Finished(With(g, p, Table, meta)));
      && p in a.heap && a' == With(a, p, Table, meta) && Marked(a'.heap, p) && a'.heap[p].entries == a.heap[p].entries
      && forall e :: e in a'.heap[p].entries <==>
           && e in g.heap[p].entries
           && Stays(MarkReachable(Finished(g)).heap, e.val) && Stays(Resurrected(Finished(g)).heap, e.key)
  {
    hide *;
    MadeAside(g, p);
    FinishedKeeps(g, p);
    FinishedWith(g, p, Table, meta);
    var a := AtomicMark(Finished(g));
    AtomicMarkWith(Finished(g), p, Table, meta);
    WithKeeps(a, p, Table, meta);
    forall e ensures e in a.heap[p].entries <==>
      && e in g.heap[p].entries
      && Stays(MarkReachable(Finished(g)).heap, e.val) && Stays(Resurrected(Finished(g)).heap, e.key)
    {
      EntryStaysExactly(Finished(g), p, e);
    }
  }

  /** On the way to the atomic step tables keep their entries and their place on the list. */
  lemma FinishedKeeps(g: Gc, p: Id)
    requires Sound(g) && MarkingPhase(g.phase) && p in g.heap && p in g.allweak
    ensures var f := Finished(g); p in f.heap && f.heap[p].entries == g.heap[p].entries && p in f.allweak
    ensures AtAtomic(Finished(g))
  {
    var steps := FinishedRun(g);
    SoundAtomic(Finished(g));
    if g.phase.Propagate? { SoundTri(g); }
    hide Tri, Sound, AtAtomic, PropagateAll;
    if g.phase.Propagate? { PropagateAllTri(g, false, []); }
  }

  lemma SoundTri(g: Gc)
    requires Sound(g) && MarkingPhase(g.phase)
    ensures Tri(g, false, [])
  {
    hide Tri, Listed, Anchored;
  }

  lemma SoundAtomic(f: Gc)
    requires Sound(f) && f.phase.Atomic?
    ensures AtAtomic(f)
  {
    forall o | o in f.tobefnz || o in f.finobj ensures o in f.heap { ListedIn(f, o); }
  }

  lemma MadeAside(g: Gc, p: Id)
    requires Sound(g) && MarkingPhase(g.phase) && p in g.heap && g.heap[p].kind.AllWeak? && g.heap[p].color.Gray?
    requires p in g.allweak && !(p in g.gray || p in g.grayagain)
    ensures Aside(g, p)
  {
    SoundLists(g);
    hide Sound, TableLists;
    NotEphemeron(g, p);
  }

  lemma SoundLists(g: Gc)
    requires Sound(g) && MarkingPhase(g.phase)
    ensures TableLists(g)
  {
    hide TableLists, Good, HeapOk, ColorsOk, Listed, Anchored;
  }

  lemma NotEphemeron(g: Gc, p: Id)
    requires TableLists(g) && p in g.heap && g.heap[p].kind.AllWeak?
    ensures p !in g.ephemeron
  {
  }

  // ----- what is swept -----

  /** After the atomic step just the marked objects are alive, with the references they had. */
  lemma AtomicLives(g: Gc, a: Gc, o: Id)
    requires NoRepeats(a.allgc) && (forall x :: x in a.allgc ==> x in a.heap) && o in a.heap
    requires forall x :: IsWhite(a.heap, x) ==> a.heap[x].color == White(a.white)
    ensures var z := EnterSweep(a.(white := !a.white));
      && (Live(z, o) <==> Marked(a.heap, o)) && z.roots == a.roots
      && (Live(z, o) ==> z.heap[o].refs == a.heap[o].refs)
  {
    SweepToLiveOk(a.heap, !a.white, a.allgc, 0);
    hide SweepToLive;
  }

  lemma AtomicParts(g: Gc)
    requires Sound(g) && g.phase.Atomic?
    ensures var a := AtomicMark(g);
      && NoRepeats(a.allgc) && (forall x :: x in a.allgc ==> x in a.heap) && a.roots == g.roots
           && a.heap.Keys == g.heap.Keys
      && (forall x :: IsWhite(a.heap, x) ==> a.heap[x].color == White(a.white))
      && (forall x :: x in g.heap ==> a.heap[x].refs == g.heap[x].refs)
  {
    forall o | o in g.tobefnz || o in g.finobj || o in g.allgc ensures o in g.heap { ListedIn(g, o); }
    C.AtomicClean(g);
    hide AtomicMark;
  }

  /** A strong path that p is at the end of only. */
  ghost predicate PathTo(g: Gc, path: seq<Id>, p: Id) {
    && StrongPath(g.heap, path) && path[0] in g.roots && path[|path| - 1] == p
    && forall i :: 0 <= i < |path| - 1 ==> path[i] != p
  }

  lemma {:induction false} PathMarked(g: Gc, path: seq<Id>, p: Id, i: nat)
    requires Sound(g) && g.phase.Atomic? && StrongPath(g.heap, path) && path[0] in g.roots && i < |path|
    ensures Marked(AtomicMark(g).heap, path[i])
  {
    var q := path[..i + 1];
    assert StrongPath(g.heap, q) && q[|q| - 1] == path[i];
    AtomicKeepsStrong(g, q);
  }

  /** The same references before and after propagation. */
  lemma FinishedShape(g: Gc)
    requires Sound(g) && MarkingPhase(g.phase)
    ensures Finished(g).heap.Keys == g.heap.Keys && Finished(g).roots == g.roots
    ensures forall o :: o in g.heap ==> Finished(g).heap[o].refs == g.heap[o].refs
  {
    if g.phase.Propagate? { PropagateAllTri(g, false, []); }
    hide PropagateAll;
  }

  lemma SweptPath(z: Gc, path: seq<Id>, v: Id)
    requires path != [] && path[0] in z.roots
    requires forall i :: 0 <= i < |path| - 1 ==> path[i] in z.heap && path[i + 1] in z.heap[path[i]].refs
    requires var p := path[|path| - 1]; p in z.heap && v in z.heap[p].refs
    ensures Accessible(z, v)
  {
    var q := path + [v];
    forall i | 0 <= i < |q| - 1 ensures q[i] in z.heap && Edge(z.heap[q[i]], q[i + 1]) {
      if i == |path| - 1 { assert q[i] == path[|path| - 1]; }
    }
    assert Path(z.heap, q) && IsRoot(z, q[0]) && q[|q| - 1] == v;
  }

  /** The unguarded write goes wrong in every state in which it can be made: for a table
      that the program holds by strong references, the collection that is under way leaves
      it with a dangling reference exactly when it would not have marked the new reference
      without the write. */
  lemma UnguardedDangles(g: Gc, p: Id, refs: seq<Id>, v: Id, back: bool, path: seq<Id>)
    requires Sound(g) && Enabled(g, SetRefs(p, refs, v, back)) && Unguarded(g, SetRefs(p, refs, v, back))
    requires PathTo(g, path, p)
    ensures var z := AtomicStep(Finished(Next(g, SetRefs(p, refs, v, back))));
      Accessible(z, v) && (!Live(z, v) <==> !Marked(AtomicMark(Finished(g)).heap, v))
  {
    WrittenAside(g, p, refs, v, back);
    assert MarkingPhase(g.phase);
    hide Sound, Enabled, Unguarded, Next, Finished, AtomicMark, AtomicStep, EnterSweep, PathTo, Accessible, With,
      StrongPath;
    var f := Finished(g);
    var steps := FinishedRun(g);
    FinishedShape(g);
    UnguardedMarksNothing(g, p, refs, v, back);
    AtomicParts(f);
    var a := AtomicMark(f);
    PathFinished(g, f, path, p);
    forall i: nat | i < |path| ensures Marked(a.heap, path[i]) { PathMarked(f, path, p, i); }
    var f' := Finished(Next(g, SetRefs(p, refs, v, back)));
    AtomicStepIs(f');
    Conclude(g, f, a, AtomicMark(f'), AtomicStep(f'), p, refs, v, path);
  }

  lemma AtomicStepIs(g: Gc)
    ensures AtomicStep(g) == EnterSweep(AtomicMark(g).(white := !AtomicMark(g).white))
  {
  }

  lemma PathFinished(g: Gc, f: Gc, path: seq<Id>, p: Id)
    requires PathTo(g, path, p) && f.heap.Keys == g.heap.Keys && f.roots == g.roots
    requires forall o :: o in g.heap ==> f.heap[o].refs == g.heap[o].refs
    ensures StrongPath(f.heap, path) && path[0] in f.roots
  {
  }

  lemma Conclude(g: Gc, f: Gc, a: Gc, a': Gc, z: Gc, p: Id, refs: seq<Id>, v: Id, path: seq<Id>)
    requires PathTo(g, path, p) && p in a.heap && v in a.heap && a' == With(a, p, AllWeak, refs) && v in refs
    requires z == EnterSweep(a'.(white := !a'.white))
    requires NoRepeats(a.allgc) && (forall x :: x in a.allgc ==> x in a.heap) && a.roots == g.roots
    requires a.heap.Keys == g.heap.Keys
    requires forall x :: IsWhite(a.heap, x) ==> a.heap[x].color == White(a.white)
    requires forall x :: x in g.heap ==> a.heap[x].refs == g.heap[x].refs
    requires forall i: nat :: i < |path| ==> Marked(a.heap, path[i])
    ensures Accessible(z, v) && (!Live(z, v) <==> !Marked(a.heap, v))
  {
    forall o | o in a'.heap ensures (Live(z, o) <==> Marked(a.heap, o))
      && (Live(z, o) ==> z.heap[o].refs == a'.heap[o].refs) {
      AtomicLives(g, a', o);
    }
    AtomicLives(g, a', v);
    hide EnterSweep;
    forall i | 0 <= i < |path| - 1 ensures path[i] in z.heap && path[i + 1] in z.heap[path[i]].refs {
      assert Marked(a.heap, path[i]) && Live(z, path[i]);
    }
    assert Marked(a.heap, path[|path| - 1]) && Live(z, p);
    SweptPath(z, path, v);
  }
}

/** A sweep that is not disturbed ends, and leaves just what marking left alive. */
module GcFinish {
  import opened Common
  import opened GcHeap
  import opened GcMarking
  import opened GcInvariant
  import opened GcAtomic
  import C = GcClean
  import opened GcMachine
  import opened GcSound
  import opened GcSweep
  import opened GcSweepSteps
  import opened GcRuns
  import opened GcUnguarded

  // ----- a sweep makes progress -----

  /** What is left of a list after a part of it was swept. */
  lemma {:induction false} ListShrinks(h: Heap, white: bool, list: seq<Id>, i: nat, n: nat)
    requires i < |list| && n > 0 && forall o :: o in list ==> o in h
    ensures var r := SweepList(h, white, list, i, n);
      r.at.Some? ==> r.at.value <= |r.list| && |r.list| - r.at.value < |list| - i
    decreases n
  {
    var o := list[i];
    if h[o].color == White(!white) {
      var rest := list[..i] + list[i + 1..];
      assert |rest| == |list| - 1;
      if o in rest {
        assert SweepList(h, white, list, i, n) == SweepList(h - {o}, white, rest, i, n - 1);
        AtBound(h - {o}, white, rest, i, n - 1);
      } else if n > 1 && i < |rest| {
        ListShrinks(h - {o}, white, rest, i, n - 1);
      }
    } else if n > 1 && i + 1 < |list| {
      ListShrinks(h[o := h[o].(color := White(white))], white, list, i + 1, n - 1);
    }
  }

  lemma {:induction false} AtBound(h: Heap, white: bool, list: seq<Id>, i: nat, n: nat)
    requires i <= |list|
    ensures var r := SweepList(h, white, list, i, n);
      r.at.Some? ==> r.at.value <= |r.list| && |r.list| - r.at.value <= |list| - i
    decreases n
  {
    if i < |list| && n > 0 {
      var o := list[i];
      if o !in h {
        AtBound(h, white, list, i + 1, n - 1);
      } else if h[o].color == White(!white) {
        AtBound(h - {o}, white, list[..i] + list[i + 1..], i, n - 1);
      } else {
        AtBound(h[o := h[o].(color := White(white))], white, list, i + 1, n - 1);
      }
    }
  }

  /** The lists still to be swept after the current one, and what is left of that. */
  function Phases(p: Phase): nat {
    if p.SweepAll? then 4 else if p.SweepFin? then 3 else if p.SweepToBeFin? then 2 else if p.SweepEnd? then 1 else 0
  }

  function Current(g: Gc): seq<Id> {
    if g.phase.SweepAll? then g.allgc else if g.phase.SweepFin? then g.finobj
    else if g.phase.SweepToBeFin? then g.tobefnz else []
  }

  function Remaining(g: Gc): nat {
    if g.sweep.Some? && g.sweep.value <= |Current(g)| then |Current(g)| - g.sweep.value else 0
  }

  /** Each step of the collector that may do anything takes the sweep further. */
  lemma SweepShrinks(g: Gc, n: nat)
    requires Sound(g) && Sweeping(g.phase) && n > 0
    ensures var g' := SingleStep(g, n);
      && Phases(g'.phase) <= Phases(g.phase)
      && (Phases(g'.phase) == Phases(g.phase) ==> Remaining(g') < Remaining(g))
      && (Sweeping(g'.phase) || g'.phase.CallFin?)
  {
    var list := Current(g);
    forall o | o in list ensures o in g.heap { if !g.phase.SweepEnd? { ListedIn(g, o); } }
    assert g.main in g.heap;
    hide Sound;
    if g.sweep.Some? && g.sweep.value < |list| { ListShrinks(g.heap, g.white, list, g.sweep.value, n); }
  }

  // ----- what a sweep leaves -----

  function LiveOnes(g: Gc): set<Id> {
    set o | o in g.heap && !Dead(g, o)
  }

  lemma SweptKeepsLive(g: Gc, g': Gc, list: seq<Id>, r: Sweep)
    requires Swept(g.heap, g.white, list, r) && g'.heap == r.heap && g'.white == g.white
    ensures LiveOnes(g') == LiveOnes(g)
  {
  }

  lemma StepKeepsLive(g: Gc, n: nat)
    requires Sound(g) && Sweeping(g.phase)
    ensures LiveOnes(SingleStep(g, n)) == LiveOnes(g)
  {
    if g.phase.SweepEnd? {
      RootLive(g, g.main);
    } else {
      var list := Current(g);
      forall o | o in list ensures o in g.heap { ListedIn(g, o); }
      assert NoRepeats(list);
      SweepFromOk(g, list, n);
      SweepIs(g, n);
      hide SweepStep, SweepFrom, Swept, Sound;
      SweptKeepsLive(g, SingleStep(g, n), list, SweepFrom(g, list, n));
    }
  }

  lemma SweepIs(g: Gc, n: nat)
    requires g.phase.SweepAll? || g.phase.SweepFin? || g.phase.SweepToBeFin?
    ensures SingleStep(g, n).heap == SweepFrom(g, Current(g), n).heap && SingleStep(g, n).white == g.white
  {
    hide SweepList;
  }

  lemma RunFirst(g: Gc, st: Step, rest: seq<Step>)
    requires Enabled(g, st) && IsRun(Next(g, st), rest)
    ensures IsRun(g, [st] + rest) && After(g, [st] + rest) == After(Next(g, st), rest)
  {
    hide Enabled, Next;
    assert ([st] + rest)[1..] == rest;
  }

  /** From any state in a sweeping phase, finitely many collector steps finish the sweep, if
      each may look at one object at least. Of the heap then just the objects are left that
      were alive. */
  lemma {:induction false} SweepEnds(g: Gc, n: nat) returns (steps: seq<Step>)
    requires Sound(g) && Sweeping(g.phase) && n > 0
    ensures (forall i :: 0 <= i < |steps| ==> steps[i] == Collect(n)) && IsRun(g, steps)
    ensures var z := After(g, steps); z.phase.CallFin? && Sound(z) && z.heap.Keys == LiveOnes(g)
    decreases Phases(g.phase), Remaining(g)
  {
    var g1 := SingleStep(g, n);
    SweepShrinks(g, n);
    StepKeepsLive(g, n);
    StepSound(g, Collect(n));
    var rest: seq<Step> := [];
    if !g1.phase.CallFin? { rest := SweepEnds(g1, n); } else { AllLiveAtEnd(g1); }
    steps := [Collect(n)] + rest;
    assert steps[1..] == rest;
    hide SingleStep, Sound;
  }

  lemma AllLiveAtEnd(g: Gc)
    requires Sound(g) && g.phase.CallFin?
    ensures g.heap.Keys == LiveOnes(g)
  {
  }

  // ----- from the atomic step on -----

  function MarkedOnes(g: Gc): set<Id> {
    set o | o in g.heap && !g.heap[o].color.White?
  }

  function Flipped(a: Gc): Gc {
    a.(white := !a.white)
  }

  /** After the white is changed, exactly the marked objects are alive. */
  lemma FlippedLives(g: Gc)
    requires Sound(g) && g.phase.Atomic?
    ensures LiveOnes(Flipped(AtomicMark(g))) == MarkedOnes(AtomicMark(g))
    ensures Listed(Flipped(AtomicMark(g))) && Anchored(Flipped(AtomicMark(g))) && LiveClosed(Flipped(AtomicMark(g)))
  {
    forall o | o in g.tobefnz || o in g.finobj ensures o in g.heap { ListedIn(g, o); }
    C.AtomicClean(g);
    var a := AtomicMark(g);
    FlippedOk(g, a, C.Before(g).heap);
    hide AtomicMark, Listed, Anchored, LiveClosed, Clean, HeapOk, Tri;
    WhitesKeep(g, a);
  }

  lemma WhitesKeep(g: Gc, a: Gc)
    requires MarkingOk(g) && Later(g, a)
    ensures LiveOnes(Flipped(a)) == MarkedOnes(a)
  {
    hide Tri, GrayListed;
  }

  lemma EnterKeepsLive(g: Gc)
    requires Listed(g)
    ensures LiveOnes(EnterSweep(g)) == LiveOnes(g)
  {
    assert forall o :: OnList(g, o) ==> o in g.heap;
    SweepToLiveOk(g.heap, g.white, g.allgc, 0);
    hide SweepToLive, Swept, Ahead, Listed;
    SweptKeepsLive(g, EnterSweep(g), g.allgc, SweepToLive(g.heap, g.white, g.allgc, 0));
  }

  /** The atomic step leaves alive just what it marked. */
  lemma AtomicKeepsMarked(g: Gc)
    requires Sound(g) && g.phase.Atomic?
    ensures LiveOnes(AtomicStep(g)) == MarkedOnes(AtomicMark(g))
  {
    hide AtomicMark, EnterSweep, Listed, LiveOnes, MarkedOnes, Sound, LiveClosed, Anchored;
    FlippedLives(g);
    EnterKeepsLive(Flipped(AtomicMark(g)));
  }

  lemma AtomicIs(g: Gc, n: nat)
    requires g.phase.Atomic?
    ensures Enabled(g, Collect(n)) && Next(g, Collect(n)) == AtomicStep(g) && Sweeping(AtomicStep(g).phase)
  {
    hide AtomicMark, SweepToLive;
  }

  /** From the atomic step on, finitely many collector steps finish the cycle; then the heap
      holds exactly the objects that the atomic step left marked. */
  lemma CycleEnds(g: Gc, n: nat) returns (steps: seq<Step>)
    requires Sound(g) && g.phase.Atomic? && n > 0
    ensures (forall i :: 0 <= i < |steps| ==> steps[i] == Collect(n)) && IsRun(g, steps)
    ensures var z := After(g, steps);
      z.phase.CallFin? && Sound(z) && z.heap.Keys == MarkedOnes(AtomicMark(g))
  {
    hide Sound, AtomicStep, AtomicMark, SingleStep, LiveOnes, MarkedOnes, Enabled, Next, EnterSweep;
    AtomicIs(g, n);
    AtomicKeepsMarked(g);
    StepSound(g, Collect(n));
    var rest := SweepEnds(AtomicStep(g), n);
    RunFirst(g, Collect(n), rest);
    steps := [Collect(n)] + rest;
  }

  /** When nothing is left to be finalized, and only then, the next step ends the cycle, and
      the one after it begins another. */
  lemma NextCycle(g: Gc, n: nat)
    requires Sound(g) && g.phase.CallFin?
    ensures SingleStep(g, n).phase.Pause? <==> g.tobefnz == []
    ensures g.tobefnz == [] ==>
      SingleStep(g, n) == g.(phase := Pause) && SingleStep(SingleStep(g, n), n).phase.Propagate?
    ensures g.tobefnz != [] ==> SingleStep(g, n) == g && forall o :: o in g.tobefnz ==> o in g.heap
  {
    if g.tobefnz == [] {
      var p := SingleStep(g, n);
      StepSound(g, Collect(n));
      StepSound(p, Collect(n));
      MarkAllMarks(Restarted(p), p.roots + p.tobefnz);
    } else {
      forall o | o in g.tobefnz ensures o in g.heap { ListedIn(g, o); }
    }
  }

  function Restarted(g: Gc): Gc {
    g.(gray := [], grayagain := [], weak := [], allweak := [], ephemeron := [], phase := Propagate)
  }
}

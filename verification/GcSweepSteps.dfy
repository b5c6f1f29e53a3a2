/** Sweeping steps, and the step that starts the sweep. */
module GcSweepSteps {
  import opened Common
  import opened GcHeap
  import opened GcMarking
  import opened GcInvariant
  import opened GcAtomic
  import opened GcClean
  import opened GcMachine
  import opened GcSound
  import opened GcSweep

  /** Sweeping part of a list keeps what live objects refer to. */
  lemma SweptLiveClosed(g: Gc, g': Gc, list: seq<Id>, r: Sweep)
    requires LiveClosed(g) && Swept(g.heap, g.white, list, r)
    requires g'.heap == r.heap && g'.white == g.white && g'.roots == g.roots
    requires forall o :: o in g'.tobefnz || o in g'.finobj ==> o in g.tobefnz || o in g.finobj
    ensures LiveClosed(g')
    ensures forall o :: o in g.heap && o !in g'.heap ==> Dead(g, o)
  {
    forall o | Live(g, o) ensures Live(g', o) { }
    forall o | Live(g', o) ensures LiveOk(g', o) {
      assert Live(g, o) && LiveOk(g, o);
    }
  }

  /** One of the lists has been swept. */
  ghost predicate Relisted(g: Gc, g': Gc, list: seq<Id>, r: Sweep) {
    || (list == g.allgc && g'.allgc == r.list && g'.finobj == g.finobj && g'.tobefnz == g.tobefnz)
    || (list == g.finobj && g'.finobj == r.list && g'.allgc == g.allgc && g'.tobefnz == g.tobefnz)
    || (list == g.tobefnz && g'.tobefnz == r.list && g'.allgc == g.allgc && g'.finobj == g.finobj)
  }

  lemma SweptListed(g: Gc, g': Gc, list: seq<Id>, r: Sweep)
    requires Listed(g) && Anchored(g) && Swept(g.heap, g.white, list, r) && Relisted(g, g', list, r)
    requires g'.heap == r.heap && g'.main == g.main && g'.roots == g.roots && g'.white == g.white
    requires forall x :: x in g.roots ==> Live(g, x)
    ensures Listed(g') && Anchored(g')
  {
  }

  // ----- entering the sweep -----

  lemma SweptSound(g: Gc, g': Gc, list: seq<Id>, r: Sweep)
    requires Listed(g) && Anchored(g) && LiveClosed(g) && Swept(g.heap, g.white, list, r) && Relisted(g, g', list, r)
    requires g'.heap == r.heap && g'.main == g.main && g'.roots == g.roots && g'.white == g.white
    ensures Listed(g') && Anchored(g') && LiveClosed(g')
    ensures forall o :: o in g.heap && o !in g'.heap ==> Dead(g, o)
  {
    SweptLiveClosed(g, g', list, r);
    hide Swept;
    SweptListed(g, g', list, r);
  }

  lemma EnterSweepOk(g: Gc)
    requires Listed(g) && Anchored(g) && LiveClosed(g)
    ensures var g' := EnterSweep(g); Sound(g') && forall o :: o in g.heap && o !in g'.heap ==> Dead(g, o)
  {
    hide SweepToLive, Swept, Ahead, LiveClosed, Reswept, Unswept, Anchored;
    var g', r := EnterSweep(g), SweepToLive(g.heap, g.white, g.allgc, 0);
    assert forall o :: OnList(g, o) ==> o in g.heap;
    SweepToLiveOk(g.heap, g.white, g.allgc, 0);
    SweptSound(g, g', g.allgc, r);
    EnteredAhead(g, g', r);
  }

  lemma EnteredAhead(g: Gc, g': Gc, r: Sweep)
    requires Swept(g.heap, g.white, g.allgc, r) && Ahead(g.white, g.allgc, 0, r) && Listed(g')
    requires g' == g.(phase := SweepAll, heap := r.heap, allgc := r.list, sweep := r.at)
    ensures Reswept(g')
  {
  }

  /** Before the sweep nothing has died if marking was given up. */
  lemma AbortOk(g: Gc)
    requires Sound(g) && MarkingPhase(g.phase)
    ensures Sound(EnterSweep(g)) && forall o :: o in g.heap && o !in EnterSweep(g).heap ==> Dead(g, o)
  {
    forall o | o in g.heap ensures Live(g, o) && LiveOk(g, o) && ShapeOk(g.heap[o]) {
      assert ObjOk(g.heap, g.heap[o]);
      AllLive(g);
    }
    forall o | o in g.tobefnz || o in g.finobj ensures o in g.heap { ListedIn(g, o); }
    EnterSweepOk(g);
  }

  lemma AllLive(g: Gc)
    requires MarkingOk(g) && HeapOk(g.heap)
    ensures forall o :: o in g.heap ==> Live(g, o)
    ensures forall o :: o in g.heap ==> LiveOk(g, o)
  {
  }

  /** The atomic step leaves exactly the unmarked objects dead. */
  lemma AtomicStepOk(g: Gc)
    requires Sound(g) && g.phase.Atomic?
    ensures Sound(AtomicStep(g))
  {
    forall o | o in g.tobefnz || o in g.finobj ensures o in g.heap { ListedIn(g, o); }
    AtomicClean(g);
    var g1 := AtomicMark(g);
    var g2 := g1.(white := !g1.white);
    FlippedOk(g, g1, Before(g).heap);
    EnterSweepOk(g2);
  }

  lemma FlippedOk(g: Gc, g1: Gc, h: Heap)
    requires Sound(g) && g.phase.Atomic? && Later(g, g1) && Clean(g1) && HeapOk(g1.heap)
    requires forall r :: r in g.roots ==> Marked(g1.heap, r)
    requires forall o :: o in g1.tobefnz || o in g1.finobj ==> Marked(g1.heap, o)
    requires g1.finobj == OthersOf(h, g.finobj) && g1.tobefnz == g.tobefnz + WhitesOf(h, g.finobj)
    ensures var g2 := g1.(white := !g1.white); Listed(g2) && Anchored(g2) && LiveClosed(g2)
  {
    var g2 := g1.(white := !g1.white);
    SeparateListed(g, g2, h);
    MarkedLive(g, g1);
    hide Later, Clean, HeapOk, MarkingOk;
    forall o | Live(g2, o) ensures LiveOk(g2, o) { CleanLive(g1, g2, o); }
  }

  lemma {:induction false} OthersDistinct(h: Heap, os: seq<Id>)
    requires NoRepeats(os)
    ensures NoRepeats(OthersOf(h, os)) && NoRepeats(WhitesOf(h, os))
    ensures forall o :: o in OthersOf(h, os) ==> o in os && !IsWhite(h, o)
    ensures forall o :: o in WhitesOf(h, os) ==> o in os && IsWhite(h, o)
    ensures forall o :: o in os ==> o in OthersOf(h, os) || o in WhitesOf(h, os)
  {
    if os != [] {
      assert os == [os[0]] + os[1..];
      OthersDistinct(h, os[1..]);
    }
  }

  /** Moving objects from finobj to tobefnz. */
  lemma SeparateListed(g: Gc, g2: Gc, h: Heap)
    requires Listed(g) && g2.heap.Keys == g.heap.Keys && g2.allgc == g.allgc && g2.main == g.main
    requires g2.finobj == OthersOf(h, g.finobj) && g2.tobefnz == g.tobefnz + WhitesOf(h, g.finobj)
    ensures Listed(g2)
  {
    OthersDistinct(h, g.finobj);
    assert NoRepeats(g2.tobefnz) by {
      var ws := WhitesOf(h, g.finobj);
      forall i, j | 0 <= i < j < |g2.tobefnz| ensures g2.tobefnz[i] != g2.tobefnz[j] {
        if i < |g.tobefnz| <= j { assert ws[j - |g.tobefnz|] in g.finobj && g.tobefnz[i] in g.tobefnz; }
      }
    }
    forall o ensures o in g2.heap <==> OnList(g2, o) || o == g2.main {
      assert o in g.heap <==> OnList(g, o) || o == g.main;
    }
  }

  lemma MarkedLive(g: Gc, g1: Gc)
    requires OneWhite(g) && Later(g, g1) && HeapOk(g1.heap)
    ensures var g2 := g1.(white := !g1.white); forall o :: o in g2.heap ==>
      Live(g2, o) == Marked(g1.heap, o) && ShapeOk(g2.heap[o])
  {
  }

  lemma CleanLive(g1: Gc, g2: Gc, o: Id)
    requires Clean(g1) && g2.heap == g1.heap && Marked(g1.heap, o)
    requires forall x :: x in g2.heap ==> Live(g2, x) == Marked(g1.heap, x)
    ensures LiveOk(g2, o)
  {
  }

  // ----- sweeping -----

  function From(g: Gc, list: seq<Id>): nat {
    if g.sweep.Some? && g.sweep.value <= |list| then g.sweep.value else |list|
  }

  /** The part of a sweeping step that works on the list. */
  function SweepFrom(g: Gc, list: seq<Id>, n: nat): Sweep {
    if g.sweep.Some? then SweepList(g.heap, g.white, list, g.sweep.value, n) else Sweep(g.heap, list, None)
  }

  lemma SweepFromOk(g: Gc, list: seq<Id>, n: nat)
    requires NoRepeats(list) && forall o :: o in list ==> o in g.heap
    ensures var r := SweepFrom(g, list, n); Swept(g.heap, g.white, list, r) && Ahead(g.white, list, From(g, list), r)
  {
    if g.sweep.Some? && g.sweep.value <= |list| {
      SweepListOk(g.heap, g.white, list, g.sweep.value, n);
    } else {
      SweptNothing(g.heap, g.white, list, None);
    }
  }

  /** What was unswept is in the part of the list being swept or stays unswept, and so is
      what this step leaves of the list. */
  ghost predicate StaysAhead(g: Gc, g': Gc, list: seq<Id>, r: Sweep) {
    && (forall o :: o in Unswept(g) ==> o in list[From(g, list)..] || o in Unswept(g'))
    && (r.at.Some? && r.at.value <= |r.list| ==> forall o :: o in r.list[r.at.value..] ==> o in Unswept(g'))
  }

  /** One list swept in part. */
  lemma SweptPart(g: Gc, g': Gc, list: seq<Id>, r: Sweep)
    requires Sound(g) && Sweeping(g.phase) && Sweeping(g'.phase) && Relisted(g, g', list, r)
    requires Swept(g.heap, g.white, list, r) && Ahead(g.white, list, From(g, list), r) && StaysAhead(g, g', list, r)
    requires g'.heap == r.heap && g'.main == g.main && g'.roots == g.roots && g'.white == g.white
    ensures Sound(g') && forall o :: o in g.heap && o !in g'.heap ==> Dead(g, o)
  {
    SoundParts(g);
    hide *;
    SweptSound(g, g', list, r);
    Resweeps(g, g', list, r);
    PartsSound(g');
  }

  lemma SoundParts(g: Gc)
    requires Sound(g) && Sweeping(g.phase)
    ensures Listed(g) && Anchored(g) && LiveClosed(g) && Reswept(g)
  {
  }

  lemma PartsSound(g: Gc)
    requires Listed(g) && Anchored(g) && LiveClosed(g) && Reswept(g) && Sweeping(g.phase)
    ensures Sound(g)
  {
  }

  lemma Resweeps(g: Gc, g': Gc, list: seq<Id>, r: Sweep)
    requires Reswept(g) && Swept(g.heap, g.white, list, r) && Ahead(g.white, list, From(g, list), r) && Listed(g')
    requires g'.heap == r.heap && g'.white == g.white && g'.main == g.main && StaysAhead(g, g', list, r)
    ensures Reswept(g')
  {
  }

  lemma SweepAllOk(g: Gc, n: nat)
    requires Sound(g) && g.phase.SweepAll?
    ensures Sound(SweepStep(g, n)) && forall o :: o in g.heap && o !in SweepStep(g, n).heap ==> Dead(g, o)
  {
    var r := SweepFrom(g, g.allgc, n);
    var g1 := g.(heap := r.heap, allgc := r.list);
    var g' := if r.at.Some? then g1.(sweep := r.at) else g1.(phase := SweepFin, sweep := Some(0));
    assert SweepStep(g, n) == g';
    assert forall o :: OnList(g, o) ==> o in g.heap;
    SweepFromOk(g, g.allgc, n);
    hide SweepStep, SweepFrom, SweepList;
    AllAhead(g, g', r);
    SweptPart(g, g', g.allgc, r);
  }

  lemma AllAhead(g: Gc, g': Gc, r: Sweep)
    requires g.phase.SweepAll? && Ahead(g.white, g.allgc, From(g, g.allgc), r)
    requires var g1 := g.(heap := r.heap, allgc := r.list);
      g' == if r.at.Some? then g1.(sweep := r.at) else g1.(phase := SweepFin, sweep := Some(0))
    ensures StaysAhead(g, g', g.allgc, r)
  {
  }

  lemma SweepFinOk(g: Gc, n: nat)
    requires Sound(g) && g.phase.SweepFin?
    ensures Sound(SweepStep(g, n)) && forall o :: o in g.heap && o !in SweepStep(g, n).heap ==> Dead(g, o)
  {
    var r := SweepFrom(g, g.finobj, n);
    var g1 := g.(heap := r.heap, finobj := r.list);
    var g' := if r.at.Some? then g1.(sweep := r.at) else g1.(phase := SweepToBeFin, sweep := Some(0));
    assert SweepStep(g, n) == g';
    assert forall o :: OnList(g, o) ==> o in g.heap;
    SweepFromOk(g, g.finobj, n);
    hide SweepStep, SweepFrom, SweepList;
    FinAhead(g, g', r);
    SweptPart(g, g', g.finobj, r);
  }

  lemma FinAhead(g: Gc, g': Gc, r: Sweep)
    requires g.phase.SweepFin? && Ahead(g.white, g.finobj, From(g, g.finobj), r)
    requires var g1 := g.(heap := r.heap, finobj := r.list);
      g' == if r.at.Some? then g1.(sweep := r.at) else g1.(phase := SweepToBeFin, sweep := Some(0))
    ensures StaysAhead(g, g', g.finobj, r)
  {
  }

  lemma SweepToBeFinOk(g: Gc, n: nat)
    requires Sound(g) && g.phase.SweepToBeFin?
    ensures Sound(SweepStep(g, n)) && forall o :: o in g.heap && o !in SweepStep(g, n).heap ==> Dead(g, o)
  {
    var r := SweepFrom(g, g.tobefnz, n);
    var g1 := g.(heap := r.heap, tobefnz := r.list);
    var g' := if r.at.Some? then g1.(sweep := r.at) else g1.(phase := SweepEnd, sweep := None);
    assert SweepStep(g, n) == g';
    assert forall o :: OnList(g, o) ==> o in g.heap;
    SweepFromOk(g, g.tobefnz, n);
    hide SweepStep, SweepFrom, SweepList;
    ToBeFinAhead(g, g', r);
    SweptPart(g, g', g.tobefnz, r);
  }

  lemma ToBeFinAhead(g: Gc, g': Gc, r: Sweep)
    requires g.phase.SweepToBeFin? && Ahead(g.white, g.tobefnz, From(g, g.tobefnz), r)
    requires var g1 := g.(heap := r.heap, tobefnz := r.list);
      g' == if r.at.Some? then g1.(sweep := r.at) else g1.(phase := SweepEnd, sweep := None)
    ensures StaysAhead(g, g', g.tobefnz, r)
  {
  }
}

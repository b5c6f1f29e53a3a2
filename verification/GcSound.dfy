/** What holds between any two steps of the collector and the program. */
module GcSound {
  import opened Common
  import opened GcHeap
  import opened GcMarking
  import opened GcInvariant
  import opened GcTraverse
  import opened GcConverge
  import opened GcAtomic
  import opened GcClean
  import opened GcMachine

  // ----- the lists of all objects -----

  predicate OnList(g: Gc, o: Id) {
    o in g.allgc || o in g.finobj || o in g.tobefnz
  }

  /** Every object but the main thread is on exactly one list, once. */
  ghost predicate Listed(g: Gc) {
    && NoRepeats(g.allgc) && NoRepeats(g.finobj) && NoRepeats(g.tobefnz)
    && (forall o :: o in g.allgc ==> o !in g.finobj && o !in g.tobefnz)
    && (forall o :: o in g.finobj ==> o !in g.tobefnz)
    && !OnList(g, g.main)
    && (forall o :: o in g.heap <==> OnList(g, o) || o == g.main)
  }

  ghost predicate Anchored(g: Gc) {
    && g.main in g.roots && g.main in g.heap && g.heap[g.main].kind.Thread?
    && (forall r :: r in g.roots ==> r in g.heap)
  }

  // ----- by phase -----

  /** Between cycles everything is white. */
  ghost predicate AllWhite(g: Gc) {
    HeapOk(g.heap) && forall o :: o in g.heap ==> g.heap[o].color == White(g.white)
  }

  /** Any gray object is on a list that will be looked at. */
  ghost predicate GrayListed(g: Gc) {
    forall o :: o in g.heap && g.heap[o].color.Gray? ==>
      o in g.gray || o in g.grayagain || (g.heap[o].kind.AllWeak? && o in g.allweak)
  }

  /** While marking there is only one white, and the tri-colour invariant holds. */
  ghost predicate MarkingOk(g: Gc) {
    && Tri(g, false, []) && GrayListed(g)
    && (forall o :: IsWhite(g.heap, o) ==> g.heap[o].color == White(g.white))
    && (g.phase.Propagate? ==> g.gray != [])
  }

  predicate Live(g: Gc, o: Id) {
    o in g.heap && !Dead(g, o)
  }

  /** Live objects refer to live objects only. */
  ghost predicate LiveOk(g: Gc, o: Id)
    requires o in g.heap
  {
    && (forall r :: r in g.heap[o].refs ==> Live(g, r))
    && (forall e :: e in g.heap[o].entries ==>
         (e.key.Some? ==> Live(g, e.key.value)) && (e.val.Some? ==> Live(g, e.val.value)))
  }

  ghost predicate ShapeOk(ob: Obj) {
    (!IsWeak(ob.kind) ==> ob.entries == []) && (ob.kind.Str? ==> ob.refs == [])
  }

  function RestFrom(list: seq<Id>, at: Option<nat>): seq<Id> {
    if at.Some? && at.value <= |list| then list[at.value..] else []
  }

  /** The objects the sweep has not reached. */
  function Unswept(g: Gc): seq<Id> {
    if g.phase.SweepAll? then RestFrom(g.allgc, g.sweep) + g.finobj + g.tobefnz
    else if g.phase.SweepFin? then RestFrom(g.finobj, g.sweep) + g.tobefnz
    else if g.phase.SweepToBeFin? then RestFrom(g.tobefnz, g.sweep)
    else []
  }

  /** While sweeping, live objects only refer to live ones, and all but the objects still to
      be swept are in the current white. */
  ghost predicate SweepOk(g: Gc) {
    LiveClosed(g) && Reswept(g)
  }

  ghost predicate LiveClosed(g: Gc) {
    && (forall o :: Live(g, o) ==> LiveOk(g, o))
    && (forall o :: o in g.heap ==> ShapeOk(g.heap[o]))
    && (forall r :: r in g.roots || r in g.tobefnz || r in g.finobj ==> Live(g, r))
  }

  ghost predicate Reswept(g: Gc) {
    forall o :: o in g.heap ==> g.heap[o].color == White(g.white) || o == g.main || o in Unswept(g)
  }

  ghost predicate PhaseOk(g: Gc) {
    match g.phase
    case Pause => AllWhite(g)
    case CallFin => AllWhite(g)
    case Propagate => MarkingOk(g)
    case Atomic => MarkingOk(g)
    case InsideAtomic => false
    case _ => SweepOk(g)
  }

  ghost predicate Sound(g: Gc) {
    Listed(g) && Anchored(g) && PhaseOk(g)
  }

  // ----- what the program can reach is alive -----

  lemma ListedIn(g: Gc, o: Id)
    requires Listed(g) && (o in g.allgc || o in g.finobj || o in g.tobefnz)
    ensures o in g.heap && o != g.main
  {
  }

  lemma {:induction false} PathLive(g: Gc, p: seq<Id>)
    requires Sound(g) && Path(g.heap, p) && IsRoot(g, p[0])
    ensures Live(g, p[|p| - 1])
    decreases |p|
  {
    if |p| == 1 {
      RootLive(g, p[0]);
    } else {
      var q := p[..|p| - 1];
      PathLive(g, q);
      var x, y := p[|p| - 2], p[|p| - 1];
      assert q[|q| - 1] == x;
      assert Edge(g.heap[x], y);
      EdgeLive(g, x, y);
    }
  }

  lemma RootLive(g: Gc, o: Id)
    requires Sound(g) && IsRoot(g, o)
    ensures Live(g, o)
  {
  }

  lemma EdgeLive(g: Gc, x: Id, y: Id)
    requires Sound(g) && Live(g, x) && Edge(g.heap[x], y)
    ensures Live(g, y)
  {
  }

  /** No object the program can reach has been freed or is going to be. */
  lemma AccessibleLive(g: Gc, o: Id)
    requires Sound(g) && Accessible(g, o)
    ensures Live(g, o)
  {
    var p :| Path(g.heap, p) && IsRoot(g, p[0]) && p[|p| - 1] == o;
    PathLive(g, p);
  }

  // ----- marking steps -----

  lemma MarksGray(g: Gc, g': Gc)
    requires GrayListed(g) && Marks(g, g')
    ensures GrayListed(g')
  {
  }

  lemma RestartOk(g: Gc)
    requires Sound(g) && g.phase.Pause?
    ensures MarkingOk(Restart(g)) && Marked(Restart(g).heap, g.main)
    ensures Restart(g) == g.(heap := Restart(g).heap, gray := Restart(g).gray, grayagain := [], weak := [],
      allweak := [], ephemeron := [], phase := Propagate)
    ensures Restart(g).heap.Keys == g.heap.Keys && Restart(g).heap[g.main].kind == g.heap[g.main].kind
  {
    var g0 := g.(gray := [], grayagain := [], weak := [], allweak := [], ephemeron := [], phase := Propagate);
    var g' := Restart(g);
    MarkAllMarks(g0, g.roots + g.tobefnz);
    MarksTri(g0, g', false, []);
    MarksGray(g0, g');
    assert g.main in g.roots + g.tobefnz;
    assert g'.heap[g.main].color.Gray? && g.main in g'.gray;
  }

  /** The popped object's new place. */
  lemma PropagateMarkGray(g: Gc)
    requires Tri(g, false, []) && GrayListed(g) && g.phase.Propagate? && g.gray != []
    ensures GrayListed(PropagateMark(g))
  {
    var o := g.gray[0];
    if Marked(g.heap, o) && !g.heap[o].kind.Str? && !g.heap[o].kind.Userdata? {
      var g0, refs := Taken(g), g.heap[o].refs;
      TakenTri(g, false, []);
      MarkAllMarks(g0, refs);
      AfterRefs(g, MarkAll(g0, refs), o);
      VisitGray(g, MarkAll(g0, refs), o);
    } else {
      DropGray(g);
    }
  }

  lemma DropGray(g: Gc)
    requires GrayListed(g) && ColorsOk(g.heap) && g.gray != []
    requires var o := g.gray[0]; !(Marked(g.heap, o) && !g.heap[o].kind.Str? && !g.heap[o].kind.Userdata?)
    ensures GrayListed(PropagateMark(g))
  {
  }

  lemma AfterRefs(g: Gc, g1: Gc, o: Id)
    requires g.gray != [] && o == g.gray[0] && Marked(g.heap, o) && GrayListed(g) && HeapOk(g.heap)
    requires TriBut(Taken(g), false, [], o) && Progress(g, Taken(g)) && Marks(Taken(g), g1)
    requires forall r :: r in g.heap[o].refs && r in Taken(g).heap ==> Marked(g1.heap, r)
    ensures GrayBut(g1, o) && HeapOk(g1.heap) && g1.phase == g.phase
    ensures Marked(g1.heap, o) && g1.heap[o].kind == g.heap[o].kind && AllMarked(g1.heap, g1.heap[o].refs)
    ensures g1.heap[o].color == Taken(g).heap[o].color && (g.heap[o].kind.Thread? ==> o in g1.grayagain)
  {
    ListedBut(g, Taken(g), g1, o);
    MarksProgress(Taken(g), g1);
    HeapOkProgress(Taken(g), g1);
    assert ObjOk(g.heap, g.heap[o]);
  }

  ghost predicate GrayBut(g: Gc, o: Id) {
    forall x :: x in g.heap && g.heap[x].color.Gray? && x != o ==>
      x in g.gray || x in g.grayagain || (g.heap[x].kind.AllWeak? && x in g.allweak)
  }

  lemma ListedBut(g: Gc, g0: Gc, g1: Gc, o: Id)
    requires GrayListed(g) && g.gray != [] && o == g.gray[0] && g0 == Taken(g) && Marks(g0, g1)
    ensures GrayBut(g1, o)
  {
  }

  lemma VisitGray(g: Gc, g1: Gc, o: Id)
    requires g.gray != [] && o == g.gray[0] && Marked(g.heap, o) && g1 == MarkAll(Taken(g), g.heap[o].refs)
    requires g.phase.Propagate? && g1.phase == g.phase && GrayBut(g1, o) && HeapOk(g1.heap)
    requires Marked(g1.heap, o) && g1.heap[o].kind == g.heap[o].kind && AllMarked(g1.heap, g1.heap[o].refs)
    requires g1.heap[o].color == Taken(g).heap[o].color && (g.heap[o].kind.Thread? ==> o in g1.grayagain)
    requires !g.heap[o].kind.Str? && !g.heap[o].kind.Userdata?
    ensures GrayListed(PropagateMark(g))
  {
    var k, g' := g.heap[o].kind, PropagateMark(g);
    if k.Ephemeron? {
      TraverseEphemeronOk(g1, o);
      TraversedGray(g1, g', o);
    } else if k.WeakValue? {
      TraverseWeakValueOk(g1, o);
      TraversedGray(g1, g', o);
    } else if k.AllWeak? {
      assert g' == g1.(allweak := [o] + g1.allweak);
    } else {
      assert g' == g1;
    }
  }

  lemma TraversedGray(g: Gc, g': Gc, o: Id)
    requires GrayBut(g, o) && Progress(g, g') && o in g'.grayagain
    requires exists g1 :: Marks(g, g1) && g'.heap == g1.heap && g'.gray == g1.gray
    requires forall e :: e in g.grayagain ==> e in g'.grayagain
    ensures GrayListed(g')
  {
  }

  /** Marking never brings in the other white. */
  ghost predicate OneWhite(g: Gc) {
    forall o :: IsWhite(g.heap, o) ==> g.heap[o].color == White(g.white)
  }

  lemma OneWhiteProgress(g: Gc, g': Gc)
    requires OneWhite(g) && Progress(g, g')
    ensures OneWhite(g')
  {
  }

  lemma ToAtomic(g: Gc)
    requires Tri(g, false, []) && GrayListed(g) && OneWhite(g)
    ensures MarkingOk(g.(phase := Atomic))
  {
  }

  lemma ToAtomicProgress(g: Gc, g1: Gc)
    requires Progress(g, g1)
    ensures Progress(g.(phase := Atomic), g1.(phase := Atomic))
  {
  }

  lemma PropagateStepOk(g: Gc)
    requires Sound(g) && g.phase.Propagate?
    ensures var g' := PropagateStep(g);
      MarkingOk(g') && (g'.phase.Propagate? || g'.phase.Atomic?) && Progress(g.(phase := g'.phase), g')
  {
    PropagateMarkTri(g, false, []);
    PropagateMarkGray(g);
    var g1 := PropagateMark(g);
    hide Tri, GrayListed, PropagateMark, Progress;
    OneWhiteProgress(g, g1);
    assert g1.phase == g.phase by { PhaseKept(g, g1); }
    if g1.gray == [] {
      ToAtomic(g1);
      ToAtomicProgress(g, g1);
    }
  }

  lemma PhaseKept(g: Gc, g1: Gc)
    requires Progress(g, g1)
    ensures g1.phase == g.phase
  {
  }

  lemma ProgressListed(g: Gc, g': Gc)
    requires Listed(g) && Anchored(g) && Progress(g.(phase := g'.phase), g')
    ensures Listed(g') && Anchored(g')
  {
  }
}

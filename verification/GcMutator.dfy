/** Steps of the running program keep what the collector relies on. */
module GcMutator {
  import opened Common
  import opened GcHeap
  import opened GcMarking
  import opened GcInvariant
  import opened GcTraverse
  import opened GcAtomic
  import opened GcMachine
  import opened GcSound

  /** An object with new contents: the same kind and colour, and only live references. */
  ghost predicate Rewrites(g: Gc, p: Id, ob: Obj) {
    && Live(g, p) && ob.kind == g.heap[p].kind && ob.color == g.heap[p].color && ShapeOk(ob)
    && (forall r :: r in ob.refs ==> Live(g, r))
    && (forall e :: e in ob.entries ==>
         (e.key.Some? ==> Live(g, e.key.value)) && (e.val.Some? ==> Live(g, e.val.value)))
  }

  lemma RewriteListed(g: Gc, p: Id, ob: Obj)
    requires Listed(g) && Anchored(g) && Rewrites(g, p, ob)
    ensures Listed(SetObj(g, p, ob)) && Anchored(SetObj(g, p, ob))
  {
  }

  lemma RewriteHeapOk(g: Gc, p: Id, ob: Obj)
    requires HeapOk(g.heap) && Rewrites(g, p, ob)
    ensures HeapOk(SetObj(g, p, ob).heap)
  {
  }

  lemma RewriteSweep(g: Gc, p: Id, ob: Obj)
    requires SweepOk(g) && Rewrites(g, p, ob)
    ensures SweepOk(SetObj(g, p, ob))
  {
    var g' := SetObj(g, p, ob);
    assert forall o :: Live(g', o) == Live(g, o);
    forall o | Live(g', o) ensures LiveOk(g', o) {
      if o != p { assert LiveOk(g, o); }
    }
  }

  /** While marking, everything but p is as good as it was. */
  lemma RewriteTri(g: Gc, p: Id, ob: Obj)
    requires Tri(g, false, []) && GrayListed(g) && OneWhite(g) && Rewrites(g, p, ob)
    ensures var g' := SetObj(g, p, ob); TriBut(g', false, [], p) && GrayListed(g') && OneWhite(g')
  {
    var g' := SetObj(g, p, ob);
    RewriteHeapOk(g, p, ob);
    assert forall x :: Marked(g'.heap, x) == Marked(g.heap, x);
    forall o | Marked(g'.heap, o) && o != p ensures Good(g', false, [], o) {
      assert Good(g, false, [], o);
      RewriteGood(g, p, ob, o);
    }
  }

  lemma RewriteGood(g: Gc, p: Id, ob: Obj, o: Id)
    requires p in g.heap && o in g.heap && o != p && Good(g, false, [], o)
    requires forall x :: Marked(SetObj(g, p, ob).heap, x) == Marked(g.heap, x)
    ensures Good(SetObj(g, p, ob), false, [], o)
  {
  }

  // ----- writes without a barrier -----

  /** A thread, a white object, or a gray one that will be visited needs no barrier. */
  lemma QuietWrite(g: Gc, p: Id, ob: Obj)
    requires Sound(g) && Rewrites(g, p, ob)
    requires MarkingPhase(g.phase) ==>
      var g' := SetObj(g, p, ob); p in g'.heap && (IsWhite(g'.heap, p) || Good(g', false, [], p))
    ensures Sound(SetObj(g, p, ob))
  {
    var g' := SetObj(g, p, ob);
    RewriteListed(g, p, ob);
    if MarkingPhase(g.phase) {
      RewriteTri(g, p, ob);
      ButTri(g', false, [], p);
    } else if Sweeping(g.phase) {
      RewriteSweep(g, p, ob);
    } else {
      RewriteHeapOk(g, p, ob);
    }
  }

  /** Unless it is a settled table with weak keys and values, a gray object is pending. */
  lemma GrayPending(g: Gc, p: Id)
    requires MarkingOk(g) && p in g.heap && g.heap[p].color.Gray? && !g.heap[p].kind.AllWeak?
    ensures Pending(g, false, [], p)
  {
  }

  /** Pushing a value on a thread's stack. */
  lemma PushOk(g: Gc, th: Id, v: Id)
    requires Sound(g) && Live(g, th) && Live(g, v) && g.heap[th].kind.Thread?
    ensures Sound(Pushed(g, th, v))
  {
    var ob := g.heap[th].(refs := g.heap[th].refs + [v]);
    LiveParts(g, th);
    var g' := Pushed(g, th, v);
    if MarkingPhase(g.phase) && !IsWhite(g'.heap, th) {
      assert !g.heap[th].color.Black?;
      GrayPending(g, th);
    }
    QuietWrite(g, th, ob);
  }

  /** What a live object refers to. */
  lemma LiveParts(g: Gc, p: Id)
    requires Sound(g) && Live(g, p)
    ensures ShapeOk(g.heap[p]) && LiveOk(g, p)
  {
  }

  lemma NewOk(g: Gc, id: Id, kind: Kind, th: Id)
    requires Sound(g) && id !in g.heap && Live(g, th) && g.heap[th].kind.Thread?
    ensures Sound(Pushed(Allocated(g, id, kind), th, id))
  {
    var g1 := Allocated(g, id, kind);
    AllocatedOk(g, id, kind);
    PushOk(g1, th, id);
  }

  lemma AllocatedOk(g: Gc, id: Id, kind: Kind)
    requires Sound(g) && id !in g.heap
    ensures Sound(Allocated(g, id, kind))
  {
    AllocatedListed(g, id, kind);
    if MarkingPhase(g.phase) {
      AllocatedMarking(g, id, kind);
    } else if Sweeping(g.phase) {
      AllocatedSweep(g, id, kind);
    } else {
      AllocatedHeapOk(g, id, kind);
    }
  }

  lemma AllocatedHeapOk(g: Gc, id: Id, kind: Kind)
    requires HeapOk(g.heap) && id !in g.heap
    ensures HeapOk(Allocated(g, id, kind).heap)
  {
  }

  lemma AllocatedColors(g: Gc, id: Id, kind: Kind)
    requires ColorsOk(g.heap) && TableLists(g) && GrayListed(g) && OneWhite(g) && id !in g.heap
    ensures var g' := Allocated(g, id, kind); ColorsOk(g'.heap) && TableLists(g') && GrayListed(g') && OneWhite(g')
  {
  }

  lemma AllocatedMarking(g: Gc, id: Id, kind: Kind)
    requires MarkingOk(g) && id !in g.heap && MarkingPhase(g.phase)
    ensures MarkingOk(Allocated(g, id, kind))
  {
    var g' := Allocated(g, id, kind);
    AllocatedHeapOk(g, id, kind);
    AllocatedColors(g, id, kind);
    assert forall x :: Marked(g'.heap, x) == Marked(g.heap, x);
    hide Good, HeapOk, ColorsOk, TableLists, GrayListed;
    forall o | Marked(g'.heap, o) ensures Good(g', false, [], o) {
      assert Good(g, false, [], o);
      AllocatedGood(g, id, kind, o);
    }
  }

  lemma AllocatedGood(g: Gc, id: Id, kind: Kind, o: Id)
    requires o in g.heap && id !in g.heap && Good(g, false, [], o)
    requires forall x :: Marked(Allocated(g, id, kind).heap, x) == Marked(g.heap, x)
    ensures Good(Allocated(g, id, kind), false, [], o)
  {
  }

  lemma AllocatedListed(g: Gc, id: Id, kind: Kind)
    requires Listed(g) && Anchored(g) && id !in g.heap
    ensures Listed(Allocated(g, id, kind)) && Anchored(Allocated(g, id, kind))
  {
  }

  /** The new object is white already, and the point the sweep has reached moves with it. */
  lemma AllocatedSweep(g: Gc, id: Id, kind: Kind)
    requires SweepOk(g) && id !in g.heap
    ensures SweepOk(Allocated(g, id, kind))
  {
    var g' := Allocated(g, id, kind);
    assert forall o :: Live(g, o) ==> Live(g', o);
    forall o | Live(g', o) ensures LiveOk(g', o) {
      if o != id { assert LiveOk(g, o); }
    }
    assert g.phase.SweepAll? && g.sweep.Some? && g.sweep.value <= |g.allgc| ==>
      g'.allgc[g'.sweep.value..] == g.allgc[g.sweep.value..];
    assert forall o :: o in Unswept(g) ==> o in Unswept(g');
  }

  // ----- writes with a barrier -----

  /** The barrier of a write while marking. */
  lemma MarkingBarrier(g: Gc, p: Id, ob: Obj, v: Id, back: bool)
    requires Sound(g) && MarkingPhase(g.phase) && Rewrites(g, p, ob) && Live(g, v) && ob.entries == g.heap[p].entries
    requires forall r :: r in ob.refs ==> r in g.heap[p].refs || r == v
    requires back ==> ob.kind.Table?
    requires v in ob.refs && IsWhite(g.heap, v) && ob.kind.AllWeak? && p in g.allweak ==>
      p in g.gray || p in g.grayagain
    ensures Sound(Barrier(SetObj(g, p, ob), p, v, back))
  {
    var g1 := SetObj(g, p, ob);
    RewriteListed(g, p, ob);
    RewriteTri(g, p, ob);
    if g1.heap[p].color.Black? && IsWhite(g1.heap, v) {
      if back { BackBarrier(g1, p); } else { ForwardBarrier(g, g1, p, v); }
    } else {
      if Marked(g1.heap, p) { UnbarredGood(g, p, ob, v); }
      ButTri(g1, false, [], p);
    }
  }

  /** Without a barrier the object is fine: white, pending, or its new reference is marked. */
  lemma UnbarredGood(g: Gc, p: Id, ob: Obj, v: Id)
    requires MarkingOk(g) && Rewrites(g, p, ob) && Marked(g.heap, p) && ob.entries == g.heap[p].entries
    requires forall r :: r in ob.refs ==> r in g.heap[p].refs || r == v
    requires v in ob.refs && IsWhite(g.heap, v) && ob.kind.AllWeak? && p in g.allweak ==>
      p in g.gray || p in g.grayagain
    requires !(g.heap[p].color.Black? && IsWhite(g.heap, v)) && Live(g, v)
    ensures Good(SetObj(g, p, ob), false, [], p)
  {
  }

  lemma RepaintListed(g: Gc, g': Gc, p: Id)
    requires Listed(g) && Anchored(g) && p in g.heap && g'.heap.Keys == g.heap.Keys && g'.roots == g.roots
    requires g'.main == g.main
    requires g'.allgc == g.allgc && g'.finobj == g.finobj && g'.tobefnz == g.tobefnz
    requires g'.heap[g.main].kind == g.heap[g.main].kind
    ensures Listed(g') && Anchored(g')
  {
  }

  /** Making a black table gray again. */
  function Regrayed(g: Gc, p: Id): Gc
    requires p in g.heap
  {
    Paint(g, p, Gray).(grayagain := [p] + g.grayagain)
  }

  lemma RegrayedGood(g: Gc, p: Id, o: Id)
    requires p in g.heap && g.heap[p].color.Black? && o in g.heap && o != p && Good(g, false, [], o)
    requires forall x :: Marked(Regrayed(g, p).heap, x) == Marked(g.heap, x)
    ensures Good(Regrayed(g, p), false, [], o)
  {
  }

  lemma RegrayedHeapOk(g: Gc, p: Id)
    requires HeapOk(g.heap) && p in g.heap
    ensures HeapOk(Regrayed(g, p).heap)
  {
  }

  lemma RegrayedColors(g: Gc, p: Id)
    requires ColorsOk(g.heap) && TableLists(g) && GrayListed(g) && OneWhite(g)
    requires p in g.heap && g.heap[p].color.Black? && g.heap[p].kind.Table?
    ensures var g' := Regrayed(g, p); ColorsOk(g'.heap) && TableLists(g') && GrayListed(g') && OneWhite(g')
  {
  }

  lemma BackBarrier(g: Gc, p: Id)
    requires TriBut(g, false, [], p) && GrayListed(g) && OneWhite(g) && Listed(g) && Anchored(g)
    requires MarkingPhase(g.phase)
    requires p in g.heap && g.heap[p].color.Black? && g.heap[p].kind.Table? && (g.phase.Propagate? ==> g.gray != [])
    ensures Sound(Regrayed(g, p))
  {
    var g' := Regrayed(g, p);
    RepaintListed(g, g', p);
    RegrayedHeapOk(g, p);
    RegrayedColors(g, p);
    assert forall x :: Marked(g'.heap, x) == Marked(g.heap, x);
    assert Good(g', false, [], p);
    hide Good, HeapOk, ColorsOk, TableLists, GrayListed, OneWhite, Listed, Anchored;
    forall o | Marked(g'.heap, o) && o != p ensures Good(g', false, [], o) {
      assert Good(g, false, [], o);
      RegrayedGood(g, p, o);
    }
    assert TriBut(g', false, [], p);
    ButTri(g', false, [], p);
  }

  lemma BlackSettled(g0: Gc, g: Gc, g': Gc, p: Id, v: Id)
    requires p in g0.heap && g0.heap[p].color.Black? && Good(g0, false, [], p)
    requires p in g.heap && g.heap[p].color.Black? && CanBeBlack(g.heap[p].kind) && Marks(g, g') && Marked(g'.heap, v)
    requires forall x :: Marked(g.heap, x) == Marked(g0.heap, x)
    requires forall r :: r in g.heap[p].refs ==> r in g0.heap[p].refs || r == v
    ensures p in g'.heap && Settled(g', p)
  {
  }

  lemma MarkedOk(g: Gc, g': Gc, p: Id)
    requires TriBut(g, false, [], p) && GrayListed(g) && OneWhite(g) && Listed(g) && Anchored(g)
    requires MarkingPhase(g.phase)
    requires g.phase.Propagate? ==> g.gray != []
    requires Marks(g, g') && p in g'.heap && Settled(g', p)
    ensures Sound(g')
  {
    MarksTriBut(g, g', false, [], p);
    MarksGray(g, g');
    MarksProgress(g, g');
    ProgressListed(g, g');
    OneWhiteProgress(g, g');
    assert g.gray != [] ==> g.gray[0] in g'.gray;
    assert g'.phase == g.phase;
    hide TriBut, Marks, Progress, Settled, GrayListed, OneWhite, Listed, Anchored;
    ButTri(g', false, [], p);
  }

  lemma ForwardBarrier(g0: Gc, g: Gc, p: Id, v: Id)
    requires Sound(g0) && TriBut(g, false, [], p) && GrayListed(g) && OneWhite(g) && Listed(g) && Anchored(g)
    requires MarkingPhase(g.phase)
    requires p in g.heap && g.heap[p].color.Black? && IsWhite(g.heap, v) && (g.phase.Propagate? ==> g.gray != [])
    requires MarkingPhase(g0.phase) && p in g0.heap && g0.heap[p].color.Black?
    requires forall x :: Marked(g.heap, x) == Marked(g0.heap, x)
    requires forall r :: r in g.heap[p].refs ==> r in g0.heap[p].refs || r == v
    ensures Sound(Mark(g, v))
  {
    var g' := Mark(g, v);
    MarkMarks(g, v);
    assert Good(g0, false, [], p);
    BlackSettled(g0, g, g', p, v);
    MarkedOk(g, g', p);
  }

  /** Changing the colour of a live object that the sweep has not reached. */
  lemma RepaintSweep(g: Gc, g': Gc, p: Id)
    requires SweepOk(g) && Live(g, p) && g.heap[p].color.Black? && Sweeping(g.phase)
    requires p in g'.heap
    requires g' == g.(heap := g.heap[p := g.heap[p].(color := g'.heap[p].color)], grayagain := g'.grayagain)
    requires g'.heap[p].color == Gray || g'.heap[p].color == White(g.white)
    ensures SweepOk(g')
  {
    assert forall o :: Live(g', o) == Live(g, o);
    forall o | Live(g', o) ensures LiveOk(g', o) { assert LiveOk(g, o); }
    assert Unswept(g') == Unswept(g);
  }

  /** The barrier of a write while sweeping. */
  lemma SweepingBarrier(g: Gc, p: Id, v: Id, back: bool)
    requires Sound(g) && Sweeping(g.phase) && Live(g, p)
    ensures Sound(Barrier(g, p, v, back))
  {
    var g' := Barrier(g, p, v, back);
    if g' != g {
      hide SweepOk, Listed, Anchored;
      RepaintListed(g, g', p) by { assert Anchored(g); }
      RepaintSweep(g, g', p);
    }
  }

  lemma SetRefsOk(g: Gc, p: Id, refs: seq<Id>, v: Id, back: bool)
    requires Sound(g) && Live(g, p) && Live(g, v) && !g.heap[p].kind.Str? && (back ==> g.heap[p].kind.Table?)
    requires forall r :: r in refs ==> r in g.heap[p].refs || r == v
    requires !Unguarded(g, SetRefs(p, refs, v, back))
    ensures Sound(Barrier(SetObj(g, p, g.heap[p].(refs := refs)), p, v, back))
  {
    var ob := g.heap[p].(refs := refs);
    LiveParts(g, p);
    assert Rewrites(g, p, ob);
    if MarkingPhase(g.phase) {
      MarkingBarrier(g, p, ob, v, back);
    } else {
      QuietWrite(g, p, ob);
      var g1 := SetObj(g, p, ob);
      if Sweeping(g.phase) { SweepingBarrier(g1, p, v, back); }
    }
  }

  lemma SetEntriesOk(g: Gc, p: Id, es: seq<Entry>, e: Entry)
    requires Sound(g) && Live(g, p) && IsWeak(g.heap[p].kind)
    requires (e.key.Some? ==> Live(g, e.key.value)) && (e.val.Some? ==> Live(g, e.val.value))
    requires forall x :: x in es ==> x in g.heap[p].entries || x == e
    ensures Sound(SetObj(g, p, g.heap[p].(entries := es)))
  {
    var ob := g.heap[p].(entries := es);
    LiveParts(g, p);
    assert Rewrites(g, p, ob);
    if MarkingPhase(g.phase) && !IsWhite(g.heap, p) {
      assert Good(g, false, [], p);
      if !g.heap[p].kind.AllWeak? { GrayPending(g, p); }
      var g' := SetObj(g, p, ob);
      assert forall x :: Marked(g'.heap, x) == Marked(g.heap, x);
    }
    QuietWrite(g, p, ob);
  }

  // ----- weak modes -----

  /** A table with another mode and no new references. */
  ghost predicate Remodes(g: Gc, p: Id, ob: Obj) {
    && Live(g, p) && IsTable(g.heap[p].kind) && IsTable(ob.kind) && ob.color == g.heap[p].color && ShapeOk(ob)
    && (forall r :: r in ob.refs ==> Live(g, r))
    && (forall e :: e in ob.entries ==>
         (e.key.Some? ==> Live(g, e.key.value)) && (e.val.Some? ==> Live(g, e.val.value)))
  }

  lemma RemodeListed(g: Gc, p: Id, ob: Obj)
    requires Listed(g) && Anchored(g) && Remodes(g, p, ob)
    ensures Listed(SetObj(g, p, ob)) && Anchored(SetObj(g, p, ob))
  {
  }

  lemma RemodeHeapOk(g: Gc, p: Id, ob: Obj)
    requires HeapOk(g.heap) && Remodes(g, p, ob)
    ensures HeapOk(SetObj(g, p, ob).heap)
  {
  }

  lemma RemodeSweep(g: Gc, p: Id, ob: Obj)
    requires SweepOk(g) && Remodes(g, p, ob)
    ensures SweepOk(SetObj(g, p, ob))
  {
    var g' := SetObj(g, p, ob);
    assert forall o :: Live(g', o) == Live(g, o);
    forall o | Live(g', o) ensures LiveOk(g', o) {
      if o != p { assert LiveOk(g, o); }
    }
  }

  lemma RemodeColors(g: Gc, p: Id, ob: Obj)
    requires ColorsOk(g.heap) && TableLists(g) && GrayListed(g) && OneWhite(g) && Remodes(g, p, ob) && Unvisited(g, p)
    ensures var g' := SetObj(g, p, ob); ColorsOk(g'.heap) && TableLists(g') && GrayListed(g') && OneWhite(g')
  {
  }

  lemma RemodeMarking(g: Gc, p: Id, ob: Obj)
    requires MarkingOk(g) && Remodes(g, p, ob) && Unvisited(g, p)
    ensures MarkingOk(SetObj(g, p, ob))
  {
    var g' := SetObj(g, p, ob);
    RemodeHeapOk(g, p, ob);
    RemodeColors(g, p, ob);
    assert forall x :: Marked(g'.heap, x) == Marked(g.heap, x);
    forall o | Marked(g'.heap, o) ensures Good(g', false, [], o) {
      if o != p {
        assert Good(g, false, [], o);
        RewriteGood(g, p, ob, o);
      }
    }
  }

  lemma SetModeOk(g: Gc, p: Id, ob: Obj)
    requires Sound(g) && Live(g, p) && IsTable(g.heap[p].kind) && IsTable(ob.kind) && ob.color == g.heap[p].color
    requires (!IsWeak(ob.kind) ==> ob.entries == []) && forall r :: Edge(ob, r) ==> Edge(g.heap[p], r)
    requires MarkingPhase(g.phase) ==> Unvisited(g, p)
    ensures Sound(SetObj(g, p, ob))
  {
    KeepsParts(g, p, ob);
    RemodeListed(g, p, ob);
    hide Remodes, Listed, Anchored, Unvisited;
    if MarkingPhase(g.phase) {
      RemodeMarking(g, p, ob);
    } else if Sweeping(g.phase) {
      RemodeSweep(g, p, ob);
    } else {
      RemodeHeapOk(g, p, ob);
    }
  }

  /** What a live table referred to is live. */
  lemma KeepsParts(g: Gc, p: Id, ob: Obj)
    requires Sound(g) && Live(g, p) && IsTable(g.heap[p].kind) && IsTable(ob.kind) && ob.color == g.heap[p].color
    requires (!IsWeak(ob.kind) ==> ob.entries == []) && forall r :: Edge(ob, r) ==> Edge(g.heap[p], r)
    ensures Remodes(g, p, ob)
  {
    LiveParts(g, p);
    hide Sound;
    forall r | Edge(ob, r) ensures Live(g, r) { assert Edge(g.heap[p], r); }
    forall e | e in ob.entries
      ensures (e.key.Some? ==> Live(g, e.key.value)) && (e.val.Some? ==> Live(g, e.val.value))
    {
      assert e.key.Some? ==> Edge(ob, e.key.value);
      assert e.val.Some? ==> Edge(ob, e.val.value);
    }
  }

  // ----- roots and finalizers -----

  lemma SetRootsOk(g: Gc, roots: seq<Id>)
    requires Sound(g) && g.main in roots && forall r :: r in roots ==> Live(g, r)
    ensures Sound(g.(roots := roots))
  {
    var g' := g.(roots := roots);
    assert forall o :: OnList(g', o) == OnList(g, o);
    if MarkingPhase(g.phase) {
      forall o | Marked(g'.heap, o) ensures Good(g', false, [], o) { assert Good(g, false, [], o); }
    } else if Sweeping(g.phase) {
      assert forall o :: Live(g', o) == Live(g, o);
      forall o | Live(g', o) ensures LiveOk(g', o) { assert LiveOk(g, o); }
      assert Unswept(g') == Unswept(g);
    }
  }

  /** Outside the sweep objects may move from one list to another. */
  lemma MovedOk(g: Gc, g': Gc)
    requires Sound(g) && !Sweeping(g.phase) && g' == g.(allgc := g'.allgc, finobj := g'.finobj, tobefnz := g'.tobefnz)
    requires Listed(g')
    ensures Sound(g')
  {
  }

  lemma {:induction false} WithoutOk(xs: seq<Id>, o: Id)
    requires NoRepeats(xs) && o in xs
    ensures NoRepeats(Without(xs, o)) && forall x :: x in Without(xs, o) <==> x in xs && x != o
  {
    assert xs == [xs[0]] + xs[1..];
    if xs[0] != o {
      WithoutOk(xs[1..], o);
      DistinctCons(xs[0], Without(xs[1..], o));
    }
  }

  lemma DistinctCons(o: Id, xs: seq<Id>)
    requires NoRepeats(xs) && o !in xs
    ensures NoRepeats([o] + xs)
  {
  }

  lemma SetFinalizerOk(g: Gc, o: Id)
    requires Sound(g) && !Sweeping(g.phase) && o in g.allgc
    ensures Sound(g.(allgc := Without(g.allgc, o), finobj := [o] + g.finobj))
  {
    WithoutOk(g.allgc, o);
    var g' := g.(allgc := Without(g.allgc, o), finobj := [o] + g.finobj);
    assert forall x :: OnList(g', x) == OnList(g, x);
    MovedOk(g, g');
  }

  lemma FinalizeOk(g: Gc, th: Id)
    requires Sound(g) && !Sweeping(g.phase) && g.tobefnz != [] && Live(g, th) && g.heap[th].kind.Thread?
    ensures Sound(Pushed(g.(allgc := [g.tobefnz[0]] + g.allgc, tobefnz := g.tobefnz[1..]), th, g.tobefnz[0]))
  {
    var o := g.tobefnz[0];
    assert g.tobefnz == [o] + g.tobefnz[1..];
    var g1 := g.(allgc := [o] + g.allgc, tobefnz := g.tobefnz[1..]);
    assert forall x :: OnList(g1, x) == OnList(g, x);
    DistinctCons(o, g.allgc);
    MovedOk(g, g1);
    RootLive(g, o);
    PushOk(g1, th, o);
  }
}

/** The marking invariant: what is known about marked objects between collector steps. */
module GcInvariant {
  import opened Common
  import opened GcHeap
  import opened GcMarking

  ghost predicate AllMarked(h: Heap, refs: seq<Id>) {
    forall r :: r in refs ==> Marked(h, r)
  }

  ghost predicate KeysKept(h: Heap, es: seq<Entry>) {
    forall e :: e in es ==> Kept(h, e.key)
  }

  ghost predicate ValuesKept(h: Heap, es: seq<Entry>) {
    forall e :: e in es ==> Kept(h, e.val)
  }

  ghost predicate InHeap(h: Heap, x: Option<Id>) {
    x.Some? ==> x.value in h
  }

  /** No dangling references; only weak tables have entries, and strings refer to nothing. */
  ghost predicate ObjOk(h: Heap, ob: Obj) {
    && (forall r :: r in ob.refs ==> r in h)
    && (forall e :: e in ob.entries ==> InHeap(h, e.key) && InHeap(h, e.val))
    && (!IsWeak(ob.kind) ==> ob.entries == [])
    && (ob.kind.Str? ==> ob.refs == [])
  }

  ghost predicate HeapOk(h: Heap) {
    forall o :: o in h ==> ObjOk(h, h[o])
  }

  /** A marked object that needs no further visit: everything it keeps alive is marked, and
      if it may have to be cleared it is on the list for that. */
  ghost predicate Settled(g: Gc, o: Id)
    requires o in g.heap
  {
    var ob := g.heap[o];
    && AllMarked(g.heap, ob.refs)
    && match ob.kind
       case WeakValue => KeysKept(g.heap, ob.entries) && (o in g.weak || ValuesKept(g.heap, ob.entries))
       case Ephemeron => o in g.ephemeron
         || (ValuesKept(g.heap, ob.entries) && (o in g.allweak || KeysKept(g.heap, ob.entries)))
       case AllWeak => o in g.allweak
       case _ => true
  }

  /** A gray object that is still to be visited. `late` is the part of the atomic phase in
      which the grayagain list is no longer read; `pass` holds the tables a pass over the
      ephemeron list has not reached. */
  predicate Pending(g: Gc, late: bool, pass: seq<Id>, o: Id) {
    o in g.gray || (!late && o in g.grayagain) || o in pass
  }

  predicate CanBeBlack(k: Kind) {
    k.Str? || k.Userdata? || k.Table? || k.Function?
  }

  /** Every marked object is settled or will be visited; black ones are settled. */
  ghost predicate Tri(g: Gc, late: bool, pass: seq<Id>) {
    && HeapOk(g.heap)
    && (late ==> !g.phase.Propagate?)
    && (forall o :: Marked(g.heap, o) ==> Good(g, late, pass, o))
    && ColorsOk(g.heap) && TableLists(g)
  }

  ghost predicate Good(g: Gc, late: bool, pass: seq<Id>, o: Id)
    requires o in g.heap
  {
    Settled(g, o) || (g.heap[o].color.Gray? && Pending(g, late, pass, o))
  }

  /** The lists of weak tables hold marked tables of the right kind. */
  ghost predicate TableLists(g: Gc) {
    && (forall o :: o in g.ephemeron ==> Marked(g.heap, o) && g.heap[o].kind.Ephemeron?)
    && (forall o :: o in g.weak ==> Marked(g.heap, o) && g.heap[o].kind.WeakValue?)
    && (forall o :: o in g.allweak ==> Marked(g.heap, o) && (g.heap[o].kind.AllWeak? || g.heap[o].kind.Ephemeron?))
  }

  /** Strings and userdata are never gray, threads and weak tables never black. */
  ghost predicate ColorsOk(h: Heap) {
    && (forall o :: o in h && h[o].color.Black? ==> CanBeBlack(h[o].kind))
    && (forall o :: o in h && h[o].color.Gray? ==> !h[o].kind.Str? && !h[o].kind.Userdata?)
  }

  /** A black object never refers to a white one. */
  lemma BlackNeverPointsToWhite(g: Gc, late: bool, pass: seq<Id>, o: Id, r: Id)
    requires Tri(g, late, pass) && o in g.heap && g.heap[o].color.Black? && r in g.heap[o].refs
    ensures r in g.heap && !IsWhite(g.heap, r) && g.heap[o].entries == []
  {
    assert Good(g, late, pass, o);
  }

  // ----- progress -----

  /** The list xs has grown to ys at its front. */
  predicate Suffix(xs: seq<Id>, ys: seq<Id>) {
    |xs| <= |ys| && ys[|ys| - |xs|..] == xs
  }

  lemma SuffixTrans(xs: seq<Id>, ys: seq<Id>, zs: seq<Id>)
    requires Suffix(xs, ys) && Suffix(ys, zs)
    ensures Suffix(xs, zs)
  {
    assert zs[|zs| - |xs|..] == zs[|zs| - |ys|..][|ys| - |xs|..];
  }

  lemma SuffixRefl(xs: seq<Id>)
    ensures Suffix(xs, xs)
  {
  }

  lemma SuffixCons(xs: seq<Id>, o: Id)
    ensures Suffix(xs, [o] + xs)
  {
  }

  /** Objects keep everything but their colour, marked ones stay marked, and the lists of
      tables only grow. */
  ghost predicate Progress(g: Gc, g': Gc) {
    && g'.heap.Keys == g.heap.Keys
    && (forall o :: o in g.heap ==> g'.heap[o] == g.heap[o].(color := g'.heap[o].color))
    && (forall o :: Marked(g.heap, o) ==> Marked(g'.heap, o))
    && (forall o :: IsWhite(g'.heap, o) ==> g'.heap[o] == g.heap[o])
    && (forall o :: o in g.weak ==> o in g'.weak) && Suffix(g.weak, g'.weak)
    && (forall o :: o in g.allweak ==> o in g'.allweak) && Suffix(g.allweak, g'.allweak)
    && g' == g.(heap := g'.heap, gray := g'.gray, grayagain := g'.grayagain, weak := g'.weak,
         ephemeron := g'.ephemeron, allweak := g'.allweak)
  }

  lemma MarksProgress(g: Gc, g': Gc)
    requires Marks(g, g')
    ensures Progress(g, g')
  {
  }

  lemma ProgressTrans(g: Gc, g1: Gc, g2: Gc)
    requires Progress(g, g1) && Progress(g1, g2)
    ensures Progress(g, g2)
  {
    SuffixTrans(g.weak, g1.weak, g2.weak);
    SuffixTrans(g.allweak, g1.allweak, g2.allweak);
  }

  lemma HeapOkProgress(g: Gc, g': Gc)
    requires HeapOk(g.heap) && Progress(g, g')
    ensures HeapOk(g'.heap)
  {
    forall o | o in g'.heap ensures ObjOk(g'.heap, g'.heap[o]) {
      assert ObjOk(g.heap, g.heap[o]);
    }
  }

  lemma SettledProgress(g: Gc, g': Gc, o: Id)
    requires o in g.heap && Settled(g, o) && Progress(g, g')
    requires g.heap[o].kind.Ephemeron? && o in g.ephemeron ==> o in g'.ephemeron
    ensures Settled(g', o)
  {
  }

  lemma ColorsMarks(g: Gc, g': Gc)
    requires ColorsOk(g.heap) && Marks(g, g')
    ensures ColorsOk(g'.heap)
  {
  }

  /** Marked objects stay good, and a newly marked one waits or is settled. */
  lemma MarksGood(g: Gc, g': Gc, late: bool, pass: seq<Id>, o: Id)
    requires HeapOk(g.heap) && Marks(g, g') && Marked(g'.heap, o)
    requires Marked(g.heap, o) ==> Good(g, late, pass, o)
    ensures Good(g', late, pass, o)
  {
    MarksProgress(g, g');
    if Marked(g.heap, o) {
      if Settled(g, o) { SettledProgress(g, g', o); }
    } else {
      assert ObjOk(g.heap, g.heap[o]);
    }
  }

  /** Marking keeps the invariant. */
  lemma MarksTri(g: Gc, g': Gc, late: bool, pass: seq<Id>)
    requires Tri(g, late, pass) && Marks(g, g')
    ensures Tri(g', late, pass)
  {
    MarksProgress(g, g');
    HeapOkProgress(g, g');
    ColorsMarks(g, g');
    forall o | Marked(g'.heap, o) ensures Good(g', late, pass, o) {
      MarksGood(g, g', late, pass, o);
    }
  }
}

/** The collector marks no more than its rules force. */
module GcLeast {
  import opened Common
  import opened GcHeap
  import opened GcMarking
  import opened GcInvariant
  import opened GcTraverse
  import opened GcConverge

  predicate IsString(h: Heap, x: Option<Id>) {
    x.Some? && x.value in h && h[x.value].kind.Str?
  }

  /** Strings count as values, which are never collected from a weak table: as keys and as
      values of entries they are in every set. */
  predicate In(h: Heap, x: Option<Id>, S: set<Id>) {
    x.Some? ==> x.value in S || IsString(h, x)
  }

  /** What an object in S forces into S: what it refers to strongly, the keys of a table with
      weak values, and for an ephemeron table the value of each entry whose key is in S. */
  ghost predicate Forces(h: Heap, ob: Obj, S: set<Id>) {
    && (forall r :: r in ob.refs ==> In(h, Some(r), S))
    && (forall e :: e in ob.entries ==>
          && (ob.kind.WeakValue? ==> In(h, e.key, S))
          && (ob.kind.Ephemeron? && In(h, e.key, S) ==> In(h, e.val, S)))
  }

  ghost predicate Closed(h: Heap, S: set<Id>) {
    forall x :: x in S && x in h ==> Forces(h, h[x], S)
  }

  ghost predicate Within(g: Gc, S: set<Id>) {
    forall o :: Marked(g.heap, o) ==> In(g.heap, Some(o), S)
  }

  /** The same objects, perhaps in other colours. */
  ghost predicate SameShape(h: Heap, h': Heap) {
    h'.Keys == h.Keys && forall o :: o in h ==> h'[o] == h[o].(color := h'[o].color)
  }

  lemma ClosedShape(h: Heap, h': Heap, S: set<Id>)
    requires Closed(h, S) && SameShape(h, h')
    ensures Closed(h', S)
  {
  }

  lemma HeapShape(h: Heap, h': Heap)
    requires HeapOk(h) && SameShape(h, h')
    ensures HeapOk(h')
  {
  }

  ghost predicate Bounded(g: Gc, S: set<Id>) {
    Closed(g.heap, S) && Within(g, S)
  }

  lemma {:induction false} MarkBounded(g: Gc, o: Id, S: set<Id>)
    requires IsWhite(g.heap, o) && In(g.heap, Some(o), S) && Bounded(g, S)
    ensures Bounded(Mark(g, o), S)
    decreases Whites(g.heap), 0
  {
    MarkMarks(g, o);
    ClosedShape(g.heap, Mark(g, o).heap, S);
    if g.heap[o].kind.Userdata? {
      var g1 := Painted(g, o, Black);
      ClosedShape(g.heap, g1.heap, S);
      assert Forces(g.heap, g.heap[o], S);
      MarkAllBounded(g1, g.heap[o].refs, S);
    }
  }

  lemma {:induction false} MarkIfBounded(g: Gc, o: Id, S: set<Id>)
    requires In(g.heap, Some(o), S) && Bounded(g, S)
    ensures Bounded(MarkIf(g, o), S)
    decreases Whites(g.heap), 1
  {
    if IsWhite(g.heap, o) { MarkBounded(g, o, S); }
  }

  lemma {:induction false} MarkAllBounded(g: Gc, refs: seq<Id>, S: set<Id>)
    requires Bounded(g, S) && forall r :: r in refs ==> In(g.heap, Some(r), S)
    ensures Bounded(MarkAll(g, refs), S)
    decreases Whites(g.heap), 2, |refs|
  {
    if refs != [] {
      var g1 := MarkIf(g, refs[0]);
      MarkIfBounded(g, refs[0], S);
      MarkIfMarks(g, refs[0]);
      assert Whites(g1.heap) < Whites(g.heap) || Whites(g1.heap) == Whites(g.heap);
      MarkAllBounded(g1, refs[1..], S);
    }
  }

  lemma IsClearedBounded(g: Gc, x: Option<Id>, S: set<Id>)
    requires Bounded(g, S)
    ensures Bounded(IsCleared(g, x).g, S)
  {
    if IsString(g.heap, x) { MarkIfBounded(g, x.value, S); }
  }

  /** The demands of one entry of an ephemeron table. */
  ghost predicate EntryForces(h: Heap, e: Entry, S: set<Id>) {
    InHeap(h, e.key) && InHeap(h, e.val) && (In(h, e.key, S) ==> In(h, e.val, S))
  }

  lemma EphemeronEntryBounded(r: Scan, e: Entry, S: set<Id>)
    requires Bounded(r.g, S) && EntryForces(r.g.heap, e, S)
    ensures Bounded(EphemeronEntry(r, e).g, S)
  {
    IsClearedBounded(r.g, e.key, S);
    IsClearedMarks(r.g, e.key);
    var c := IsCleared(r.g, e.key);
    if !c.cleared && WhiteValue(c.g, e.val) {
      assert Kept(c.g.heap, e.key);
      MarkIfBounded(c.g, e.val.value, S);
    }
  }

  lemma {:induction false} EphemeronEntriesBounded(r: Scan, es: seq<Entry>, S: set<Id>)
    requires Bounded(r.g, S) && forall e :: e in es ==> EntryForces(r.g.heap, e, S)
    ensures Bounded(EphemeronEntries(r, es).g, S)
    decreases |es|
  {
    if es != [] {
      var r1 := EphemeronEntry(r, es[0]);
      EphemeronEntryBounded(r, es[0], S);
      EphemeronEntryOk(r, es[0]);
      forall e | e in es[1..] ensures EntryForces(r1.g.heap, e, S) { assert EntryForces(r.g.heap, e, S); }
      EphemeronEntriesBounded(r1, es[1..], S);
    }
  }

  lemma TraverseEphemeronBounded(g: Gc, o: Id, S: set<Id>)
    requires HeapOk(g.heap) && Bounded(g, S) && Marked(g.heap, o) && g.heap[o].kind.Ephemeron?
    ensures Bounded(TraverseEphemeron(g, o).g, S)
  {
    assert ObjOk(g.heap, g.heap[o]) && Forces(g.heap, g.heap[o], S);
    EphemeronEntriesBounded(Scan(g, false, false, false), g.heap[o].entries, S);
  }

  lemma {:induction false} WeakValueEntriesBounded(c: Check, es: seq<Entry>, S: set<Id>)
    requires Bounded(c.g, S)
    requires forall e :: e in es ==>
      In(c.g.heap, e.key, S) && InHeap(c.g.heap, e.key) && InHeap(c.g.heap, e.val)
    ensures Bounded(WeakValueEntries(c, es).g, S)
    decreases |es|
  {
    if es != [] {
      var e := es[0];
      if e.key.Some? {
        var g1 := MarkIf(c.g, e.key.value);
        MarkIfBounded(c.g, e.key.value, S);
        MarkIfMarks(c.g, e.key.value);
        IsClearedBounded(g1, e.val, S);
      }
      WeakValueEntryOk(c, e);
      WeakValueEntriesBounded(WeakValueEntry(c, e), es[1..], S);
    }
  }

  lemma TraverseWeakValueBounded(g: Gc, o: Id, S: set<Id>)
    requires HeapOk(g.heap) && Bounded(g, S) && Marked(g.heap, o) && g.heap[o].kind.WeakValue?
    ensures Bounded(TraverseWeakValue(g, o), S)
  {
    assert ObjOk(g.heap, g.heap[o]) && Forces(g.heap, g.heap[o], S);
    WeakValueEntriesBounded(Check(g, false), g.heap[o].entries, S);
  }

  lemma TakenBounded(g: Gc, S: set<Id>)
    requires g.gray != [] && Marked(g.heap, g.gray[0]) && HeapOk(g.heap) && Bounded(g, S)
    ensures Bounded(Taken(g), S) && HeapOk(Taken(g).heap) && Marked(Taken(g).heap, g.gray[0])
    ensures forall r :: r in g.heap[g.gray[0]].refs ==> In(Taken(g).heap, Some(r), S)
    ensures Taken(g).heap[g.gray[0]].kind == g.heap[g.gray[0]].kind
  {
    assert Forces(g.heap, g.heap[g.gray[0]], S);
    ClosedShape(g.heap, Taken(g).heap, S);
    HeapShape(g.heap, Taken(g).heap);
    hide Closed, HeapOk;
  }

  /** The state after the first gray object and its strong references are marked. */
  lemma RefsBounded(g: Gc, refs: seq<Id>, o: Id, S: set<Id>)
    requires Bounded(g, S) && HeapOk(g.heap) && Marked(g.heap, o)
    requires forall r :: r in refs ==> In(g.heap, Some(r), S)
    ensures var g1 := MarkAll(g, refs);
      Bounded(g1, S) && HeapOk(g1.heap) && Marked(g1.heap, o) && g1.heap[o].kind == g.heap[o].kind
  {
    MarkAllBounded(g, refs, S);
    MarkAllMarks(g, refs);
    MarksProgress(g, MarkAll(g, refs));
    HeapOkProgress(g, MarkAll(g, refs));
  }

  lemma PropagateMarkBounded(g: Gc, S: set<Id>)
    requires g.gray != [] && HeapOk(g.heap) && Bounded(g, S)
    ensures Bounded(PropagateMark(g), S)
  {
    var o := g.gray[0];
    if Marked(g.heap, o) {
      TakenBounded(g, S);
      RefsBounded(Taken(g), g.heap[o].refs, o, S);
      VisitBounded(g, MarkAll(Taken(g), g.heap[o].refs), S);
    }
  }

  lemma VisitBounded(g: Gc, g1: Gc, S: set<Id>)
    requires g.gray != [] && Marked(g.heap, g.gray[0]) && g1 == MarkAll(Taken(g), g.heap[g.gray[0]].refs)
    requires Bounded(g, S) && Bounded(g1, S) && HeapOk(g1.heap)
    requires Marked(g1.heap, g.gray[0]) && g1.heap[g.gray[0]].kind == g.heap[g.gray[0]].kind
    ensures Bounded(PropagateMark(g), S)
  {
    hide HeapOk, MarkAll;
    var o, k := g.gray[0], g.heap[g.gray[0]].kind;
    if k.WeakValue? { TraverseWeakValueBounded(g1, o, S); }
    else if k.Ephemeron? { TraverseEphemeronBounded(g1, o, S); }
    else if k.AllWeak? { assert PropagateMark(g).heap == g1.heap; }
    else if k.Str? || k.Userdata? { assert PropagateMark(g).heap == g.heap; }
  }

  lemma {:induction false} PropagateAllBounded(g: Gc, late: bool, pass: seq<Id>, S: set<Id>)
    requires Tri(g, late, pass) && Bounded(g, S)
    ensures Bounded(PropagateAll(g), S)
    decreases Whites(g.heap), |g.gray|
  {
    if g.gray != [] {
      hide Bounded, PropagateMark;
      var g1 := PropagateMark(g);
      PropagateMarkTri(g, late, pass);
      PropagateMarkBounded(g, S);
      assert Whites(g1.heap) < Whites(g.heap) || Whites(g1.heap) == Whites(g.heap);
      PropagateAllBounded(g1, late, pass, S);
    }
  }

  lemma {:induction false} EphemeronPassBounded(g: Gc, tables: seq<Id>, S: set<Id>)
    requires Tri(g, true, tables) && Visitable(g, tables) && g.gray == [] && Bounded(g, S)
    ensures Bounded(EphemeronPass(g, tables).g, S)
    decreases |tables|
  {
    if tables != [] {
      assert tables[0] in tables;
      var o, t := tables[0], TraverseEphemeron(g, tables[0]);
      VisitTableOk(g, tables);
      VisitTableBounded(g, tables, S);
      hide Bounded, Tri, TraverseEphemeron, Visitable;
      EphemeronPassBounded(VisitTable(g, o), tables[1..], S);
    }
  }

  lemma VisitTableBounded(g: Gc, tables: seq<Id>, S: set<Id>)
    requires Tri(g, true, tables) && Visitable(g, tables) && tables != [] && tables[0] in g.heap && Bounded(g, S)
    ensures Bounded(VisitTable(g, tables[0]), S)
  {
    var o := tables[0];
    DropFirst(g, tables);
    TraverseEphemeronBounded(g, o, S);
    TraverseEphemeronOk(g, o);
    TraverseTri(g, TraverseEphemeron(g, o).g, true, tables[1..], o);
    hide Tri, Bounded;
    if TraverseEphemeron(g, o).marked { PropagateAllBounded(TraverseEphemeron(g, o).g, true, tables[1..], S); }
  }

  lemma {:induction false} ConvergeBounded(g: Gc, S: set<Id>)
    requires Tri(g, true, []) && g.gray == [] && Bounded(g, S)
    ensures Bounded(Converge(g), S)
    decreases Whites(g.heap)
  {
    var g0 := g.(ephemeron := []);
    var r := EphemeronPass(g0, g.ephemeron);
    RoundStart(g);
    EphemeronPassOk(g0, g.ephemeron);
    EphemeronPassBounded(g0, g.ephemeron, S);
    if r.changed {
      hide Tri, EphemeronPass, Bounded;
      ConvergeBounded(r.g, S);
    }
  }

  function MarkedIn(g: Gc): set<Id> {
    set o | o in g.heap && !g.heap[o].color.White?
  }

  /** Convergence computes a least fixpoint: the set of what it marks is closed under the
      rules, contains what was marked, and lies in every other set that is and does. For
      the marked objects that means: what they refer to is marked, keys of tables with weak
      values are, and the values of marked keys of ephemeron tables. */
  lemma ConvergeIsLeastFixpoint(g: Gc, S: set<Id>)
    requires Tri(g, true, []) && g.gray == []
    ensures var g' := Converge(g);
      && (forall o, r :: Marked(g'.heap, o) && r in g'.heap[o].refs ==> Marked(g'.heap, r))
      && (forall o, e :: Marked(g'.heap, o) && g'.heap[o].kind.WeakValue? && e in g'.heap[o].entries ==>
           Kept(g'.heap, e.key))
      && (forall o, e :: Marked(g'.heap, o) && g'.heap[o].kind.Ephemeron? && e in g'.heap[o].entries ==>
           (Kept(g'.heap, e.key) ==> Kept(g'.heap, e.val)))
    ensures Closed(g.heap, MarkedIn(Converge(g))) && Within(g, MarkedIn(Converge(g)))
    ensures Closed(g.heap, S) && Within(g, S) ==> Within(Converge(g), S)
  {
    var g' := Converge(g);
    ConvergeOk(g);
    assert Tri(g', true, []) && HeapOk(g'.heap);
    ConvergeShape(g);
    hide Tri, Converge;
    forall o | Marked(g'.heap, o) ensures ClosedAt(g', o) { ConvergedAt(g', o); }
    ClosedShape(g'.heap, g.heap, MarkedIn(g')) by { MarkedClosed(g'); }
    if Closed(g.heap, S) && Within(g, S) { ConvergeBounded(g, S); }
  }

  lemma ConvergeShape(g: Gc)
    requires Tri(g, true, []) && g.gray == []
    ensures SameShape(g.heap, Converge(g).heap) && SameShape(Converge(g).heap, g.heap)
    ensures forall o :: Marked(g.heap, o) ==> Marked(Converge(g).heap, o)
  {
    ConvergeOk(g);
  }

  lemma MarkedClosed(g: Gc)
    requires forall o :: Marked(g.heap, o) ==> ClosedAt(g, o)
    ensures Closed(g.heap, MarkedIn(g))
  {
    forall x | x in MarkedIn(g) && x in g.heap ensures Forces(g.heap, g.heap[x], MarkedIn(g)) {
      assert ClosedAt(g, x);
    }
  }

  /** A marked object obeys the rules with respect to the marked objects. */
  ghost predicate ClosedAt(g: Gc, o: Id)
    requires o in g.heap
  {
    var ob := g.heap[o];
    && AllMarked(g.heap, ob.refs)
    && (ob.kind.WeakValue? ==> KeysKept(g.heap, ob.entries))
    && (ob.kind.Ephemeron? ==> forall e :: e in ob.entries && (Kept(g.heap, e.key) || IsString(g.heap, e.key)) ==>
          Kept(g.heap, e.val))
  }

  lemma ConvergedAt(g: Gc, o: Id)
    requires Tri(g, true, []) && g.gray == [] && Marked(g.heap, o) && forall x :: x in g.ephemeron ==> Quiet(g, x)
    ensures ClosedAt(g, o)
  {
  }
}

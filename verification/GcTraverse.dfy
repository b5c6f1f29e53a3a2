/** Visiting a gray object settles it. */
module GcTraverse {
  import opened Common
  import opened GcHeap
  import opened GcMarking
  import opened GcInvariant

  /** Nothing but strings has been marked. */
  ghost predicate OnlyStrings(g: Gc, g': Gc) {
    forall o :: IsWhite(g.heap, o) && Marked(g'.heap, o) ==> g.heap[o].kind.Str?
  }

  lemma IsClearedMarks(g: Gc, x: Option<Id>)
    requires InHeap(g.heap, x)
    ensures var c := IsCleared(g, x);
      && Marks(g, c.g) && OnlyStrings(g, c.g)
      && (if c.cleared then WhiteValue(c.g, x) && !c.g.heap[x.value].kind.Str? else Kept(c.g.heap, x))
  {
    MarksRefl(g);
    if x.Some? && g.heap[x.value].kind.Str? { MarkString(g, x.value); }
  }

  lemma MarkString(g: Gc, o: Id)
    requires o in g.heap && g.heap[o].kind.Str?
    ensures var g' := MarkIf(g, o); Marks(g, g') && OnlyStrings(g, g') && Marked(g'.heap, o)
  {
    MarkIfMarks(g, o);
    hide Marks;
    if IsWhite(g.heap, o) { assert MarkIf(g, o) == Painted(g, o, Black); }
  }

  // ----- ephemeron tables -----

  /** An entry is done: its key and value are marked, or its key is not (and is no string). */
  ghost predicate EntryQuiet(h: Heap, e: Entry) {
    || (Kept(h, e.key) && Kept(h, e.val))
    || (e.key.Some? && IsWhite(h, e.key.value) && !h[e.key.value].kind.Str?)
  }

  /** What a scan remembers about an entry it has seen. */
  ghost predicate EntrySeen(r: Scan, e: Entry) {
    r.hasww || (Kept(r.g.heap, e.val) && (r.hasclears || Kept(r.g.heap, e.key)))
  }

  lemma EphemeronEntryOk(r: Scan, e: Entry)
    requires InHeap(r.g.heap, e.key) && InHeap(r.g.heap, e.val)
    ensures var r' := EphemeronEntry(r, e);
      && Marks(r.g, r'.g) && EntrySeen(r', e) && (r.hasclears ==> r'.hasclears) && (r.hasww ==> r'.hasww)
      && (!r'.marked ==> OnlyStrings(r.g, r'.g) && EntryQuiet(r'.g.heap, e))
  {
    IsClearedMarks(r.g, e.key);
    var c := IsCleared(r.g, e.key);
    if !c.cleared && WhiteValue(c.g, e.val) {
      MarkIfMarks(c.g, e.val.value);
      MarksTrans(r.g, c.g, EphemeronEntry(r, e).g);
    }
  }

  lemma QuietKept(g: Gc, g': Gc, e: Entry)
    requires EntryQuiet(g.heap, e) && Marks(g, g') && OnlyStrings(g, g')
    ensures EntryQuiet(g'.heap, e)
  {
  }

  lemma {:induction false} EphemeronEntriesOk(r: Scan, es: seq<Entry>)
    requires forall e :: e in es ==> InHeap(r.g.heap, e.key) && InHeap(r.g.heap, e.val)
    ensures var r' := EphemeronEntries(r, es);
      && Marks(r.g, r'.g) && (r.hasclears ==> r'.hasclears) && (r.hasww ==> r'.hasww)
      && (forall e :: e in es ==> EntrySeen(r', e))
      && (!r'.marked ==> OnlyStrings(r.g, r'.g) && forall e :: e in es ==> EntryQuiet(r'.g.heap, e))
    decreases |es|
  {
    if es == [] {
      MarksRefl(r.g);
    } else {
      var r1 := EphemeronEntry(r, es[0]);
      var r' := EphemeronEntries(r, es);
      EphemeronEntryOk(r, es[0]);
      EphemeronEntriesOk(r1, es[1..]);
      MarksTrans(r.g, r1.g, r'.g);
      forall e | e in es ensures EntrySeen(r', e) && (!r'.marked ==> EntryQuiet(r'.g.heap, e)) {
        if e == es[0] {
          SeenKept(r1, r', e);
          if !r'.marked { QuietKept(r1.g, r'.g, e); }
        } else {
          assert e in es[1..];
        }
      }
    }
  }

  lemma SeenKept(r: Scan, r': Scan, e: Entry)
    requires EntrySeen(r, e) && Marks(r.g, r'.g) && (r.hasclears ==> r'.hasclears) && (r.hasww ==> r'.hasww)
    ensures EntrySeen(r', e)
  {
  }

  /** All entries of the table are done. */
  ghost predicate Quiet(g: Gc, o: Id) {
    o in g.heap ==> forall e :: e in g.heap[o].entries ==> EntryQuiet(g.heap, e)
  }

  lemma TraverseEphemeronOk(g: Gc, o: Id)
    requires HeapOk(g.heap) && o in g.heap && g.heap[o].kind.Ephemeron? && Marked(g.heap, o)
    requires AllMarked(g.heap, g.heap[o].refs)
    ensures var r := TraverseEphemeron(g, o);
      && Progress(g, r.g) && (forall e :: e in g.ephemeron ==> e in r.g.ephemeron)
           && (forall e :: e in g.grayagain ==> e in r.g.grayagain)
      && (exists g1 :: Marks(g, g1) && r.g.heap == g1.heap && r.g.gray == g1.gray)
      && (if g.phase.Propagate? then o in r.g.grayagain else Settled(r.g, o))
      && (!r.marked ==> OnlyStrings(g, r.g) && Quiet(r.g, o)) && (TableLists(g) ==> TableLists(r.g))
      && (forall e :: e in r.g.ephemeron ==> e in g.ephemeron || e == o)
  {
    var r1 := EphemeronEntries(Scan(g, false, false, false), g.heap[o].entries);
    assert ObjOk(g.heap, g.heap[o]);
    EphemeronEntriesOk(Scan(g, false, false, false), g.heap[o].entries);
    MarksProgress(g, r1.g);
    LinkEphemeronOk(g, r1, o);
  }

  /** After the scan the table goes to the list its entries call for. */
  lemma LinkEphemeronOk(g: Gc, r: Scan, o: Id)
    requires o in g.heap && g.heap[o].kind.Ephemeron? && Marked(g.heap, o) && AllMarked(g.heap, g.heap[o].refs)
    requires Marks(g, r.g) && Progress(g, r.g)
    requires forall e :: e in g.heap[o].entries ==> EntrySeen(r, e)
    ensures var g' := LinkEphemeron(r, o);
      && Progress(g, g') && (forall e :: e in g.ephemeron ==> e in g'.ephemeron)
           && (forall e :: e in g.grayagain ==> e in g'.grayagain)
      && g'.heap == r.g.heap && g'.gray == r.g.gray
      && (if g.phase.Propagate? then o in g'.grayagain else Settled(g', o))
      && (TableLists(g) ==> TableLists(g'))
      && (forall e :: e in g'.ephemeron ==> e in g.ephemeron || e == o)
  {
    hide Marks, Progress;
    MarksLists(g, r.g);
    LinkProgress(r.g, o);
    match LinkCase(r)
    case 0 => ProgressTrans(g, r.g, r.g.(grayagain := [o] + r.g.grayagain));
    case 1 => ProgressTrans(g, r.g, r.g.(ephemeron := [o] + r.g.ephemeron));
    case 2 => ProgressTrans(g, r.g, r.g.(allweak := [o] + r.g.allweak));
    case _ =>
    LinkedTable(g, r, o);
  }

  function LinkCase(r: Scan): nat {
    if r.g.phase.Propagate? then 0 else if r.hasww then 1 else if r.hasclears then 2 else 3
  }

  lemma MarksLists(g: Gc, g': Gc)
    requires Marks(g, g')
    ensures g'.phase == g.phase && g'.grayagain == g.grayagain && g'.weak == g.weak && g'.allweak == g.allweak
    ensures g'.ephemeron == g.ephemeron
    ensures g'.heap.Keys == g.heap.Keys
    ensures forall o :: o in g.heap ==>
      g'.heap[o].kind == g.heap[o].kind && g'.heap[o].refs == g.heap[o].refs && g'.heap[o].entries == g.heap[o].entries
    ensures forall o :: Marked(g.heap, o) ==> Marked(g'.heap, o)
  {
  }

  /** A table joins the front of a list. */
  lemma LinkProgress(g: Gc, o: Id)
    ensures Progress(g, g.(grayagain := [o] + g.grayagain))
    ensures Progress(g, g.(ephemeron := [o] + g.ephemeron))
    ensures Progress(g, g.(allweak := [o] + g.allweak))
    ensures Progress(g, g.(weak := [o] + g.weak))
  {
    SuffixRefl(g.weak);
    SuffixRefl(g.allweak);
    SuffixCons(g.weak, o);
    SuffixCons(g.allweak, o);
    hide Suffix;
  }

  lemma LinkedTable(g: Gc, r: Scan, o: Id)
    requires o in g.heap && g.heap[o].kind.Ephemeron? && Marked(g.heap, o) && AllMarked(g.heap, g.heap[o].refs)
    requires r.g.phase == g.phase && r.g.grayagain == g.grayagain && r.g.weak == g.weak && r.g.allweak == g.allweak
    requires r.g.ephemeron == g.ephemeron
    requires r.g.heap.Keys == g.heap.Keys
    requires forall x :: x in g.heap ==>
      r.g.heap[x].kind == g.heap[x].kind && r.g.heap[x].refs == g.heap[x].refs
      && r.g.heap[x].entries == g.heap[x].entries
    requires forall x :: Marked(g.heap, x) ==> Marked(r.g.heap, x)
    requires forall e :: e in g.heap[o].entries ==> EntrySeen(r, e)
    ensures var g' := LinkEphemeron(r, o);
      && (if g.phase.Propagate? then o in g'.grayagain else Settled(g', o))
      && (TableLists(g) ==> TableLists(g'))
      && (forall e :: e in g'.ephemeron ==> e in g.ephemeron || e == o)
      && (forall e :: e in g.ephemeron ==> e in g'.ephemeron) && (forall e :: e in g.grayagain ==> e in g'.grayagain)
  {
  }

  // ----- tables with weak values -----

  lemma WeakValueEntryOk(c: Check, e: Entry)
    requires InHeap(c.g.heap, e.key) && InHeap(c.g.heap, e.val)
    ensures var c' := WeakValueEntry(c, e);
      Marks(c.g, c'.g) && (c.cleared ==> c'.cleared) && Kept(c'.g.heap, e.key) && (c'.cleared || Kept(c'.g.heap, e.val))
  {
    MarksRefl(c.g);
    if e.key.Some? {
      MarkIfMarks(c.g, e.key.value);
      var g1 := MarkIf(c.g, e.key.value);
      if !c.cleared {
        IsClearedMarks(g1, e.val);
        MarksTrans(c.g, g1, WeakValueEntry(c, e).g);
      }
    }
  }

  lemma {:induction false} WeakValueEntriesOk(c: Check, es: seq<Entry>)
    requires forall e :: e in es ==> InHeap(c.g.heap, e.key) && InHeap(c.g.heap, e.val)
    ensures var c' := WeakValueEntries(c, es);
      && Marks(c.g, c'.g) && (c.cleared ==> c'.cleared)
      && KeysKept(c'.g.heap, es) && (c'.cleared || ValuesKept(c'.g.heap, es))
    decreases |es|
  {
    if es == [] {
      MarksRefl(c.g);
    } else {
      var c1 := WeakValueEntry(c, es[0]);
      var c' := WeakValueEntries(c, es);
      WeakValueEntryOk(c, es[0]);
      WeakValueEntriesOk(c1, es[1..]);
      MarksTrans(c.g, c1.g, c'.g);
      forall e | e in es ensures Kept(c'.g.heap, e.key) && (c'.cleared || Kept(c'.g.heap, e.val)) {
        if e != es[0] { assert e in es[1..]; }
      }
    }
  }

  lemma TraverseWeakValueOk(g: Gc, o: Id)
    requires HeapOk(g.heap) && o in g.heap && g.heap[o].kind.WeakValue? && Marked(g.heap, o)
    requires AllMarked(g.heap, g.heap[o].refs)
    ensures var g' := TraverseWeakValue(g, o);
      && Progress(g, g') && g'.ephemeron == g.ephemeron && (forall e :: e in g.grayagain ==> e in g'.grayagain)
      && (exists g1 :: Marks(g, g1) && g'.heap == g1.heap && g'.gray == g1.gray)
      && (if g.phase.Propagate? then o in g'.grayagain else Settled(g', o))
      && (TableLists(g) ==> TableLists(g'))
  {
    var c := WeakValueEntries(Check(g, false), g.heap[o].entries);
    assert ObjOk(g.heap, g.heap[o]);
    WeakValueEntriesOk(Check(g, false), g.heap[o].entries);
    MarksProgress(g, c.g);
    LinkWeakValueOk(g, c, o);
  }

  lemma LinkWeakValueOk(g: Gc, c: Check, o: Id)
    requires o in g.heap && g.heap[o].kind.WeakValue? && Marked(g.heap, o) && AllMarked(g.heap, g.heap[o].refs)
    requires Marks(g, c.g) && Progress(g, c.g) && KeysKept(c.g.heap, g.heap[o].entries)
    requires c.cleared || ValuesKept(c.g.heap, g.heap[o].entries)
    ensures var g' := if c.g.phase.Propagate? then c.g.(grayagain := [o] + c.g.grayagain)
                      else if c.cleared then c.g.(weak := [o] + c.g.weak) else c.g;
      && Progress(g, g') && g'.ephemeron == g.ephemeron && (forall e :: e in g.grayagain ==> e in g'.grayagain)
      && g'.heap == c.g.heap && g'.gray == c.g.gray
      && (if g.phase.Propagate? then o in g'.grayagain else Settled(g', o))
      && (TableLists(g) ==> TableLists(g'))
  {
    MarksLists(g, c.g);
    LinkProgress(c.g, o);
    hide Marks, Progress;
    if c.g.phase.Propagate? {
      ProgressTrans(g, c.g, c.g.(grayagain := [o] + c.g.grayagain));
    } else if c.cleared {
      ProgressTrans(g, c.g, c.g.(weak := [o] + c.g.weak));
    }
  }

  // ----- one visit -----

  /** The state in which the first gray object has been taken off its list. */
  function Taken(g: Gc): Gc
    requires g.gray != []
  {
    var o := g.gray[0];
    var g0 := g.(gray := g.gray[1..]);
    if !Marked(g.heap, o) then g0
    else if g.heap[o].kind.Table? || g.heap[o].kind.Function? then Repaint(g0, o, Black)
    else if g.heap[o].kind.Thread? then g0.(grayagain := [o] + g0.grayagain)
    else g0
  }

  /** Everything is settled or pending, except object x itself. */
  ghost predicate TriBut(g: Gc, late: bool, pass: seq<Id>, x: Id) {
    && HeapOk(g.heap)
    && (late ==> !g.phase.Propagate?)
    && (forall o :: Marked(g.heap, o) && o != x ==> Good(g, late, pass, o))
    && ColorsOk(g.heap) && TableLists(g)
  }

  lemma TailIn(xs: seq<Id>, x: Id)
    requires xs != [] && x in xs && x != xs[0]
    ensures x in xs[1..]
  {
  }

  lemma TakenGood(g: Gc, late: bool, pass: seq<Id>, x: Id)
    requires g.gray != [] && x in g.heap && x != g.gray[0] && Good(g, late, pass, x) && Progress(g, Taken(g))
    requires Taken(g).ephemeron == g.ephemeron
    ensures Good(Taken(g), late, pass, x)
  {
  }

  lemma TakenProgress(g: Gc)
    requires g.gray != [] && ColorsOk(g.heap) && TableLists(g)
    ensures Progress(g, Taken(g)) && Taken(g).ephemeron == g.ephemeron && Taken(g).phase == g.phase
    ensures ColorsOk(Taken(g).heap) && TableLists(Taken(g))
  {
    hide Suffix;
    SuffixRefl(g.weak);
    SuffixRefl(g.allweak);
  }

  lemma TakenTri(g: Gc, late: bool, pass: seq<Id>)
    requires Tri(g, late, pass) && g.gray != []
    ensures TriBut(Taken(g), late, pass, g.gray[0]) && Progress(g, Taken(g)) && Taken(g).ephemeron == g.ephemeron
  {
    var o, g' := g.gray[0], Taken(g);
    TakenProgress(g);
    hide Good, HeapOk, Taken, Progress;
    HeapOkProgress(g, g');
    forall x | Marked(g'.heap, x) && x != o ensures Good(g', late, pass, x) {
      TakenGood(g, late, pass, x);
    }
  }

  lemma MarksTriBut(g: Gc, g': Gc, late: bool, pass: seq<Id>, x: Id)
    requires TriBut(g, late, pass, x) && Marks(g, g')
    ensures TriBut(g', late, pass, x)
  {
    hide Good;
    MarksProgress(g, g');
    HeapOkProgress(g, g');
    ColorsMarks(g, g');
    forall o | Marked(g'.heap, o) && o != x ensures Good(g', late, pass, o) {
      MarksGood(g, g', late, pass, o);
    }
  }

  /** Changing the lists of tables only, or adding x to one, keeps the rest. */
  lemma LinkTriBut(g: Gc, g': Gc, late: bool, pass: seq<Id>, x: Id)
    requires TriBut(g, late, pass, x) && g'.heap == g.heap && g'.gray == g.gray && g'.phase == g.phase
    requires forall o :: (o in g.grayagain ==> o in g'.grayagain) && (o in g.weak ==> o in g'.weak)
    requires forall o :: (o in g.ephemeron ==> o in g'.ephemeron) && (o in g.allweak ==> o in g'.allweak)
    requires TableLists(g')
    ensures TriBut(g', late, pass, x)
  {
  }

  lemma ButTri(g: Gc, late: bool, pass: seq<Id>, x: Id)
    requires TriBut(g, late, pass, x)
    requires Marked(g.heap, x) ==> Good(g, late, pass, x)
    ensures Tri(g, late, pass)
  {
  }

  lemma TraverseTri(g: Gc, g': Gc, late: bool, pass: seq<Id>, x: Id)
    requires TriBut(g, late, pass, x) && Progress(g, g') && x in g.heap && IsWeak(g.heap[x].kind) && Marked(g.heap, x)
    requires exists g1 :: Marks(g, g1) && g'.heap == g1.heap && g'.gray == g1.gray
    requires forall o :: (o in g.grayagain ==> o in g'.grayagain) && (o in g.ephemeron ==> o in g'.ephemeron)
    requires if g.phase.Propagate? then x in g'.grayagain else Settled(g', x)
    requires TableLists(g')
    ensures Tri(g', late, pass)
  {
    var g1 :| Marks(g, g1) && g'.heap == g1.heap && g'.gray == g1.gray;
    MarksTriBut(g, g1, late, pass, x);
    LinkTriBut(g1, g', late, pass, x);
    assert g'.heap[x].color.Gray?;
    ButTri(g', late, pass, x);
  }

  lemma PropagateMarkTri(g: Gc, late: bool, pass: seq<Id>)
    requires Tri(g, late, pass) && g.gray != []
    ensures var g' := PropagateMark(g);
      Tri(g', late, pass) && Progress(g, g') && forall e :: e in g.ephemeron ==> e in g'.ephemeron
  {
    var o, g0, g' := g.gray[0], Taken(g), PropagateMark(g);
    TakenTri(g, late, pass);
    if Marked(g.heap, o) {
      var refs := g.heap[o].refs;
      var g1 := MarkAll(g0, refs);
      MarkAllMarks(g0, refs);
      MarksTriBut(g0, g1, late, pass, o);
      MarksProgress(g0, g1);
      ProgressTrans(g, g0, g1);
      assert ObjOk(g.heap, g.heap[o]);
      assert AllMarked(g1.heap, g1.heap[o].refs);
      VisitTri(g, g1, late, pass, o);
    } else {
      ButTri(g', late, pass, o);
    }
  }

  /** The kind-dependent part of a visit. */
  lemma VisitTri(g: Gc, g1: Gc, late: bool, pass: seq<Id>, o: Id)
    requires g.gray != [] && o == g.gray[0] && Marked(g.heap, o) && g1 == MarkAll(Taken(g), g.heap[o].refs)
    requires TriBut(g1, late, pass, o) && Progress(g, g1) && AllMarked(g1.heap, g1.heap[o].refs) && Marked(g1.heap, o)
    requires g1.ephemeron == g.ephemeron && g1.heap[o].color == Taken(g).heap[o].color
    requires Tri(g, late, pass)
    ensures var g' := PropagateMark(g);
      Tri(g', late, pass) && Progress(g, g') && forall e :: e in g.ephemeron ==> e in g'.ephemeron
  {
    var k := g.heap[o].kind;
    if IsWeak(k) { VisitWeakTri(g, g1, late, pass, o); }
    else { VisitStrongTri(g, g1, late, pass, o); }
  }

  lemma VisitWeakTri(g: Gc, g1: Gc, late: bool, pass: seq<Id>, o: Id)
    requires g.gray != [] && o == g.gray[0] && Marked(g.heap, o) && g1 == MarkAll(Taken(g), g.heap[o].refs)
    requires IsWeak(g.heap[o].kind)
    requires TriBut(g1, late, pass, o) && Progress(g, g1) && AllMarked(g1.heap, g1.heap[o].refs) && Marked(g1.heap, o)
    requires g1.ephemeron == g.ephemeron
    ensures var g' := PropagateMark(g);
      Tri(g', late, pass) && Progress(g, g') && forall e :: e in g.ephemeron ==> e in g'.ephemeron
  {
    hide PropagateMark, TriBut, Tri, Progress, Taken, MarkAll;
    match g.heap[o].kind
    case Ephemeron => VisitEphemeronTri(g, g1, late, pass, o);
    case WeakValue => VisitWeakValueTri(g, g1, late, pass, o);
    case AllWeak => VisitAllWeakTri(g, g1, late, pass, o);
  }

  lemma VisitEphemeronTri(g: Gc, g1: Gc, late: bool, pass: seq<Id>, o: Id)
    requires g.gray != [] && o == g.gray[0] && Marked(g.heap, o) && g1 == MarkAll(Taken(g), g.heap[o].refs)
    requires g.heap[o].kind.Ephemeron?
    requires TriBut(g1, late, pass, o) && Progress(g, g1) && AllMarked(g1.heap, g1.heap[o].refs) && Marked(g1.heap, o)
    requires g1.ephemeron == g.ephemeron
    ensures var g' := PropagateMark(g);
      Tri(g', late, pass) && Progress(g, g') && forall e :: e in g.ephemeron ==> e in g'.ephemeron
  {
    EphemeronVisit(g, g1);
    TraverseEphemeronOk(g1, o) by { assert HeapOk(g1.heap); }
    assert TableLists(g1);
    hide *;
    ProgressTrans(g, g1, PropagateMark(g));
    TraverseTri(g1, PropagateMark(g), late, pass, o);
  }

  lemma EphemeronVisit(g: Gc, g1: Gc)
    requires g.gray != [] && Marked(g.heap, g.gray[0]) && g.heap[g.gray[0]].kind.Ephemeron?
    requires g1 == MarkAll(Taken(g), g.heap[g.gray[0]].refs)
    ensures g.gray[0] in g1.heap && PropagateMark(g) == TraverseEphemeron(g1, g.gray[0]).g
    ensures g1.heap.Keys == g.heap.Keys
  {
  }

  lemma VisitWeakValueTri(g: Gc, g1: Gc, late: bool, pass: seq<Id>, o: Id)
    requires g.gray != [] && o == g.gray[0] && Marked(g.heap, o) && g1 == MarkAll(Taken(g), g.heap[o].refs)
    requires g.heap[o].kind.WeakValue?
    requires TriBut(g1, late, pass, o) && Progress(g, g1) && AllMarked(g1.heap, g1.heap[o].refs) && Marked(g1.heap, o)
    requires g1.ephemeron == g.ephemeron
    ensures var g' := PropagateMark(g);
      Tri(g', late, pass) && Progress(g, g') && forall e :: e in g.ephemeron ==> e in g'.ephemeron
  {
    assert PropagateMark(g) == TraverseWeakValue(g1, o);
    hide PropagateMark, MarkAll, Taken;
    var g' := PropagateMark(g);
    TraverseWeakValueOk(g1, o);
    hide TraverseWeakValue, Marks, Good, Settled;
    ProgressTrans(g, g1, g');
    TraverseTri(g1, g', late, pass, o);
  }

  lemma VisitAllWeakTri(g: Gc, g1: Gc, late: bool, pass: seq<Id>, o: Id)
    requires g.gray != [] && o == g.gray[0] && Marked(g.heap, o) && g1 == MarkAll(Taken(g), g.heap[o].refs)
    requires g.heap[o].kind.AllWeak?
    requires TriBut(g1, late, pass, o) && Progress(g, g1) && AllMarked(g1.heap, g1.heap[o].refs) && Marked(g1.heap, o)
    requires g1.ephemeron == g.ephemeron
    ensures var g' := PropagateMark(g);
      Tri(g', late, pass) && Progress(g, g') && forall e :: e in g.ephemeron ==> e in g'.ephemeron
  {
    AllWeakVisit(g, g1);
    assert g1.heap[o].kind.AllWeak?;
    hide *;
    AllWeakLinked(g1, late, pass, o);
    ProgressTrans(g, g1, g1.(allweak := [o] + g1.allweak));
  }

  lemma AllWeakVisit(g: Gc, g1: Gc)
    requires g.gray != [] && Marked(g.heap, g.gray[0]) && g.heap[g.gray[0]].kind.AllWeak?
    requires g1 == MarkAll(Taken(g), g.heap[g.gray[0]].refs)
    ensures PropagateMark(g) == g1.(allweak := [g.gray[0]] + g1.allweak)
  {
  }

  lemma AllWeakLinked(g: Gc, late: bool, pass: seq<Id>, o: Id)
    requires TriBut(g, late, pass, o) && Marked(g.heap, o) && g.heap[o].kind.AllWeak?
    requires AllMarked(g.heap, g.heap[o].refs)
    ensures var g' := g.(allweak := [o] + g.allweak); Tri(g', late, pass) && Progress(g, g')
  {
  }

  lemma VisitStrongTri(g: Gc, g1: Gc, late: bool, pass: seq<Id>, o: Id)
    requires g.gray != [] && o == g.gray[0] && Marked(g.heap, o) && g1 == MarkAll(Taken(g), g.heap[o].refs)
    requires !IsWeak(g.heap[o].kind)
    requires TriBut(g1, late, pass, o) && Progress(g, g1) && AllMarked(g1.heap, g1.heap[o].refs) && Marked(g1.heap, o)
    requires g1.ephemeron == g.ephemeron && Tri(g, late, pass)
    ensures var g' := PropagateMark(g);
      Tri(g', late, pass) && Progress(g, g') && forall e :: e in g.ephemeron ==> e in g'.ephemeron
  {
    var k, g' := g.heap[o].kind, PropagateMark(g);
    if k.Str? || k.Userdata? {
      assert Good(g, late, pass, o);
      TakenTri(g, late, pass);
      SettledProgress(g, g', o);
    }
    ButTri(g', late, pass, o);
  }
}

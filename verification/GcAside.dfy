/** The rest of a collection does not see what a table refers to that it will not visit
    any more. */
module GcAside {
  import opened Common
  import opened GcHeap
  import opened GcMarking
  import opened GcAtomic

  type Nonstring = k: Kind | !k.Str? witness Table

  /** The same state, but p is of another kind and refers to something else. */
  function With(g: Gc, p: Id, kd: Nonstring, refs: seq<Id>): Gc
    requires p in g.heap
  {
    g.(heap := g.heap[p := g.heap[p].(kind := kd, refs := refs)])
  }

  /** A marked object that marking will not come back to. */
  predicate Held(g: Gc, p: Id) {
    Marked(g.heap, p) && !g.heap[p].kind.Str?
  }

  /** A marked object that is on no list from which objects are visited. */
  ghost predicate Aside(g: Gc, p: Id) {
    Held(g, p) && p !in g.gray && p !in g.grayagain && p !in g.ephemeron
  }

  lemma MarksAside(g: Gc, g': Gc, p: Id)
    requires Marks(g, g') && Held(g, p)
    ensures Held(g', p) && (p !in g.gray ==> p !in g'.gray) && (Aside(g, p) ==> Aside(g', p))
  {
  }

  // ----- marking -----

  lemma PaintedWith(g: Gc, o: Id, c: Color, p: Id, kd: Nonstring, refs: seq<Id>)
    requires IsWhite(g.heap, o) && !c.White? && Held(g, p)
    ensures o != p && Painted(With(g, p, kd, refs), o, c) == With(Painted(g, o, c), p, kd, refs)
  {
    assert Painted(With(g, p, kd, refs), o, c).heap == With(Painted(g, o, c), p, kd, refs).heap;
  }

  lemma {:induction false} MarkWith(g: Gc, o: Id, p: Id, kd: Nonstring, refs: seq<Id>)
    requires IsWhite(g.heap, o) && Held(g, p)
    ensures p in Mark(g, o).heap && Mark(With(g, p, kd, refs), o) == With(Mark(g, o), p, kd, refs)
    decreases Whites(g.heap), 0
  {
    PaintedWith(g, o, Black, p, kd, refs);
    PaintedWith(g, o, Gray, p, kd, refs);
    if g.heap[o].kind.Userdata? { MarkAllWith(Painted(g, o, Black), g.heap[o].refs, p, kd, refs); }
  }

  lemma {:induction false} MarkIfWith(g: Gc, o: Id, p: Id, kd: Nonstring, refs: seq<Id>)
    requires Held(g, p)
    ensures p in MarkIf(g, o).heap && MarkIf(With(g, p, kd, refs), o) == With(MarkIf(g, o), p, kd, refs)
    decreases Whites(g.heap), 1
  {
    if IsWhite(g.heap, o) { MarkWith(g, o, p, kd, refs); }
  }

  lemma {:induction false} MarkAllWith(g: Gc, os: seq<Id>, p: Id, kd: Nonstring, refs: seq<Id>)
    requires Held(g, p)
    ensures p in MarkAll(g, os).heap && MarkAll(With(g, p, kd, refs), os) == With(MarkAll(g, os), p, kd, refs)
    decreases Whites(g.heap), 2, |os|
  {
    if os != [] {
      var g1 := MarkIf(g, os[0]);
      MarkIfWith(g, os[0], p, kd, refs);
      MarkIfMarks(g, os[0]);
      MarksAside(g, g1, p);
      assert Whites(g1.heap) < Whites(g.heap) || Whites(g1.heap) == Whites(g.heap);
      MarkAllWith(g1, os[1..], p, kd, refs);
    }
  }

  // ----- visiting -----

  /** Both states agree after a check of a weak reference. */
  lemma IsClearedWith(g: Gc, x: Option<Id>, p: Id, kd: Nonstring, refs: seq<Id>)
    requires Held(g, p)
    ensures var c := IsCleared(g, x);
      p in c.g.heap && IsCleared(With(g, p, kd, refs), x) == Check(With(c.g, p, kd, refs), c.cleared) && Marks(g, c.g)
  {
    MarksRefl(g);
    if x.Some? && x.value in g.heap && g.heap[x.value].kind.Str? {
      MarkIfWith(g, x.value, p, kd, refs);
      MarkIfMarks(g, x.value);
    }
  }

  lemma EphemeronEntryWith(r: Scan, e: Entry, p: Id, kd: Nonstring, refs: seq<Id>)
    requires Held(r.g, p)
    ensures var r' := EphemeronEntry(r, e);
      p in r'.g.heap && EphemeronEntry(r.(g := With(r.g, p, kd, refs)), e) == r'.(g := With(r'.g, p, kd, refs))
        && Marks(r.g, r'.g)
  {
    IsClearedWith(r.g, e.key, p, kd, refs);
    var c := IsCleared(r.g, e.key);
    MarksAside(r.g, c.g, p);
    hide IsCleared, Marks;
    if !c.cleared && WhiteValue(c.g, e.val) {
      MarkIfWith(c.g, e.val.value, p, kd, refs);
      MarkIfMarks(c.g, e.val.value);
      MarksTrans(r.g, c.g, MarkIf(c.g, e.val.value));
    }
  }

  lemma {:induction false} EphemeronEntriesWith(r: Scan, es: seq<Entry>, p: Id, kd: Nonstring, refs: seq<Id>)
    requires Held(r.g, p)
    ensures var r' := EphemeronEntries(r, es);
      p in r'.g.heap && EphemeronEntries(r.(g := With(r.g, p, kd, refs)), es) == r'.(g := With(r'.g, p, kd, refs))
        && Marks(r.g, r'.g)
    decreases |es|
  {
    if es == [] {
      MarksRefl(r.g);
    } else {
      var r1 := EphemeronEntry(r, es[0]);
      EphemeronEntryWith(r, es[0], p, kd, refs);
      MarksAside(r.g, r1.g, p);
      hide EphemeronEntry, Marks;
      EphemeronEntriesWith(r1, es[1..], p, kd, refs);
      MarksTrans(r.g, r1.g, EphemeronEntries(r1, es[1..]).g);
    }
  }

  lemma TraverseEphemeronWith(g: Gc, o: Id, p: Id, kd: Nonstring, refs: seq<Id>)
    requires o in g.heap && o != p && Held(g, p)
    ensures var r := TraverseEphemeron(g, o);
      && p in r.g.heap && TraverseEphemeron(With(g, p, kd, refs), o) == r.(g := With(r.g, p, kd, refs))
      && Held(r.g, p) && (Aside(g, p) ==> Aside(r.g, p))
  {
    var s := Scan(g, false, false, false);
    EphemeronEntriesWith(s, g.heap[o].entries, p, kd, refs);
    MarksAside(g, EphemeronEntries(s, g.heap[o].entries).g, p);
    hide EphemeronEntries, Marks;
  }

  lemma WeakValueEntryWith(c: Check, e: Entry, p: Id, kd: Nonstring, refs: seq<Id>)
    requires Held(c.g, p)
    ensures var c' := WeakValueEntry(c, e);
      p in c'.g.heap && WeakValueEntry(c.(g := With(c.g, p, kd, refs)), e) == c'.(g := With(c'.g, p, kd, refs))
        && Marks(c.g, c'.g)
  {
    MarksRefl(c.g);
    if e.key.Some? {
      var g1 := MarkIf(c.g, e.key.value);
      MarkIfWith(c.g, e.key.value, p, kd, refs);
      MarkIfMarks(c.g, e.key.value);
      MarksAside(c.g, g1, p);
      IsClearedWith(g1, e.val, p, kd, refs);
      hide IsCleared, Marks, MarkIf;
      MarksTrans(c.g, g1, IsCleared(g1, e.val).g);
    }
  }

  lemma {:induction false} WeakValueEntriesWith(c: Check, es: seq<Entry>, p: Id, kd: Nonstring, refs: seq<Id>)
    requires Held(c.g, p)
    ensures var c' := WeakValueEntries(c, es);
      p in c'.g.heap && WeakValueEntries(c.(g := With(c.g, p, kd, refs)), es) == c'.(g := With(c'.g, p, kd, refs))
        && Marks(c.g, c'.g)
    decreases |es|
  {
    if es == [] {
      MarksRefl(c.g);
    } else {
      var c1 := WeakValueEntry(c, es[0]);
      WeakValueEntryWith(c, es[0], p, kd, refs);
      MarksAside(c.g, c1.g, p);
      hide WeakValueEntry, Marks;
      WeakValueEntriesWith(c1, es[1..], p, kd, refs);
      MarksTrans(c.g, c1.g, WeakValueEntries(c1, es[1..]).g);
    }
  }

  lemma TraverseWeakValueWith(g: Gc, o: Id, p: Id, kd: Nonstring, refs: seq<Id>)
    requires o in g.heap && o != p && Held(g, p)
    ensures var g' := TraverseWeakValue(g, o);
      && p in g'.heap && TraverseWeakValue(With(g, p, kd, refs), o) == With(g', p, kd, refs)
      && Held(g', p) && (Aside(g, p) ==> Aside(g', p))
  {
    var c := Check(g, false);
    WeakValueEntriesWith(c, g.heap[o].entries, p, kd, refs);
    MarksAside(g, WeakValueEntries(c, g.heap[o].entries).g, p);
    hide WeakValueEntries, Marks;
  }

  lemma MarkAllAside(g: Gc, os: seq<Id>, p: Id, kd: Nonstring, refs: seq<Id>)
    requires Held(g, p)
    ensures var g' := MarkAll(g, os);
      && p in g'.heap && MarkAll(With(g, p, kd, refs), os) == With(g', p, kd, refs)
      && Held(g', p) && (Aside(g, p) ==> Aside(g', p)) && g'.heap.Keys == g.heap.Keys
  {
    MarkAllWith(g, os, p, kd, refs);
    MarkAllMarks(g, os);
    MarksAside(g, MarkAll(g, os), p);
  }

  /** The state in which the first gray object o has been taken off its list, and what it
      refers to marked. */
  lemma TakenWith(g: Gc, g0: Gc, os: seq<Id>, p: Id, kd: Nonstring, refs: seq<Id>)
    requires Aside(g, p) && g0.heap.Keys == g.heap.Keys && g0.heap[p] == g.heap[p] && g0.ephemeron == g.ephemeron
    requires p !in g0.gray && p !in g0.grayagain
    ensures p in MarkAll(g0, os).heap && MarkAll(With(g0, p, kd, refs), os) == With(MarkAll(g0, os), p, kd, refs)
    ensures Aside(MarkAll(g0, os), p) && MarkAll(g0, os).heap.Keys == g.heap.Keys
  {
    MarkAllAside(g0, os, p, kd, refs);
  }

  lemma RepaintWith(g: Gc, o: Id, p: Id, kd: Nonstring, refs: seq<Id>)
    requires Marked(g.heap, o) && p in g.heap && o != p
    ensures Marked(With(g, p, kd, refs).heap, o)
    ensures Repaint(With(g, p, kd, refs), o, Black) == With(Repaint(g, o, Black), p, kd, refs)
  {
    assert Repaint(With(g, p, kd, refs), o, Black).heap == With(Repaint(g, o, Black), p, kd, refs).heap;
  }

  /** An object that turns black, or a thread. */
  lemma StrongVisitWith(g: Gc, p: Id, kd: Nonstring, refs: seq<Id>)
    requires Aside(g, p) && g.gray != [] && Marked(g.heap, g.gray[0])
    requires var k := g.heap[g.gray[0]].kind; k.Table? || k.Function? || k.Thread?
    ensures var g' := PropagateMark(g);
      p in g'.heap && PropagateMark(With(g, p, kd, refs)) == With(g', p, kd, refs) && Aside(g', p)
  {
    var o := g.gray[0];
    var g0 := g.(gray := g.gray[1..]);
    var os := g.heap[o].refs;
    hide MarkAll;
    if g.heap[o].kind.Thread? {
      TakenWith(g, g0.(grayagain := [o] + g0.grayagain), os, p, kd, refs);
    } else {
      RepaintWith(g0, o, p, kd, refs);
      TakenWith(g, Repaint(g0, o, Black), os, p, kd, refs);
    }
  }

  /** What a visit to a weak table comes to once its references are marked. */
  function WeakVisit(g1: Gc, o: Id, k: Kind): Gc
    requires o in g1.heap
  {
    if k.WeakValue? then TraverseWeakValue(g1, o)
    else if k.Ephemeron? then TraverseEphemeron(g1, o).g
    else g1.(allweak := [o] + g1.allweak)
  }

  lemma WeakVisitIs(g: Gc)
    requires g.gray != [] && Marked(g.heap, g.gray[0])
    requires var k := g.heap[g.gray[0]].kind; k.WeakValue? || k.Ephemeron? || k.AllWeak?
    ensures var o := g.gray[0];
      PropagateMark(g) == WeakVisit(MarkAll(g.(gray := g.gray[1..]), g.heap[o].refs), o, g.heap[o].kind)
  {
    hide MarkAll, TraverseEphemeron, TraverseWeakValue;
  }

  lemma WeakVisitSame(g1: Gc, o: Id, k: Kind, p: Id, kd: Nonstring, refs: seq<Id>)
    requires Aside(g1, p) && o in g1.heap && o != p
    ensures var g' := WeakVisit(g1, o, k);
      p in g'.heap && WeakVisit(With(g1, p, kd, refs), o, k) == With(g', p, kd, refs) && Aside(g', p)
  {
    TraverseWeakValueWith(g1, o, p, kd, refs);
    TraverseEphemeronWith(g1, o, p, kd, refs);
    hide TraverseEphemeron, TraverseWeakValue;
  }

  lemma WeakVisitWith(g: Gc, p: Id, kd: Nonstring, refs: seq<Id>)
    requires Aside(g, p) && g.gray != [] && Marked(g.heap, g.gray[0])
    requires var k := g.heap[g.gray[0]].kind; k.WeakValue? || k.Ephemeron? || k.AllWeak?
    ensures var g' := PropagateMark(g);
      p in g'.heap && PropagateMark(With(g, p, kd, refs)) == With(g', p, kd, refs) && Aside(g', p)
  {
    var o := g.gray[0];
    var g0 := g.(gray := g.gray[1..]);
    WeakVisitIs(g);
    WeakVisitIs(With(g, p, kd, refs));
    TakenWith(g, g0, g.heap[o].refs, p, kd, refs);
    assert With(g, p, kd, refs).(gray := g.gray[1..]) == With(g0, p, kd, refs);
    hide MarkAll, PropagateMark, WeakVisit;
    WeakVisitSame(MarkAll(g0, g.heap[o].refs), o, g.heap[o].kind, p, kd, refs);
  }

  lemma PropagateMarkWith(g: Gc, p: Id, kd: Nonstring, refs: seq<Id>)
    requires Aside(g, p) && g.gray != []
    ensures var g' := PropagateMark(g);
      p in g'.heap && PropagateMark(With(g, p, kd, refs)) == With(g', p, kd, refs) && Aside(g', p)
  {
    var o := g.gray[0];
    if Marked(g.heap, o) && !g.heap[o].kind.Str? && !g.heap[o].kind.Userdata? {
      hide PropagateMark, With, Aside;
      var k := g.heap[o].kind;
      if k.Table? || k.Function? || k.Thread? { StrongVisitWith(g, p, kd, refs); }
        else { WeakVisitWith(g, p, kd, refs); }
    }
  }

  lemma {:induction false} PropagateAllWith(g: Gc, p: Id, kd: Nonstring, refs: seq<Id>)
    requires Aside(g, p)
    ensures p in PropagateAll(g).heap && PropagateAll(With(g, p, kd, refs)) == With(PropagateAll(g), p, kd, refs)
    ensures Aside(PropagateAll(g), p)
    decreases Whites(g.heap), |g.gray|
  {
    if g.gray != [] {
      var g1 := PropagateMark(g);
      PropagateMarkWith(g, p, kd, refs);
      hide PropagateMark, Aside;
      assert Whites(g1.heap) < Whites(g.heap) || Whites(g1.heap) == Whites(g.heap);
      PropagateAllWith(g1, p, kd, refs);
    }
  }

  lemma {:induction false} EphemeronPassWith(g: Gc, tables: seq<Id>, p: Id, kd: Nonstring, refs: seq<Id>)
    requires Aside(g, p) && p !in tables
    ensures var r := EphemeronPass(g, tables);
      p in r.g.heap && EphemeronPass(With(g, p, kd, refs), tables) == r.(g := With(r.g, p, kd, refs)) && Aside(r.g, p)
    decreases |tables|
  {
    if tables != [] {
      if tables[0] !in g.heap {
        EphemeronPassWith(g, tables[1..], p, kd, refs);
      } else {
        var t := TraverseEphemeron(g, tables[0]);
        TraverseEphemeronWith(g, tables[0], p, kd, refs);
        hide TraverseEphemeron, Aside, PropagateAll;
        if t.marked { PropagateAllWith(t.g, p, kd, refs); }
        EphemeronPassWith(if t.marked then PropagateAll(t.g) else t.g, tables[1..], p, kd, refs);
      }
    }
  }

  lemma {:induction false} ConvergeWith(g: Gc, p: Id, kd: Nonstring, refs: seq<Id>)
    requires Aside(g, p)
    ensures p in Converge(g).heap && Converge(With(g, p, kd, refs)) == With(Converge(g), p, kd, refs)
    ensures Aside(Converge(g), p)
    decreases Whites(g.heap)
  {
    var r := EphemeronPass(g.(ephemeron := []), g.ephemeron);
    EphemeronPassWith(g.(ephemeron := []), g.ephemeron, p, kd, refs);
    hide EphemeronPass, Aside;
    if r.changed { ConvergeWith(r.g, p, kd, refs); }
  }

  // ----- clearing -----

  lemma {:induction false} ClearEntriesWith(g: Gc, es: seq<Entry>, keys: bool, p: Id, kd: Nonstring, refs: seq<Id>)
    requires Held(g, p)
    ensures var r := ClearEntries(g, es, keys);
      p in r.g.heap && ClearEntries(With(g, p, kd, refs), es, keys) == r.(g := With(r.g, p, kd, refs)) && Marks(g, r.g)
    decreases |es|
  {
    if es == [] {
      MarksRefl(g);
    } else {
      var x := if keys then es[0].key else es[0].val;
      var c := IsCleared(g, x);
      IsClearedWith(g, x, p, kd, refs);
      MarksAside(g, c.g, p);
      hide IsCleared, Marks;
      ClearEntriesWith(c.g, es[1..], keys, p, kd, refs);
      MarksTrans(g, c.g, ClearEntries(c.g, es[1..], keys).g);
    }
  }

  lemma EntriesWith(g: Gc, o: Id, kept: seq<Entry>, p: Id, kd: Nonstring, refs: seq<Id>)
    requires Held(g, p) && o in g.heap
    ensures var g' := g.(heap := g.heap[o := g.heap[o].(entries := kept)]); var w := With(g, p, kd, refs);
      && p in g'.heap && w.(heap := w.heap[o := w.heap[o].(entries := kept)]) == With(g', p, kd, refs)
      && Held(g', p) && (Aside(g, p) ==> Aside(g', p))
  {
    var g' := g.(heap := g.heap[o := g.heap[o].(entries := kept)]);
    var w := With(g, p, kd, refs);
    assert w.heap[o := w.heap[o].(entries := kept)] == With(g', p, kd, refs).heap;
  }

  lemma ClearTableWith(g: Gc, o: Id, keys: bool, p: Id, kd: Nonstring, refs: seq<Id>)
    requires Held(g, p)
    ensures var g' := ClearTable(g, o, keys);
      && p in g'.heap && ClearTable(With(g, p, kd, refs), o, keys) == With(g', p, kd, refs)
      && Held(g', p) && (Aside(g, p) ==> Aside(g', p))
  {
    if o in g.heap {
      var es := g.heap[o].entries;
      assert With(g, p, kd, refs).heap[o].entries == es;
      ClearEntriesWith(g, es, keys, p, kd, refs);
      var r := ClearEntries(g, es, keys);
      MarksAside(g, r.g, p);
      EntriesWith(r.g, o, r.kept, p, kd, refs);
      hide ClearEntries, Marks, With, Aside;
    }
  }

  lemma {:induction false} ClearTablesWith(g: Gc, tables: seq<Id>, keys: bool, p: Id, kd: Nonstring, refs: seq<Id>)
    requires Aside(g, p)
    ensures var g' := ClearTables(g, tables, keys);
      p in g'.heap && ClearTables(With(g, p, kd, refs), tables, keys) == With(g', p, kd, refs) && Aside(g', p)
    decreases |tables|
  {
    if tables != [] {
      ClearTableWith(g, tables[0], keys, p, kd, refs);
      hide ClearTable, Aside;
      ClearTablesWith(ClearTable(g, tables[0], keys), tables[1..], keys, p, kd, refs);
    }
  }

  lemma {:induction false} WhitesOfWith(h: Heap, os: seq<Id>, p: Id, kd: Nonstring, refs: seq<Id>)
    requires p in h && !h[p].kind.Str?
    ensures var h' := h[p := h[p].(kind := kd, refs := refs)];
      WhitesOf(h', os) == WhitesOf(h, os) && OthersOf(h', os) == OthersOf(h, os)
  {
    if os != [] { WhitesOfWith(h, os[1..], p, kd, refs); }
  }

  // ----- the atomic step -----

  lemma MarkReachableWith(g: Gc, p: Id, kd: Nonstring, refs: seq<Id>)
    requires Aside(g, p)
    ensures p in MarkReachable(g).heap && MarkReachable(With(g, p, kd, refs)) == With(MarkReachable(g), p, kd, refs)
    ensures Aside(MarkReachable(g), p)
  {
    PropagateAllWith(g, p, kd, refs);
    var g1 := PropagateAll(g).(phase := InsideAtomic);
    assert Aside(g1, p) && p !in g1.grayagain;
    MarkAllAside(g1, g1.roots, p, kd, refs);
    PropagateAllWith(MarkAll(g1, g1.roots), p, kd, refs);
    var g2 := PropagateAll(MarkAll(g1, g1.roots));
    var g3 := g2.(gray := g1.grayagain, grayagain := []);
    assert Aside(g3, p);
    PropagateAllWith(g3, p, kd, refs);
    hide PropagateAll, MarkAll, Converge;
    ConvergeWith(PropagateAll(g3), p, kd, refs);
  }

  lemma ResurrectWith(g: Gc, p: Id, kd: Nonstring, refs: seq<Id>)
    requires Aside(g, p)
    ensures p in Resurrect(g).heap && Resurrect(With(g, p, kd, refs)) == With(Resurrect(g), p, kd, refs)
    ensures Aside(Resurrect(g), p)
  {
    MarkAllAside(g, g.tobefnz, p, kd, refs);
    PropagateAllWith(MarkAll(g, g.tobefnz), p, kd, refs);
    hide PropagateAll, MarkAll, Converge;
    ConvergeWith(PropagateAll(MarkAll(g, g.tobefnz)), p, kd, refs);
  }

  lemma SeparateWith(g: Gc, p: Id, kd: Nonstring, refs: seq<Id>)
    requires Aside(g, p)
    ensures p in Separate(g).heap && Separate(With(g, p, kd, refs)) == With(Separate(g), p, kd, refs)
    ensures Aside(Separate(g), p)
  {
    WhitesOfWith(g.heap, g.finobj, p, kd, refs);
  }

  lemma ClearAllValuesWith(g: Gc, p: Id, kd: Nonstring, refs: seq<Id>)
    requires Aside(g, p)
    ensures p in ClearAllValues(g).heap && ClearAllValues(With(g, p, kd, refs)) == With(ClearAllValues(g), p, kd, refs)
    ensures Aside(ClearAllValues(g), p)
  {
    hide ClearTables;
    ClearTablesWith(g, g.weak, false, p, kd, refs);
    ClearTablesWith(ClearTables(g, g.weak, false), g.allweak, false, p, kd, refs);
  }

  lemma ClearRestWith(g0: Gc, g: Gc, p: Id, kd: Nonstring, refs: seq<Id>)
    requires p in g0.heap && Aside(g, p)
    ensures p in ClearRest(g0, g).heap
    ensures ClearRest(With(g0, p, kd, refs), With(g, p, kd, refs)) == With(ClearRest(g0, g), p, kd, refs)
    ensures Aside(ClearRest(g0, g), p)
  {
    hide ClearTables, Aside, Newer;
    ClearTablesWith(g, g.ephemeron, true, p, kd, refs);
    var a := ClearTables(g, g.ephemeron, true);
    ClearTablesWith(a, g.allweak, true, p, kd, refs);
    var g1 := ClearTables(a, g.allweak, true);
    ClearTablesWith(g1, Newer(g1.weak, g0.weak), false, p, kd, refs);
    var b := ClearTables(g1, Newer(g1.weak, g0.weak), false);
    ClearTablesWith(b, Newer(g1.allweak, g0.allweak), false, p, kd, refs);
  }

  /** The atomic step marks and clears the same, whatever p refers to. */
  lemma AtomicMarkWith(g: Gc, p: Id, kd: Nonstring, refs: seq<Id>)
    requires Aside(g, p)
    ensures p in AtomicMark(g).heap && AtomicMark(With(g, p, kd, refs)) == With(AtomicMark(g), p, kd, refs)
    ensures Aside(AtomicMark(g), p)
  {
    hide MarkReachable, ClearAllValues, Separate, Resurrect, ClearRest, Aside;
    MarkReachableWith(g, p, kd, refs);
    var m := MarkReachable(g);
    ClearAllValuesWith(m, p, kd, refs);
    var v := ClearAllValues(m);
    SeparateWith(v, p, kd, refs);
    var g1 := Separate(v);
    ResurrectWith(g1, p, kd, refs);
    ClearRestWith(g1, Resurrect(g1), p, kd, refs);
  }
}

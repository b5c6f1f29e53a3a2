/** The atomic phase: after it, whatever a marked object refers to, weakly or not, is
    marked as well. */
module GcAtomic {
  import opened Common
  import opened GcHeap
  import opened GcMarking
  import opened GcInvariant
  import opened GcTraverse
  import opened GcConverge

  // ----- clearing weak tables -----

  datatype Clearing = Clearing(g: Gc, kept: seq<Entry>)

  /** Drops the entries whose key (or value) is not marked; strings are marked and stay. */
  function ClearEntries(g: Gc, es: seq<Entry>, keys: bool): (r: Clearing)
    ensures r.g.heap.Keys == g.heap.Keys
    decreases |es|
  {
    if es == [] then Clearing(g, [])
    else
      var c := IsCleared(g, if keys then es[0].key else es[0].val);
      var r := ClearEntries(c.g, es[1..], keys);
      Clearing(r.g, if c.cleared then r.kept else [es[0]] + r.kept)
  }

  function ClearTable(g: Gc, o: Id, keys: bool): (g': Gc)
    ensures g'.heap.Keys == g.heap.Keys
  {
    if o !in g.heap then g
    else
      var r := ClearEntries(g, g.heap[o].entries, keys);
      r.g.(heap := r.g.heap[o := r.g.heap[o].(entries := r.kept)])
  }

  function ClearTables(g: Gc, tables: seq<Id>, keys: bool): (g': Gc)
    ensures g'.heap.Keys == g.heap.Keys
    decreases |tables|
  {
    if tables == [] then g else ClearTables(ClearTable(g, tables[0], keys), tables[1..], keys)
  }

  /** What clearing does: tables lose entries, and strings may be marked. */
  ghost predicate Clears(g: Gc, g': Gc) {
    && g'.heap.Keys == g.heap.Keys
    && (forall o :: o in g.heap ==> g'.heap[o].kind == g.heap[o].kind && g'.heap[o].refs == g.heap[o].refs)
    && (forall o, e :: o in g.heap && e in g'.heap[o].entries ==> e in g.heap[o].entries)
    && (forall o :: Marked(g.heap, o) || IsWhite(g'.heap, o) ==> g'.heap[o].color == g.heap[o].color)
    && (forall o :: IsWhite(g.heap, o) && Marked(g'.heap, o) ==> g.heap[o].kind.Str? && g'.heap[o].color.Black?)
    && g' == g.(heap := g'.heap)
  }

  lemma ClearsTrans(g: Gc, g1: Gc, g2: Gc)
    requires Clears(g, g1) && Clears(g1, g2)
    ensures Clears(g, g2)
  {
  }

  lemma IsClearedClears(g: Gc, x: Option<Id>)
    requires InHeap(g.heap, x)
    ensures Clears(g, IsCleared(g, x).g) && Marks(g, IsCleared(g, x).g)
  {
    IsClearedMarks(g, x);
  }

  ghost predicate PartKept(h: Heap, e: Entry, keys: bool) {
    Kept(h, if keys then e.key else e.val)
  }

  /** What is kept of a list of entries, from what is kept of its tail. */
  lemma KeptCons(h: Heap, es: seq<Entry>, tail: seq<Entry>, kept: seq<Entry>, cleared: bool, keys: bool)
    requires es != [] && kept == if cleared then tail else [es[0]] + tail
    requires forall e :: e in tail ==> e in es[1..] && PartKept(h, e, keys)
    requires !cleared ==> PartKept(h, es[0], keys)
    ensures forall e :: e in kept ==> e in es && PartKept(h, e, keys)
  {
    forall e | e in kept ensures e in es && PartKept(h, e, keys) {
      if e in tail { assert e in es[1..]; } else { assert e == es[0]; }
    }
  }

  lemma {:induction false} ClearEntriesOk(g: Gc, es: seq<Entry>, keys: bool)
    requires forall e :: e in es ==> InHeap(g.heap, e.key) && InHeap(g.heap, e.val)
    ensures var r := ClearEntries(g, es, keys);
      Clears(g, r.g) && Marks(g, r.g) && (forall e :: e in r.kept ==> e in es && PartKept(r.g.heap, e, keys))
    decreases |es|
  {
    MarksRefl(g);
    if es != [] {
      var x := if keys then es[0].key else es[0].val;
      var c := IsCleared(g, x);
      IsClearedClears(g, x);
      IsClearedMarks(g, x);
      SameHeapKeys(g, c.g, es);
      UnfoldClear(g, es, keys);
      hide IsCleared, Clears, Marks, OnlyStrings;
      var t, r := ClearEntries(c.g, es[1..], keys), ClearEntries(g, es, keys);
      ClearEntriesOk(c.g, es[1..], keys);
      ClearsTrans(g, c.g, t.g);
      MarksTrans(g, c.g, t.g);
      if !c.cleared { KeptMarks(c.g, t.g, x); }
      hide ClearEntries;
      KeptCons(t.g.heap, es, t.kept, r.kept, c.cleared, keys);
    }
  }

  lemma UnfoldClear(g: Gc, es: seq<Entry>, keys: bool)
    requires es != []
    ensures var c := IsCleared(g, if keys then es[0].key else es[0].val);
      var t := ClearEntries(c.g, es[1..], keys);
      ClearEntries(g, es, keys) == Clearing(t.g, if c.cleared then t.kept else [es[0]] + t.kept)
  {
  }

  lemma SameHeapKeys(g: Gc, g': Gc, es: seq<Entry>)
    requires Marks(g, g') && forall e :: e in es ==> InHeap(g.heap, e.key) && InHeap(g.heap, e.val)
    ensures forall e :: e in es ==> InHeap(g'.heap, e.key) && InHeap(g'.heap, e.val)
  {
  }

  lemma KeptMarks(g: Gc, g': Gc, x: Option<Id>)
    requires Marks(g, g') && Kept(g.heap, x)
    ensures Kept(g'.heap, x)
  {
  }

  lemma ClearTableOk(g: Gc, o: Id, keys: bool)
    requires HeapOk(g.heap)
    ensures var g' := ClearTable(g, o, keys);
      && Clears(g, g') && HeapOk(g'.heap)
      && (o in g.heap ==> forall e :: e in g'.heap[o].entries ==> PartKept(g'.heap, e, keys))
  {
    if o in g.heap {
      assert ObjOk(g.heap, g.heap[o]);
      var r := ClearEntries(g, g.heap[o].entries, keys);
      ClearEntriesOk(g, g.heap[o].entries, keys);
      MarksEntries(g, r.g);
      hide Marks, ClearEntries;
      ReplaceEntries(g, r.g, o, r.kept, keys);
    }
    ClearsHeapOk(g, ClearTable(g, o, keys));
  }

  lemma MarksEntries(g: Gc, g': Gc)
    requires Marks(g, g')
    ensures forall o :: o in g.heap ==> o in g'.heap && g'.heap[o].entries == g.heap[o].entries
  {
  }

  lemma ReplaceEntries(g: Gc, g1: Gc, o: Id, kept: seq<Entry>, keys: bool)
    requires Clears(g, g1) && o in g.heap
    requires forall e :: e in kept ==> e in g.heap[o].entries && PartKept(g1.heap, e, keys)
    requires forall x :: x in g.heap ==> g1.heap[x].entries == g.heap[x].entries
    ensures var g' := g1.(heap := g1.heap[o := g1.heap[o].(entries := kept)]);
      && Clears(g, g') && forall e :: e in g'.heap[o].entries ==> PartKept(g'.heap, e, keys)
  {
    var g' := g1.(heap := g1.heap[o := g1.heap[o].(entries := kept)]);
    assert forall x :: Marked(g1.heap, x) == Marked(g'.heap, x);
  }

  lemma ClearsHeapOk(g: Gc, g': Gc)
    requires HeapOk(g.heap) && Clears(g, g') && forall o :: o in g.heap && g.heap[o].entries == [] ==>
      g'.heap[o].entries == []
    ensures HeapOk(g'.heap)
  {
    forall o | o in g'.heap ensures ObjOk(g'.heap, g'.heap[o]) {
      assert ObjOk(g.heap, g.heap[o]);
    }
  }

  lemma {:induction false} ClearTablesOk(g: Gc, tables: seq<Id>, keys: bool)
    requires HeapOk(g.heap)
    ensures var g' := ClearTables(g, tables, keys);
      && Clears(g, g') && HeapOk(g'.heap)
      && (forall o, e :: o in tables && o in g'.heap && e in g'.heap[o].entries ==> PartKept(g'.heap, e, keys))
    decreases |tables|
  {
    if tables != [] {
      var g1, g' := ClearTable(g, tables[0], keys), ClearTables(g, tables, keys);
      ClearTableOk(g, tables[0], keys);
      ClearTablesOk(g1, tables[1..], keys);
      hide ClearTable, HeapOk;
      ClearsTrans(g, g1, g');
      forall o, e | o in tables && o in g'.heap && e in g'.heap[o].entries ensures PartKept(g'.heap, e, keys) {
        if o == tables[0] { assert PartKept(g1.heap, e, keys); } else { TailIn(tables, o); }
      }
    }
  }

  lemma ClearsSettled(g: Gc, g': Gc, o: Id)
    requires Clears(g, g') && o in g.heap && Settled(g, o)
    ensures Settled(g', o)
  {
  }

  lemma ClearsTri(g: Gc, g': Gc)
    requires Tri(g, true, []) && g.gray == [] && Clears(g, g') && HeapOk(g'.heap)
    ensures Tri(g', true, []) && g'.gray == []
  {
    forall o | Marked(g'.heap, o) ensures Good(g', true, [], o) {
      if Marked(g.heap, o) {
        assert Good(g, true, [], o);
        ClearsSettled(g, g', o);
      } else {
        assert ObjOk(g.heap, g.heap[o]);
      }
    }
  }

  // ----- the phase -----

  /** From the end of propagation to convergence. */
  function MarkReachable(g: Gc): Gc {
    var g1 := PropagateAll(g).(phase := InsideAtomic);
    var g2 := PropagateAll(MarkAll(g1, g1.roots));
    Converge(PropagateAll(g2.(gray := g1.grayagain, grayagain := [])))
  }

  /** Unmarked objects with finalizers. */
  function WhitesOf(h: Heap, os: seq<Id>): seq<Id> {
    if os == [] then [] else (if IsWhite(h, os[0]) then [os[0]] else []) + WhitesOf(h, os[1..])
  }

  function OthersOf(h: Heap, os: seq<Id>): seq<Id> {
    if os == [] then [] else (if IsWhite(h, os[0]) then [] else [os[0]]) + OthersOf(h, os[1..])
  }

  function Separate(g: Gc): Gc {
    g.(finobj := OthersOf(g.heap, g.finobj), tobefnz := g.tobefnz + WhitesOf(g.heap, g.finobj))
  }

  /** Clears values, then marks the objects that are about to be finalized. */
  function ClearAllValues(g: Gc): Gc {
    ClearTables(ClearTables(g, g.weak, false), g.allweak, false)
  }

  function Resurrect(g: Gc): Gc {
    Converge(PropagateAll(MarkAll(g, g.tobefnz)))
  }

  /** The tables a list has gained since it was `old`. */
  function Newer(xs: seq<Id>, old_: seq<Id>): seq<Id> {
    if |old_| <= |xs| then xs[..|xs| - |old_|] else xs
  }

  /** Clears keys everywhere, and values in the tables found since `g0`. */
  function ClearRest(g0: Gc, g: Gc): Gc {
    var g1 := ClearTables(ClearTables(g, g.ephemeron, true), g.allweak, true);
    ClearTables(ClearTables(g1, Newer(g1.weak, g0.weak), false), Newer(g1.allweak, g0.allweak), false)
  }

  /** The atomic step up to the change of the current white. */
  function AtomicMark(g: Gc): Gc {
    var g1 := Separate(ClearAllValues(MarkReachable(g)));
    ClearRest(g1, Resurrect(g1))
  }

  /** Everything a marked object refers to is marked. */
  ghost predicate Clean(g: Gc) {
    forall o :: Marked(g.heap, o) ==>
      AllMarked(g.heap, g.heap[o].refs) && KeysKept(g.heap, g.heap[o].entries) && ValuesKept(g.heap, g.heap[o].entries)
  }

  /** A state between collector steps that the atomic step starts from. */
  ghost predicate AtAtomic(g: Gc) {
    && Tri(g, false, []) && g.phase.Atomic?
    && (forall r :: r in g.roots ==> r in g.heap) && (forall o :: o in g.tobefnz || o in g.finobj ==> o in g.heap)
  }

  /** The grayagain list as the tables of a pass. */
  lemma Relist(g: Gc)
    requires Tri(g, false, []) && !g.phase.Propagate? && g.gray == []
    ensures Tri(g.(phase := InsideAtomic), true, g.grayagain)
  {
    var g' := g.(phase := InsideAtomic);
    forall o | Marked(g'.heap, o) ensures Good(g', true, g.grayagain, o) { assert Good(g, false, [], o); }
  }

  lemma Unlist(g: Gc, L: seq<Id>)
    requires Tri(g, true, L) && g.gray == []
    ensures Tri(g.(gray := L, grayagain := []), true, [])
  {
    var g' := g.(gray := L, grayagain := []);
    forall o | Marked(g'.heap, o) ensures Good(g', true, [], o) { assert Good(g, true, L, o); }
  }

  /** Objects keep their kind and references, and marked ones stay marked. */
  ghost predicate Later(g: Gc, g': Gc) {
    && g'.heap.Keys == g.heap.Keys && g'.white == g.white && g'.main == g.main && g'.allgc == g.allgc
         && g'.roots == g.roots
    && (forall o :: o in g.heap ==> g'.heap[o].kind == g.heap[o].kind && g'.heap[o].refs == g.heap[o].refs)
    && (forall o, e :: o in g.heap && e in g'.heap[o].entries ==> e in g.heap[o].entries)
    && (forall o :: Marked(g.heap, o) ==> Marked(g'.heap, o))
    && (forall o :: IsWhite(g'.heap, o) ==> g'.heap[o].color == g.heap[o].color)
  }

  lemma LaterTrans(g: Gc, g1: Gc, g2: Gc)
    requires Later(g, g1) && Later(g1, g2)
    ensures Later(g, g2)
  {
  }

  /** Tables keep their entries, and what is on the allweak list stays there. */
  ghost predicate Carries(g: Gc, g': Gc) {
    && g'.heap.Keys == g.heap.Keys && (forall o :: o in g.heap ==> g'.heap[o].entries == g.heap[o].entries)
    && (forall o :: o in g.allweak ==> o in g'.allweak)
  }

  lemma CarriesTrans(g: Gc, g1: Gc, g2: Gc)
    requires Carries(g, g1) && Carries(g1, g2)
    ensures Carries(g, g2)
  {
  }

  lemma ProgressLater(g: Gc, g': Gc)
    requires Progress(g, g')
    ensures Later(g, g') && Carries(g, g') && g'.tobefnz == g.tobefnz && g'.finobj == g.finobj && g'.phase == g.phase
  {
  }

  lemma ClearsLater(g: Gc, g': Gc)
    requires Clears(g, g')
    ensures Later(g, g') && g'.tobefnz == g.tobefnz && g'.finobj == g.finobj
  {
  }

  /** Marks objects and propagates. */
  function MarkAndPropagate(g: Gc, refs: seq<Id>): Gc {
    PropagateAll(MarkAll(g, refs))
  }

  lemma MarkAndPropagateOk(g: Gc, refs: seq<Id>, pass: seq<Id>)
    requires Tri(g, true, pass) && forall r :: r in refs ==> r in g.heap
    ensures var g' := MarkAndPropagate(g, refs);
      Tri(g', true, pass) && Progress(g, g') && g'.gray == [] && forall r :: r in refs ==> Marked(g'.heap, r)
  {
    var m := MarkAll(g, refs);
    MarkAllMarks(g, refs);
    MarksProgress(g, m);
    MarksTri(g, m, true, pass);
    hide Tri, MarkAll, Marks;
    PropagateAllTri(m, true, pass);
    ProgressTrans(g, m, PropagateAll(m));
  }

  /** The first half: up to the point where only the grayagain list is left. */
  lemma FirstHalfOk(g: Gc)
    requires AtAtomic(g)
    ensures var g1 := PropagateAll(g).(phase := InsideAtomic); var g2 := MarkAndPropagate(g1, g1.roots);
      && Tri(g2, true, g1.grayagain) && g2.gray == [] && (forall r :: r in g.roots ==> Marked(g2.heap, r))
      && Later(g, g2) && Carries(g, g2) && g2.tobefnz == g.tobefnz && g2.finobj == g.finobj
  {
    var g0 := PropagateAll(g);
    var g1 := g0.(phase := InsideAtomic);
    PropagateAllTri(g, false, []);
    ProgressLater(g, g0);
    Relist(g0);
    hide Tri, PropagateAll, Progress;
    MarkAndPropagateOk(g1, g1.roots, g1.grayagain);
    ProgressLater(g1, MarkAndPropagate(g1, g1.roots));
    LaterTrans(g, g1, MarkAndPropagate(g1, g1.roots));
    CarriesTrans(g, g1, MarkAndPropagate(g1, g1.roots));
  }

  /** The second half: the grayagain list and convergence. */
  lemma SecondHalfOk(g2: Gc, L: seq<Id>)
    requires Tri(g2, true, L) && g2.gray == []
    ensures var g' := Converge(PropagateAll(g2.(gray := L, grayagain := [])));
      && Tri(g', true, []) && g'.gray == [] && (forall o :: o in g'.ephemeron ==> Quiet(g', o))
      && Later(g2, g') && Carries(g2, g') && g'.tobefnz == g2.tobefnz && g'.finobj == g2.finobj
  {
    Unlist(g2, L);
    var g3 := g2.(gray := L, grayagain := []);
    PropagateAllTri(g3, true, []);
    var g4 := PropagateAll(g3);
    ProgressLater(g3, g4);
    hide Tri, PropagateAll, Progress;
    ConvergeOk(g4);
    var g' := Converge(g4);
    ProgressLater(g4.(ephemeron := []), g'.(ephemeron := []));
    LaterTrans(g2, g3, g4);
    LaterTrans(g2, g4, g');
    CarriesTrans(g2, g3, g4);
    CarriesTrans(g2, g4, g');
  }

  lemma MarkReachableOk(g: Gc)
    requires AtAtomic(g)
    ensures var g' := MarkReachable(g);
      && Tri(g', true, []) && g'.gray == [] && (forall o :: o in g'.ephemeron ==> Quiet(g', o))
      && (forall r :: r in g.roots ==> Marked(g'.heap, r))
      && Later(g, g') && Carries(g, g') && g'.tobefnz == g.tobefnz && g'.finobj == g.finobj
  {
    var g1 := PropagateAll(g).(phase := InsideAtomic);
    var g2 := MarkAndPropagate(g1, g1.roots);
    FirstHalfOk(g);
    SecondHalfOk(g2, g1.grayagain);
    hide Tri, PropagateAll, Converge, AtAtomic, Quiet;
    LaterTrans(g, g2, MarkReachable(g));
    CarriesTrans(g, g2, MarkReachable(g));
  }
}

/** After the atomic step no marked object refers, even weakly, to an unmarked one. */
module GcClean {
  import opened GcHeap
  import opened GcMarking
  import opened GcInvariant
  import opened GcTraverse
  import opened GcConverge
  import opened GcAtomic

  /** The keys (or values) of these tables are all marked. */
  ghost predicate Done(g: Gc, tables: seq<Id>, keys: bool) {
    forall o, e :: o in tables && o in g.heap && e in g.heap[o].entries ==> PartKept(g.heap, e, keys)
  }

  lemma DoneLater(g: Gc, g': Gc, tables: seq<Id>, keys: bool)
    requires Done(g, tables, keys) && Later(g, g')
    ensures Done(g', tables, keys)
  {
    forall o, e | o in tables && o in g'.heap && e in g'.heap[o].entries ensures PartKept(g'.heap, e, keys) {
      assert PartKept(g.heap, e, keys);
    }
  }

  /** Clearing tables while the marking invariant holds. */
  lemma ClearStep(g: Gc, tables: seq<Id>, keys: bool)
    requires Tri(g, true, []) && g.gray == []
    ensures var g' := ClearTables(g, tables, keys);
      Tri(g', true, []) && g'.gray == [] && Clears(g, g') && Later(g, g') && Done(g', tables, keys)
  {
    ClearTablesOk(g, tables, keys);
    ClearsTri(g, ClearTables(g, tables, keys));
    ClearsLater(g, ClearTables(g, tables, keys));
  }

  lemma ClearAllValuesOk(g: Gc)
    requires Tri(g, true, []) && g.gray == []
    ensures var g' := ClearAllValues(g);
      && Tri(g', true, []) && g'.gray == [] && Clears(g, g') && Later(g, g')
      && Done(g', g.weak, false) && Done(g', g.allweak, false)
  {
    var g1 := ClearTables(g, g.weak, false);
    ClearStep(g, g.weak, false);
    ClearStep(g1, g.allweak, false);
    hide ClearTables, Tri, Clears, Later, Done;
    var g' := ClearTables(g1, g.allweak, false);
    ClearsTrans(g, g1, g');
    LaterTrans(g, g1, g');
    DoneLater(g1, g', g.weak, false);
  }

  lemma {:induction false} OthersMarked(h: Heap, os: seq<Id>)
    requires forall o :: o in os ==> o in h
    ensures forall o :: o in OthersOf(h, os) ==> Marked(h, o)
    ensures forall o :: o in OthersOf(h, os) || o in WhitesOf(h, os) <==> o in os
  {
    if os != [] {
      OthersMarked(h, os[1..]);
      assert os == [os[0]] + os[1..];
    }
  }

  lemma ResurrectOk(g: Gc)
    requires Tri(g, true, []) && g.gray == [] && forall o :: o in g.tobefnz ==> o in g.heap
    ensures var g' := Resurrect(g);
      && Tri(g', true, []) && g'.gray == [] && (forall o :: o in g'.ephemeron ==> Quiet(g', o))
      && Later(g, g') && Carries(g, g') && Suffix(g.weak, g'.weak) && Suffix(g.allweak, g'.allweak)
      && (forall o :: o in g.tobefnz ==> Marked(g'.heap, o)) && g'.tobefnz == g.tobefnz && g'.finobj == g.finobj
  {
    var g1 := MarkAndPropagate(g, g.tobefnz);
    MarkAndPropagateOk(g, g.tobefnz, []);
    ProgressLater(g, g1);
    ConvergeOk(g1);
    var g' := Converge(g1);
    ProgressLater(g1.(ephemeron := []), g'.(ephemeron := []));
    LaterTrans(g, g1, g');
    CarriesTrans(g, g1, g');
    SuffixTrans(g.weak, g1.weak, g'.weak);
    SuffixTrans(g.allweak, g1.allweak, g'.allweak);
  }

  // ----- the last clearing -----

  lemma ClearKeysOk(g: Gc)
    requires Tri(g, true, []) && g.gray == []
    ensures var g' := ClearTables(ClearTables(g, g.ephemeron, true), g.allweak, true);
      && Tri(g', true, []) && g'.gray == [] && Clears(g, g') && Later(g, g')
      && Done(g', g.ephemeron, true) && Done(g', g.allweak, true)
  {
    var g1 := ClearTables(g, g.ephemeron, true);
    ClearStep(g, g.ephemeron, true);
    ClearStep(g1, g.allweak, true);
    hide ClearTables, Tri, Clears, Later, Done;
    var g' := ClearTables(g1, g.allweak, true);
    ClearsTrans(g, g1, g');
    LaterTrans(g, g1, g');
    DoneLater(g1, g', g.ephemeron, true);
  }

  lemma ClearNewerOk(g0: Gc, g: Gc)
    requires Tri(g, true, []) && g.gray == []
    ensures var g' := ClearTables(ClearTables(g, Newer(g.weak, g0.weak), false), Newer(g.allweak, g0.allweak), false);
      && Tri(g', true, []) && g'.gray == [] && Clears(g, g') && Later(g, g')
      && Done(g', Newer(g.weak, g0.weak), false) && Done(g', Newer(g.allweak, g0.allweak), false)
  {
    var ws, as_ := Newer(g.weak, g0.weak), Newer(g.allweak, g0.allweak);
    var g1 := ClearTables(g, ws, false);
    ClearStep(g, ws, false);
    ClearStep(g1, as_, false);
    hide ClearTables, Tri, Clears, Later, Done;
    var g' := ClearTables(g1, as_, false);
    ClearsTrans(g, g1, g');
    LaterTrans(g, g1, g');
    DoneLater(g1, g', ws, false);
  }

  lemma ClearRestOk(g0: Gc, g: Gc)
    requires Tri(g, true, []) && g.gray == []
    requires Done(g, g0.weak, false) && Done(g, g0.allweak, false)
    ensures var g' := ClearRest(g0, g);
      && Tri(g', true, []) && g'.gray == [] && Clears(g, g') && Later(g, g')
      && Done(g', g.ephemeron, true) && Done(g', g.allweak, true)
      && Done(g', Newer(g.weak, g0.weak), false) && Done(g', Newer(g.allweak, g0.allweak), false)
      && Done(g', g0.weak, false) && Done(g', g0.allweak, false)
  {
    var g1, g' := ClearTables(ClearTables(g, g.ephemeron, true), g.allweak, true), ClearRest(g0, g);
    ClearKeysOk(g);
    assert g1.weak == g.weak && g1.allweak == g.allweak;
    ClearNewerOk(g0, g1);
    hide ClearTables, Tri, Clears, Later, Done, Newer;
    ClearsTrans(g, g1, g');
    LaterTrans(g, g1, g');
    DoneLater(g1, g', g.ephemeron, true);
    DoneLater(g1, g', g.allweak, true);
    DoneLater(g, g', g0.weak, false);
    DoneLater(g, g', g0.allweak, false);
  }

  lemma NewerOrOld(xs: seq<Id>, old_: seq<Id>, o: Id)
    requires Suffix(old_, xs) && o in xs
    ensures o in Newer(xs, old_) || o in old_
  {
    var k :| 0 <= k < |xs| && xs[k] == o;
    var n := |xs| - |old_|;
    if k < n { assert xs[..n][k] == o; } else { assert xs[n..][k - n] == o; }
  }

  /** A table that was done when the last clearing began has only marked keys with marked
      values left. */
  lemma QuietCleared(g: Gc, g': Gc, o: Id)
    requires Quiet(g, o) && Clears(g, g') && o in g.heap && KeysKept(g'.heap, g'.heap[o].entries)
    ensures ValuesKept(g'.heap, g'.heap[o].entries)
  {
    forall e | e in g'.heap[o].entries ensures Kept(g'.heap, e.val) {
      assert EntryQuiet(g.heap, e);
    }
  }

  ghost predicate CleanAt(g: Gc, o: Id)
    requires o in g.heap
  {
    AllMarked(g.heap, g.heap[o].refs) && KeysKept(g.heap, g.heap[o].entries) && ValuesKept(g.heap, g.heap[o].entries)
  }

  lemma CleanTable(g0: Gc, g: Gc, g': Gc, o: Id)
    requires Suffix(g0.weak, g.weak) && Suffix(g0.allweak, g.allweak)
    requires Clears(g, g') && Marked(g'.heap, o) && Settled(g', o) && ObjOk(g'.heap, g'.heap[o])
    requires Done(g', g.ephemeron, true) && Done(g', g.allweak, true)
    requires Done(g', Newer(g.weak, g0.weak), false) && Done(g', Newer(g.allweak, g0.allweak), false)
    requires Done(g', g0.weak, false) && Done(g', g0.allweak, false)
    requires o in g.ephemeron ==> Quiet(g, o)
    ensures CleanAt(g', o)
  {
    var es := g'.heap[o].entries;
    if o in g.weak { NewerOrOld(g.weak, g0.weak, o); }
    if o in g.allweak { NewerOrOld(g.allweak, g0.allweak, o); }
    assert o in g.ephemeron || o in g.allweak ==> forall e :: e in es ==> PartKept(g'.heap, e, true);
    if o in g.ephemeron { QuietCleared(g, g', o); }
    assert o in g.weak || o in g.allweak ==> forall e :: e in es ==> PartKept(g'.heap, e, false);
  }

  /** The state in which objects with finalizers are separated. */
  function Before(g: Gc): Gc {
    ClearAllValues(MarkReachable(g))
  }

  /** The atomic step: everything a marked object refers to is marked, and so are the roots
      and the objects with finalizers. */
  lemma AtomicClean(g: Gc)
    requires AtAtomic(g)
    ensures var g' := AtomicMark(g);
      && Clean(g') && HeapOk(g'.heap) && ColorsOk(g'.heap) && Later(g, g')
      && (forall r :: r in g.roots ==> Marked(g'.heap, r))
      && (forall o :: o in g'.tobefnz || o in g'.finobj ==> Marked(g'.heap, o))
      && g'.finobj == OthersOf(Before(g).heap, g.finobj) && g'.tobefnz == g.tobefnz + WhitesOf(Before(g).heap, g.finobj)
  {
    var m := MarkReachable(g);
    MarkReachableOk(g);
    var v := ClearAllValues(m);
    ClearAllValuesOk(m);
    var s := Separate(v);
    SeparateOk(g, m, v);
    var r := Resurrect(s);
    ResurrectOk(s);
    var g' := ClearRest(s, r);
    DoneLater(s, r, s.weak, false);
    DoneLater(s, r, s.allweak, false);
    ClearRestOk(s, r);
    CleanRest(s, r, g');
    hide *;
    LaterChain(g, m, v, s, r, g');
  }

  lemma SeparateOk(g: Gc, m: Gc, v: Gc)
    requires Later(g, m) && Later(m, v) && Tri(v, true, []) && v.gray == [] && v.finobj == m.finobj == g.finobj
    requires v.tobefnz == g.tobefnz
    requires AtAtomic(g)
    ensures var s := Separate(v);
      && Tri(s, true, []) && s.gray == [] && Later(v, s) && (forall o :: o in s.tobefnz ==> o in s.heap)
      && (forall o :: o in s.finobj ==> Marked(s.heap, o))
      && s.finobj == OthersOf(v.heap, g.finobj) && s.tobefnz == g.tobefnz + WhitesOf(v.heap, g.finobj)
  {
    OthersMarked(v.heap, v.finobj);
    var s := Separate(v);
    SeparatedTri(v, s);
    hide Tri;
  }

  lemma SeparatedTri(v: Gc, s: Gc)
    requires Tri(v, true, []) && s == v.(finobj := s.finobj, tobefnz := s.tobefnz)
    ensures Tri(s, true, [])
  {
    forall o | Marked(s.heap, o) ensures Good(s, true, [], o) { assert Good(v, true, [], o); }
  }

  lemma CleanRest(g0: Gc, g: Gc, g': Gc)
    requires Tri(g', true, []) && g'.gray == [] && Clears(g, g') && (forall o :: o in g.ephemeron ==> Quiet(g, o))
    requires Suffix(g0.weak, g.weak) && Suffix(g0.allweak, g.allweak)
    requires Done(g', g.ephemeron, true) && Done(g', g.allweak, true)
    requires Done(g', Newer(g.weak, g0.weak), false) && Done(g', Newer(g.allweak, g0.allweak), false)
    requires Done(g', g0.weak, false) && Done(g', g0.allweak, false)
    ensures Clean(g') && HeapOk(g'.heap) && ColorsOk(g'.heap)
  {
    forall o | Marked(g'.heap, o) ensures CleanAt(g', o) {
      assert Good(g', true, [], o);
      assert ObjOk(g'.heap, g'.heap[o]);
      hide Done, Clears, Settled, ObjOk, Quiet, Newer, Suffix, Tri;
      CleanTable(g0, g, g', o);
    }
  }

  lemma LaterChain(g: Gc, m: Gc, v: Gc, s: Gc, r: Gc, g': Gc)
    requires Later(g, m) && Later(m, v) && Later(v, s) && Later(s, r) && Later(r, g')
    ensures Later(g, g') && Later(m, g') && Later(r, g') && Later(s, g')
  {
    hide Later;
    LaterTrans(s, r, g');
    LaterTrans(v, s, g');
    LaterTrans(m, v, g');
    LaterTrans(g, m, g');
  }
}

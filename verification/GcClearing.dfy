/** Which entries of weak tables the atomic step keeps. */
module GcClearing {
  import opened Common
  import opened GcHeap
  import opened GcInvariant
  import opened GcAtomic
  import C = GcClean

  /** A key or value that does not make its entry disappear: it is no object, or a string,
      or it is marked. */
  predicate Stays(h: Heap, x: Option<Id>) {
    x.Some? && x.value in h ==> h[x.value].kind.Str? || Marked(h, x.value)
  }

  function Part(e: Entry, keys: bool): Option<Id> {
    if keys then e.key else e.val
  }

  /** Strings may have been marked, nothing else. */
  ghost predicate SameStays(h: Heap, h': Heap) {
    && h'.Keys == h.Keys
    && forall o :: o in h ==> h'[o].kind == h[o].kind && (h[o].kind.Str? || Marked(h', o) == Marked(h, o))
  }

  lemma StaysSame(h: Heap, h': Heap, x: Option<Id>)
    requires SameStays(h, h')
    ensures Stays(h', x) <==> Stays(h, x)
  {
  }

  lemma SameTrans(h: Heap, h1: Heap, h2: Heap)
    requires SameStays(h, h1) && SameStays(h1, h2)
    ensures SameStays(h, h2)
  {
  }

  lemma IsClearedExactly(g: Gc, x: Option<Id>)
    ensures IsCleared(g, x).cleared <==> !Stays(g.heap, x)
    ensures SameStays(g.heap, IsCleared(g, x).g.heap)
    ensures forall o :: o in g.heap ==> IsCleared(g, x).g.heap[o].entries == g.heap[o].entries
  {
    if x.Some? && IsWhite(g.heap, x.value) && g.heap[x.value].kind.Str? {
      assert Mark(g, x.value) == Painted(g, x.value, Black);
      assert IsCleared(g, x).g == Painted(g, x.value, Black);
    } else {
      assert IsCleared(g, x).g == g;
    }
  }

  lemma {:induction false} ClearEntriesExactly(g: Gc, es: seq<Entry>, keys: bool)
    ensures var r := ClearEntries(g, es, keys);
      && SameStays(g.heap, r.g.heap) && (forall o :: o in g.heap ==> r.g.heap[o].entries == g.heap[o].entries)
      && forall e :: e in r.kept <==> e in es && Stays(g.heap, Part(e, keys))
    decreases |es|
  {
    if es != [] {
      var c, r := IsCleared(g, Part(es[0], keys)), ClearEntries(g, es, keys);
      IsClearedExactly(g, Part(es[0], keys));
      UnfoldClear(g, es, keys);
      ClearEntriesExactly(c.g, es[1..], keys);
      hide IsCleared, ClearEntries, Stays;
      SameTrans(g.heap, c.g.heap, r.g.heap);
      forall e ensures e in r.kept <==> e in es && Stays(g.heap, Part(e, keys)) {
        StaysSame(g.heap, c.g.heap, Part(e, keys));
        assert e in es <==> e == es[0] || e in es[1..];
      }
    }
  }

  lemma ClearTableExactly(g: Gc, o: Id, keys: bool, p: Id)
    requires p in g.heap
    ensures var g' := ClearTable(g, o, keys);
      && SameStays(g.heap, g'.heap)
      && forall e :: e in g'.heap[p].entries <==>
           e in g.heap[p].entries && (o == p ==> Stays(g.heap, Part(e, keys)))
  {
    if o in g.heap {
      var r := ClearEntries(g, g.heap[o].entries, keys);
      ClearEntriesExactly(g, g.heap[o].entries, keys);
      assert ClearTable(g, o, keys) == r.g.(heap := r.g.heap[o := r.g.heap[o].(entries := r.kept)]);
      hide *;
      Replaced(g.heap, r.g.heap, ClearTable(g, o, keys).heap, o, r.kept);
    }
  }

  lemma Replaced(h: Heap, h1: Heap, h': Heap, o: Id, kept: seq<Entry>)
    requires SameStays(h, h1) && o in h && h' == h1[o := h1[o].(entries := kept)]
    ensures SameStays(h, h')
  {
  }

  lemma {:induction false} ClearTablesExactly(g: Gc, tables: seq<Id>, keys: bool, p: Id)
    requires p in g.heap
    ensures var g' := ClearTables(g, tables, keys);
      && SameStays(g.heap, g'.heap)
      && forall e :: e in g'.heap[p].entries <==>
           e in g.heap[p].entries && (p in tables ==> Stays(g.heap, Part(e, keys)))
    decreases |tables|
  {
    if tables != [] {
      var g1, g' := ClearTable(g, tables[0], keys), ClearTables(g, tables, keys);
      ClearTableExactly(g, tables[0], keys, p);
      ClearTablesExactly(g1, tables[1..], keys, p);
      assert p in tables <==> p == tables[0] || p in tables[1..];
      assert g' == ClearTables(g1, tables[1..], keys);
      hide ClearTable, ClearTables, Stays;
      SameTrans(g.heap, g1.heap, g'.heap);
      forall e ensures e in g'.heap[p].entries <==>
        e in g.heap[p].entries && (p in tables ==> Stays(g.heap, Part(e, keys)))
      {
        StaysSame(g.heap, g1.heap, Part(e, keys));
      }
    }
  }

  // ----- the atomic step -----

  /** The state in which keys are cleared. */
  function Resurrected(g: Gc): Gc {
    Resurrect(Separate(ClearAllValues(MarkReachable(g))))
  }

  lemma ValuesExactly(m: Gc, p: Id, e: Entry)
    requires p in m.heap
    ensures var v := ClearAllValues(m);
      && SameStays(m.heap, v.heap) && v.allweak == m.allweak && v.weak == m.weak
      && (e in v.heap[p].entries <==>
            e in m.heap[p].entries && (p in m.weak || p in m.allweak ==> Stays(m.heap, e.val)))
  {
    var w := ClearTables(m, m.weak, false);
    ClearTablesExactly(m, m.weak, false, p);
    ClearTablesExactly(w, m.allweak, false, p);
    ListsKept(m, m.weak, false);
    ListsKept(w, m.allweak, false);
    hide ClearTables;
    StaysSame(m.heap, w.heap, e.val);
    SameTrans(m.heap, w.heap, ClearAllValues(m).heap);
  }

  lemma {:induction false} ListsKept(g: Gc, tables: seq<Id>, keys: bool)
    ensures var g' := ClearTables(g, tables, keys);
      g'.weak == g.weak && g'.allweak == g.allweak && g'.ephemeron == g.ephemeron
    decreases |tables|
  {
    if tables != [] {
      TableListsKept(g, tables[0], keys);
      ListsKept(ClearTable(g, tables[0], keys), tables[1..], keys);
    }
  }

  lemma TableListsKept(g: Gc, o: Id, keys: bool)
    ensures var g' := ClearTable(g, o, keys);
      g'.weak == g.weak && g'.allweak == g.allweak && g'.ephemeron == g.ephemeron
  {
    if o in g.heap { EntriesListsKept(g, g.heap[o].entries, keys); }
  }

  lemma {:induction false} EntriesListsKept(g: Gc, es: seq<Entry>, keys: bool)
    ensures var g' := ClearEntries(g, es, keys).g;
      g'.weak == g.weak && g'.allweak == g.allweak && g'.ephemeron == g.ephemeron
    decreases |es|
  {
    if es != [] { EntriesListsKept(IsCleared(g, Part(es[0], keys)).g, es[1..], keys); }
  }

  /** The last clearing: keys, and values of the tables that were found since the first. */
  lemma RestExactly(s: Gc, r: Gc, p: Id, e: Entry)
    requires p in r.heap
    ensures var a := ClearRest(s, r);
      && p in a.heap
      && (e in a.heap[p].entries <==>
            && e in r.heap[p].entries
            && (p in r.ephemeron || p in r.allweak ==> Stays(r.heap, e.key))
            && (p in Newer(r.weak, s.weak) || p in Newer(r.allweak, s.allweak) ==> Stays(r.heap, e.val)))
  {
    var k1 := ClearTables(r, r.ephemeron, true);
    var k2 := ClearTables(k1, r.allweak, true);
    ClearTablesExactly(r, r.ephemeron, true, p);
    ClearTablesExactly(k1, r.allweak, true, p);
    ListsKept(r, r.ephemeron, true);
    ListsKept(k1, r.allweak, true);
    var w1 := ClearTables(k2, Newer(r.weak, s.weak), false);
    ClearTablesExactly(k2, Newer(r.weak, s.weak), false, p);
    ListsKept(k2, Newer(r.weak, s.weak), false);
    var w2 := ClearTables(w1, Newer(r.allweak, s.allweak), false);
    ClearTablesExactly(w1, Newer(r.allweak, s.allweak), false, p);
    assert w2 == ClearRest(s, r);
    hide ClearTables, Stays, Newer;
    StaysSame(r.heap, k1.heap, e.key);
    StaysSame(r.heap, k1.heap, e.val);
    StaysSame(k1.heap, k2.heap, e.val);
    StaysSame(k2.heap, w1.heap, e.val);
  }

  lemma StaysLater(g: Gc, g': Gc, x: Option<Id>)
    requires Later(g, g') && Stays(g.heap, x)
    ensures Stays(g'.heap, x)
  {
  }

  /** What the atomic step keeps of any table: an entry goes exactly if its value is not
      marked when values are cleared and the table is on a list for that by then, or its key
      is not marked when keys are and the table is on a list for that; tables that are found
      to have weak values only after that have their values looked at last. */
  lemma EntryGoesExactly(g: Gc, p: Id, e: Entry)
    requires AtAtomic(g) && p in g.heap
    ensures var m, r, a := MarkReachable(g), Resurrected(g), AtomicMark(g);
      && p in a.heap
      && (e in a.heap[p].entries <==>
            && e in g.heap[p].entries
            && (p in m.weak || p in m.allweak ==> Stays(m.heap, e.val))
            && (p in r.ephemeron || p in r.allweak ==> Stays(r.heap, e.key))
            && (p in Newer(r.weak, m.weak) || p in Newer(r.allweak, m.allweak) ==> Stays(r.heap, e.val)))
  {
    var m := MarkReachable(g);
    MarkReachableOk(g);
    var v := ClearAllValues(m);
    C.ClearAllValuesOk(m);
    ValuesExactly(m, p, e);
    var s := Separate(v);
    C.SeparateOk(g, m, v);
    var r := Resurrect(s);
    C.ResurrectOk(s);
    assert s.heap == v.heap && s.allweak == v.allweak && s.weak == v.weak && r == Resurrected(g);
    RestExactly(s, r, p, e);
    hide *;
    CarriedEntries(g, m, p);
    CarriedEntries(s, r, p);
  }

  lemma CarriedEntries(g: Gc, g': Gc, p: Id)
    requires Carries(g, g') && p in g.heap
    ensures p in g'.heap && g'.heap[p].entries == g.heap[p].entries
    ensures p in g.allweak ==> p in g'.allweak
  {
  }

  /** An entry of a table on the allweak list stays exactly if its value is marked when
      values are cleared, and its key is when keys are, after objects that are about to be
      finalized were marked. Strings and values that are no objects always stay. */
  lemma EntryStaysExactly(g: Gc, p: Id, e: Entry)
    requires AtAtomic(g) && p in g.heap && p in g.allweak
    ensures var a := AtomicMark(g);
      && p in a.heap
      && (e in a.heap[p].entries <==>
            e in g.heap[p].entries && Stays(MarkReachable(g).heap, e.val) && Stays(Resurrected(g).heap, e.key))
  {
    EntryGoesExactly(g, p, e);
    AllweakCarried(g, p, e);
  }

  /** The list of weak tables only grows, and values that stay still do later. */
  lemma AllweakCarried(g: Gc, p: Id, e: Entry)
    requires AtAtomic(g) && p in g.heap && p in g.allweak
    ensures p in MarkReachable(g).allweak && p in Resurrected(g).allweak
    ensures Stays(MarkReachable(g).heap, e.val) ==> Stays(Resurrected(g).heap, e.val)
  {
    var m := MarkReachable(g);
    MarkReachableOk(g);
    var v := ClearAllValues(m);
    C.ClearAllValuesOk(m);
    ValuesExactly(m, p, e);
    var s := Separate(v);
    C.SeparateOk(g, m, v);
    var r := Resurrect(s);
    C.ResurrectOk(s);
    assert s.heap == v.heap && s.allweak == v.allweak && r == Resurrected(g);
    hide *;
    CarriedEntries(g, m, p);
    CarriedEntries(s, r, p);
    StaysSame(m.heap, v.heap, e.val);
    if Stays(m.heap, e.val) { StaysLater(s, r, e.val); }
  }
}

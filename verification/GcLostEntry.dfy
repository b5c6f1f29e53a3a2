/** A run in which a table loses an entry although its new metatable has no weak mode. */
module GcLostEntry {
  import opened Common
  import opened GcHeap
  import opened GcInvariant
  import opened GcAtomic
  import opened GcClearing
  import opened GcMachine
  import opened GcSound
  import opened GcRuns
  import opened GcAside
  import opened GcDangling
  import opened GcUnguarded

  const ENTRY: Entry := Entry(Some(2), None)

  /** Table 1, with weak keys and values, has been visited; object 2 is a key in it. */
  function HeapWith(refs: seq<Id>, es: seq<Entry>): Heap {
    map[0 := Main(Gray, refs), 1 := Obj(AllWeak, Gray, [], es), 2 := Obj(Table, White(false), [], [])]
  }

  function Keyed(refs: seq<Id>): Gc {
    State(HeapWith(refs, [ENTRY]), Atomic, [], [0], [1], [2, 1])
  }

  lemma EntrySet() returns (g: Gc)
    ensures GcDangling.Reachable(g) && g == Keyed([1, 2])
  {
    var g0 := MetatableCreated();
    EnabledEntry(g0);
    NextEntry(g0);
    hide *;
    Reach(g0, SetEntries(1, [ENTRY], ENTRY));
    g := Next(g0, SetEntries(1, [ENTRY], ENTRY));
  }

  lemma EnabledEntry(g: Gc)
    requires g == GcDangling.At([1, 2], [])
    ensures Enabled(g, SetEntries(1, [ENTRY], ENTRY))
  {
    RefAccessible(g, 0, 1);
    RefAccessible(g, 0, 2);
  }

  lemma NextEntry(g: Gc)
    requires g == GcDangling.At([1, 2], []) && Enabled(g, SetEntries(1, [ENTRY], ENTRY))
    ensures Next(g, SetEntries(1, [ENTRY], ENTRY)) == Keyed([1, 2])
  {
    hide Enabled;
    assert Keyed([1, 2]).heap == g.heap[1 := g.heap[1].(entries := [ENTRY])];
  }

  /** The program forgets its own reference to the key. */
  lemma KeyForgotten() returns (g: Gc)
    ensures GcDangling.Reachable(g) && g == Keyed([1])
  {
    var g0 := EntrySet();
    EnabledForgetKey(g0);
    NextForgetKey(g0);
    hide *;
    Reach(g0, SetRefs(0, [1], 1, false));
    g := Next(g0, SetRefs(0, [1], 1, false));
  }

  lemma EnabledForgetKey(g: Gc)
    requires g == Keyed([1, 2])
    ensures Enabled(g, SetRefs(0, [1], 1, false))
  {
    RootAccessible(g, 0);
    RefAccessible(g, 0, 1);
  }

  lemma NextForgetKey(g: Gc)
    requires g == Keyed([1, 2]) && Enabled(g, SetRefs(0, [1], 1, false))
    ensures Next(g, SetRefs(0, [1], 1, false)) == Keyed([1])
  {
    hide Enabled;
    assert Keyed([1]).heap == g.heap[0 := g.heap[0].(refs := [1])];
    NextWrite(g, 0, [1], 1, Keyed([1]));
  }

  /** Nothing is left to mark, so the key is not marked when keys are cleared. */
  lemma KeyUnmarked(g: Gc)
    requires g == Keyed([1])
    ensures Resurrected(g) == g.(phase := InsideAtomic)
  {
    var g1 := g.(phase := InsideAtomic);
    NothingReached(g, g1);
    ValuesStay(g1);
    assert Separate(g1) == g1 && Resurrect(g1) == g1 by { assert EphemeronPass(g1, []) == Pass(g1, false); }
    hide MarkReachable, ClearAllValues, Separate, Resurrect;
  }

  lemma NothingReached(g: Gc, g1: Gc)
    requires g == Keyed([1]) && g1 == g.(phase := InsideAtomic)
    ensures MarkReachable(g) == g1
  {
    assert MarkAll(g1, [0]) == MarkAll(g1, []) == g1;
    var g2 := g1.(gray := [0], grayagain := []);
    assert PropagateMark(g2) == MarkAll(g1, [1]) == MarkAll(g1, []) by { assert g2.gray[1..] == [] && [0] + [] == [0]; }
    assert PropagateAll(g2) == PropagateAll(g1) == g1;
    assert EphemeronPass(g1, []) == Pass(g1, false);
  }

  lemma ValuesStay(g: Gc)
    requires g == Keyed([1]).(phase := InsideAtomic)
    ensures ClearAllValues(g) == g
  {
    var es := g.heap[1].entries;
    assert es[1..] == [] && [es[0]] + [] == es;
    assert ClearEntries(g, es[1..], false) == Clearing(g, []);
    assert ClearEntries(g, es, false) == Clearing(g, es);
    assert ClearTable(g, 1, false) == g;
    assert ClearTables(g, [1], false) == ClearTables(g, [], false) == g;
  }

  /** The table is given a mode under which the key would keep the entry; the entry goes. */
  lemma EntryIsLost() returns (g: Gc)
    ensures GcDangling.Reachable(g) && MarkingPhase(g.phase) && 1 in g.heap && g.heap[1].kind.AllWeak?
    ensures ENTRY in g.heap[1].entries
    ensures var a := AtomicMark(Finished(With(g, 1, Table, [])));
      1 in a.heap && a.heap[1].kind.Table? && ENTRY !in a.heap[1].entries
  {
    hide *;
    g := KeyForgotten();
    KeyUnmarked(g);
    KeyedSound(g);
    KeyedFacts(g);
    ModeChangeComesTooLate(g, 1, []);
    ModeSet(AtomicMark(Finished(g)), 1);
    assert ENTRY in AtomicMark(Finished(With(g, 1, Table, []))).heap[1].entries ==>
      Stays(Resurrected(Finished(g)).heap, ENTRY.key);
  }

  lemma ModeSet(a: Gc, p: Id)
    requires p in a.heap
    ensures p in With(a, p, Table, []).heap && With(a, p, Table, []).heap[p].kind.Table?
  {
  }

  lemma KeyedFacts(g: Gc)
    requires g == Keyed([1])
    ensures MarkingPhase(g.phase) && Finished(g) == g && 1 in g.allweak && !(1 in g.gray || 1 in g.grayagain)
    ensures 1 in g.heap && g.heap[1].kind.AllWeak? && g.heap[1].color.Gray? && ENTRY in g.heap[1].entries
    ensures !Stays(g.(phase := InsideAtomic).heap, ENTRY.key)
  {
  }

  lemma KeyedSound(g: Gc)
    requires g == Keyed([1])
    ensures Sound(g)
  {
    KeyedListed(g);
    KeyedTri(g);
    KeyedGray(g);
    hide Listed, Anchored, Tri, GrayListed, HeapWith;
  }

  lemma KeyedListed(g: Gc)
    requires g == Keyed([1])
    ensures Listed(g) && Anchored(g)
  {
  }

  lemma KeyedTri(g: Gc)
    requires g == Keyed([1])
    ensures Tri(g, false, [])
  {
    assert Good(g, false, [], 0) && Good(g, false, [], 1);
  }

  lemma KeyedGray(g: Gc)
    requires g == Keyed([1])
    ensures GrayListed(g) && (forall o :: IsWhite(g.heap, o) ==> g.heap[o].color == White(g.white))
    ensures g.phase.Atomic?
  {
  }
}

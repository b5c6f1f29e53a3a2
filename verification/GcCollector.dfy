/** The collector with its state updated in place: list walks are loops, and each method
    does what the function of the same purpose says. */
module GcCollector {
  import opened Common
  import opened GcHeap
  import opened GcAtomic
  import opened GcMachine

  class Collector {
    var heap: Heap
    var white: bool
    var phase: Phase
    var main: Id
    var roots: seq<Id>
    var gray: seq<Id>
    var grayagain: seq<Id>
    var weak: seq<Id>
    var ephemeron: seq<Id>
    var allweak: seq<Id>
    var allgc: seq<Id>
    var finobj: seq<Id>
    var tobefnz: seq<Id>
    var sweep: Option<nat>

    function View(): Gc
      reads this
    {
      Gc(heap, white, phase, main, roots, gray, grayagain, weak, ephemeron, allweak, allgc, finobj, tobefnz, sweep)
    }

    /** A state with the main thread only. */
    constructor (main: Id)
      ensures View() == Gc(map[main := Obj(Thread, White(false), [], [])], false, Pause, main, [main], [], [], [],
        [], [], [], [], [], None)
    {
      heap, white, phase := map[main := Obj(Thread, White(false), [], [])], false, Pause;
      this.main, roots := main, [main];
      gray, grayagain, weak, ephemeron, allweak := [], [], [], [], [];
      allgc, finobj, tobefnz, sweep := [], [], [], None;
    }

    // ----- marking -----

    /** Marks a white object; userdata pass the mark on to what they refer to. */
    method ReallyMark(o: Id)
      requires IsWhite(heap, o)
      modifies `heap, `gray
      ensures View() == Mark(old(View()), o)
      decreases Whites(heap), 0
    {
      var k := heap[o].kind;
      ghost var g := View();
      if k.Str? {
        heap := heap[o := heap[o].(color := Black)];
      } else if k.Userdata? {
        heap := heap[o := heap[o].(color := Black)];
        assert View() == Painted(g, o, Black);
        MarkEach(heap[o].refs);
      } else {
        heap := heap[o := heap[o].(color := Gray)];
        gray := [o] + gray;
        assert View() == Painted(g, o, Gray).(gray := [o] + g.gray);
      }
    }

    method MarkObject(o: Id)
      modifies `heap, `gray
      ensures View() == MarkIf(old(View()), o)
      decreases Whites(heap), 1
    {
      if o in heap && heap[o].color.White? { ReallyMark(o); }
    }

    method MarkEach(refs: seq<Id>)
      modifies `heap, `gray
      ensures View() == MarkAll(old(View()), refs)
      decreases Whites(heap), 2
    {
      var i := 0;
      while i < |refs|
        invariant i <= |refs| && MarkAll(View(), refs[i..]) == MarkAll(old(View()), refs)
        invariant Whites(heap) <= Whites(old(heap))
        invariant unchanged(`white, `phase, `main, `roots, `grayagain, `weak, `ephemeron, `allweak, `allgc, `finobj,
          `tobefnz, `sweep)
      {
        assert refs[i..][0] == refs[i] && refs[i..][1..] == refs[i + 1..];
        MarkFits(heap, old(heap));
        MarkObject(refs[i]);
        i := i + 1;
      }
    }

    /** Whether a weak key or value is to be cleared; strings are marked instead. */
    method Clearable(x: Option<Id>) returns (cleared: bool)
      modifies `heap, `gray
      ensures Check(View(), cleared) == IsCleared(old(View()), x)
    {
      if x.None? || x.value !in heap {
        return false;
      }
      if heap[x.value].kind.Str? {
        MarkObject(x.value);
        return false;
      }
      return heap[x.value].color.White?;
    }

    // ----- traversals -----

    /** One entry of an ephemeron table; the flags say what the scan has seen. */
    method ScanEntry(e: Entry, marked0: bool, hasclears0: bool, hasww0: bool)
      returns (marked: bool, hasclears: bool, hasww: bool)
      modifies `heap, `gray
      ensures Scan(View(), marked, hasclears, hasww) ==
        EphemeronEntry(Scan(old(View()), marked0, hasclears0, hasww0), e)
    {
      hide MarkIf, IsCleared;
      marked, hasclears, hasww := marked0, hasclears0, hasww0;
      var cleared := Clearable(e.key);
      var white := e.val.Some? && e.val.value in heap && heap[e.val.value].color.White?;
      if cleared {
        hasclears := true;
        if white { hasww := true; }
      } else if white {
        marked := true;
        MarkObject(e.val.value);
      }
    }

    method VisitEphemeron(o: Id) returns (marked: bool)
      requires o in heap
      modifies `heap, `gray, `grayagain, `ephemeron, `allweak
      ensures View() == TraverseEphemeron(old(View()), o).g && marked == TraverseEphemeron(old(View()), o).marked
    {
      hide EphemeronEntry;
      var es := heap[o].entries;
      var hasclears, hasww := false, false;
      marked := false;
      var i := 0;
      while i < |es|
        invariant i <= |es|
        invariant EphemeronEntries(Scan(View(), marked, hasclears, hasww), es[i..]) ==
          EphemeronEntries(Scan(old(View()), false, false, false), es)
        invariant unchanged(`phase, `grayagain, `ephemeron, `allweak)
      {
        assert es[i..][0] == es[i] && es[i..][1..] == es[i + 1..];
        marked, hasclears, hasww := ScanEntry(es[i], marked, hasclears, hasww);
        i := i + 1;
      }
      assert es[i..] == [];
      assert EphemeronEntries(Scan(old(View()), false, false, false), es) == Scan(View(), marked, hasclears, hasww);
      hide EphemeronEntries;
      if phase.Propagate? {
        grayagain := [o] + grayagain;
      } else if hasww {
        ephemeron := [o] + ephemeron;
      } else if hasclears {
        allweak := [o] + allweak;
      }
    }

    /** One entry of a table with weak values. */
    method ScanWeakEntry(e: Entry, hasclears0: bool) returns (hasclears: bool)
      modifies `heap, `gray
      ensures Check(View(), hasclears) == WeakValueEntry(Check(old(View()), hasclears0), e)
    {
      hide MarkIf, IsCleared;
      if e.key.None? {
        return true;
      }
      MarkObject(e.key.value);
      if hasclears0 {
        return true;
      }
      hasclears := Clearable(e.val);
    }

    method VisitWeakValue(o: Id)
      requires o in heap
      modifies `heap, `gray, `grayagain, `weak
      ensures View() == TraverseWeakValue(old(View()), o)
    {
      hide WeakValueEntry;
      var es := heap[o].entries;
      var hasclears := false;
      var i := 0;
      while i < |es|
        invariant i <= |es|
        invariant WeakValueEntries(Check(View(), hasclears), es[i..]) == WeakValueEntries(Check(old(View()), false), es)
        invariant unchanged(`phase, `grayagain, `weak)
      {
        assert es[i..][0] == es[i] && es[i..][1..] == es[i + 1..];
        hasclears := ScanWeakEntry(es[i], hasclears);
        i := i + 1;
      }
      assert es[i..] == [];
      assert WeakValueEntries(Check(old(View()), false), es) == Check(View(), hasclears);
      hide WeakValueEntries;
      if phase.Propagate? {
        grayagain := [o] + grayagain;
      } else if hasclears {
        weak := [o] + weak;
      }
    }

    /** Visits the first gray object. */
    method VisitGray()
      requires gray != []
      modifies `heap, `gray, `grayagain, `weak, `ephemeron, `allweak
      ensures View() == PropagateMark(old(View()))
    {
      var o := gray[0];
      if !(o in heap && !heap[o].color.White?) {
        gray := gray[1..];
        return;
      }
      hide PropagateMark;
      if IsWeak(heap[o].kind) { VisitWeakTable(o); } else { VisitStrong(o); }
    }

    method VisitStrong(o: Id)
      requires gray != [] && gray[0] == o && Marked(heap, o) && !IsWeak(heap[o].kind)
      modifies `heap, `gray, `grayagain
      ensures View() == PropagateMark(old(View()))
    {
      hide MarkAll;
      var k, refs := heap[o].kind, heap[o].refs;
      gray := gray[1..];
      if k.Thread? {
        grayagain := [o] + grayagain;
        MarkEach(refs);
      } else if k.Table? || k.Function? {
        heap := heap[o := heap[o].(color := Black)];
        MarkEach(refs);
      }
    }

    method VisitWeakTable(o: Id)
      requires gray != [] && gray[0] == o && Marked(heap, o) && IsWeak(heap[o].kind)
      modifies `heap, `gray, `grayagain, `weak, `ephemeron, `allweak
      ensures View() == PropagateMark(old(View()))
    {
      hide MarkAll, TraverseEphemeron, TraverseWeakValue;
      var k := heap[o].kind;
      gray := gray[1..];
      MarkEach(heap[o].refs);
      match k {
        case WeakValue => VisitWeakValue(o);
        case Ephemeron => var _ := VisitEphemeron(o);
        case AllWeak => allweak := [o] + allweak;
      }
    }

    method Propagate()
      modifies `heap, `gray, `grayagain, `weak, `ephemeron, `allweak
      ensures View() == PropagateAll(old(View()))
    {
      while gray != []
        invariant PropagateAll(View()) == PropagateAll(old(View()))
        decreases Whites(heap), |gray|
      {
        ghost var h := heap;
        VisitGray();
        MarkFits(heap, h);
      }
    }

    /** Repeats passes over the ephemeron list until one marks nothing. */
    method ConvergeEphemerons()
      modifies `heap, `gray, `grayagain, `weak, `ephemeron, `allweak
      ensures View() == Converge(old(View()))
    {
      hide EphemeronPass;
      var changed := true;
      while changed
        invariant if changed then Converge(View()) == Converge(old(View())) else View() == Converge(old(View()))
        decreases Whites(heap), if changed then 1 else 0
      {
        ghost var h := heap;
        var tables := ephemeron;
        ephemeron := [];
        changed := PassOver(tables);
        MarkFits(heap, h);
      }
    }

    method PassOver(tables: seq<Id>) returns (changed: bool)
      modifies `heap, `gray, `grayagain, `weak, `ephemeron, `allweak
      ensures Pass(View(), changed) == EphemeronPass(old(View()), tables)
    {
      hide TraverseEphemeron, PropagateAll, EphemeronPass;
      PassEnd(View());
      changed := false;
      var i := 0;
      assert tables[0..] == tables;
      while i < |tables|
        invariant i <= |tables|
        invariant var r := EphemeronPass(View(), tables[i..]);
          Pass(r.g, changed || r.changed) == EphemeronPass(old(View()), tables)
      {
        PassFirst(View(), tables, i, changed);
        if tables[i] in heap {
          var marked := VisitEphemeron(tables[i]);
          if marked {
            Propagate();
            changed := true;
          }
        }
        i := i + 1;
      }
      assert tables[i..] == [];
      PassEnd(View());
    }

    // ----- the atomic phase -----

    /** The entries whose key (or value) is marked. */
    method KeepEntries(es: seq<Entry>, keys: bool) returns (kept: seq<Entry>)
      modifies `heap, `gray
      ensures Clearing(View(), kept) == ClearEntries(old(View()), es, keys)
    {
      hide IsCleared;
      kept := [];
      var i := 0;
      while i < |es|
        invariant i <= |es|
        invariant var r := ClearEntries(View(), es[i..], keys);
          Clearing(r.g, kept + r.kept) == ClearEntries(old(View()), es, keys)
      {
        ClearFirst(View(), es, i, kept, keys);
        var cleared := Clearable(if keys then es[i].key else es[i].val);
        hide ClearEntries;
        if !cleared { kept := kept + [es[i]]; }
        i := i + 1;
      }
      assert es[i..] == [] && kept + [] == kept;
    }

    /** Drops the entries of a table whose key (or value) is not marked. */
    method ClearOne(o: Id, keys: bool)
      modifies `heap, `gray
      ensures View() == ClearTable(old(View()), o, keys)
    {
      if o !in heap {
        return;
      }
      hide ClearEntries;
      var kept := KeepEntries(heap[o].entries, keys);
      heap := heap[o := heap[o].(entries := kept)];
    }

    method ClearEach(tables: seq<Id>, keys: bool)
      modifies `heap, `gray
      ensures View() == ClearTables(old(View()), tables, keys)
    {
      var i := 0;
      while i < |tables|
        invariant i <= |tables|
        invariant ClearTables(View(), tables[i..], keys) == ClearTables(old(View()), tables, keys)
        invariant unchanged(`white, `phase, `main, `roots, `grayagain, `weak, `ephemeron, `allweak, `allgc, `finobj,
          `tobefnz, `sweep)
      {
        assert tables[i..][0] == tables[i] && tables[i..][1..] == tables[i + 1..];
        hide ClearTable;
        ClearOne(tables[i], keys);
        i := i + 1;
      }
      assert tables[i..] == [];
    }

    /** Moves the unmarked objects of finobj to the end of tobefnz. */
    method SeparateToBeFinalized()
      modifies `finobj, `tobefnz
      ensures View() == Separate(old(View()))
    {
      var rest := [];
      var i := 0;
      while i < |finobj|
        invariant i <= |finobj| && unchanged(`finobj)
        invariant rest + OthersOf(heap, finobj[i..]) == OthersOf(heap, finobj)
        invariant tobefnz + WhitesOf(heap, finobj[i..]) == old(tobefnz) + WhitesOf(heap, finobj)
      {
        assert finobj[i..][0] == finobj[i] && finobj[i..][1..] == finobj[i + 1..];
        ghost var os, ws := OthersOf(heap, finobj[i + 1..]), WhitesOf(heap, finobj[i + 1..]);
        assert rest + ([finobj[i]] + os) == (rest + [finobj[i]]) + os;
        assert tobefnz + ([finobj[i]] + ws) == (tobefnz + [finobj[i]]) + ws;
        assert [] + os == os && [] + ws == ws;
        if finobj[i] in heap && heap[finobj[i]].color.White? {
          tobefnz := tobefnz + [finobj[i]];
        } else {
          rest := rest + [finobj[i]];
        }
        i := i + 1;
      }
      assert finobj[i..] == [] && rest + [] == rest && tobefnz + [] == tobefnz;
      finobj := rest;
    }

    method MarkAllReachable()
      modifies this
      ensures View() == MarkReachable(old(View()))
    {
      hide PropagateAll, MarkAll, Converge;
      Propagate();
      var again := grayagain;
      phase := InsideAtomic;
      MarkEach(roots);
      Propagate();
      gray, grayagain := again, [];
      Propagate();
      ConvergeEphemerons();
    }

    /** Clears keys everywhere, and values in the tables found since the lists were as given. */
    method ClearLast(origweak: seq<Id>, origall: seq<Id>, ghost g0: Gc)
      requires g0.weak == origweak && g0.allweak == origall
      modifies this
      ensures View() == ClearRest(g0, old(View()))
    {
      hide ClearTables;
      var eph, all := ephemeron, allweak;
      ClearEach(eph, true);
      ClearEach(all, true);
      var ws := Newer(weak, origweak);
      ClearEach(ws, false);
      ClearEach(Newer(allweak, origall), false);
    }

    /** Marks everything that is to survive, and clears weak tables of the rest. */
    method MarkAtomically()
      modifies this
      ensures View() == AtomicMark(old(View()))
    {
      hide PropagateAll, MarkAll, Converge, ClearTables, Separate, MarkReachable, ClearRest;
      MarkAllReachable();
      var ws, as_ := weak, allweak;
      ClearEach(ws, false);
      ClearEach(as_, false);
      SeparateToBeFinalized();
      ghost var g0 := View();
      var origweak, origall := weak, allweak;
      MarkEach(tobefnz);
      Propagate();
      ConvergeEphemerons();
      ClearLast(origweak, origall, g0);
    }

    // ----- sweeping -----

    /** Sweeps at most n objects of a list from position i on. */
    method SweepPart(list0: seq<Id>, i0: nat, n: nat) returns (list: seq<Id>, at: Option<nat>)
      modifies `heap
      ensures Sweep(heap, list, at) == SweepList(old(heap), white, list0, i0, n)
    {
      list := list0;
      var i: nat, count: nat := i0, n;
      while i < |list| && count > 0
        invariant SweepList(heap, white, list, i, count) == SweepList(old(heap), white, list0, i0, n)
        decreases count
      {
        var o := list[i];
        if o !in heap {
          i := i + 1;
        } else if heap[o].color == White(!white) {
          heap := heap - {o};
          list := list[..i] + list[i + 1..];
        } else {
          heap := heap[o := heap[o].(color := White(white))];
          i := i + 1;
        }
        count := count - 1;
      }
      at := if i >= |list| then None else Some(i);
    }

    method SweepUntilLive(list0: seq<Id>) returns (list: seq<Id>, at: Option<nat>)
      modifies `heap
      ensures Sweep(heap, list, at) == SweepToLive(old(heap), white, list0, 0)
    {
      list := list0;
      while list != [] && list[0] in heap && heap[list[0]].color == White(!white)
        invariant SweepToLive(heap, white, list, 0) == SweepToLive(old(heap), white, list0, 0)
        decreases |list|
      {
        var o := list[0];
        heap := heap - {o};
        assert list[..0] + list[1..] == list[1..];
        list := list[1..];
      }
      if list == [] {
        return list, None;
      }
      if list[0] in heap { heap := heap[list[0] := heap[list[0]].(color := White(white))]; }
      at := if 1 < |list| then Some(1) else None;
    }

    method StartSweep()
      modifies this
      ensures View() == EnterSweep(old(View()))
    {
      hide SweepToLive;
      phase := SweepAll;
      allgc, sweep := SweepUntilLive(allgc);
    }

    /** Sweeps a little more of the current list, or goes on to the next phase. */
    method SweepMore(n: nat)
      requires phase.SweepAll? || phase.SweepFin? || phase.SweepToBeFin?
      modifies this
      ensures View() == SweepStep(old(View()), n)
    {
      hide SweepList;
      var list := if phase.SweepAll? then allgc else if phase.SweepFin? then finobj else tobefnz;
      var at: Option<nat> := None;
      if sweep.Some? { list, at := SweepPart(list, sweep.value, n); }
      if phase.SweepAll? { allgc := list; } else if phase.SweepFin? { finobj := list; } else { tobefnz := list; }
      if at.Some? {
        sweep := at;
      } else if phase.SweepAll? {
        phase, sweep := SweepFin, Some(0);
      } else if phase.SweepFin? {
        phase, sweep := SweepToBeFin, Some(0);
      } else {
        phase, sweep := SweepEnd, None;
      }
    }

    // ----- one step -----

    static lemma RestartIs(before: Gc, g: Gc)
      requires g == before.(gray := [], grayagain := [], weak := [], allweak := [], ephemeron := [],
        phase := GcHeap.Phase.Propagate)
      ensures Restart(before) == MarkAll(g, before.roots + before.tobefnz)
      ensures g.roots == before.roots && g.tobefnz == before.tobefnz
    {
    }

    /** Starts a new cycle at the roots. */
    method RestartCollection()
      modifies this
      ensures View() == Restart(old(View()))
    {
      ghost var before := View();
      gray, grayagain, weak, allweak, ephemeron, phase := [], [], [], [], [], GcHeap.Phase.Propagate;
      ghost var g := View();
      RestartIs(before, g);
      hide *;
      MarkEach(roots + tobefnz);
    }

    method Step(n: nat)
      requires phase.Propagate? ==> gray != []
      modifies this
      ensures View() == SingleStep(old(View()), n)
    {
      hide PropagateMark, Restart, AtomicMark, EnterSweep, SweepStep;
      match phase {
        case Pause => RestartCollection();
        case Propagate =>
          VisitGray();
          if gray == [] { phase := Atomic; }
        case Atomic =>
          MarkAtomically();
          white := !white;
          StartSweep();
        case InsideAtomic =>
        case SweepAll => SweepMore(n);
        case SweepFin => SweepMore(n);
        case SweepToBeFin => SweepMore(n);
        case SweepEnd =>
          if main in heap {
            heap := heap[main := heap[main].(color := White(white))];
            phase := CallFin;
          }
        case CallFin =>
          if tobefnz == [] { phase := Pause; }
      }
    }

    // ----- what the program calls -----

    method NewObject(id: Id, kind: Kind)
      requires id !in heap
      modifies this
      ensures View() == Allocated(old(View()), id, kind)
    {
      heap := heap[id := Obj(kind, White(white), [], [])];
      allgc := [id] + allgc;
      if phase.SweepAll? && sweep.Some? { sweep := Some(sweep.value + 1); }
    }

    /** Stores references in p, one of them v, and takes the barrier. */
    method StoreRefs(p: Id, refs: seq<Id>, v: Id, back: bool)
      requires p in heap
      modifies this
      ensures View() == Barrier(SetObj(old(View()), p, old(heap)[p].(refs := refs)), p, v, back)
    {
      hide Mark;
      heap := heap[p := heap[p].(refs := refs)];
      if heap[p].color.Black? && v in heap && heap[v].color.White? {
        if back {
          heap := heap[p := heap[p].(color := Gray)];
          grayagain := [p] + grayagain;
        } else if phase.Propagate? || phase.Atomic? {
          ReallyMark(v);
        } else {
          heap := heap[p := heap[p].(color := White(white))];
        }
      }
    }
  }

  /** A pass over the tables from the i-th on, one table at a time. */
  lemma PassFirst(g: Gc, tables: seq<Id>, i: nat, changed: bool)
    requires i < |tables|
    ensures var r := EphemeronPass(g, tables[i..]);
      Pass(r.g, changed || r.changed) ==
        if tables[i] !in g.heap then (var t := EphemeronPass(g, tables[i + 1..]); Pass(t.g, changed || t.changed))
        else
          var v := TraverseEphemeron(g, tables[i]);
          var t := EphemeronPass(if v.marked then PropagateAll(v.g) else v.g, tables[i + 1..]);
          Pass(t.g, changed || v.marked || t.changed)
  {
    hide TraverseEphemeron, PropagateAll;
    assert tables[i..][0] == tables[i] && tables[i..][1..] == tables[i + 1..];
  }

  lemma PassEnd(g: Gc)
    ensures EphemeronPass(g, []) == Pass(g, false)
  {
  }

  /** Clearing the entries from the i-th on, one entry at a time. */
  lemma ClearFirst(g: Gc, es: seq<Entry>, i: nat, kept: seq<Entry>, keys: bool)
    requires i < |es|
    ensures var c := IsCleared(g, if keys then es[i].key else es[i].val);
      var r, t := ClearEntries(g, es[i..], keys), ClearEntries(c.g, es[i + 1..], keys);
      r.g == t.g && kept + r.kept == (if c.cleared then kept else kept + [es[i]]) + t.kept
  {
    assert es[i..][0] == es[i] && es[i..][1..] == es[i + 1..];
    var c := IsCleared(g, if keys then es[i].key else es[i].val);
    var t := ClearEntries(c.g, es[i + 1..], keys).kept;
    assert kept + ([es[i]] + t) == (kept + [es[i]]) + t;
  }

  /** Fewer white objects, or the same. */
  lemma MarkFits(h: Heap, h0: Heap)
    requires Whites(h) <= Whites(h0)
    ensures Whites(h) < Whites(h0) || Whites(h) == Whites(h0)
  {
  }
}

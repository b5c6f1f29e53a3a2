/** Propagation and ephemeron convergence: what they leave behind, and that they mark
    nothing that is not forced. */
module GcConverge {
  import opened GcHeap
  import opened GcMarking
  import opened GcInvariant
  import opened GcTraverse

  lemma {:induction false} PropagateAllTri(g: Gc, late: bool, pass: seq<Id>)
    requires Tri(g, late, pass)
    ensures var g' := PropagateAll(g);
      Tri(g', late, pass) && Progress(g, g') && forall e :: e in g.ephemeron ==> e in g'.ephemeron
    decreases Whites(g.heap), |g.gray|
  {
    hide Tri, PropagateMark;
    if g.gray != [] {
      var g1 := PropagateMark(g);
      PropagateMarkTri(g, late, pass);
      assert Whites(g1.heap) < Whites(g.heap) || Whites(g1.heap) == Whites(g.heap);
      PropagateAllTri(g1, late, pass);
      ProgressTrans(g, g1, PropagateAll(g1));
    }
  }

  // ----- one pass -----

  /** The tables of a pass. */
  ghost predicate Visitable(g: Gc, tables: seq<Id>) {
    forall o :: o in tables ==> Marked(g.heap, o) && g.heap[o].kind.Ephemeron? && AllMarked(g.heap, g.heap[o].refs)
  }

  lemma VisitableProgress(g: Gc, g': Gc, tables: seq<Id>)
    requires Visitable(g, tables) && Progress(g, g')
    ensures Visitable(g', tables)
  {
  }

  /** Marking strings only leaves quiet tables quiet. */
  lemma QuietProgress(g: Gc, g': Gc, o: Id)
    requires Quiet(g, o) && Progress(g, g') && OnlyStrings(g, g')
    ensures Quiet(g', o)
  {
  }

  lemma OnlyStringsTrans(g: Gc, g1: Gc, g2: Gc)
    requires Progress(g, g1) && Progress(g1, g2) && OnlyStrings(g, g1) && OnlyStrings(g1, g2)
    ensures OnlyStrings(g, g2)
  {
  }

  lemma StringsLeaveGray(g: Gc, g1: Gc)
    requires Marks(g, g1) && OnlyStrings(g, g1) && g.gray == []
    ensures g1.gray == []
  {
    HasElement(g1.gray);
  }

  lemma HasElement(xs: seq<Id>)
    ensures xs != [] ==> exists o :: o in xs
  {
    if xs != [] { assert xs[0] in xs; }
  }

  lemma DropFirst(g: Gc, tables: seq<Id>)
    requires Tri(g, true, tables) && tables != []
    ensures TriBut(g, true, tables[1..], tables[0])
  {
    forall o | Marked(g.heap, o) && o != tables[0] ensures Good(g, true, tables[1..], o) {
      assert Good(g, true, tables, o);
      if o in tables { TailIn(tables, o); }
    }
  }

  /** Visiting one table of a pass, and propagating what it marked. */
  function VisitTable(g: Gc, o: Id): Gc
    requires o in g.heap
  {
    var t := TraverseEphemeron(g, o);
    if t.marked then PropagateAll(t.g) else t.g
  }

  lemma VisitTableOk(g: Gc, tables: seq<Id>)
    requires Tri(g, true, tables) && Visitable(g, tables) && tables != [] && tables[0] in g.heap && g.gray == []
    ensures var o := tables[0]; var g' := VisitTable(g, o);
      && Tri(g', true, tables[1..]) && Progress(g, g') && Visitable(g', tables[1..]) && g'.gray == []
      && (!TraverseEphemeron(g, o).marked ==>
            OnlyStrings(g, g') && Quiet(g', o) && forall e :: e in g'.ephemeron ==> e in g.ephemeron || e == o)
  {
    var o, t := tables[0], TraverseEphemeron(g, tables[0]);
    DropFirst(g, tables);
    TraverseEphemeronOk(g, o);
    TraverseTri(g, t.g, true, tables[1..], o);
    hide Tri, TriBut;
    var g1 :| Marks(g, g1) && t.g.heap == g1.heap && t.g.gray == g1.gray;
    if t.marked {
      PropagateAllTri(t.g, true, tables[1..]);
      ProgressTrans(g, t.g, PropagateAll(t.g));
    } else {
      StringsLeaveGray(g, g1);
    }
    VisitableProgress(g, VisitTable(g, o), tables[1..]);
  }

  lemma {:induction false} EphemeronPassOk(g: Gc, tables: seq<Id>)
    requires Tri(g, true, tables) && Visitable(g, tables) && g.gray == []
    ensures var r := EphemeronPass(g, tables);
      && Tri(r.g, true, []) && Progress(g, r.g) && r.g.gray == []
      && (!r.changed ==>
            && OnlyStrings(g, r.g) && (forall o :: o in tables ==> Quiet(r.g, o))
            && forall e :: e in r.g.ephemeron ==> e in g.ephemeron || e in tables)
    decreases |tables|
  {
    if tables != [] {
      assert tables[0] in tables;
      var o, t := tables[0], TraverseEphemeron(g, tables[0]);
      var g1, r := VisitTable(g, o), EphemeronPass(g, tables);
      VisitTableOk(g, tables);
      EphemeronPassOk(g1, tables[1..]);
      hide Tri, TraverseEphemeron, Visitable;
      ProgressTrans(g, g1, r.g);
      if !r.changed {
        OnlyStringsTrans(g, g1, r.g);
        QuietProgress(g1, r.g, o);
        forall x | x in tables ensures Quiet(r.g, x) {
          if x != o { TailIn(tables, x); }
        }
      }
    }
  }

  // ----- convergence -----

  /** At the start of a round the listed tables are those of the pass. */
  lemma RoundStart(g: Gc)
    requires Tri(g, true, []) && g.gray == []
    ensures Tri(g.(ephemeron := []), true, g.ephemeron) && Visitable(g.(ephemeron := []), g.ephemeron)
  {
    var g' := g.(ephemeron := []);
    forall o | o in g.ephemeron ensures Settled(g, o) { assert Good(g, true, [], o); }
    forall o | Marked(g'.heap, o) ensures Good(g', true, g.ephemeron, o) {
      assert Good(g, true, [], o);
    }
  }

  /** Convergence ends with every ephemeron table done: a marked key has a marked value,
      and a table that still has unmarked keys is on a list to be cleared. */
  lemma {:induction false} ConvergeOk(g: Gc)
    requires Tri(g, true, []) && g.gray == []
    ensures var g' := Converge(g);
      && Tri(g', true, []) && g'.gray == []
      && Progress(g.(ephemeron := []), g'.(ephemeron := []))
      && (forall o :: o in g'.ephemeron ==> Quiet(g', o))
    decreases Whites(g.heap)
  {
    var g0, r := g.(ephemeron := []), EphemeronPass(g.(ephemeron := []), g.ephemeron);
    RoundStart(g);
    EphemeronPassOk(g0, g.ephemeron);
    if r.changed {
      hide Tri, EphemeronPass, Quiet;
      ConvergeOk(r.g);
      ProgressTrans(g0, r.g.(ephemeron := []), Converge(r.g).(ephemeron := []));
    }
  }
}

/** Marking keeps what it should and marks what it must. */
module GcMarking {
  import opened GcHeap

  lemma MarksRefl(g: Gc)
    ensures Marks(g, g)
  {
  }

  lemma MarksMarked(g: Gc, g': Gc, o: Id)
    requires Marks(g, g') && Marked(g.heap, o)
    ensures Marked(g'.heap, o)
  {
  }

  lemma MarksTrans(g: Gc, g1: Gc, g2: Gc)
    requires Marks(g, g1) && Marks(g1, g2)
    ensures Marks(g, g2)
  {
  }

  lemma {:induction false} MarkMarks(g: Gc, o: Id)
    requires IsWhite(g.heap, o)
    ensures Marks(g, Mark(g, o)) && Marked(Mark(g, o).heap, o)
    decreases Whites(g.heap), 0
  {
    var k := g.heap[o].kind;
    if k.Userdata? {
      var g1 := Painted(g, o, Black);
      MarkAllMarks(g1, g.heap[o].refs);
      var g' := Mark(g, o);
      UserdataMarks(g, o, g1, g');
    } else if !k.Str? {
    } else {
    }
  }

  lemma UserdataMarks(g: Gc, o: Id, g1: Gc, g': Gc)
    requires IsWhite(g.heap, o) && g.heap[o].kind.Userdata? && g1 == Painted(g, o, Black) && Marks(g1, g')
    requires forall r :: r in g.heap[o].refs && r in g.heap ==> Marked(g'.heap, r)
    ensures Marks(g, g') && Marked(g'.heap, o)
  {
    assert Marked(g1.heap, o);
  }

  lemma {:induction false} MarkAllMarks(g: Gc, refs: seq<Id>)
    ensures Marks(g, MarkAll(g, refs))
    ensures forall r :: r in refs && r in g.heap ==> Marked(MarkAll(g, refs).heap, r)
    decreases Whites(g.heap), 2, |refs|
  {
    if refs != [] {
      var g1 := MarkIf(g, refs[0]);
      MarkIfMarks(g, refs[0]);
      assert Whites(g1.heap) < Whites(g.heap) || Whites(g1.heap) == Whites(g.heap);
      MarkAllMarks(g1, refs[1..]);
      MarksTrans(g, g1, MarkAll(g, refs));
      forall r | r in refs && r in g.heap ensures Marked(MarkAll(g, refs).heap, r) {
        if r == refs[0] { MarksMarked(g1, MarkAll(g, refs), r); } else { assert r in refs[1..]; }
      }
    }
  }

  lemma {:induction false} MarkIfMarks(g: Gc, o: Id)
    ensures Marks(g, MarkIf(g, o))
    ensures o in g.heap ==> Marked(MarkIf(g, o).heap, o)
    decreases Whites(g.heap), 1
  {
    if IsWhite(g.heap, o) { MarkMarks(g, o); } else { MarksRefl(g); }
  }
}

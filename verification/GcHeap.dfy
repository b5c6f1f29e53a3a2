/** Collectable objects, their colours and the lists the collector keeps, with the
    collector's marking and sweeping steps as functions. */
module GcHeap {
  import opened Common

  type Id = nat
  /** Weak tables differ in which parts of their entries keep objects alive. Functions
      stand for closures and prototypes, tables for tables without a weak mode. */
  datatype Kind = Str | Userdata | Function | Table | Thread | Ephemeron | WeakValue | AllWeak

  /** There are two whites; at any time one is current and the other may mean dead. */
  datatype Color = White(bit: bool) | Gray | Black

  /** An entry of a weak table; None is a key or value that is not collectable. */
  datatype Entry = Entry(key: Option<Id>, val: Option<Id>)

  /** `refs` are the references that always keep their targets alive, a metatable among
      them; only weak tables have entries. */
  datatype Obj = Obj(kind: Kind, color: Color, refs: seq<Id>, entries: seq<Entry>)

  type Heap = map<Id, Obj>

  datatype Phase = Pause | Propagate | Atomic | InsideAtomic | SweepAll | SweepFin | SweepToBeFin | SweepEnd | CallFin

  datatype Gc = Gc(
    heap: Heap, white: bool, phase: Phase,
    main: Id, roots: seq<Id>,
    gray: seq<Id>, grayagain: seq<Id>, weak: seq<Id>, ephemeron: seq<Id>, allweak: seq<Id>,
    allgc: seq<Id>, finobj: seq<Id>, tobefnz: seq<Id>, sweep: Option<nat>)

  predicate IsWeak(k: Kind) {
    k.Ephemeron? || k.WeakValue? || k.AllWeak?
  }

  predicate IsWhite(h: Heap, o: Id) {
    o in h && h[o].color.White?
  }

  predicate Marked(h: Heap, o: Id) {
    o in h && !h[o].color.White?
  }

  /** A key or value that needs no marking (any more). */
  predicate Kept(h: Heap, x: Option<Id>) {
    x.Some? ==> Marked(h, x.value)
  }

  function Whites(h: Heap): set<Id> {
    set o | o in h && h[o].color.White?
  }

  function Paint(g: Gc, o: Id, c: Color): Gc
    requires o in g.heap
  {
    g.(heap := g.heap[o := g.heap[o].(color := c)])
  }

  // ----- marking -----

  /** What marking does: white objects become gray, on the gray list, or black; nothing
      else changes. */
  ghost predicate Marks(g: Gc, g': Gc) {
    && g'.heap.Keys == g.heap.Keys
    && (forall o :: o in g.heap ==> g'.heap[o] == g.heap[o].(color := g'.heap[o].color))
    && (forall o :: Marked(g.heap, o) ==> g'.heap[o] == g.heap[o])
    && (forall o :: IsWhite(g'.heap, o) ==> g'.heap[o] == g.heap[o])
    && (forall o :: IsWhite(g.heap, o) && Marked(g'.heap, o) ==>
          if g.heap[o].kind.Str? || g.heap[o].kind.Userdata?
          then g'.heap[o].color.Black? && (g.heap[o].kind.Userdata? ==>
            forall r :: r in g.heap[o].refs && r in g.heap ==> Marked(g'.heap, r))
          else g'.heap[o].color.Gray? && o in g'.gray)
    && g' == g.(heap := g'.heap, gray := g'.gray)
    && (forall o :: o in g.gray ==> o in g'.gray)
    && (forall o :: o in g'.gray ==> o in g.gray || (IsWhite(g.heap, o) && g'.heap[o].color.Gray?))
  }

  /** Strings and userdata turn black at once, the latter with what they refer to; other
      objects wait on the gray list. */
  function Mark(g: Gc, o: Id): (g': Gc)
    requires IsWhite(g.heap, o)
    ensures Whites(g'.heap) < Whites(g.heap) && g'.heap.Keys == g.heap.Keys
    decreases Whites(g.heap), 0
  {
    var k := g.heap[o].kind;
    if k.Str? then Painted(g, o, Black)
    else if k.Userdata? then MarkAll(Painted(g, o, Black), g.heap[o].refs)
    else Painted(g, o, Gray).(gray := [o] + g.gray)
  }

  function Painted(g: Gc, o: Id, c: Color): (g': Gc)
    requires IsWhite(g.heap, o) && !c.White?
    ensures Whites(g'.heap) < Whites(g.heap) && g'.heap.Keys == g.heap.Keys
  {
    var g' := Paint(g, o, c);
    assert o in Whites(g.heap) && o !in Whites(g'.heap);
    g'
  }

  function MarkIf(g: Gc, o: Id): (g': Gc)
    ensures Whites(g'.heap) <= Whites(g.heap) && g'.heap.Keys == g.heap.Keys
    ensures Whites(g'.heap) == Whites(g.heap) ==> g'.gray == g.gray
    decreases Whites(g.heap), 1
  {
    if IsWhite(g.heap, o) then Mark(g, o) else g
  }

  function MarkAll(g: Gc, refs: seq<Id>): (g': Gc)
    ensures Whites(g'.heap) <= Whites(g.heap) && g'.heap.Keys == g.heap.Keys
    ensures Whites(g'.heap) == Whites(g.heap) ==> g'.gray == g.gray
    decreases Whites(g.heap), 2, |refs|
  {
    if refs == [] then g
    else
      var g1 := MarkIf(g, refs[0]);
      assert Whites(g1.heap) < Whites(g.heap) || Whites(g1.heap) == Whites(g.heap);
      MarkAll(g1, refs[1..])
  }

  // ----- traversing gray objects -----

  datatype Scan = Scan(g: Gc, marked: bool, hasclears: bool, hasww: bool)

  datatype Check = Check(g: Gc, cleared: bool)

  /** Whether a weak key or value is to be cleared; strings are marked instead. */
  function IsCleared(g: Gc, x: Option<Id>): (c: Check)
    ensures Whites(c.g.heap) <= Whites(g.heap) && c.g.heap.Keys == g.heap.Keys
    ensures Whites(c.g.heap) == Whites(g.heap) ==> c.g.gray == g.gray
    ensures c.g == g.(heap := c.g.heap)
  {
    if x.None? || x.value !in g.heap then Check(g, false)
    else if g.heap[x.value].kind.Str? then
      assert IsWhite(g.heap, x.value) ==> Mark(g, x.value) == Painted(g, x.value, Black);
      Check(MarkIf(g, x.value), false)
    else Check(g, IsWhite(g.heap, x.value))
  }

  predicate WhiteValue(g: Gc, x: Option<Id>) {
    x.Some? && IsWhite(g.heap, x.value)
  }

  /** One entry of an ephemeron table: a marked key marks its value. */
  function EphemeronEntry(r: Scan, e: Entry): (r': Scan)
    ensures Whites(r'.g.heap) <= Whites(r.g.heap) && r'.g.heap.Keys == r.g.heap.Keys
    ensures Whites(r'.g.heap) == Whites(r.g.heap) ==> r'.g.gray == r.g.gray && r'.marked == r.marked
    ensures r.marked ==> r'.marked
  {
    var c := IsCleared(r.g, e.key);
    if c.cleared then Scan(c.g, r.marked, true, r.hasww || WhiteValue(c.g, e.val))
    else if WhiteValue(c.g, e.val) then Scan(MarkIf(c.g, e.val.value), true, r.hasclears, r.hasww)
    else r.(g := c.g)
  }

  function EphemeronEntries(r: Scan, es: seq<Entry>): (r': Scan)
    ensures Whites(r'.g.heap) <= Whites(r.g.heap) && r'.g.heap.Keys == r.g.heap.Keys
    ensures Whites(r'.g.heap) == Whites(r.g.heap) ==> r'.g.gray == r.g.gray && r'.marked == r.marked
    ensures r.marked ==> r'.marked
    decreases |es|
  {
    if es == [] then r else EphemeronEntries(EphemeronEntry(r, es[0]), es[1..])
  }

  /** Outside the propagate phase a table with white keys and white values has to be seen
      again, one with white keys only has to be cleared. */
  function LinkEphemeron(r: Scan, o: Id): Gc {
    if r.g.phase.Propagate? then r.g.(grayagain := [o] + r.g.grayagain)
    else if r.hasww then r.g.(ephemeron := [o] + r.g.ephemeron)
    else if r.hasclears then r.g.(allweak := [o] + r.g.allweak)
    else r.g
  }

  function TraverseEphemeron(g: Gc, o: Id): (r: Scan)
    requires o in g.heap
    ensures Whites(r.g.heap) <= Whites(g.heap) && r.g.heap.Keys == g.heap.Keys
    ensures Whites(r.g.heap) == Whites(g.heap) ==> r.g.gray == g.gray && !r.marked
  {
    var r := EphemeronEntries(Scan(g, false, false, false), g.heap[o].entries);
    r.(g := LinkEphemeron(r, o))
  }

  /** One entry of a table with weak values: the key is marked; a value that may have to be
      cleared is noted. An entry without a collectable key counts as array part. */
  function WeakValueEntry(c: Check, e: Entry): (c': Check)
    ensures Whites(c'.g.heap) <= Whites(c.g.heap) && c'.g.heap.Keys == c.g.heap.Keys
    ensures Whites(c'.g.heap) == Whites(c.g.heap) ==> c'.g.gray == c.g.gray
  {
    if e.key.None? then Check(c.g, true)
    else
      var g1 := MarkIf(c.g, e.key.value);
      if c.cleared then Check(g1, true) else IsCleared(g1, e.val)
  }

  function WeakValueEntries(c: Check, es: seq<Entry>): (c': Check)
    ensures Whites(c'.g.heap) <= Whites(c.g.heap) && c'.g.heap.Keys == c.g.heap.Keys
    ensures Whites(c'.g.heap) == Whites(c.g.heap) ==> c'.g.gray == c.g.gray
    decreases |es|
  {
    if es == [] then c else WeakValueEntries(WeakValueEntry(c, es[0]), es[1..])
  }

  function TraverseWeakValue(g: Gc, o: Id): (g': Gc)
    requires o in g.heap
    ensures Whites(g'.heap) <= Whites(g.heap) && g'.heap.Keys == g.heap.Keys
    ensures Whites(g'.heap) == Whites(g.heap) ==> g'.gray == g.gray
  {
    var c := WeakValueEntries(Check(g, false), g.heap[o].entries);
    if c.g.phase.Propagate? then c.g.(grayagain := [o] + c.g.grayagain)
    else if c.cleared then c.g.(weak := [o] + c.g.weak)
    else c.g
  }

  /** Visits the first gray object. Weak tables and threads stay gray. */
  function PropagateMark(g: Gc): (g': Gc)
    requires g.gray != []
    ensures Whites(g'.heap) <= Whites(g.heap) && g'.heap.Keys == g.heap.Keys
    ensures Whites(g'.heap) == Whites(g.heap) ==> g'.gray == g.gray[1..]
  {
    var o := g.gray[0];
    var g0 := g.(gray := g.gray[1..]);
    if !Marked(g.heap, o) then g0
    else
      var k, refs := g.heap[o].kind, g.heap[o].refs;
      if k.Table? || k.Function? then MarkAll(Repaint(g0, o, Black), refs)
      else if k.Thread? then MarkAll(g0.(grayagain := [o] + g0.grayagain), refs)
      else if k.WeakValue? then TraverseWeakValue(MarkAll(g0, refs), o)
      else if k.Ephemeron? then TraverseEphemeron(MarkAll(g0, refs), o).g
      else if k.AllWeak? then var g1 := MarkAll(g0, refs); g1.(allweak := [o] + g1.allweak)
      else g0
  }

  function Repaint(g: Gc, o: Id, c: Color): (g': Gc)
    requires Marked(g.heap, o) && !c.White?
    ensures Whites(g'.heap) == Whites(g.heap) && g'.heap.Keys == g.heap.Keys
  {
    Paint(g, o, c)
  }

  /** Visits gray objects until none is left. */
  function PropagateAll(g: Gc): (g': Gc)
    ensures Whites(g'.heap) <= Whites(g.heap) && g'.heap.Keys == g.heap.Keys && g'.gray == []
    decreases Whites(g.heap), |g.gray|
  {
    if g.gray == [] then g
    else
      var g1 := PropagateMark(g);
      assert Whites(g1.heap) < Whites(g.heap) || Whites(g1.heap) == Whites(g.heap);
      PropagateAll(g1)
  }

  datatype Pass = Pass(g: Gc, changed: bool)

  /** One pass over ephemeron tables; whatever a table marks is propagated at once. */
  function EphemeronPass(g: Gc, tables: seq<Id>): (r: Pass)
    ensures Whites(r.g.heap) <= Whites(g.heap) && r.g.heap.Keys == g.heap.Keys
    ensures r.changed ==> Whites(r.g.heap) < Whites(g.heap)
    decreases |tables|
  {
    if tables == [] then Pass(g, false)
    else if tables[0] !in g.heap then EphemeronPass(g, tables[1..])
    else
      var t := TraverseEphemeron(g, tables[0]);
      var g1 := if t.marked then PropagateAll(t.g) else t.g;
      var r := EphemeronPass(g1, tables[1..]);
      Pass(r.g, t.marked || r.changed)
  }

  /** Passes over the ephemeron list until one changes nothing. */
  function Converge(g: Gc): (g': Gc)
    ensures Whites(g'.heap) <= Whites(g.heap) && g'.heap.Keys == g.heap.Keys
    decreases Whites(g.heap)
  {
    var r := EphemeronPass(g.(ephemeron := []), g.ephemeron);
    if r.changed then Converge(r.g) else r.g
  }
}

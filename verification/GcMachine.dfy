/** The collector and the running program as a state machine: single collector steps
    interleave with allocations, writes and their barriers. */
module GcMachine {
  import opened Common
  import opened GcHeap
  import opened GcInvariant
  import opened GcAtomic

  // ----- what the program can reach -----

  predicate Edge(ob: Obj, r: Id) {
    r in ob.refs || exists e :: e in ob.entries && (e.key == Some(r) || e.val == Some(r))
  }

  /** Each object on the path refers to the next, weakly or not. */
  ghost predicate Path(h: Heap, p: seq<Id>) {
    && p != []
    && forall i :: 0 <= i < |p| - 1 ==> p[i] in h && Edge(h[p[i]], p[i + 1])
  }

  predicate IsRoot(g: Gc, o: Id) {
    o in g.roots || o in g.tobefnz
  }

  ghost predicate Accessible(g: Gc, o: Id) {
    exists p :: Path(g.heap, p) && IsRoot(g, p[0]) && p[|p| - 1] == o
  }

  // ----- sweeping -----

  predicate Dead(g: Gc, o: Id) {
    o in g.heap && g.heap[o].color == White(!g.white)
  }

  datatype Sweep = Sweep(heap: Heap, list: seq<Id>, at: Option<nat>)

  /** Sweeps at most n objects from position i on: dead ones are freed, others turn white. */
  function SweepList(h: Heap, white: bool, list: seq<Id>, i: nat, n: nat): Sweep
    decreases n
  {
    if i >= |list| then Sweep(h, list, None)
    else if n == 0 then Sweep(h, list, Some(i))
    else
      var o := list[i];
      if o !in h then SweepList(h, white, list, i + 1, n - 1)
      else if h[o].color == White(!white) then SweepList(h - {o}, white, list[..i] + list[i + 1..], i, n - 1)
      else SweepList(h[o := h[o].(color := White(white))], white, list, i + 1, n - 1)
  }

  /** Sweeps up to and including the first live object. */
  function SweepToLive(h: Heap, white: bool, list: seq<Id>, i: nat): Sweep
    decreases |list| - i
  {
    if i >= |list| then Sweep(h, list, None)
    else
      var o := list[i];
      if o in h && h[o].color == White(!white) then SweepToLive(h - {o}, white, list[..i] + list[i + 1..], i)
      else
        var h' := if o in h then h[o := h[o].(color := White(white))] else h;
        Sweep(h', list, if i + 1 < |list| then Some(i + 1) else None)
  }

  function EnterSweep(g: Gc): Gc {
    var r := SweepToLive(g.heap, g.white, g.allgc, 0);
    g.(phase := SweepAll, heap := r.heap, allgc := r.list, sweep := r.at)
  }

  predicate Sweeping(p: Phase) {
    p.SweepAll? || p.SweepFin? || p.SweepToBeFin? || p.SweepEnd?
  }

  predicate MarkingPhase(p: Phase) {
    p.Propagate? || p.Atomic?
  }

  // ----- collector steps -----

  function Restart(g: Gc): Gc {
    MarkAll(g.(gray := [], grayagain := [], weak := [], allweak := [], ephemeron := [], phase := Propagate),
      g.roots + g.tobefnz)
  }

  function PropagateStep(g: Gc): Gc
    requires g.gray != []
  {
    var g1 := PropagateMark(g);
    if g1.gray == [] then g1.(phase := Atomic) else g1
  }

  function AtomicStep(g: Gc): Gc {
    var g1 := AtomicMark(g);
    EnterSweep(g1.(white := !g1.white))
  }

  /** Sweeps a little more of the current list, or goes on to the next. */
  function SweepStep(g: Gc, n: nat): Gc {
    if g.phase.SweepAll? then
      var r := if g.sweep.Some? then SweepList(g.heap, g.white, g.allgc, g.sweep.value, n)
        else Sweep(g.heap, g.allgc, None);
      var g1 := g.(heap := r.heap, allgc := r.list);
      if r.at.Some? then g1.(sweep := r.at) else g1.(phase := SweepFin, sweep := Some(0))
    else if g.phase.SweepFin? then
      var r := if g.sweep.Some? then SweepList(g.heap, g.white, g.finobj, g.sweep.value, n)
        else Sweep(g.heap, g.finobj, None);
      var g1 := g.(heap := r.heap, finobj := r.list);
      if r.at.Some? then g1.(sweep := r.at) else g1.(phase := SweepToBeFin, sweep := Some(0))
    else
      var r := if g.sweep.Some? then SweepList(g.heap, g.white, g.tobefnz, g.sweep.value, n)
        else Sweep(g.heap, g.tobefnz, None);
      var g1 := g.(heap := r.heap, tobefnz := r.list);
      if r.at.Some? then g1.(sweep := r.at) else g1.(phase := SweepEnd, sweep := None)
  }

  /** One step of the collector; n bounds how much a sweeping step does. */
  function SingleStep(g: Gc, n: nat): Gc
    requires g.phase.Propagate? ==> g.gray != []
  {
    match g.phase
    case Pause => Restart(g)
    case Propagate => PropagateStep(g)
    case Atomic => AtomicStep(g)
    case InsideAtomic => g
    case SweepAll => SweepStep(g, n)
    case SweepFin => SweepStep(g, n)
    case SweepToBeFin => SweepStep(g, n)
    case SweepEnd => if g.main in g.heap then Paint(g, g.main, White(g.white)).(phase := CallFin) else g
    case CallFin => if g.tobefnz == [] then g.(phase := Pause) else g
  }

  // ----- the running program -----

  /** The barrier after p was made to refer to v: forward barriers mark v, backward ones
      make p gray again. While sweeping, the forward barrier sweeps p. */
  function Barrier(g: Gc, p: Id, v: Id, back: bool): Gc {
    if !(p in g.heap && g.heap[p].color.Black? && IsWhite(g.heap, v)) then g
    else if back then Paint(g, p, Gray).(grayagain := [p] + g.grayagain)
    else if MarkingPhase(g.phase) then Mark(g, v)
    else Paint(g, p, White(g.white))
  }

  function SetObj(g: Gc, p: Id, ob: Obj): Gc {
    g.(heap := g.heap[p := ob])
  }

  /** A new object starts in the current white at the head of the list, before the point
      the sweep has reached. */
  function Allocated(g: Gc, id: Id, kind: Kind): Gc {
    g.(heap := g.heap[id := Obj(kind, White(g.white), [], [])], allgc := [id] + g.allgc,
       sweep := if g.phase.SweepAll? && g.sweep.Some? then Some(g.sweep.value + 1) else g.sweep)
  }

  datatype Step =
    | Collect(n: nat)
    | Abort
    | New(id: Id, kind: Kind, th: Id)
    | SetRefs(p: Id, refs: seq<Id>, v: Id, back: bool)
    | SetEntries(p: Id, entries: seq<Entry>, e: Entry)
    | SetMode(p: Id, kind: Kind, refs: seq<Id>, entries: seq<Entry>)
    | SetRoots(roots: seq<Id>)
    | SetFinalizer(o: Id)
    | Finalize(th: Id)

  predicate IsThread(g: Gc, th: Id) {
    th in g.heap && g.heap[th].kind.Thread?
  }

  ghost predicate Known(g: Gc, x: Option<Id>) {
    x.Some? ==> Accessible(g, x.value)
  }

  predicate IsTable(k: Kind) {
    k.Table? || IsWeak(k)
  }

  /** While marking, a table that is still to be visited, or to be visited again. */
  predicate Unvisited(g: Gc, p: Id)
    requires p in g.heap
  {
    || g.heap[p].color.White?
    || (g.heap[p].color.Gray? && (p in g.gray || p in g.grayagain)
        && p !in g.weak && p !in g.ephemeron && p !in g.allweak)
  }

  /** The program only uses what it can reach. Tables take backward barriers for their
      contents and forward ones for their metatables, other objects only forward ones. A
      table's kind is the mode it is next visited with: a new mode takes effect when the
      table is not visited yet, or will be visited again, and otherwise in the next cycle. */
  ghost predicate Enabled(g: Gc, st: Step) {
    match st
    case Collect(n) => g.phase.Propagate? ==> g.gray != []
    case Abort => MarkingPhase(g.phase)
    case New(id, kind, th) => id !in g.heap && Accessible(g, th) && IsThread(g, th)
    case SetRefs(p, refs, v, back) =>
      && Accessible(g, p) && Accessible(g, v) && p in g.heap && !g.heap[p].kind.Str?
      && (forall r :: r in refs ==> r in g.heap[p].refs || r == v)
      && (back ==> g.heap[p].kind.Table?)
    case SetEntries(p, es, e) =>
      && Accessible(g, p) && p in g.heap && IsWeak(g.heap[p].kind)
      && Known(g, e.key) && Known(g, e.val)
      && (forall x :: x in es ==> x in g.heap[p].entries || x == e)
    case SetMode(p, kind, refs, es) =>
      && Accessible(g, p) && p in g.heap && IsTable(g.heap[p].kind) && IsTable(kind) && (!IsWeak(kind) ==> es == [])
      && (MarkingPhase(g.phase) ==> Unvisited(g, p))
      && forall r :: Edge(Obj(kind, g.heap[p].color, refs, es), r) ==> Edge(g.heap[p], r)
    case SetRoots(roots) => g.main in roots && forall r :: r in roots ==> Accessible(g, r)
    case SetFinalizer(o) => Accessible(g, o) && o in g.allgc && !Sweeping(g.phase)
    case Finalize(th) => !Sweeping(g.phase) && g.tobefnz != [] && Accessible(g, th) && IsThread(g, th)
  }

  function Without(xs: seq<Id>, o: Id): seq<Id> {
    if xs == [] then [] else if xs[0] == o then xs[1..] else [xs[0]] + Without(xs[1..], o)
  }

  function Pushed(g: Gc, th: Id, o: Id): Gc
    requires th in g.heap
  {
    SetObj(g, th, g.heap[th].(refs := g.heap[th].refs + [o]))
  }

  ghost function Next(g: Gc, st: Step): Gc
    requires Enabled(g, st)
  {
    match st
    case Collect(n) => SingleStep(g, n)
    case Abort => EnterSweep(g)
    case New(id, kind, th) => Pushed(Allocated(g, id, kind), th, id)
    case SetRefs(p, refs, v, back) => Barrier(SetObj(g, p, g.heap[p].(refs := refs)), p, v, back)
    case SetEntries(p, es, e) => SetObj(g, p, g.heap[p].(entries := es))
    case SetMode(p, kind, refs, es) => SetObj(g, p, Obj(kind, g.heap[p].color, refs, es))
    case SetRoots(roots) => g.(roots := roots)
    case SetFinalizer(o) => g.(allgc := Without(g.allgc, o), finobj := [o] + g.finobj)
    case Finalize(th) =>
      Pushed(g.(allgc := [g.tobefnz[0]] + g.allgc, tobefnz := g.tobefnz[1..]), th, g.tobefnz[0])
  }

  /** The one write that can go wrong: a table whose keys and values are both weak has been
      visited, is not visited again, and gets an unmarked metatable without a barrier. */
  predicate Unguarded(g: Gc, st: Step) {
    && st.SetRefs? && MarkingPhase(g.phase) && st.v in st.refs && IsWhite(g.heap, st.v)
    && st.p in g.heap && g.heap[st.p].kind.AllWeak? && st.p in g.allweak && !(st.p in g.gray || st.p in g.grayagain)
  }
}

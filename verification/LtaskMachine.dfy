/** The task scheduler as a state machine. Each locked section, and each unlocked statement
    that touches shared state, is one atomic step; threads interleave between them. */
module LtaskMachine {
  import opened Common

  type Id = nat
  type Message = nat

  // ----- the scheduler's own fields -----

  /** `awake` holds the tasks whose stay-awake flag is set, `used` every id handed out. */
  datatype Sched = Sched(exit: bool, used: set<Id>, tasks: set<Id>, ready: seq<Id>, sleeping: set<Id>, awake: set<Id>)

  function Created(q: Sched, id: Id): Sched {
    q.(used := q.used + {id}, tasks := q.tasks + {id}, ready := q.ready + [id], awake := q.awake - {id})
  }

  /** Makes a sleeping task ready, or tells a task that is not asleep to stay awake. */
  function Resumed(q: Sched, id: Id): Sched {
    if id in q.sleeping then q.(sleeping := q.sleeping - {id}, ready := q.ready + [id])
    else if id in q.tasks then q.(awake := q.awake + {id})
    else q
  }

  /** After a run: a closed task is deleted, one told to stay awake is ready again. */
  function Settled(q: Sched, id: Id, closed: bool): Sched {
    if closed then q.(tasks := q.tasks - {id}, awake := q.awake - {id})
    else if id in q.awake then q.(ready := q.ready + [id])
    else q.(sleeping := q.sleeping + {id})
  }

  // ----- channels -----

  /** `counter` counts references; `leaked` those never given back; `receivers` the tasks
      that have ever received from the channel. */
  datatype Chan = Chan(data: seq<Message>, blockings: seq<Id>, counter: int, leaked: nat, receivers: set<Id>)

  function Pushed(c: Chan, msg: Message): Chan {
    c.(data := c.data + [msg], blockings := if c.blockings == [] then [] else c.blockings[1..])
  }

  function Popped(c: Chan): Chan {
    c.(data := if c.data == [] then [] else c.data[1..])
  }

  function Selected(c: Chan, source: Id): Chan {
    if c.data == [] then c.(blockings := c.blockings + [source]) else c
  }

  // ----- tasks -----

  /** One call of `select`: the channels before `i` have been tried. `live` are the
      channels that were open when it started, `registered` those it waits on. */
  datatype Pass = Pass(cs: seq<Id>, i: nat, live: set<Id>, registered: set<Id>)

  /** Where a task is in its program. */
  datatype Point =
    | Fresh
    | Free
    | Paused
    | Ended
    | Sending(c: Id, msg: Message)
    | Waking(id: Id)
    | Looking(p: Pass, recv: bool)
    | Trying(p: Pass, recv: bool)
    | Chosen(p: Pass)
    | Popping(c: Id, ctx: Option<Pass>)
    | Releasing(c: Id, got: bool, ctx: Option<Pass>)
    | Blocked(p: Pass)

  /** A thread of the pool: waiting on the condition variable, about to take the lock,
      or busy with a task: before, during or after its run. */
  datatype Worker =
    | Parked
    | Contending
    | Launching(t: Id)
    | Running(t: Id)
    | Returned(t: Id)
    | Stopped

  datatype State = State(q: Sched, point: map<Id, Point>, open: set<Id>, chans: map<Id, Chan>, workers: seq<Worker>)

  predicate Holds(w: Worker) {
    w.Launching? || w.Running? || w.Returned?
  }

  // ----- steps -----

  /** `wake` is the parked worker a notification reaches, if there is one. */
  datatype Step =
    | Acquire(w: nat)
    | Spurious(w: nat)
    | Launch(w: nat)
    | Return(w: nat)
    | Settle(w: nat)
    | SpawnOutside(id: Id, wake: nat)
    | Exit
    | Spawn(w: nat, id: Id, wake: nat)
    | OpenChannel(w: nat, id: Id)
    | CloseChannel(w: nat, c: Id)
    | Send(w: nat, c: Id, msg: Message)
    | PackFails(w: nat)
    | Select(w: nat, cs: seq<Id>, recv: bool)
    | RawReceive(w: nat, c: Id)
    | Yield(w: nat)
    | Finish(w: nat)
    | Advance(w: nat, wake: nat)

  /** Worker w is running task t, which is at one of its own statements. */
  predicate AtFree(s: State, w: nat) {
    w < |s.workers| && s.workers[w].Running? && s.workers[w].t in s.point && s.point[s.workers[w].t].Free?
  }

  predicate InCall(p: Point) {
    p.Sending? || p.Waking? || p.Looking? || p.Trying? || p.Chosen? || p.Popping? || p.Releasing?
  }

  predicate AtRest(p: Point) {
    p.Paused? || p.Blocked?
  }

  predicate AnyParked(ws: seq<Worker>) {
    exists w :: 0 <= w < |ws| && ws[w].Parked?
  }

  /** notify_one reaches a waiting worker whenever there is one. */
  predicate Reaches(ws: seq<Worker>, wake: nat) {
    AnyParked(ws) ==> wake < |ws| && ws[wake].Parked?
  }

  function Notified(ws: seq<Worker>, wake: nat): seq<Worker> {
    if wake < |ws| && ws[wake].Parked? then ws[wake := Contending] else ws
  }

  /** The loop head of a worker that holds the lock. */
  function LoopHead(s: State, w: nat): State
    requires w < |s.workers|
  {
    if s.q.exit then s.(workers := s.workers[w := Stopped])
    else if s.q.ready == [] then s.(workers := s.workers[w := Parked])
    else s.(workers := s.workers[w := Launching(s.q.ready[0])], q := s.q.(ready := s.q.ready[1..]))
  }

  function StartPass(s: State, cs: seq<Id>): Pass {
    Pass(cs, 0, s.open, {})
  }

  /** What a task does when it runs again: a blocked `recv` starts over. */
  function Restart(s: State, p: Point): Point {
    if p.Blocked? then Looking(StartPass(s, p.p.cs), true) else Free
  }

  /** A reference that is given back; without references the channel is deleted. */
  function Released(c: Chan): Chan {
    c.(counter := c.counter - 1)
  }

  function Goes(s: State, t: Id, p: Point): State {
    s.(point := s.point[t := p])
  }

  function Put(s: State, c: Id, ch: Chan): State {
    s.(chans := s.chans[c := ch])
  }

  /** The next channel of a pass, or the end of the pass. */
  function Look(s: State, t: Id, p: Pass, recv: bool): State {
    if p.i >= |p.cs| then Goes(s, t, if recv then Blocked(p) else Free)
    else
      var c := p.cs[p.i];
      if c in s.open && c in s.chans then
        Goes(Put(s, c, s.chans[c].(counter := s.chans[c].counter + 1, leaked := s.chans[c].leaked + 1,
                                   receivers := s.chans[c].receivers + {t})), t, Trying(p, recv))
      else Goes(s, t, Looking(p.(i := p.i + 1), recv))
  }

  /** do_select: the task waits on an empty channel, a channel with data is chosen. */
  function Try(s: State, t: Id, p: Pass, recv: bool): State {
    if p.i >= |p.cs| || p.cs[p.i] !in s.chans then s
    else
      var c := p.cs[p.i];
      if s.chans[c].data == [] then
        Goes(Put(s, c, Selected(s.chans[c], t)), t, Looking(p.(i := p.i + 1, registered := p.registered + {c}), recv))
      else Goes(s, t, if recv then Chosen(p) else Free)
  }

  /** get_channel of raw_recv. */
  function Grab(s: State, t: Id, c: Id, ctx: Option<Pass>): State {
    if c in s.open && c in s.chans then
      Goes(Put(s, c, s.chans[c].(counter := s.chans[c].counter + 1, receivers := s.chans[c].receivers + {t})), t,
        Popping(c, ctx))
    else Goes(s, t, if ctx.Some? then Blocked(ctx.value) else Free)
  }

  function Pop(s: State, t: Id, c: Id, ctx: Option<Pass>): State {
    if c !in s.chans then s
    else Goes(Put(s, c, Popped(s.chans[c])), t, Releasing(c, s.chans[c].data != [], ctx))
  }

  function Release(s: State, t: Id, c: Id, got: bool, ctx: Option<Pass>): State {
    if c !in s.chans then s
    else Goes(Put(s, c, Released(s.chans[c])), t, if ctx.Some? && !got then Blocked(ctx.value) else Free)
  }

  /** The locked part of push; the task it takes from the waiters is resumed later. */
  function Push(s: State, t: Id, c: Id, msg: Message): State {
    if c !in s.chans then s
    else
      var w := s.chans[c].blockings;
      Goes(Put(s, c, Pushed(s.chans[c], msg)), t, if w == [] then Free else Waking(w[0]))
  }

  function Wake(s: State, t: Id, id: Id, wake: nat): State {
    Goes(s.(q := Resumed(s.q, id), workers := if id in s.q.sleeping then Notified(s.workers, wake) else s.workers),
      t, Free)
  }

  function Continue(s: State, t: Id, p: Point, wake: nat): State
    requires InCall(p)
  {
    if p.Sending? then Push(s, t, p.c, p.msg)
    else if p.Waking? then Wake(s, t, p.id, wake)
    else if p.Looking? then Look(s, t, p.p, p.recv)
    else if p.Trying? then Try(s, t, p.p, p.recv)
    else if p.Chosen? then Grab(s, t, if p.p.i < |p.p.cs| then p.p.cs[p.p.i] else 0, Some(p.p))
    else if p.Popping? then Pop(s, t, p.c, p.ctx)
    else Release(s, t, p.c, p.got, p.ctx)
  }

  predicate Enabled(s: State, st: Step) {
    match st
    case Acquire(w) => w < |s.workers| && s.workers[w].Contending?
    case Spurious(w) => w < |s.workers| && s.workers[w].Parked?
    case Launch(w) => w < |s.workers| && s.workers[w].Launching? && s.workers[w].t in s.point
    case Return(w) => w < |s.workers| && s.workers[w].Running? && s.workers[w].t in s.point &&
                      (AtRest(s.point[s.workers[w].t]) || s.point[s.workers[w].t].Ended?)
    case Settle(w) => w < |s.workers| && s.workers[w].Returned? && s.workers[w].t in s.point
    case SpawnOutside(id, wake) => id !in s.q.used && Reaches(s.workers, wake)
    case Exit => true
    case Spawn(w, id, wake) => AtFree(s, w) && id !in s.q.used && Reaches(s.workers, wake)
    case OpenChannel(w, id) => AtFree(s, w) && id !in s.q.used
    case CloseChannel(w, c) => AtFree(s, w) && c in s.open && c in s.chans
    case Send(w, c, msg) => AtFree(s, w) && c in s.open && c in s.chans
    case PackFails(w) => w < |s.workers| && s.workers[w].Running? && s.workers[w].t in s.point
      && s.point[s.workers[w].t].Sending?
    case Select(w, cs, recv) => AtFree(s, w)
    case RawReceive(w, c) => AtFree(s, w)
    case Yield(w) => AtFree(s, w)
    case Finish(w) => AtFree(s, w)
    case Advance(w, wake) => w < |s.workers| && s.workers[w].Running? && s.workers[w].t in s.point &&
                             InCall(s.point[s.workers[w].t]) && Reaches(s.workers, wake)
  }

  function Spawned(s: State, id: Id, wake: nat): State {
    s.(q := Created(s.q, id), point := s.point[id := Fresh], workers := Notified(s.workers, wake))
  }

  function Woken(ws: seq<Worker>): seq<Worker> {
    seq(|ws|, i requires 0 <= i < |ws| => if ws[i].Parked? then Contending else ws[i])
  }

  function Next(s: State, st: Step): State
    requires Enabled(s, st)
  {
    match st
    case Acquire(w) => LoopHead(s, w)
    case Spurious(w) => s.(workers := s.workers[w := Contending])
    case Launch(w) =>
      var t := s.workers[w].t;
      Goes(s, t, Restart(s, s.point[t])).(q := s.q.(awake := s.q.awake - {t}), workers := s.workers[w := Running(t)])
    case Return(w) => s.(workers := s.workers[w := Returned(s.workers[w].t)])
    case Settle(w) =>
      var t := s.workers[w].t;
      var closed := s.point[t].Ended?;
      LoopHead(s.(q := Settled(s.q, t, closed), point := if closed then s.point - {t} else s.point,
                  workers := s.workers[w := Contending]), w)
    case SpawnOutside(id, wake) => Spawned(s, id, wake)
    case Exit => s.(q := s.q.(exit := true), workers := Woken(s.workers))
    case Spawn(w, id, wake) => Spawned(s, id, wake)
    case OpenChannel(w, id) =>
      s.(q := s.q.(used := s.q.used + {id}), open := s.open + {id}, chans := s.chans[id := Chan([], [], 1, 0, {})])
    case CloseChannel(w, c) => Put(s.(open := s.open - {c}), c, Released(s.chans[c]))
    case Send(w, c, msg) =>
      Goes(Put(s, c, s.chans[c].(counter := s.chans[c].counter + 1, leaked := s.chans[c].leaked + 1)),
        s.workers[w].t, Sending(c, msg))
    case PackFails(w) => Goes(s, s.workers[w].t, Free)
    case Select(w, cs, recv) => Goes(s, s.workers[w].t, Looking(StartPass(s, cs), recv))
    case RawReceive(w, c) => Grab(s, s.workers[w].t, c, None)
    case Yield(w) => Goes(s, s.workers[w].t, Paused)
    case Finish(w) => Goes(s, s.workers[w].t, Ended)
    case Advance(w, wake) => Continue(s, s.workers[w].t, s.point[s.workers[w].t], wake)
  }

  // ----- runs -----

  function Start(threads: nat): State {
    State(Sched(false, {0}, {}, [], {}, {}), map[], {}, map[], seq(threads, _ => Contending))
  }

  /** Every step can be taken in the state the steps before it lead to. */
  predicate IsRun(s: State, steps: seq<Step>)
    decreases |steps|
  {
    steps == [] || (Enabled(s, steps[0]) && IsRun(Next(s, steps[0]), steps[1..]))
  }

  function After(s: State, steps: seq<Step>): State
    requires IsRun(s, steps)
    decreases |steps|
  {
    if steps == [] then s else After(Next(s, steps[0]), steps[1..])
  }
}

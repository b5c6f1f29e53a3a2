/** Messages, waiting receivers and ready tasks come out of their queues in the order in
    which they went in, each once. */
module LtaskDelivery {
  import opened Common
  import opened LtaskMachine
  import opened LtaskPlacement
  import opened LtaskWakeup
  import opened LtaskReferences
  import opened LtaskRuns

  // ----- what a step does to a queue -----

  /** The task that makes a call step. */
  predicate Calls(s: State, st: Step) {
    st.Advance? && Enabled(s, st)
  }

  function Caller(s: State, st: Step): Point
    requires Calls(s, st)
  {
    s.point[s.workers[st.w].t]
  }

  /** The message that a step sends to channel c. */
  function Sent(s: State, st: Step, c: Id): seq<Message> {
    if Calls(s, st) && Caller(s, st).Sending? && Caller(s, st).c == c then [Caller(s, st).msg] else []
  }

  /** The message that a step takes from channel c. */
  function Received(s: State, st: Step, c: Id): seq<Message> {
    if Calls(s, st) && Caller(s, st).Popping? && Caller(s, st).c == c && c in s.chans && s.chans[c].data != []
    then [s.chans[c].data[0]] else []
  }

  /** The receiver that a step registers with channel c, because it finds it empty. */
  function Registered(s: State, st: Step, c: Id): seq<Id> {
    if Calls(s, st) && Caller(s, st).Trying? && At(Caller(s, st).p, c) && c in s.chans && s.chans[c].data == []
    then [s.workers[st.w].t] else []
  }

  /** The receiver that a step takes off the waiting queue of channel c, to resume it. */
  function Called(s: State, st: Step, c: Id): seq<Id> {
    if Calls(s, st) && Caller(s, st).Sending? && Caller(s, st).c == c && c in s.chans && s.chans[c].blockings != []
    then [s.chans[c].blockings[0]] else []
  }

  /** The task that a step makes ready: a new one, one that was told to stay awake, or a
      sleeper that is resumed. */
  function Readied(s: State, st: Step): seq<Id> {
    if !Enabled(s, st) then []
    else
      match st
      case Spawn(_, id, _) => [id]
      case SpawnOutside(id, _) => [id]
      case Settle(w) =>
        var t := s.workers[w].t;
        if !s.point[t].Ended? && t in s.q.awake then [t] else []
      case Advance(w, _) =>
        var p := s.point[s.workers[w].t];
        if p.Waking? && p.id in s.q.sleeping then [p.id] else []
      case _ => []
  }

  /** The task that a worker takes in a step. */
  function Started(s: State, st: Step): seq<Id> {
    if !Enabled(s, st) || s.q.exit then []
    else
      match st
      case Acquire(_) => if s.q.ready == [] then [] else [s.q.ready[0]]
      case Settle(_) =>
        var queue := s.q.ready + Readied(s, st);
        if queue == [] then [] else [queue[0]]
      case _ => []
  }

  // ----- one step -----

  /** A channel's messages, a channel's waiting receivers, or the tasks that are ready. */
  datatype Queue = Messages(c: Id) | Waiters(c: Id) | Ready

  function Held(s: State, q: Queue): seq<nat> {
    match q
    case Messages(c) => if c in s.chans then s.chans[c].data else []
    case Waiters(c) => if c in s.chans then s.chans[c].blockings else []
    case Ready => s.q.ready
  }

  /** What a step puts into a queue. */
  function Put(s: State, st: Step, q: Queue): seq<nat> {
    match q
    case Messages(c) => Sent(s, st, c)
    case Waiters(c) => Registered(s, st, c)
    case Ready => Readied(s, st)
  }

  /** What a step takes out of a queue. */
  function Taken(s: State, st: Step, q: Queue): seq<nat> {
    match q
    case Messages(c) => Received(s, st, c)
    case Waiters(c) => Called(s, st, c)
    case Ready => Started(s, st)
  }

  lemma CallData(s: State, t: Id, p: Point, wake: nat, c: Id)
    requires InCall(p) && (p.Sending? || p.Popping? ==> p.c in s.chans)
    ensures Held(Continue(s, t, p, wake), Messages(c)) ==
      var d := Held(s, Messages(c));
      if p.Sending? && p.c == c then d + [p.msg] else if p.Popping? && p.c == c && d != [] then d[1..] else d
  {
  }

  lemma CallWaiters(s: State, t: Id, p: Point, wake: nat, c: Id)
    requires InCall(p) && (p.Sending? ==> p.c in s.chans)
    ensures Held(Continue(s, t, p, wake), Waiters(c)) ==
      var b := Held(s, Waiters(c));
      if p.Sending? && p.c == c then (if b == [] then [] else b[1..])
      else if p.Trying? && At(p.p, c) && c in s.chans && s.chans[c].data == [] then b + [t] else b
  {
  }

  lemma FirstAndRest(xs: seq<nat>)
    ensures xs != [] ==> xs == [xs[0]] + xs[1..]
  {
  }

  lemma CallDelivers(s: State, st: Step, c: Id)
    requires Calls(s, st) && PointOk(s, s.workers[st.w].t, Caller(s, st))
    ensures forall q :: q == Messages(c) || q == Waiters(c) ==>
      Taken(s, st, q) + Held(Next(s, st), q) == Held(s, q) + Put(s, st, q)
  {
    var t, p := s.workers[st.w].t, Caller(s, st);
    assert p.Sending? || p.Popping? ==> p.c in s.chans;
    hide Continue, PointOk;
    CallData(s, t, p, st.wake, c);
    CallWaiters(s, t, p, st.wake, c);
    FirstAndRest(Held(s, Messages(c)));
    FirstAndRest(Held(s, Waiters(c)));
  }

  lemma OthersDeliver(s: State, st: Step, c: Id)
    requires ChannelsOk(s) && Enabled(s, st) && !st.Advance?
    ensures forall q :: q == Messages(c) || q == Waiters(c) ==>
      Taken(s, st, q) == Put(s, st, q) == [] && Held(Next(s, st), q) == Held(s, q)
  {
  }

  lemma StepServes(s: State, st: Step)
    requires Enabled(s, st)
    ensures Started(s, st) + Next(s, st).q.ready == s.q.ready + Readied(s, st)
  {
    var queue := s.q.ready + Readied(s, st);
    if queue != [] { assert queue == [queue[0]] + queue[1..]; }
  }

  /** What a step takes from a queue is at its front, and what it puts in goes to the end. */
  lemma StepInOrder(s: State, st: Step, q: Queue)
    requires Sound(s) && Enabled(s, st)
    ensures Taken(s, st, q) + Held(Next(s, st), q) == Held(s, q) + Put(s, st, q)
  {
    if q.Ready? {
      StepServes(s, st);
    } else if st.Advance? {
      var t := s.workers[st.w].t;
      assert PointOk(s, t, s.point[t]);
      hide PointOk, Next, Taken, Put, Held;
      CallDelivers(s, st, q.c);
    } else {
      assert ChannelsOk(s);
      hide Next, Taken, Put, Held;
      OthersDeliver(s, st, q.c);
    }
  }

  // ----- over a run -----

  function AllPut(s: State, steps: seq<Step>, q: Queue): seq<nat>
    requires IsRun(s, steps)
    decreases |steps|
  {
    if steps == [] then [] else Put(s, steps[0], q) + AllPut(Next(s, steps[0]), steps[1..], q)
  }

  function AllTaken(s: State, steps: seq<Step>, q: Queue): seq<nat>
    requires IsRun(s, steps)
    decreases |steps|
  {
    if steps == [] then [] else Taken(s, steps[0], q) + AllTaken(Next(s, steps[0]), steps[1..], q)
  }

  lemma {:induction false} InOrderFrom(s: State, steps: seq<Step>, q: Queue)
    requires Sound(s) && IsRun(s, steps)
    ensures AllTaken(s, steps, q) + Held(After(s, steps), q) == Held(s, q) + AllPut(s, steps, q)
    decreases |steps|
  {
    if steps != [] {
      var st, s1 := steps[0], Next(s, steps[0]);
      StepSound(s, st);
      StepInOrder(s, st, q);
      InOrderFrom(s1, steps[1..], q);
      hide Put, Taken, Held, Next, Sound;
      Chain(Taken(s, st, q), AllTaken(s1, steps[1..], q), Held(After(s, steps), q), Held(s1, q), Held(s, q),
        Put(s, st, q), AllPut(s1, steps[1..], q));
    }
  }

  lemma Chain(a: seq<nat>, b: seq<nat>, last: seq<nat>, mid: seq<nat>, first: seq<nat>, x: seq<nat>, y: seq<nat>)
    requires a + mid == first + x && b + last == mid + y
    ensures (a + b) + last == first + (x + y)
  {
    assert (a + b) + last == a + (b + last) == a + (mid + y) == (a + mid) + y == (first + x) + y;
  }

  /** In every run: what was taken out of a queue so far, followed by what is in it, is what
      was put into it, in that order. So every message is received at most once, in the order
      in which they were sent, and none is lost; waiting receivers are called, and ready tasks
      are started, first come first served. */
  lemma InOrder(threads: nat, steps: seq<Step>, q: Queue)
    requires IsRun(Start(threads), steps)
    ensures AllTaken(Start(threads), steps, q) + Held(After(Start(threads), steps), q) ==
      AllPut(Start(threads), steps, q)
  {
    StartSound(threads);
    InOrderFrom(Start(threads), steps, q);
    assert Held(Start(threads), q) == [];
  }
}

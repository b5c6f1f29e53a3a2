/** What holds in every state the scheduler can reach, and what does not. */
module LtaskRuns {
  import opened Common
  import opened LtaskMachine
  import opened LtaskPlacement
  import opened LtaskWakeup
  import opened LtaskReferences

  ghost predicate Reachable(threads: nat, s: State) {
    exists steps :: IsRun(Start(threads), steps) && After(Start(threads), steps) == s
  }

  ghost predicate Sound(s: State) {
    Inv(s) && RefsOk(s)
  }

  lemma StartSound(threads: nat)
    ensures Sound(Start(threads))
  {
  }

  lemma StepSound(s: State, st: Step)
    requires Sound(s) && Enabled(s, st)
    ensures Sound(Next(s, st))
  {
    hide Next;
    StepPlaced(s, st);
    StepServed(s, st);
    StepChannelsOk(s, st);
    StepWaitersOk(s, st);
    StepRefs(s, st);
  }

  lemma {:induction false} RunSound(s: State, steps: seq<Step>)
    requires Sound(s) && IsRun(s, steps)
    ensures Sound(After(s, steps))
    decreases |steps|
  {
    if steps != [] {
      StepSound(s, steps[0]);
      RunSound(Next(s, steps[0]), steps[1..]);
    }
  }

  lemma ReachableSound(threads: nat, s: State)
    requires Reachable(threads, s)
    ensures Sound(s)
  {
    var steps :| IsRun(Start(threads), steps) && After(Start(threads), steps) == s;
    StartSound(threads);
    RunSound(Start(threads), steps);
  }

  // ----- one place for each task -----

  function HoldersOf(ws: seq<Worker>, t: Id): set<nat> {
    set w | 0 <= w < |ws| && Holds(ws[w]) && ws[w].t == t
  }

  /** How often a task occurs in the ready queue, in the sleeping map and at workers. */
  function Occurrences(s: State, t: Id): nat {
    multiset(s.q.ready)[t] + (if t in s.q.sleeping then 1 else 0) + |HoldersOf(s.workers, t)|
  }

  lemma {:induction false} OccursOnce(ids: seq<Id>, t: Id)
    requires NoRepeats(ids)
    ensures multiset(ids)[t] == if t in ids then 1 else 0
  {
    if ids != [] {
      var last := ids[|ids| - 1];
      assert ids == ids[..|ids| - 1] + [last];
      OccursOnce(ids[..|ids| - 1], t);
    }
  }

  lemma HeldOnce(s: State, t: Id)
    requires Placed(s)
    ensures |HoldersOf(s.workers, t)| == if HeldBySome(s.workers, t) then 1 else 0
  {
    var H := HoldersOf(s.workers, t);
    if HeldBySome(s.workers, t) {
      var w :| 0 <= w < |s.workers| && Holds(s.workers[w]) && s.workers[w].t == t;
      forall v | v in H ensures v == w {
        assert v < w || w < v || v == w;
      }
      assert H == {w};
    } else {
      assert H == {};
    }
  }

  /** A live task is in exactly one place, and a deleted one in none: no task runs on two
      workers, is queued twice, or is deleted while it is queued, asleep or running. */
  lemma ExactlyOnePlace(threads: nat, s: State, t: Id)
    requires Reachable(threads, s)
    ensures Occurrences(s, t) == if t in s.q.tasks then 1 else 0
  {
    ReachableSound(threads, s);
    OccursOnce(s.q.ready, t);
    HeldOnce(s, t);
    if HeldBySome(s.workers, t) {
      var w :| 0 <= w < |s.workers| && Holds(s.workers[w]) && s.workers[w].t == t;
      assert s.workers[w].t in s.q.tasks;
    }
  }

  // ----- no worker waits while there is work -----

  lemma {:induction false} ContendersExist(ws: seq<Worker>)
    ensures Contenders(ws) <= |ws|
    ensures Contenders(ws) > 0 <==> exists w :: 0 <= w < |ws| && ws[w].Contending?
  {
    if ws != [] {
      ContendersExist(ws[1..]);
      if Contenders(ws[1..]) > 0 {
        var w :| 0 <= w < |ws[1..]| && ws[1..][w].Contending?;
        assert ws[w + 1].Contending?;
      }
      if w :| 0 <= w < |ws| && ws[w].Contending? && w > 0 {
        assert ws[1..][w - 1].Contending?;
      }
    }
  }

  /** While a worker waits, every ready task has a worker of its own on the way to it. */
  lemma ReadyTasksAreServed(threads: nat, s: State)
    requires Reachable(threads, s) && AnyParked(s.workers)
    ensures |s.q.ready| <= Contenders(s.workers)
    ensures s.q.ready != [] ==> exists w :: 0 <= w < |s.workers| && s.workers[w].Contending?
  {
    ReachableSound(threads, s);
    ContendersExist(s.workers);
  }

  // ----- no lost wake-up -----

  /** Task t sleeps in `recv`, and c is the j-th channel it asked for. */
  predicate SleepsOn(s: State, t: Id, j: nat, c: Id) {
    && t in s.q.sleeping && t in s.point && s.point[t].Blocked?
    && j < |s.point[t].p.cs| && s.point[t].p.cs[j] == c
    && c in s.point[t].p.live
  }

  /** Channel c is open, nobody else ever received from it, and the pass got past it:
      channel j was looked at before the task blocked. */
  predicate Listens(s: State, t: Id, j: nat, c: Id)
    requires t in s.point && s.point[t].Blocked?
  {
    c in s.open && Sole(s, c, t) && j < s.point[t].p.i
  }

  /** A sleeping receiver that listens is in the channel's waiting queue, with nothing to
      receive, or its resumption is under way. */
  lemma ListenersWait(threads: nat, s: State, t: Id, j: nat, c: Id)
    requires Reachable(threads, s) && SleepsOn(s, t, j, c) && Listens(s, t, j, c)
    ensures WakePending(s, t) || (s.chans[c].data == [] && t in s.chans[c].blockings)
  {
    ReachableSound(threads, s);
    var p := s.point[t].p;
    assert PointOk(s, t, s.point[t]);
    assert p.cs[j] in p.registered;
    assert Covered(s, t, c);
    if LaunchPending(s, t) {
      var w :| 0 <= w < |s.workers| && s.workers[w] == Launching(t);
      assert HeldBySome(s.workers, t);
    }
  }

  /** A message for a sleeping receiver that listens means that its resumption is under way. */
  lemma NoLostWakeup(threads: nat, s: State, t: Id, j: nat, c: Id)
    requires Reachable(threads, s) && SleepsOn(s, t, j, c)
    requires Listens(s, t, j, c) && s.chans[c].data != []
    ensures WakePending(s, t)
  {
    ListenersWait(threads, s, t, j, c);
  }

  /** A pass got past every channel up to which all are open and have no other receiver. */
  lemma OwnChannelsListen(threads: nat, s: State, t: Id, j: nat, c: Id)
    requires Reachable(threads, s) && SleepsOn(s, t, j, c)
    requires forall k :: 0 <= k <= j ==> !Unreliable(s, s.point[t].p.cs[k], t)
    ensures Listens(s, t, j, c)
  {
    ReachableSound(threads, s);
    var p := s.point[t].p;
    assert PointOk(s, t, s.point[t]);
    assert p.i < |p.cs| ==> Unreliable(s, p.cs[p.i], t);
    assert !Unreliable(s, p.cs[j], t);
  }

  // ----- when a pass stops short -----

  /** A pass has registered for nothing but channels it has been past. */
  ghost predicate Tight(p: Pass) {
    forall c :: c in p.registered ==> exists k: nat :: k < p.i && k < |p.cs| && p.cs[k] == c
  }

  ghost predicate AllTight(s: State) {
    forall t :: t in s.point && PassOf(s.point[t]).Some? ==> Tight(PassOf(s.point[t]).value)
  }

  lemma TightStep(p: Pass, c: Id)
    requires Tight(p) && At(p, c)
    ensures Tight(p.(i := p.i + 1)) && Tight(p.(i := p.i + 1, registered := p.registered + {c}))
  {
    forall d | d in p.registered + {c} ensures exists k: nat :: k < p.i + 1 && k < |p.cs| && p.cs[k] == d {
      if d == c {
        assert p.cs[p.i] == c;
      } else {
        var k: nat :| k < p.i && k < |p.cs| && p.cs[k] == d;
        assert k < p.i + 1;
      }
    }
  }

  lemma ContinueTight(s: State, t: Id, wake: nat)
    requires t in s.point && InCall(s.point[t]) && (PassOf(s.point[t]).Some? ==> Tight(PassOf(s.point[t]).value))
    ensures var s' := Continue(s, t, s.point[t], wake);
      PassOf(s'.point[t]).Some? ==> Tight(PassOf(s'.point[t]).value)
  {
    var p := s.point[t];
    if (p.Looking? || p.Trying?) && p.p.i < |p.p.cs| { TightStep(p.p, p.p.cs[p.p.i]); }
  }

  lemma StepTight(s: State, st: Step)
    requires AllTight(s) && Enabled(s, st)
    ensures AllTight(Next(s, st))
  {
    hide Tight, LoopHead, Settled;
    assert Tight(StartPass(s, [])) by { EmptyTight(s, []); }
    var s', u := Next(s, st), Actor(s, st);
    forall t | t in s'.point && PassOf(s'.point[t]).Some? ensures Tight(PassOf(s'.point[t]).value) {
      if st.Advance? && t == u {
        hide Continue;
        ContinueTight(s, t, st.wake);
      } else if st.Launch? && t == u && s.point[t].Blocked? {
        EmptyTight(s, s.point[t].p.cs);
      } else if st.Select? && t == u {
        EmptyTight(s, st.cs);
      } else {
        hide Next;
        OtherPass(s, st, t);
      }
    }
  }

  lemma EmptyTight(s: State, cs: seq<Id>)
    ensures Tight(StartPass(s, cs))
  {
  }

  /** Any other step leaves a pass alone, or there is none. */
  lemma OtherPass(s: State, st: Step, t: Id)
    requires Enabled(s, st) && t in Next(s, st).point && PassOf(Next(s, st).point[t]).Some?
    requires st.Advance? || st.Select? ==> t != Actor(s, st)
    requires st.Launch? && t == Actor(s, st) ==> !s.point[t].Blocked?
    ensures t in s.point && PassOf(Next(s, st).point[t]) == PassOf(s.point[t])
  {
  }

  lemma {:induction false} RunTight(s: State, steps: seq<Step>)
    requires AllTight(s) && IsRun(s, steps)
    ensures AllTight(After(s, steps))
    decreases |steps|
  {
    if steps != [] {
      StepTight(s, steps[0]);
      RunTight(Next(s, steps[0]), steps[1..]);
    }
  }

  /** The task chose a channel and finds it closed, or its pop came back empty. */
  predicate ComesAwayEmpty(s: State, p: Point) {
    || (p.Chosen? && !(p.p.i < |p.p.cs| && p.p.cs[p.p.i] in s.open))
    || (p.Releasing? && p.ctx.Some? && !p.got)
  }

  /** A receiver that blocks although there are channels it has not looked at. */
  predicate StoppedShort(p: Point) {
    p.Blocked? && p.p.i < |p.p.cs|
  }

  /** Just the tasks that come away empty from a channel they chose stop short. The others
      block only when they have looked at every channel. */
  lemma StopsShortExactly(threads: nat, s: State, st: Step, t: Id)
    requires Reachable(threads, s) && Enabled(s, st) && t in Next(s, st).point
    requires t in s.point ==> !s.point[t].Blocked?
    ensures StoppedShort(Next(s, st).point[t]) <==>
      st.Advance? && t == s.workers[st.w].t && ComesAwayEmpty(s, s.point[t])
  {
    ReachableSound(threads, s);
    assert t in s.point ==> PointOk(s, t, s.point[t]);
    hide Continue, Next, PointOk, ComesAwayEmpty, Enabled;
    if st.Advance? && t == s.workers[st.w].t {
      ContinueStops(s, t, st.wake);
    } else {
      OthersGoOn(s, st, t);
    }
  }

  lemma ContinueStops(s: State, t: Id, wake: nat)
    requires ChannelsOk(s) && t in s.point && InCall(s.point[t]) && PointOk(s, t, s.point[t])
    ensures StoppedShort(Continue(s, t, s.point[t], wake).point[t]) <==> ComesAwayEmpty(s, s.point[t])
  {
  }

  lemma OthersGoOn(s: State, st: Step, t: Id)
    requires Enabled(s, st) && t in Next(s, st).point && (t in s.point ==> !s.point[t].Blocked?)
    requires st.Advance? ==> t != s.workers[st.w].t
    ensures !Next(s, st).point[t].Blocked?
  {
  }

  /** The sole receiver of the channel it chose always finds the message it chose it for. */
  lemma SoleReceiverFindsMessage(threads: nat, s: State, t: Id)
    requires Reachable(threads, s) && t in s.point && s.point[t].Popping? && s.point[t].ctx.Some?
    requires Sole(s, s.point[t].c, t)
    ensures s.chans[s.point[t].c].data != []
  {
    ReachableSound(threads, s);
    assert PointOk(s, t, s.point[t]);
  }

  /** The sole receiver of the channel its pass is at stops short exactly when it has chosen
      that channel and the channel is closed by then. */
  lemma SoleStopsShortExactly(threads: nat, s: State, st: Step, t: Id)
    requires Reachable(threads, s) && Enabled(s, st) && t in s.point && t in Next(s, st).point
    requires !s.point[t].Blocked? && PassOf(s.point[t]).Some?
    requires var p := PassOf(s.point[t]).value; p.i < |p.cs| && Sole(s, p.cs[p.i], t)
    ensures var p := PassOf(s.point[t]).value;
      StoppedShort(Next(s, st).point[t]) <==>
        st.Advance? && t == s.workers[st.w].t && s.point[t].Chosen? && p.cs[p.i] !in s.open
  {
    StopsShortExactly(threads, s, st, t);
    ReachableSound(threads, s);
    assert PointOk(s, t, s.point[t]);
    hide Next, Enabled;
  }

  /** Whoever has stopped short is not to blame: the channel it was at is closed, or has
      another receiver. */
  lemma StoppedShortForAReason(threads: nat, s: State, t: Id)
    requires Reachable(threads, s) && t in s.point && StoppedShort(s.point[t])
    ensures var p := s.point[t].p; Unreliable(s, p.cs[p.i], t)
  {
    ReachableSound(threads, s);
    assert PointOk(s, t, s.point[t]);
  }

  /** A receiver that stopped short has registered, in that pass, with none of the channels
      it has not looked at, unless it asked for one of them twice. It can still be in their
      queues from an earlier pass. */
  lemma NotRegisteredBehind(threads: nat, s: State, t: Id, j: nat)
    requires Reachable(threads, s) && t in s.point && s.point[t].Blocked?
    requires var p := s.point[t].p;
      p.i <= j < |p.cs| && forall k: nat :: k < p.i && k < |p.cs| ==> p.cs[k] != p.cs[j]
    ensures s.point[t].p.cs[j] !in s.point[t].p.registered
  {
    var steps :| IsRun(Start(threads), steps) && After(Start(threads), steps) == s;
    RunTight(Start(threads), steps);
    assert Tight(s.point[t].p);
  }

  // ----- what a message does -----

  /** A message for a channel with a sole receiver sets its resumption under way exactly
      when it was already, or the receiver is in the channel's waiting queue. */
  lemma SendWakesExactly(threads: nat, s: State, w: nat, wake: nat, t: Id)
    requires Reachable(threads, s) && Enabled(s, Advance(w, wake)) && s.point[s.workers[w].t].Sending?
    requires Sole(s, s.point[s.workers[w].t].c, t)
    ensures var c := s.point[s.workers[w].t].c;
      WakePending(Next(s, Advance(w, wake)), t) <==> WakePending(s, t) || t in s.chans[c].blockings
  {
    ReachableSound(threads, s);
    var u := s.workers[w].t;
    var c, s' := s.point[u].c, Next(s, Advance(w, wake));
    var ws := s.chans[c].blockings;
    assert forall x :: x in ws ==> x in s.chans[c].receivers;
    assert ws != [] ==> ws[0] in ws;
    assert s'.point == s.point[u := if ws == [] then Free else Waking(ws[0])];
    if WakePending(s, t) {
      var x :| x in s.point && s.point[x] == Waking(t);
      assert x != u && s'.point[x] == Waking(t);
    }
    if ws != [] { assert s'.point[u] == Waking(t); }
  }

  /** The sleeper has a message waiting and nobody is going to wake it. */
  ghost predicate Lost(s: State, t: Id, j: nat, c: Id) {
    && SleepsOn(s, t, j, c) && c in s.open && c in s.chans && s.chans[c].data != []
    && !WakePending(s, t)
  }

  /** The message that a sole receiver sleeps through: exactly one that is sent while the
      receiver is not in the channel's waiting queue. */
  lemma SendIsLostExactly(threads: nat, s: State, w: nat, wake: nat, t: Id, j: nat)
    requires Reachable(threads, s) && Enabled(s, Advance(w, wake)) && s.point[s.workers[w].t].Sending?
    requires var c := s.point[s.workers[w].t].c; c in s.open && Sole(s, c, t) && SleepsOn(s, t, j, c)
    requires !WakePending(s, t)
    ensures var c := s.point[s.workers[w].t].c;
      Lost(Next(s, Advance(w, wake)), t, j, c) <==> t !in s.chans[c].blockings
  {
    SendWakesExactly(threads, s, w, wake, t);
  }

  /** When every worker waits, every task sleeps, and no receiver sleeps on a channel it
      listens to that holds a message. */
  lemma Quiescence(threads: nat, s: State)
    requires Reachable(threads, s) && |s.workers| > 0
    requires forall w :: 0 <= w < |s.workers| ==> s.workers[w].Parked?
    ensures s.q.ready == [] && s.q.sleeping == s.q.tasks
    ensures forall t, j, c :: SleepsOn(s, t, j, c) && Listens(s, t, j, c) ==> s.chans[c].data == []
  {
    ReachableSound(threads, s);
    ContendersExist(s.workers);
    assert s.workers[0].Parked?;
    assert s.q.ready == [];
    forall t | t in s.q.tasks ensures t in s.q.sleeping {
      assert !HeldBySome(s.workers, t);
    }
    forall t, j, c | SleepsOn(s, t, j, c) && Listens(s, t, j, c)
      ensures s.chans[c].data == []
    {
      if s.chans[c].data != [] {
        NoLostWakeup(threads, s, t, j, c);
        assert false;
      }
    }
  }

  /** No task is about to touch a deleted channel. */
  lemma NoUseAfterDelete(threads: nat, s: State, t: Id, c: Id)
    requires Reachable(threads, s) && t in s.point && Uses(s.point[t], c)
    ensures c in s.chans && s.chans[c].counter > 0
  {
    ReachableSound(threads, s);
    UsedChannelsLive(s, t, c);
  }

  /** A closed channel is deleted once no receive is under way, unless it was ever sent to
      or selected on: those references are never given back. */
  lemma DeletedExactlyWhen(threads: nat, s: State, c: Id)
    requires Reachable(threads, s) && c in s.chans
    ensures s.chans[c].counter == 0 <==> c !in s.open && s.chans[c].leaked == 0 && Holders(s, c) == {}
  {
    ReachableSound(threads, s);
    DeletedIff(s, c);
  }

  // ----- runs that do lose a wake-up -----

  lemma {:induction false} RunSnoc(s: State, steps: seq<Step>, st: Step)
    requires IsRun(s, steps) && Enabled(After(s, steps), st)
    ensures IsRun(s, steps + [st]) && After(s, steps + [st]) == Next(After(s, steps), st)
    decreases |steps|
  {
    if steps == [] {
      assert [st][1..] == [];
    } else {
      assert (steps + [st])[1..] == steps[1..] + [st];
      RunSnoc(Next(s, steps[0]), steps[1..], st);
    }
  }

  lemma ReachStart(threads: nat)
    ensures Reachable(threads, Start(threads))
  {
    assert IsRun(Start(threads), []) && After(Start(threads), []) == Start(threads);
  }

  lemma Reach(threads: nat, s: State, st: Step) returns (s': State)
    requires Reachable(threads, s) && Enabled(s, st)
    ensures s' == Next(s, st) && Reachable(threads, s')
  {
    s' := Next(s, st);
    var steps :| IsRun(Start(threads), steps) && After(Start(threads), steps) == s;
    RunSnoc(Start(threads), steps, st);
  }

  /** A closed channel that no receive is using, and that is not deleted. */
  predicate Leaked(s: State, c: Id) {
    c !in s.open && c in s.chans && Holders(s, c) == {} && s.chans[c].counter > 0
  }

  /** With two receivers: task 1 selects on channel 3 and then does something else, task 2
      blocks in `recv`, and the wake-up for the message goes to task 1. */
  lemma StaleWaiterAbsorbsWakeup() returns (s: State)
    ensures Reachable(1, s) && Lost(s, 2, 0, 3)
  {
    s := SelectAndPause();
    s := ReceiveAndSleep(s);
    s := SendToStaleWaiter(s);
  }

  lemma TwoSpawned(threads: nat) returns (s: State)
    ensures Reachable(threads, s)
    ensures s == State(Sched(false, {0, 1, 2}, {1, 2}, [1, 2], {}, {}), map[1 := Fresh, 2 := Fresh],
                       {}, map[], seq(threads, _ => Contending))
  {
    hide Reachable;
    ReachStart(threads);
    s := Reach(threads, Start(threads), SpawnOutside(1, 0));
    s := Reach(threads, s, SpawnOutside(2, 0));
  }

  lemma OneTaskRunning() returns (s: State)
    ensures Reachable(1, s)
    ensures s == State(Sched(false, {0, 1, 2, 3}, {1, 2}, [2], {}, {}), map[1 := Free, 2 := Fresh],
                       {3}, map[3 := Chan([], [], 1, 0, {})], [Running(1)])
  {
    hide Reachable;
    s := TwoSpawned(1);
    assert s.workers == [Contending];
    s := Reach(1, s, Acquire(0));
    assert s.q.ready == [2];
    s := Reach(1, s, Launch(0));
    s := Reach(1, s, OpenChannel(0, 3));
  }

  lemma SelectAndPause() returns (s: State)
    ensures Reachable(1, s)
    ensures s == State(Sched(false, {0, 1, 2, 3}, {1, 2}, [], {1}, {}), map[1 := Paused, 2 := Free],
                       {3}, map[3 := Chan([], [1], 2, 1, {1})], [Running(2)])
  {
    hide Reachable;
    s := OneTaskRunning();
    s := Reach(1, s, Select(0, [3], false));
    s := Reach(1, s, Advance(0, 0));
    s := Reach(1, s, Advance(0, 0));
    s := Reach(1, s, Advance(0, 0));
    s := Reach(1, s, Yield(0));
    assert s.chans[3] == Chan([], [1], 2, 1, {1});
    assert s.chans == map[3 := Chan([], [1], 2, 1, {1})];
    assert s.point == map[1 := Paused, 2 := Fresh];
    s := NextTask(s);
  }

  lemma NextTask(s0: State) returns (s: State)
    requires Reachable(1, s0) && s0.q == Sched(false, {0, 1, 2, 3}, {1, 2}, [2], {}, {})
    requires s0.point == map[1 := Paused, 2 := Fresh] && s0.workers == [Running(1)]
    ensures Reachable(1, s)
    ensures s == s0.(q := Sched(false, {0, 1, 2, 3}, {1, 2}, [], {1}, {}), point := map[1 := Paused, 2 := Free],
      workers := [Running(2)])
  {
    hide Reachable;
    s := Reach(1, s0, Return(0));
    s := Reach(1, s, Settle(0));
    assert s.workers == [Launching(2)];
    s := Reach(1, s, Launch(0));
  }

  lemma ReceiveAndSleep(s0: State) returns (s: State)
    requires Reachable(1, s0)
    requires s0 == State(Sched(false, {0, 1, 2, 3}, {1, 2}, [], {1}, {}), map[1 := Paused, 2 := Free],
                         {3}, map[3 := Chan([], [1], 2, 1, {1})], [Running(2)])
    ensures Reachable(1, s)
    ensures s == State(Sched(false, {0, 1, 2, 3}, {1, 2}, [], {1, 2}, {}),
                       map[1 := Paused, 2 := Blocked(Pass([3], 1, {3}, {3}))],
                       {3}, map[3 := Chan([], [1, 2], 3, 2, {1, 2})], [Parked])
  {
    hide Reachable;
    s := Reach(1, s0, Select(0, [3], true));
    s := Reach(1, s, Advance(0, 0));
    s := Reach(1, s, Advance(0, 0));
    s := Reach(1, s, Advance(0, 0));
    assert s.chans[3] == Chan([], [1, 2], 3, 2, {1, 2});
    assert s.chans == map[3 := Chan([], [1, 2], 3, 2, {1, 2})];
    assert s.point[2] == Blocked(Pass([3], 1, {3}, {3}));
    assert s.point == map[1 := Paused, 2 := Blocked(Pass([3], 1, {3}, {3}))];
    s := FallAsleep(s);
  }

  lemma FallAsleep(s0: State) returns (s: State)
    requires Reachable(1, s0) && s0.q == Sched(false, {0, 1, 2, 3}, {1, 2}, [], {1}, {}) && s0.workers == [Running(2)]
    requires 2 in s0.point && s0.point[2].Blocked?
    ensures Reachable(1, s) && s == s0.(q := Sched(false, {0, 1, 2, 3}, {1, 2}, [], {1, 2}, {}), workers := [Parked])
  {
    hide Reachable;
    s := Reach(1, s0, Return(0));
    s := Reach(1, s, Settle(0));
  }

  lemma SendToStaleWaiter(s0: State) returns (s: State)
    requires Reachable(1, s0)
    requires s0 == State(Sched(false, {0, 1, 2, 3}, {1, 2}, [], {1, 2}, {}),
                         map[1 := Paused, 2 := Blocked(Pass([3], 1, {3}, {3}))],
                         {3}, map[3 := Chan([], [1, 2], 3, 2, {1, 2})], [Parked])
    ensures Reachable(1, s) && Lost(s, 2, 0, 3)
  {
    hide Reachable;
    s := AnotherTask(s0);
    s := Reach(1, s, Send(0, 3, 7));
    s := Reach(1, s, Advance(0, 0));
    s := Reach(1, s, Advance(0, 0));
  }

  lemma AnotherTask(s0: State) returns (s: State)
    requires Reachable(1, s0) && s0.q == Sched(false, {0, 1, 2, 3}, {1, 2}, [], {1, 2}, {}) && s0.workers == [Parked]
    ensures Reachable(1, s)
    ensures s == s0.(q := Sched(false, {0, 1, 2, 3, 4}, {1, 2, 4}, [], {1, 2}, {}), point := s0.point[4 := Free],
      workers := [Running(4)])
  {
    hide Reachable;
    s := Reach(1, s0, SpawnOutside(4, 0));
    s := Reach(1, s, Acquire(0));
    assert s.workers == [Launching(4)];
    s := Reach(1, s, Launch(0));
  }

  /** With one receiver: task 1 receives from channels 3 and 5, task 2 closes channel 3
      between select and raw_recv, and task 1 blocks without having looked at channel 5.
      Channel 3 is never deleted. */
  lemma CloseDuringRecvLosesWakeup() returns (s: State)
    ensures Reachable(2, s) && Lost(s, 1, 1, 5) && Sole(s, 5, 1)
    ensures Leaked(s, 3)
  {
    hide Reachable;
    s := TwoMessages();
    s := Reach(2, s, Select(0, [3, 5], true));
    s := Reach(2, s, Advance(0, 0));
    s := Reach(2, s, Advance(0, 0));
    assert s.chans[3] == Chan([7], [], 3, 2, {1});
    assert s.chans == map[3 := Chan([7], [], 3, 2, {1}), 5 := Chan([8], [], 2, 1, {})];
    assert s.point == map[1 := Chosen(Pass([3, 5], 0, {3, 5}, {})), 2 := Free];
    s := CloseAndBlock(s);
  }

  lemma TwoTasksRunning() returns (s: State)
    ensures Reachable(2, s)
    ensures s == State(Sched(false, {0, 1, 2}, {1, 2}, [], {}, {}), map[1 := Free, 2 := Free],
                       {}, map[], [Running(1), Running(2)])
  {
    hide Reachable;
    s := TwoSpawned(2);
    assert s.workers == [Contending, Contending];
    s := Reach(2, s, Acquire(0));
    s := Reach(2, s, Acquire(1));
    assert s.workers == [Launching(1), Launching(2)];
    s := Reach(2, s, Launch(0));
    s := Reach(2, s, Launch(1));
  }

  lemma TwoChannels() returns (s: State)
    ensures Reachable(2, s)
    ensures s == State(Sched(false, {0, 1, 2, 3, 5}, {1, 2}, [], {}, {}), map[1 := Free, 2 := Free], {3, 5},
                       map[3 := Chan([], [], 1, 0, {}), 5 := Chan([], [], 1, 0, {})], [Running(1), Running(2)])
  {
    hide Reachable;
    s := TwoTasksRunning();
    s := Reach(2, s, OpenChannel(1, 3));
    s := Reach(2, s, OpenChannel(1, 5));
  }

  lemma TwoMessages() returns (s: State)
    ensures Reachable(2, s)
    ensures s == State(Sched(false, {0, 1, 2, 3, 5}, {1, 2}, [], {}, {}), map[1 := Free, 2 := Free], {3, 5},
                       map[3 := Chan([7], [], 2, 1, {}), 5 := Chan([8], [], 2, 1, {})], [Running(1), Running(2)])
  {
    hide Reachable;
    s := TwoChannels();
    s := Reach(2, s, Send(1, 3, 7));
    s := Reach(2, s, Advance(1, 0));
    assert s.chans[3] == Chan([7], [], 2, 1, {});
    s := Reach(2, s, Send(1, 5, 8));
    s := Reach(2, s, Advance(1, 0));
    assert s.chans[5] == Chan([8], [], 2, 1, {});
    assert s.chans == map[3 := Chan([7], [], 2, 1, {}), 5 := Chan([8], [], 2, 1, {})];
    assert s.point == map[1 := Free, 2 := Free];
  }

  lemma CloseAndBlock(s0: State) returns (s: State)
    requires Reachable(2, s0)
    requires s0 == State(Sched(false, {0, 1, 2, 3, 5}, {1, 2}, [], {}, {}),
                         map[1 := Chosen(Pass([3, 5], 0, {3, 5}, {})), 2 := Free], {3, 5},
                         map[3 := Chan([7], [], 3, 2, {1}), 5 := Chan([8], [], 2, 1, {})], [Running(1), Running(2)])
    ensures Reachable(2, s) && Lost(s, 1, 1, 5) && Sole(s, 5, 1)
    ensures Leaked(s, 3)
  {
    hide Reachable;
    s := Reach(2, s0, CloseChannel(1, 3));
    s := Reach(2, s, Advance(0, 0));
    s := Reach(2, s, Return(0));
    s := Reach(2, s, Settle(0));
  }

  /** A pass that stops short need not be fatal: task 1 receives from channels 3 and 5, is
      woken by a message to channel 3, finds it closed and blocks without having looked at
      channel 5 again, but is in the waiting queue of channel 5 from the pass before. */
  lemma StillQueuedFromBefore() returns (s: State)
    ensures Reachable(2, s) && SleepsOn(s, 1, 1, 5) && Sole(s, 5, 1) && 5 in s.open
    ensures !Listens(s, 1, 1, 5) && 1 in s.chans[5].blockings
  {
    hide Reachable;
    s := WokenBySend();
    s := Reach(2, s, Advance(0, 0));
    s := Reach(2, s, Advance(0, 0));
    s := CloseAndSleep(s);
  }

  lemma CloseAndSleep(s0: State) returns (s: State)
    requires Reachable(2, s0) && s0.q == Sched(false, {0, 1, 2, 3, 5}, {1, 2}, [], {}, {})
    requires s0.point == map[1 := Chosen(Pass([3, 5], 0, {3, 5}, {})), 2 := Free] && s0.open == {3, 5}
    requires s0.workers == [Running(1), Running(2)] && s0.chans.Keys == {3, 5}
    requires s0.chans[5].receivers == {1} && 1 in s0.chans[5].blockings
    ensures Reachable(2, s) && SleepsOn(s, 1, 1, 5) && Sole(s, 5, 1) && 5 in s.open
    ensures !Listens(s, 1, 1, 5) && 1 in s.chans[5].blockings
  {
    hide Reachable;
    s := Reach(2, s0, CloseChannel(1, 3));
    s := Reach(2, s, Advance(0, 0));
    s := Reach(2, s, Return(0));
    s := Reach(2, s, Settle(0));
  }

  lemma FirstQueued() returns (s: State)
    ensures Reachable(2, s)
    ensures s == State(Sched(false, {0, 1, 2, 3, 5}, {1, 2}, [], {}, {}),
                       map[1 := Looking(Pass([3, 5], 1, {3, 5}, {3}), true), 2 := Free], {3, 5},
                       map[3 := Chan([], [1], 2, 1, {1}), 5 := Chan([], [], 1, 0, {})], [Running(1), Running(2)])
  {
    hide Reachable;
    s := TwoChannels();
    s := Reach(2, s, Select(0, [3, 5], true));
    s := Reach(2, s, Advance(0, 0));
    s := Reach(2, s, Advance(0, 0));
    assert s.chans[3] == Chan([], [1], 2, 1, {1});
    assert s.chans == map[3 := Chan([], [1], 2, 1, {1}), 5 := Chan([], [], 1, 0, {})];
    assert s.point[1] == Looking(Pass([3, 5], 1, {3, 5}, {3}), true);
    assert s.point == map[1 := Looking(Pass([3, 5], 1, {3, 5}, {3}), true), 2 := Free];
  }

  lemma BothQueued() returns (s: State)
    ensures Reachable(2, s)
    ensures s == State(Sched(false, {0, 1, 2, 3, 5}, {1, 2}, [], {}, {}),
                       map[1 := Blocked(Pass([3, 5], 2, {3, 5}, {3, 5})), 2 := Free], {3, 5},
                       map[3 := Chan([], [1], 2, 1, {1}), 5 := Chan([], [1], 2, 1, {1})], [Running(1), Running(2)])
  {
    hide Reachable;
    s := FirstQueued();
    s := Reach(2, s, Advance(0, 0));
    s := Reach(2, s, Advance(0, 0));
    assert s.chans[5] == Chan([], [1], 2, 1, {1});
    s := Reach(2, s, Advance(0, 0));
    assert s.point[1] == Blocked(Pass([3, 5], 2, {3, 5}, {3, 5}));
    assert s.chans == map[3 := Chan([], [1], 2, 1, {1}), 5 := Chan([], [1], 2, 1, {1})];
    assert s.point == map[1 := Blocked(Pass([3, 5], 2, {3, 5}, {3, 5})), 2 := Free];
  }

  lemma ToldToStayAwake() returns (s: State)
    ensures Reachable(2, s)
    ensures s == State(Sched(false, {0, 1, 2, 3, 5}, {1, 2}, [], {}, {1}),
                       map[1 := Blocked(Pass([3, 5], 2, {3, 5}, {3, 5})), 2 := Free], {3, 5},
                       map[3 := Chan([7], [], 3, 2, {1}), 5 := Chan([], [1], 2, 1, {1})], [Running(1), Running(2)])
  {
    hide Reachable;
    s := BothQueued();
    s := Reach(2, s, Send(1, 3, 7));
    s := Reach(2, s, Advance(1, 0));
    assert s.chans[3] == Chan([7], [], 3, 2, {1});
    s := Reach(2, s, Advance(1, 0));
    assert s.chans == map[3 := Chan([7], [], 3, 2, {1}), 5 := Chan([], [1], 2, 1, {1})];
    assert s.point == map[1 := Blocked(Pass([3, 5], 2, {3, 5}, {3, 5})), 2 := Free];
  }

  lemma WokenBySend() returns (s: State)
    ensures Reachable(2, s)
    ensures s == State(Sched(false, {0, 1, 2, 3, 5}, {1, 2}, [], {}, {}),
                       map[1 := Looking(Pass([3, 5], 0, {3, 5}, {}), true), 2 := Free], {3, 5},
                       map[3 := Chan([7], [], 3, 2, {1}), 5 := Chan([], [1], 2, 1, {1})], [Running(1), Running(2)])
  {
    hide Reachable;
    s := ToldToStayAwake();
    s := Reach(2, s, Return(0));
    s := Reach(2, s, Settle(0));
    assert s.q.ready == [] && s.workers == [Launching(1), Running(2)];
    s := Reach(2, s, Launch(0));
    assert s.point == map[1 := Looking(Pass([3, 5], 0, {3, 5}, {}), true), 2 := Free];
  }
}

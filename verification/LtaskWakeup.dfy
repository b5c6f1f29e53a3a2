/** A channel that one task receives from never holds a message that task sleeps through. */
module LtaskWakeup {
  import opened Common
  import opened LtaskMachine
  import opened LtaskPlacement

  /** The select pass a task is in, if any. */
  function PassOf(p: Point): Option<Pass> {
    match p
    case Looking(q, _) => Some(q)
    case Trying(q, _) => Some(q)
    case Chosen(q) => Some(q)
    case Popping(_, ctx) => ctx
    case Releasing(_, _, ctx) => ctx
    case Blocked(q) => Some(q)
    case _ => None
  }

  /** No task other than t has ever received from c. */
  predicate Sole(s: State, c: Id, t: Id) {
    c in s.chans && s.chans[c].receivers <= {t}
  }

  // ----- channels -----

  ghost predicate ChannelsOk(s: State) {
    && s.open <= s.chans.Keys <= s.q.used
    && (forall c, t :: c in s.chans && t in s.chans[c].blockings ==> t in s.chans[c].receivers)
  }

  // ----- passes -----

  /** What has become of the channels a pass tried. */
  ghost predicate PassOk(s: State, t: Id, p: Pass) {
    && p.i <= |p.cs| && p.registered <= s.chans.Keys && p.live <= s.chans.Keys
    && (forall c :: c in p.registered ==> t in s.chans[c].receivers)
    && (forall k :: 0 <= k < p.i ==> p.cs[k] in p.registered || p.cs[k] !in p.live || p.cs[k] !in s.open)
  }

  /** The channel a pass is at. */
  predicate At(p: Pass, c: Id) {
    p.i < |p.cs| && p.cs[p.i] == c
  }

  /** The channel can no longer be relied on: it is closed, or has another receiver. */
  predicate Unreliable(s: State, c: Id, t: Id) {
    c !in s.open || !Sole(s, c, t)
  }

  ghost predicate PointOk(s: State, t: Id, p: Point) {
    && (PassOf(p).Some? ==> PassOk(s, t, PassOf(p).value))
    && match p
       case Sending(c, _) => c in s.chans
       case Trying(q, _) => q.i < |q.cs| && q.cs[q.i] in s.chans && t in s.chans[q.cs[q.i]].receivers
       case Chosen(q) =>
         && q.i < |q.cs| && q.cs[q.i] in s.chans && t in s.chans[q.cs[q.i]].receivers
         && (Sole(s, q.cs[q.i], t) ==> s.chans[q.cs[q.i]].data != [])
       case Popping(c, ctx) =>
         && c in s.chans && t in s.chans[c].receivers
         && (ctx.Some? ==> At(ctx.value, c) && (Sole(s, c, t) ==> s.chans[c].data != []))
       case Releasing(c, got, ctx) =>
         && c in s.chans && t in s.chans[c].receivers
         && (ctx.Some? ==> At(ctx.value, c) && (!got ==> !Sole(s, c, t)))
       case Blocked(q) => q.i < |q.cs| ==> q.cs[q.i] in s.chans && Unreliable(s, q.cs[q.i], t)
       case _ => true
  }

  ghost predicate PointsOk(s: State) {
    forall t :: t in s.point ==> PointOk(s, t, s.point[t])
  }

  // ----- waiting -----

  /** A task that waits on c has nothing to wait for, or is about to be woken. */
  ghost predicate Covered(s: State, t: Id, c: Id) {
    || (c in s.chans && s.chans[c].data == [] && t in s.chans[c].blockings)
    || WakePending(s, t)
    || t in s.q.awake
    || t in s.q.ready
    || LaunchPending(s, t)
  }

  /** A sender has taken t off a channel's waiters and is about to resume it. */
  ghost predicate WakePending(s: State, t: Id) {
    exists u :: u in s.point && s.point[u] == Waking(t)
  }

  /** A worker is about to run t. */
  ghost predicate LaunchPending(s: State, t: Id) {
    exists w :: 0 <= w < |s.workers| && s.workers[w] == Launching(t)
  }

  ghost predicate WaitersOk(s: State) {
    forall t, c ::
      t in s.point && PassOf(s.point[t]).Some? && c in PassOf(s.point[t]).value.registered && Sole(s, c, t) ==>
        Covered(s, t, c)
  }

  ghost predicate Inv(s: State) {
    Placed(s) && Rests(s) && Served(s) && ChannelsOk(s) && PointsOk(s) && WaitersOk(s)
  }

  // ----- what later states keep -----

  /** A step of task u: channels stay, closed ones stay closed, receivers stay receivers,
      and only a receiver takes messages out. */
  ghost predicate Later(s: State, s': State, u: Id) {
    && s.chans.Keys <= s'.chans.Keys
    && (forall c :: c in s.chans ==>
          && s.chans[c].receivers <= s'.chans[c].receivers
          && (c in s'.open ==> c in s.open)
          && (s.chans[c].data != [] ==> s'.chans[c].data != [] || u in s'.chans[c].receivers))
  }

  /** What is known about the other tasks' passes stays true. */
  lemma PointLater(s: State, s': State, u: Id, t: Id, p: Point)
    requires Later(s, s', u) && t != u && PointOk(s, t, p)
    ensures PointOk(s', t, p)
  {
    if PassOf(p).Some? {
      PassLater(s, s', u, t, PassOf(p).value);
    }
  }

  lemma PassLater(s: State, s': State, u: Id, t: Id, p: Pass)
    requires Later(s, s', u) && PassOk(s, t, p)
    ensures PassOk(s', t, p)
  {
    forall k | 0 <= k < p.i ensures p.cs[k] in p.registered || p.cs[k] !in p.live || p.cs[k] !in s'.open {
      assert p.cs[k] in p.registered || p.cs[k] !in p.live || p.cs[k] !in s.open;
    }
  }

  lemma PointsLater(s: State, s': State, u: Id)
    requires PointsOk(s) && Later(s, s', u)
    requires forall t :: t in s'.point && t != u ==> t in s.point && s'.point[t] == s.point[t]
    requires u in s'.point ==> PointOk(s', u, s'.point[u])
    ensures PointsOk(s')
  {
    forall t | t in s'.point ensures PointOk(s', t, s'.point[t]) {
      if t != u { PointLater(s, s', u, t, s.point[t]); }
    }
  }

  // ----- points, step by step -----

  lemma LookOk(s: State, t: Id, p: Pass, recv: bool)
    requires ChannelsOk(s) && t in s.point && s.point[t] == Looking(p, recv) && PointOk(s, t, s.point[t])
    ensures var s' := Look(s, t, p, recv); ChannelsOk(s') && Later(s, s', t) && PointOk(s', t, s'.point[t])
  {
    var s' := Look(s, t, p, recv);
    PassLater(s, s', t, t, p);
  }

  lemma TryOk(s: State, t: Id, p: Pass, recv: bool)
    requires ChannelsOk(s) && t in s.point && s.point[t] == Trying(p, recv) && PointOk(s, t, s.point[t])
    ensures var s' := Try(s, t, p, recv); ChannelsOk(s') && Later(s, s', t) && PointOk(s', t, s'.point[t])
  {
    var s' := Try(s, t, p, recv);
    PassLater(s, s', t, t, p);
  }

  lemma GrabOk(s: State, t: Id, c: Id, ctx: Option<Pass>)
    requires ChannelsOk(s) && t in s.point
    requires ctx.Some? ==> At(ctx.value, c) && PointOk(s, t, Chosen(ctx.value))
    ensures var s' := Grab(s, t, c, ctx); ChannelsOk(s') && Later(s, s', t) && PointOk(s', t, s'.point[t])
  {
    var s' := Grab(s, t, c, ctx);
    if ctx.Some? { PassLater(s, s', t, t, ctx.value); }
  }

  lemma PopOk(s: State, t: Id, c: Id, ctx: Option<Pass>)
    requires ChannelsOk(s) && t in s.point && s.point[t] == Popping(c, ctx) && PointOk(s, t, s.point[t])
    ensures var s' := Pop(s, t, c, ctx); ChannelsOk(s') && Later(s, s', t) && PointOk(s', t, s'.point[t])
  {
    var s' := Pop(s, t, c, ctx);
    if ctx.Some? { PassLater(s, s', t, t, ctx.value); }
  }

  lemma ReleaseOk(s: State, t: Id, c: Id, got: bool, ctx: Option<Pass>)
    requires ChannelsOk(s) && t in s.point && s.point[t] == Releasing(c, got, ctx) && PointOk(s, t, s.point[t])
    ensures var s' := Release(s, t, c, got, ctx); ChannelsOk(s') && Later(s, s', t) && PointOk(s', t, s'.point[t])
  {
    var s' := Release(s, t, c, got, ctx);
    if ctx.Some? { PassLater(s, s', t, t, ctx.value); }
  }

  lemma PushOk(s: State, t: Id, c: Id, msg: Message)
    requires ChannelsOk(s) && t in s.point && s.point[t] == Sending(c, msg) && PointOk(s, t, s.point[t])
    ensures var s' := Push(s, t, c, msg); ChannelsOk(s') && Later(s, s', t) && PointOk(s', t, s'.point[t])
  {
    var s' := Push(s, t, c, msg);
    forall v | v in s'.chans[c].blockings ensures v in s'.chans[c].receivers {
      assert v in s.chans[c].blockings;
    }
  }

  lemma ContinueOk(s: State, t: Id, wake: nat)
    requires ChannelsOk(s) && t in s.point && InCall(s.point[t]) && PointOk(s, t, s.point[t])
    ensures var s' := Continue(s, t, s.point[t], wake);
      ChannelsOk(s') && Later(s, s', t) && PointOk(s', t, s'.point[t])
  {
    match s.point[t]
    case Sending(c, msg) => PushOk(s, t, c, msg);
    case Waking(id) =>
    case Looking(p, recv) => LookOk(s, t, p, recv);
    case Trying(p, recv) => TryOk(s, t, p, recv);
    case Chosen(p) => GrabOk(s, t, p.cs[p.i], Some(p));
    case Popping(c, ctx) => PopOk(s, t, c, ctx);
    case Releasing(c, got, ctx) => ReleaseOk(s, t, c, got, ctx);
  }

  /** The task a step belongs to; an unused id for steps of no task. */
  function Actor(s: State, st: Step): Id {
    match st
    case Acquire(_) => 0
    case Spurious(_) => 0
    case SpawnOutside(id, _) => id
    case Spawn(_, id, _) => id
    case Exit => 0
    case _ => if st.w < |s.workers| && Holds(s.workers[st.w]) then s.workers[st.w].t else 0
  }

  lemma StepChannelsOk(s: State, st: Step)
    requires ChannelsOk(s) && PointsOk(s) && Enabled(s, st)
    ensures ChannelsOk(Next(s, st)) && PointsOk(Next(s, st)) && Later(s, Next(s, st), Actor(s, st))
  {
    hide PointsOk, ChannelsOk, Later, Continue, LoopHead;
    match st
    case OpenChannel(w, id) => CallStepChannels(s, st);
    case CloseChannel(w, c) => CallStepChannels(s, st);
    case Send(w, c, msg) => CallStepChannels(s, st);
    case PackFails(w) => CallStepChannels(s, st);
    case Select(w, cs, recv) => CallStepChannels(s, st);
    case Yield(w) => CallStepChannels(s, st);
    case Finish(w) => CallStepChannels(s, st);
    case Launch(w) => CallStepChannels(s, st);
    case RawReceive(w, c) => ReceiveStepChannels(s, st);
    case Advance(w, wake) => ReceiveStepChannels(s, st);
    case Acquire(w) => PoolStepChannels(s, st);
    case Spurious(w) => PoolStepChannels(s, st);
    case Return(w) => PoolStepChannels(s, st);
    case Settle(w) => PoolStepChannels(s, st);
    case Exit => PoolStepChannels(s, st);
    case SpawnOutside(id, wake) => SpawnStepOk(s, id, wake);
    case Spawn(w, id, wake) => SpawnStepOk(s, id, wake);
  }

  lemma CallStepChannels(s: State, st: Step)
    requires ChannelsOk(s) && PointsOk(s) && Enabled(s, st)
    requires st.OpenChannel? || st.CloseChannel? || st.Send? || st.PackFails? || st.Select? || st.Yield?
      || st.Finish? || st.Launch?
    ensures ChannelsOk(Next(s, st)) && PointsOk(Next(s, st)) && Later(s, Next(s, st), Actor(s, st))
  {
    hide PointOk, ChannelsOk, Next;
    CallStepOk(s, st);
    PointsLater(s, Next(s, st), Actor(s, st));
  }

  lemma ReceiveStepChannels(s: State, st: Step)
    requires ChannelsOk(s) && PointsOk(s) && Enabled(s, st) && (st.RawReceive? || st.Advance?)
    ensures ChannelsOk(Next(s, st)) && PointsOk(Next(s, st)) && Later(s, Next(s, st), Actor(s, st))
  {
    hide PassOk;
    var u := Actor(s, st);
    if st.RawReceive? { GrabOk(s, u, st.c, None); } else { ContinueOk(s, u, st.wake); }
    PointsLater(s, Next(s, st), u);
  }

  lemma PoolStepChannels(s: State, st: Step)
    requires ChannelsOk(s) && PointsOk(s) && Enabled(s, st)
    requires st.Acquire? || st.Spurious? || st.Return? || st.Settle? || st.Exit?
    ensures ChannelsOk(Next(s, st)) && PointsOk(Next(s, st)) && Later(s, Next(s, st), Actor(s, st))
  {
    SameChannels(s, Next(s, st), Actor(s, st));
  }

  lemma SameChannels(s: State, s': State, u: Id)
    requires ChannelsOk(s) && PointsOk(s) && s'.chans == s.chans && s'.open == s.open && s'.q.used == s.q.used
    requires forall t :: t in s'.point ==> t in s.point && s'.point[t] == s.point[t]
    ensures ChannelsOk(s') && PointsOk(s') && Later(s, s', u)
  {
    forall t | t in s'.point ensures PointOk(s', t, s'.point[t]) {
      assert PointOk(s, t, s.point[t]);
      if t == u { PointLater(s, s', t + 1, t, s.point[t]); } else { PointLater(s, s', u, t, s.point[t]); }
    }
  }

  lemma SpawnStepOk(s: State, id: Id, wake: nat)
    requires ChannelsOk(s) && PointsOk(s)
    ensures var s' := Spawned(s, id, wake); ChannelsOk(s') && PointsOk(s') && Later(s, s', id)
  {
    PointsLater(s, Spawned(s, id, wake), id);
  }

  /** The first step of a call, or of a run. */
  lemma CallStepOk(s: State, st: Step)
    requires ChannelsOk(s) && PointsOk(s) && Enabled(s, st)
    requires st.OpenChannel? || st.CloseChannel? || st.Send? || st.PackFails? || st.Select? || st.Yield?
      || st.Finish? || st.Launch?
    ensures var s', u := Next(s, st), Actor(s, st);
      ChannelsOk(s') && Later(s, s', u) && u in s'.point && PointOk(s', u, s'.point[u])
      && forall t :: t in s'.point && t != u ==> t in s.point && s'.point[t] == s.point[t]
  {
    var u := Actor(s, st);
    assert PointOk(s, u, s.point[u]);
  }

  // ----- waiting tasks, step by step -----

  /** Only a push takes a waiter off an empty channel, and then its sender wakes it. */
  lemma PushCovers(s: State, u: Id, c: Id, msg: Message, t: Id, d: Id)
    requires ChannelsOk(s) && u in s.point && s.point[u] == Sending(c, msg) && c in s.chans
    requires t != u && t in s.point && Sole(s, d, t) && Covered(s, t, d)
    ensures Covered(Push(s, u, c, msg), t, d)
  {
    var s' := Push(s, u, c, msg);
    if d == c && s.chans[c].data == [] && t in s.chans[c].blockings {
      assert s.chans[c].blockings[0] in s.chans[c].receivers;
      assert s'.point[u] == Waking(t);
    } else {
      WakeKept(s, s', u, t);
    }
  }

  /** Wake-ups under way by other tasks stay under way. */
  lemma WakeKept(s: State, s': State, u: Id, t: Id)
    requires u in s.point ==> s.point[u] != Waking(t)
    requires forall v :: v in s.point && v != u ==> v in s'.point && s'.point[v] == s.point[v]
    ensures WakePending(s, t) ==> WakePending(s', t)
  {
    if WakePending(s, t) {
      var v :| v in s.point && s.point[v] == Waking(t);
      assert s'.point[v] == Waking(t);
    }
  }

  lemma WakeCovers(s: State, u: Id, id: Id, wake: nat, t: Id, c: Id)
    requires u in s.point && s.point[u] == Waking(id) && s.point.Keys == s.q.tasks
    requires t != u && t in s.point && Covered(s, t, c)
    ensures Covered(Wake(s, u, id, wake), t, c)
  {
    var s' := Wake(s, u, id, wake);
    if t != id { WakeKept(s, s', u, t); }
    if LaunchPending(s, t) {
      var w :| 0 <= w < |s.workers| && s.workers[w] == Launching(t);
      assert s'.workers[w] == Launching(t);
    }
  }

  /** A step that leaves waiters, queue and workers alone. */
  lemma QuietCovers(s: State, s': State, u: Id, t: Id, c: Id)
    requires Covered(s, t, c) && s'.q == s.q && s'.workers == s.workers
    requires u in s.point ==> !s.point[u].Waking?
    requires forall v :: v in s.point && v != u ==> v in s'.point && s'.point[v] == s.point[v]
    requires c in s.chans && s.chans[c].data == [] && t in s.chans[c].blockings ==>
               c in s'.chans && s'.chans[c].data == [] && t in s'.chans[c].blockings
    ensures Covered(s', t, c)
  {
    WakeKept(s, s', u, t);
  }

  /** The loop head hands a ready task to the worker. */
  lemma HeadCovers(s: State, w: nat, t: Id, c: Id)
    requires w < |s.workers| && !Holds(s.workers[w]) && Covered(s, t, c)
    ensures Covered(LoopHead(s, w), t, c)
  {
    var s' := LoopHead(s, w);
    if WakePending(s, t) {
      var v :| v in s.point && s.point[v] == Waking(t);
      assert s'.point[v] == Waking(t);
    }
    LaunchKept(s, s', t);
    if t in s.q.ready && t !in s'.q.ready {
      assert s'.workers[w] == Launching(t);
    }
  }

  lemma LaunchKept(s: State, s': State, t: Id)
    requires |s.workers| <= |s'.workers|
    requires forall w :: 0 <= w < |s.workers| && s.workers[w] == Launching(t) ==> s'.workers[w] == Launching(t)
    ensures LaunchPending(s, t) ==> LaunchPending(s', t)
  {
    if LaunchPending(s, t) {
      var w :| 0 <= w < |s.workers| && s.workers[w] == Launching(t);
      assert s'.workers[w] == Launching(t);
    }
  }

  /** Changes to the pool that take no task from where it is. */
  lemma PoolCovers(s: State, s': State, t: Id, c: Id)
    requires Covered(s, t, c) && s'.chans == s.chans && |s.workers| <= |s'.workers|
    requires forall v :: v in s.point && s.point[v].Waking? ==> v in s'.point && s'.point[v] == s.point[v]
    requires t in s.q.awake ==> t in s'.q.awake || t in s'.q.ready
    requires t in s.q.ready ==> t in s'.q.ready
    requires forall w :: 0 <= w < |s.workers| && s.workers[w] == Launching(t) ==> s'.workers[w] == Launching(t)
    ensures Covered(s', t, c)
  {
    LaunchKept(s, s', t);
    if WakePending(s, t) {
      var v :| v in s.point && s.point[v] == Waking(t);
      assert s'.point[v] == Waking(t);
    }
  }

  lemma SettleCovers(s: State, w: nat, t: Id, c: Id)
    requires Placed(s) && Rests(s) && Enabled(s, Settle(w)) && Covered(s, t, c)
    requires t == s.workers[w].t ==> !s.point[t].Ended?
    ensures Covered(Next(s, Settle(w)), t, c)
  {
    var u := s.workers[w].t;
    var closed := s.point[u].Ended?;
    var s1 := s.(q := Settled(s.q, u, closed), point := if closed then s.point - {u} else s.point,
                 workers := s.workers[w := Contending]);
    assert AtRest(s.point[u]) || closed;
    PoolCovers(s, s1, t, c);
    HeadCovers(s1, w, t, c);
  }

  lemma LaunchCovers(s: State, w: nat, t: Id, c: Id)
    requires Rests(s) && Enabled(s, Launch(w)) && Covered(s, t, c) && t != s.workers[w].t
    ensures Covered(Next(s, Launch(w)), t, c)
  {
    var u := s.workers[w].t;
    assert s.point[u].Fresh? || AtRest(s.point[u]);
    PoolCovers(s, Next(s, Launch(w)), t, c);
  }

  /** A call in progress, seen by a waiting task. */
  lemma ContinueCovers(s: State, u: Id, wake: nat, t: Id, c: Id)
    requires Placed(s) && ChannelsOk(s) && PointsOk(s) && u in s.point && InCall(s.point[u])
    requires t in s.point && Covered(s, t, c) && Sole(s, c, t) && (t == u ==> PassOf(s.point[u]).Some?)
    ensures Covered(Continue(s, u, s.point[u], wake), t, c)
  {
    var p := s.point[u];
    assert PointOk(s, u, p);
    if p.Sending? {
      PushCovers(s, u, p.c, p.msg, t, c);
    } else if p.Waking? {
      WakeCovers(s, u, p.id, wake, t, c);
    } else {
      QuietCovers(s, Continue(s, u, p, wake), u, t, c);
    }
  }

  lemma StepCovers(s: State, st: Step, t: Id, c: Id)
    requires Placed(s) && Rests(s) && ChannelsOk(s) && PointsOk(s) && Enabled(s, st)
    requires t in s.point && PassOf(s.point[t]).Some? && Covered(s, t, c) && Sole(s, c, t)
    requires st.Launch? ==> s.workers[st.w].t != t
    ensures Covered(Next(s, st), t, c)
  {
    hide PointOk, Covered, Continue, LoopHead, Settled, Placed;
    match st
    case Acquire(w) => HeadCovers(s, w, t, c);
    case Launch(w) => LaunchCovers(s, w, t, c);
    case Settle(w) => SettleCovers(s, w, t, c);
    case Advance(w, wake) => ContinueCovers(s, s.workers[w].t, wake, t, c);
    case Spurious(w) => PoolStepCovers(s, st, t, c);
    case Return(w) => PoolStepCovers(s, st, t, c);
    case SpawnOutside(id, wake) => PoolStepCovers(s, st, t, c);
    case Spawn(w, id, wake) => PoolStepCovers(s, st, t, c);
    case Exit => PoolStepCovers(s, st, t, c);
    case OpenChannel(w, id) => CallStepCovers(s, st, t, c);
    case CloseChannel(w, d) => CallStepCovers(s, st, t, c);
    case Send(w, d, msg) => CallStepCovers(s, st, t, c);
    case PackFails(w) => CallStepCovers(s, st, t, c);
    case Select(w, cs, recv) => CallStepCovers(s, st, t, c);
    case RawReceive(w, d) => CallStepCovers(s, st, t, c);
    case Yield(w) => CallStepCovers(s, st, t, c);
    case Finish(w) => CallStepCovers(s, st, t, c);
  }

  lemma PoolStepCovers(s: State, st: Step, t: Id, c: Id)
    requires Placed(s) && Enabled(s, st) && t in s.point && Covered(s, t, c)
    requires st.Spurious? || st.Return? || st.SpawnOutside? || st.Spawn? || st.Exit?
    ensures Covered(Next(s, st), t, c)
  {
    PoolCovers(s, Next(s, st), t, c);
  }

  lemma CallStepCovers(s: State, st: Step, t: Id, c: Id)
    requires ChannelsOk(s) && Enabled(s, st) && Covered(s, t, c)
    requires st.OpenChannel? || st.CloseChannel? || st.Send? || st.PackFails? || st.Select? || st.RawReceive?
      || st.Yield? || st.Finish?
    ensures Covered(Next(s, st), t, c)
  {
    var s' := Next(s, st);
    QuietCovers(s.(q := s'.q), s', Actor(s, st), t, c);
  }

  /** What a task waits on after a step it was waiting on before, or it has just found it
      empty and joined its waiters. */
  lemma RegisteredBefore(s: State, st: Step, t: Id, c: Id)
    requires ChannelsOk(s) && PointsOk(s) && Enabled(s, st) && t in Next(s, st).point
    requires var p := PassOf(Next(s, st).point[t]); p.Some? && c in p.value.registered
    ensures
      || (t in s.point && PassOf(s.point[t]).Some? && c in PassOf(s.point[t]).value.registered &&
          (st.Launch? ==> s.workers[st.w].t != t))
      || (var s' := Next(s, st); c in s'.chans && s'.chans[c].data == [] && t in s'.chans[c].blockings)
  {
    if t in s.point { assert PointOk(s, t, s.point[t]); }
    if st.Advance? && t == s.workers[st.w].t {
      RegisteredNow(s, t, st.wake, c);
    }
  }

  lemma RegisteredNow(s: State, t: Id, wake: nat, c: Id)
    requires t in s.point && InCall(s.point[t]) && PointOk(s, t, s.point[t])
    requires var s' := Continue(s, t, s.point[t], wake); var p := PassOf(s'.point[t]);
      p.Some? && c in p.value.registered
    ensures
      || (PassOf(s.point[t]).Some? && c in PassOf(s.point[t]).value.registered)
      || (var s' := Continue(s, t, s.point[t], wake);
          c in s'.chans && s'.chans[c].data == [] && t in s'.chans[c].blockings)
  {
  }

  lemma StepWaitersOk(s: State, st: Step)
    requires Placed(s) && Rests(s) && ChannelsOk(s) && PointsOk(s) && WaitersOk(s) && Enabled(s, st)
    ensures WaitersOk(Next(s, st))
  {
    var s' := Next(s, st);
    StepChannelsOk(s, st);
    forall t, c | t in s'.point && PassOf(s'.point[t]).Some? && c in PassOf(s'.point[t]).value.registered
      && Sole(s', c, t)
      ensures Covered(s', t, c)
    {
      RegisteredBefore(s, st, t, c);
      if !(c in s'.chans && s'.chans[c].data == [] && t in s'.chans[c].blockings) {
        assert PointOk(s, t, s.point[t]);
        assert Sole(s, c, t);
        StepCovers(s, st, t, c);
      }
    }
  }
}

/** Reference counts of channels: what keeps one alive, and when it is deleted. */
module LtaskReferences {
  import opened Common
  import opened LtaskMachine
  import opened LtaskPlacement
  import opened LtaskWakeup

  /** A task between get_channel and close in raw_recv. */
  predicate HasRef(p: Point, c: Id) {
    (p.Popping? || p.Releasing?) && p.c == c
  }

  function Holders(s: State, c: Id): set<Id> {
    set t | t in s.point && HasRef(s.point[t], c)
  }

  /** The next statement of a task at p reads or writes channel c. */
  predicate Uses(p: Point, c: Id) {
    || (p.Sending? && p.c == c)
    || (p.Trying? && At(p.p, c))
    || HasRef(p, c)
  }

  /** References: one while the channel is open, one per call under way, and those that
      `send` and `select` took and never give back. */
  ghost predicate RefsOk(s: State) {
    && (forall c :: c in s.chans ==>
         s.chans[c].counter == (if c in s.open then 1 else 0) + s.chans[c].leaked + |Holders(s, c)|)
    && (forall t, c :: t in s.point && Uses(s.point[t], c) && !HasRef(s.point[t], c) ==>
         c in s.chans && s.chans[c].leaked >= 1)
  }

  /** Only task t moved. */
  lemma HoldersMove(s: State, s': State, t: Id, c: Id)
    requires t in s.point && t in s'.point && s'.point == s.point[t := s'.point[t]]
    ensures |Holders(s', c)| == |Holders(s, c)| - Bit(HasRef(s.point[t], c)) + Bit(HasRef(s'.point[t], c))
  {
    var others := Holders(s, c) - {t};
    assert Holders(s, c) == if HasRef(s.point[t], c) then others + {t} else others;
    assert Holders(s', c) == if HasRef(s'.point[t], c) then others + {t} else others;
  }

  /** Tasks without references may come and go. */
  lemma HoldersSame(s: State, s': State, c: Id)
    requires forall t :: t in s.point && t in s'.point ==> s'.point[t] == s.point[t]
    requires forall t :: t in s.point && t !in s'.point ==> !HasRef(s.point[t], c)
    requires forall t :: t in s'.point && t !in s.point ==> !HasRef(s'.point[t], c)
    ensures Holders(s', c) == Holders(s, c)
  {
  }

  /** The channel a task has a reference to give back, or `d` if none. */
  predicate RefOnly(p: Point, d: Id) {
    p.Popping? || p.Releasing? ==> p.c == d
  }

  predicate UseOnly(p: Point, d: Id) {
    (p.Sending? ==> p.c == d) && (p.Trying? ==> At(p.p, d)) && RefOnly(p, d)
  }

  /** Task t moves and channel d changes, in step. */
  lemma MoveRefs(s: State, s': State, t: Id, d: Id)
    requires RefsOk(s) && t in s.point && t in s'.point && s'.point == s.point[t := s'.point[t]]
    requires d in s.chans && d in s'.chans && s'.chans == s.chans[d := s'.chans[d]]
    requires forall c :: c != d ==> (c in s'.open) == (c in s.open)
    requires RefOnly(s.point[t], d) && UseOnly(s'.point[t], d) && s.chans[d].leaked <= s'.chans[d].leaked
    requires s'.chans[d].counter - s.chans[d].counter ==
               Bit(d in s'.open) - Bit(d in s.open) + s'.chans[d].leaked - s.chans[d].leaked
               + Bit(HasRef(s'.point[t], d)) - Bit(HasRef(s.point[t], d))
    requires s'.point[t].Sending? || s'.point[t].Trying? ==> s'.chans[d].leaked >= 1
    ensures RefsOk(s')
  {
    forall c | c in s'.chans
      ensures s'.chans[c].counter == (if c in s'.open then 1 else 0) + s'.chans[c].leaked + |Holders(s', c)|
    {
      HoldersMove(s, s', t, c);
    }
    forall v, c | v in s'.point && Uses(s'.point[v], c) && !HasRef(s'.point[v], c)
      ensures c in s'.chans && s'.chans[c].leaked >= 1
    {
      if v != t { assert Uses(s.point[v], c); }
    }
  }

  /** Task t moves without a reference before or after. */
  lemma WalkRefs(s: State, s': State, t: Id)
    requires RefsOk(s) && t in s.point && t in s'.point && s'.point == s.point[t := s'.point[t]]
    requires s'.chans == s.chans && s'.open == s.open
    requires var p := s.point[t]; !p.Popping? && !p.Releasing?
    requires var p := s'.point[t]; !p.Popping? && !p.Releasing? && !p.Sending? && !p.Trying?
    ensures RefsOk(s')
  {
    forall c | c in s'.chans ensures |Holders(s', c)| == |Holders(s, c)| { HoldersMove(s, s', t, c); }
    forall v, c | v in s'.point && Uses(s'.point[v], c) && !HasRef(s'.point[v], c)
      ensures c in s'.chans && s'.chans[c].leaked >= 1
    {
      assert v != t && Uses(s.point[v], c);
    }
  }

  lemma RestRefs(s: State, s': State)
    requires RefsOk(s) && s'.chans == s.chans && s'.open == s.open
    requires forall t :: t in s.point && t in s'.point ==> s'.point[t] == s.point[t]
    requires forall t :: t in s.point && t !in s'.point ==> s.point[t].Ended?
    requires forall t :: t in s'.point && t !in s.point ==> s'.point[t].Fresh?
    ensures RefsOk(s')
  {
    forall c | c in s'.chans ensures Holders(s', c) == Holders(s, c) { HoldersSame(s, s', c); }
  }

  lemma StepRefs(s: State, st: Step)
    requires RefsOk(s) && Placed(s) && Rests(s) && ChannelsOk(s) && PointsOk(s) && Enabled(s, st)
    ensures RefsOk(Next(s, st))
  {
    hide RefsOk, PointOk, LoopHead, Continue;
    var s' := Next(s, st);
    match st
    case Acquire(w) => QuietRefs(s, st);
    case Spurious(w) => QuietRefs(s, st);
    case Return(w) => QuietRefs(s, st);
    case Settle(w) => QuietRefs(s, st);
    case Exit => QuietRefs(s, st);
    case SpawnOutside(id, wake) => QuietRefs(s, st);
    case Spawn(w, id, wake) => QuietRefs(s, st);
    case Launch(w) => CallRefs(s, st);
    case OpenChannel(w, id) => CallRefs(s, st);
    case CloseChannel(w, c) => CallRefs(s, st);
    case Send(w, c, msg) => CallRefs(s, st);
    case PackFails(w) => CallRefs(s, st);
    case Select(w, cs, recv) => CallRefs(s, st);
    case RawReceive(w, c) => CallRefs(s, st);
    case Yield(w) => CallRefs(s, st);
    case Finish(w) => CallRefs(s, st);
    case Advance(w, wake) => ContinueRefs(s, s.workers[w].t, wake);
  }

  lemma QuietRefs(s: State, st: Step)
    requires RefsOk(s) && Placed(s) && Enabled(s, st)
    requires st.Acquire? || st.Spurious? || st.Return? || st.Settle? || st.Exit? || st.SpawnOutside? || st.Spawn?
    ensures RefsOk(Next(s, st))
  {
    RestRefs(s, Next(s, st));
  }

  lemma CallRefs(s: State, st: Step)
    requires RefsOk(s) && Rests(s) && ChannelsOk(s) && PointsOk(s) && Enabled(s, st)
    requires st.Launch? || st.OpenChannel? || st.CloseChannel? || st.Send? || st.PackFails? || st.Select?
      || st.RawReceive? || st.Yield? || st.Finish?
    ensures RefsOk(Next(s, st))
  {
    var s', t := Next(s, st), s.workers[st.w].t;
    match st
    case OpenChannel(w, id) => OpenRefs(s, s', id);
    case CloseChannel(w, c) => MoveRefs(s, s', t, c);
    case Send(w, c, msg) => MoveRefs(s, s', t, c);
    case RawReceive(w, c) => GrabRefs(s, t, c, None);
    case Launch(w) => WalkRefs(s, s', t);
    case PackFails(w) => WalkRefs(s, s', t);
    case Select(w, cs, recv) => WalkRefs(s, s', t);
    case Yield(w) => WalkRefs(s, s', t);
    case Finish(w) => WalkRefs(s, s', t);
  }

  lemma OpenRefs(s: State, s': State, id: Id)
    requires RefsOk(s) && ChannelsOk(s) && PointsOk(s) && id !in s.q.used
    requires s'.point == s.point && s'.open == s.open + {id} && s'.chans == s.chans[id := Chan([], [], 1, 0, {})]
    ensures RefsOk(s')
  {
    forall u | u in s.point ensures !HasRef(s.point[u], id) { assert PointOk(s, u, s.point[u]); }
    assert Holders(s', id) == {};
    forall c | c in s'.chans ensures Holders(s', c) == Holders(s, c) { HoldersSame(s, s', c); }
  }

  lemma GrabRefs(s: State, t: Id, c: Id, ctx: Option<Pass>)
    requires RefsOk(s) && t in s.point && !s.point[t].Popping? && !s.point[t].Releasing?
    ensures RefsOk(Grab(s, t, c, ctx))
  {
    var s' := Grab(s, t, c, ctx);
    if c in s.open && c in s.chans { MoveRefs(s, s', t, c); } else { WalkRefs(s, s', t); }
  }

  lemma ContinueRefs(s: State, t: Id, wake: nat)
    requires RefsOk(s) && PointsOk(s) && t in s.point && InCall(s.point[t])
    ensures RefsOk(Continue(s, t, s.point[t], wake))
  {
    var p, s' := s.point[t], Continue(s, t, s.point[t], wake);
    assert PointOk(s, t, p);
    match p
    case Sending(c, msg) => MoveRefs(s, s', t, c);
    case Waking(id) => WalkRefs(s, s', t);
    case Looking(q, recv) => LookRefs(s, t, q, recv);
    case Trying(q, recv) => MoveRefs(s, s', t, q.cs[q.i]);
    case Chosen(q) => GrabRefs(s, t, q.cs[q.i], Some(q));
    case Popping(c, ctx) => MoveRefs(s, s', t, c);
    case Releasing(c, got, ctx) => MoveRefs(s, s', t, c);
  }

  lemma LookRefs(s: State, t: Id, q: Pass, recv: bool)
    requires RefsOk(s) && t in s.point && s.point[t] == Looking(q, recv)
    ensures RefsOk(Look(s, t, q, recv))
  {
    var s' := Look(s, t, q, recv);
    if q.i < |q.cs| && q.cs[q.i] in s.open && q.cs[q.i] in s.chans {
      MoveRefs(s, s', t, q.cs[q.i]);
    } else {
      WalkRefs(s, s', t);
    }
  }

  /** No task touches a channel that has been deleted. */
  lemma UsedChannelsLive(s: State, t: Id, c: Id)
    requires RefsOk(s) && PointsOk(s) && t in s.point && Uses(s.point[t], c)
    ensures c in s.chans && s.chans[c].counter >= 1
  {
    assert PointOk(s, t, s.point[t]);
    if HasRef(s.point[t], c) {
      assert t in Holders(s, c);
    }
  }

  /** A channel is deleted exactly when it is closed, was never sent to or selected on,
      and no raw_recv is under way. */
  lemma DeletedIff(s: State, c: Id)
    requires RefsOk(s) && c in s.chans
    ensures s.chans[c].counter >= 0
    ensures s.chans[c].counter == 0 <==> c !in s.open && s.chans[c].leaked == 0 && Holders(s, c) == {}
  {
  }
}

/** Every live task is in exactly one place, and no worker waits while tasks do. */
module LtaskPlacement {
  import opened Common
  import opened LtaskMachine

  // ----- one place for each task -----

  ghost predicate HeldBySome(ws: seq<Worker>, t: Id) {
    exists w :: 0 <= w < |ws| && Holds(ws[w]) && ws[w].t == t
  }

  /** Tasks are once in the ready queue, or asleep, or held by exactly one worker. */
  ghost predicate Placed(s: State) {
    && s.point.Keys == s.q.tasks <= s.q.used
    && NoRepeats(s.q.ready)
    && (forall t :: t in s.q.ready ==> t in s.q.tasks && t !in s.q.sleeping && !HeldBySome(s.workers, t))
    && (forall t :: t in s.q.sleeping ==> t in s.q.tasks && !HeldBySome(s.workers, t))
    && (forall v, w :: 0 <= v < w < |s.workers| && Holds(s.workers[v]) && Holds(s.workers[w]) ==>
         s.workers[v].t != s.workers[w].t)
    && (forall t :: t in s.q.tasks ==> t in s.q.ready || t in s.q.sleeping || HeldBySome(s.workers, t))
    && (forall w :: 0 <= w < |s.workers| && Holds(s.workers[w]) ==> s.workers[w].t in s.q.tasks)
  }

  /** Tasks that are not running are at the start, at a yield, or at their end. */
  ghost predicate Rests(s: State) {
    && (forall t :: t in s.q.ready && t in s.point ==> s.point[t].Fresh? || AtRest(s.point[t]))
    && (forall t :: t in s.q.sleeping && t in s.point ==> AtRest(s.point[t]) && t !in s.q.awake)
    && (forall w :: 0 <= w < |s.workers| && Holds(s.workers[w]) && s.workers[w].t in s.point ==>
          var p := s.point[s.workers[w].t];
          match s.workers[w]
          case Launching(_) => p.Fresh? || AtRest(p)
          case Returned(_) => AtRest(p) || p.Ended?
          case _ => !p.Fresh?)
  }

  /** A worker without a task takes the first ready one. */
  lemma HeadPlaced(s: State, w: nat)
    requires Placed(s) && Rests(s) && w < |s.workers| && !Holds(s.workers[w])
    ensures Placed(LoopHead(s, w)) && Rests(LoopHead(s, w))
  {
    var s' := LoopHead(s, w);
    forall t | t != (if s.q.exit || s.q.ready == [] then t + 1 else s.q.ready[0])
      ensures HeldBySome(s'.workers, t) == HeldBySome(s.workers, t)
    {
      HeldElsewhere(s.workers, w, s'.workers[w], t);
    }
    if !s.q.exit && s.q.ready != [] {
      var t := s.q.ready[0];
      assert s.q.ready == [t] + s.q.ready[1..];
      assert t in s.q.ready && !HeldBySome(s.workers, t);
      assert s'.workers[w].t == t;
      forall u | u in s'.q.ready ensures u != t && u in s.q.ready {
        var k :| 0 <= k < |s'.q.ready| && s'.q.ready[k] == u;
        assert s.q.ready[k + 1] == u;
      }
    }
  }

  lemma HeldElsewhere(ws: seq<Worker>, w: nat, x: Worker, t: Id)
    requires w < |ws| && (Holds(ws[w]) ==> ws[w].t != t) && (Holds(x) ==> x.t != t)
    ensures HeldBySome(ws[w := x], t) == HeldBySome(ws, t)
  {
    if HeldBySome(ws, t) {
      var v :| 0 <= v < |ws| && Holds(ws[v]) && ws[v].t == t;
      assert ws[w := x][v] == ws[v];
    }
    if HeldBySome(ws[w := x], t) {
      var v :| 0 <= v < |ws| && Holds(ws[w := x][v]) && ws[w := x][v].t == t;
      assert ws[v] == ws[w := x][v];
    }
  }

  /** The same workers hold the same tasks. */
  ghost predicate SameHolders(ws: seq<Worker>, ws': seq<Worker>) {
    && |ws| == |ws'|
    && forall w :: 0 <= w < |ws| ==> Holds(ws[w]) == Holds(ws'[w]) && (Holds(ws[w]) ==> ws[w].t == ws'[w].t)
  }

  lemma SameHeld(ws: seq<Worker>, ws': seq<Worker>)
    requires SameHolders(ws, ws')
    ensures forall t :: HeldBySome(ws, t) == HeldBySome(ws', t)
  {
    forall t ensures HeldBySome(ws, t) == HeldBySome(ws', t) {
      if HeldBySome(ws, t) {
        var v :| 0 <= v < |ws| && Holds(ws[v]) && ws[v].t == t;
        assert Holds(ws'[v]);
      }
      if HeldBySome(ws', t) {
        var v :| 0 <= v < |ws'| && Holds(ws'[v]) && ws'[v].t == t;
        assert Holds(ws[v]);
      }
    }
  }

  /** A running task moves on to another point of its program. */
  lemma MovePlaced(s: State, w: nat, s': State)
    requires Placed(s) && Rests(s) && w < |s.workers| && s.workers[w].Running?
    requires s'.q == s.q && s'.workers == s.workers
    requires var t := s.workers[w].t; t in s'.point && s'.point == s.point[t := s'.point[t]] && !s'.point[t].Fresh?
    ensures Placed(s') && Rests(s')
  {
    var t := s.workers[w].t;
    assert HeldBySome(s.workers, t);
  }

  /** A worker goes on with the task it holds. */
  lemma PhasePlaced(s: State, w: nat, s': State)
    requires Placed(s) && Rests(s) && w < |s.workers| && Holds(s.workers[w]) && s.workers[w].t in s.point
    requires s'.q == s.q.(awake := s'.q.awake) && s'.q.awake <= s.q.awake
    requires |s'.workers| == |s.workers| && s'.workers == s.workers[w := s'.workers[w]] && Holds(s'.workers[w])
    requires s'.workers[w].t == s.workers[w].t
    requires var t := s.workers[w].t; t in s'.point && s'.point == s.point[t := s'.point[t]]
    requires var p := s'.point[s.workers[w].t];
      if s'.workers[w].Running? then !p.Fresh? else s'.workers[w].Returned? && (AtRest(p) || p.Ended?)
    ensures Placed(s') && Rests(s')
  {
    SameHeld(s.workers, s'.workers);
    assert HeldBySome(s.workers, s.workers[w].t);
  }

  /** Workers that hold nothing may be notified, and channels may change. */
  lemma QuietPlaced(s: State, s': State)
    requires Placed(s) && Rests(s) && SameHolders(s.workers, s'.workers) && s'.point == s.point
    requires forall w :: 0 <= w < |s.workers| && Holds(s.workers[w]) ==> s'.workers[w] == s.workers[w]
    requires s'.q == s.q.(exit := s'.q.exit, used := s'.q.used) && s.q.used <= s'.q.used
    ensures Placed(s') && Rests(s')
  {
    SameHeld(s.workers, s'.workers);
  }

  lemma AppendFresh(ids: seq<Id>, id: Id)
    requires NoRepeats(ids) && id !in ids
    ensures NoRepeats(ids + [id])
  {
  }

  lemma CreatedPlaced(s: State, id: Id)
    requires Placed(s) && Rests(s) && id !in s.q.used
    ensures var s' := s.(q := Created(s.q, id), point := s.point[id := Fresh]); Placed(s') && Rests(s')
  {
    AppendFresh(s.q.ready, id);
  }

  lemma ResumedPlaced(s: State, id: Id)
    requires Placed(s) && Rests(s)
    ensures var s' := s.(q := Resumed(s.q, id)); Placed(s') && Rests(s')
  {
    if id in s.q.sleeping { AppendFresh(s.q.ready, id); }
  }

  /** After a run the task goes back to the queue, to sleep, or away. */
  lemma SettledPlaced(s: State, w: nat)
    requires Placed(s) && Rests(s) && w < |s.workers| && s.workers[w].Returned? && s.workers[w].t in s.point
    ensures var t := s.workers[w].t; var closed := s.point[t].Ended?;
      var s' := s.(q := Settled(s.q, t, closed), point := if closed then s.point - {t} else s.point,
                   workers := s.workers[w := Contending]);
      Placed(s') && Rests(s')
  {
    var t := s.workers[w].t;
    var ws := s.workers[w := Contending];
    assert HeldBySome(s.workers, t);
    assert !HeldBySome(ws, t);
    forall u | u != t ensures HeldBySome(ws, u) == HeldBySome(s.workers, u) {
      HeldElsewhere(s.workers, w, Contending, u);
    }
    AppendFresh(s.q.ready, t);
  }

  // ----- no worker waits while there is work -----

  function Contenders(ws: seq<Worker>): nat {
    if ws == [] then 0 else (if ws[0].Contending? then 1 else 0) + Contenders(ws[1..])
  }

  /** If a worker waits on the condition variable, each ready task has a worker of its own
      about to take the lock. */
  ghost predicate Served(s: State) {
    && (s.q.exit ==> !AnyParked(s.workers))
    && (AnyParked(s.workers) ==> |s.q.ready| <= Contenders(s.workers))
  }

  lemma {:induction false} ContendersUpdate(ws: seq<Worker>, w: nat, x: Worker)
    requires w < |ws|
    ensures Contenders(ws[w := x]) == Contenders(ws) - Bit(ws[w].Contending?) + Bit(x.Contending?)
  {
    if w == 0 {
      assert ws[w := x][1..] == ws[1..];
    } else {
      assert ws[w := x][1..] == ws[1..][w - 1 := x];
      ContendersUpdate(ws[1..], w - 1, x);
    }
  }

  lemma ParkedUpdate(ws: seq<Worker>, w: nat, x: Worker)
    requires w < |ws| && !x.Parked?
    ensures AnyParked(ws[w := x]) ==> AnyParked(ws)
  {
    if AnyParked(ws[w := x]) {
      var v :| 0 <= v < |ws| && ws[w := x][v].Parked?;
      assert ws[v].Parked?;
    }
  }

  /** Putting one more task in the queue and notifying one worker. */
  lemma NotifyServed(s: State, s': State, wake: nat)
    requires Served(s) && Reaches(s.workers, wake) && s'.workers == Notified(s.workers, wake)
    requires s'.q.exit == s.q.exit && |s'.q.ready| == |s.q.ready| + 1
    ensures Served(s')
  {
    if AnyParked(s.workers) {
      ContendersUpdate(s.workers, wake, Contending);
      ParkedUpdate(s.workers, wake, Contending);
    }
  }

  /** The loop head takes a task, or waits only when there is none. */
  lemma HeadServed(s: State, w: nat)
    requires Served(s) && w < |s.workers| && s.workers[w].Contending?
    ensures Served(LoopHead(s, w))
  {
    var s' := LoopHead(s, w);
    ContendersUpdate(s.workers, w, s'.workers[w]);
    if s'.workers[w].Parked? {
      assert s'.q.ready == [];
    } else {
      ParkedUpdate(s.workers, w, s'.workers[w]);
    }
  }

  /** A worker that holds a task makes way for it before it looks for the next one. */
  lemma SettledServed(s: State, w: nat, s1: State)
    requires Served(s) && w < |s.workers| && Holds(s.workers[w])
    requires s1.workers == s.workers[w := Contending] && s1.q.exit == s.q.exit && |s1.q.ready| <= |s.q.ready| + 1
    ensures Served(s1)
  {
    ContendersUpdate(s.workers, w, Contending);
    ParkedUpdate(s.workers, w, Contending);
  }

  lemma BusyServed(s: State, w: nat, s': State)
    requires Served(s) && w < |s.workers| == |s'.workers| && Holds(s.workers[w]) && Holds(s'.workers[w])
    requires s'.workers == s.workers[w := s'.workers[w]] && s'.q.exit == s.q.exit && s'.q.ready == s.q.ready
    ensures Served(s')
  {
    ContendersUpdate(s.workers, w, s'.workers[w]);
    ParkedUpdate(s.workers, w, s'.workers[w]);
  }

  // ----- every step -----

  lemma StepPlaced(s: State, st: Step)
    requires Placed(s) && Rests(s) && Enabled(s, st)
    ensures Placed(Next(s, st)) && Rests(Next(s, st))
  {
    hide Placed, Rests, LoopHead, Continue;
    var s' := Next(s, st);
    match st
    case Acquire(w) => HeadPlaced(s, w);
    case Spurious(w) => QuietPlaced(s, s');
    case Launch(w) => PhasePlaced(s, w, s');
    case Return(w) => PhasePlaced(s, w, s');
    case Settle(w) =>
      var t := s.workers[w].t;
      var closed := s.point[t].Ended?;
      var s1 := s.(q := Settled(s.q, t, closed), point := if closed then s.point - {t} else s.point,
                   workers := s.workers[w := Contending]);
      SettledPlaced(s, w);
      HeadPlaced(s1, w);
    case SpawnOutside(id, wake) => SpawnPlaced(s, id, wake);
    case Exit => QuietPlaced(s, s');
    case Spawn(w, id, wake) => SpawnPlaced(s, id, wake);
    case OpenChannel(w, id) => QuietPlaced(s, s');
    case CloseChannel(w, c) => QuietPlaced(s, s');
    case Advance(w, wake) => AdvancePlaced(s, w, wake);
    case Send(w, c, msg) => MovePlaced(s, w, s');
    case PackFails(w) => MovePlaced(s, w, s');
    case Select(w, cs, recv) => MovePlaced(s, w, s');
    case RawReceive(w, c) => MovePlaced(s, w, s');
    case Yield(w) => MovePlaced(s, w, s');
    case Finish(w) => MovePlaced(s, w, s');
  }

  lemma SpawnPlaced(s: State, id: Id, wake: nat)
    requires Placed(s) && Rests(s) && id !in s.q.used
    ensures Placed(Spawned(s, id, wake)) && Rests(Spawned(s, id, wake))
  {
    var s1 := s.(q := Created(s.q, id), point := s.point[id := Fresh]);
    CreatedPlaced(s, id);
    QuietPlaced(s1, Spawned(s, id, wake));
  }

  lemma AdvancePlaced(s: State, w: nat, wake: nat)
    requires Placed(s) && Rests(s) && Enabled(s, Advance(w, wake))
    ensures Placed(Next(s, Advance(w, wake))) && Rests(Next(s, Advance(w, wake)))
  {
    hide Placed, Rests;
    var t := s.workers[w].t;
    var p, s' := s.point[t], Next(s, Advance(w, wake));
    if p.Waking? {
      ResumedPlaced(s, p.id);
      var s1 := s.(q := Resumed(s.q, p.id));
      var s2 := s1.(workers := s'.workers);
      QuietPlaced(s1, s2);
      MovePlaced(s2, w, s');
    } else {
      assert s'.point == s.point[t := s'.point[t]];
      MovePlaced(s, w, s');
    }
  }

  lemma StepServed(s: State, st: Step)
    requires Served(s) && Enabled(s, st)
    ensures Served(Next(s, st))
  {
    var s' := Next(s, st);
    match st
    case Acquire(w) => HeadServed(s, w);
    case Spurious(w) => ContendersUpdate(s.workers, w, Contending); ParkedUpdate(s.workers, w, Contending);
    case Launch(w) => BusyServed(s, w, s');
    case Return(w) => BusyServed(s, w, s');
    case Settle(w) =>
      var t := s.workers[w].t;
      var closed := s.point[t].Ended?;
      var s1 := s.(q := Settled(s.q, t, closed), point := if closed then s.point - {t} else s.point,
                   workers := s.workers[w := Contending]);
      SettledServed(s, w, s1);
      HeadServed(s1, w);
    case SpawnOutside(id, wake) => NotifyServed(s, s', wake);
    case Spawn(w, id, wake) => NotifyServed(s, s', wake);
    case Exit =>
    case Advance(w, wake) =>
      var p := s.point[s.workers[w].t];
      if p.Waking? && p.id in s.q.sleeping { NotifyServed(s, s', wake); }
    case OpenChannel(w, id) =>
    case CloseChannel(w, c) =>
    case Send(w, c, msg) =>
    case PackFails(w) =>
    case Select(w, cs, recv) =>
    case RawReceive(w, c) =>
    case Yield(w) =>
    case Finish(w) =>
  }
}

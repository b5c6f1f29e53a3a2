/** The scheduler's tables and the channels' queues, updated in place. Each method is the
    body of one locked section and does what the state machine's step says. */
module LtaskScheduler {
  import opened Common
  import opened LtaskMachine

  datatype TaskState = Initial | Sleeping | Closed

  class Task {
    const id: Id
    var resume: bool
    var state: TaskState

    constructor (id: Id)
      ensures this.id == id && !resume && state == Initial
    {
      this.id, resume, state := id, false, Initial;
    }
  }

  class Channel {
    var data: seq<Message>
    var blockings: seq<Id>
    var counter: int
    var deleted: bool
    /** References never given back, and every task that ever received. */
    ghost var leaked: nat
    ghost var receivers: set<Id>

    ghost function View(): Chan
      reads this
    {
      Chan(data, blockings, counter, leaked, receivers)
    }

    constructor ()
      ensures View() == Chan([], [], 1, 0, {}) && !deleted
    {
      data, blockings, counter, deleted := [], [], 1, false;
      leaked, receivers := 0, {};
    }

    /** Gives back a reference; the last one deletes the channel. */
    method Close()
      modifies this
      ensures View() == Released(old(View())) && deleted == (old(deleted) || counter == 0)
      ensures counter == old(counter) - 1 && data == old(data) && blockings == old(blockings)
    {
      counter := counter - 1;
      if counter == 0 { deleted := true; }
    }

    /** A reference to a channel nobody holds any more is given back at once. */
    method AddRef() returns (ok: bool)
      modifies this
      ensures ok == (old(counter) != 0)
      ensures View() == if ok then old(View()).(counter := old(counter) + 1) else old(View())
      ensures deleted == (old(deleted) || !ok)
    {
      counter := counter + 1;
      if counter == 1 {
        Close();
        return false;
      }
      return true;
    }

    /** Adds a message; the first waiter, if any, is to be resumed by the caller. */
    method Push(msg: Message) returns (waiter: Option<Id>)
      modifies this
      ensures View() == Pushed(old(View()), msg) && deleted == old(deleted)
      ensures waiter == if old(blockings) == [] then None else Some(old(blockings)[0])
      ensures data == old(data) + [msg] && blockings == if old(blockings) == [] then [] else old(blockings)[1..]
    {
      data := data + [msg];
      if blockings == [] {
        return None;
      }
      waiter := Some(blockings[0]);
      blockings := blockings[1..];
    }

    method Pop() returns (msg: Option<Message>)
      modifies this
      ensures View() == Popped(old(View())) && deleted == old(deleted)
      ensures msg == if old(data) == [] then None else Some(old(data)[0])
      ensures data == (if old(data) == [] then [] else old(data)[1..]) && blockings == old(blockings)
    {
      if data == [] {
        return None;
      }
      msg := Some(data[0]);
      data := data[1..];
    }

    method DoSelect(source: Id) returns (chosen: bool)
      modifies this
      ensures View() == Selected(old(View()), source) && deleted == old(deleted) && chosen == (old(data) != [])
      ensures data == old(data) && blockings == if chosen then old(blockings) else old(blockings) + [source]
    {
      if data == [] {
        blockings := blockings + [source];
        return false;
      }
      return true;
    }
  }

  /** What the loop head of a worker decides. */
  datatype Decision = Leave | Wait | Run(t: Task)

  class Scheduler {
    var exit: bool
    var idgen: nat
    /** Lookups with operator[] leave null entries behind. */
    var tasks: map<Id, Task?>
    var sleeping: map<Id, Task?>
    var running: seq<Task>
    var channels: map<Id, Channel?>
    ghost var used: set<Id>
    ghost var objects: set<Task>

    ghost predicate Valid()
      reads this
    {
      && (forall id :: id in used ==> id < idgen || id == 0)
      && (forall id :: id in tasks && tasks[id] != null ==> tasks[id] in objects && tasks[id].id == id && id in used)
      && (forall t :: t in running ==> t.id in tasks && tasks[t.id] == t)
      && (forall id :: id in sleeping && sleeping[id] != null ==> id in tasks && tasks[id] == sleeping[id])
      && (forall id :: id in channels && channels[id] != null ==> id in used)
    }

    ghost function Entries(m: map<Id, Task?>): set<Id> {
      set id | id in m && m[id] != null
    }

    ghost function Ids(ts: seq<Task>): seq<Id> {
      seq(|ts|, i requires 0 <= i < |ts| => ts[i].id)
    }

    /** The scheduler's fields as the state machine has them. */
    ghost function View(): Sched
      reads this, objects
    {
      Sched(exit, used, Entries(tasks), Ids(running), Entries(sleeping),
            set id | id in tasks && tasks[id] != null && tasks[id] in objects && tasks[id].resume)
    }

    constructor ()
      ensures Valid() && View() == Sched(false, {0}, {}, [], {}, {}) && objects == {} && channels == map[]
    {
      exit, idgen, tasks, sleeping, running, channels := false, 0, map[], map[], [], map[];
      used, objects := {0}, {};
    }

    /** The next id that is neither 0 nor a key of the map. */
    method FreshId(taken: set<Id>) returns (id: Id)
      requires Valid() && forall i :: i in used ==> i < idgen || i == 0
      modifies `idgen
      ensures Valid() && id != 0 && id !in taken && id !in used && old(idgen) <= id < idgen
      ensures forall i :: old(idgen) <= i < id ==> i == 0 || i in taken
    {
      ghost var start := idgen;
      while true
        invariant idgen >= start && forall i :: start <= i < idgen ==> i == 0 || i in taken
        decreases (set i | i in taken && i >= idgen), if idgen == 0 then 1 else 0
      {
        id := idgen;
        ghost var left := set i | i in taken && i >= idgen;
        idgen := idgen + 1;
        if id != 0 && id !in taken { return; }
        if id in taken {
          assert id in left;
          assert (set i | i in taken && i >= idgen) < left;
        }
      }
    }

    /** Puts a new task in the table and the ready queue; one worker is notified. */
    method CreateTask() returns (t: Task)
      requires Valid()
      modifies this
      ensures Valid() && fresh(t) && objects == old(objects) + {t}
      ensures t.id !in old(used) && t.id != 0 && View() == Created(old(View()), t.id)
      ensures running == old(running) + [t] && t.id in tasks && tasks[t.id] == t && sleeping == old(sleeping)
      ensures channels == old(channels)
    {
      var id := FreshId(tasks.Keys);
      t := new Task(id);
      tasks := tasks[id := t];
      running := running + [t];
      used, objects := used + {id}, objects + {t};
    }

    /** The loop head of a worker. */
    method NextTask() returns (d: Decision)
      requires Valid()
      modifies `running
      ensures Valid()
      ensures match d
        case Leave => exit && View() == old(View())
        case Wait => !exit && old(running) == [] && View() == old(View())
        case Run(t) => !exit && old(running) != [] && t == old(running)[0] &&
                       View() == old(View()).(ready := old(View()).ready[1..]) && running == old(running)[1..]
    {
      if exit {
        return Leave;
      }
      if running == [] {
        return Wait;
      }
      var t := running[0];
      running := running[1..];
      return Run(t);
    }

    /** run() starts by clearing the stay-awake flag. */
    method BeginRun(t: Task)
      requires Valid() && t in objects && t.id in tasks && tasks[t.id] == t
      modifies t`resume
      ensures Valid() && View() == old(View()).(awake := old(View()).awake - {t.id}) && !t.resume
    {
      t.resume := false;
    }

    /** What becomes of a task whose run has ended. */
    method EndRun(t: Task)
      requires Valid() && t in objects && t.id in tasks && tasks[t.id] == t
      requires t !in running && !(t.id in sleeping && sleeping[t.id] != null)
      modifies this
      ensures Valid() && View() == Settled(old(View()), t.id, t.state == Closed) && channels == old(channels)
      ensures running == if t.state != Closed && t.resume then old(running) + [t] else old(running)
      ensures tasks == if t.state == Closed then old(tasks) - {t.id} else old(tasks)
      ensures sleeping == if t.state != Closed && !t.resume then old(sleeping)[t.id := t] else old(sleeping)
    {
      if t.state == Closed {
        tasks := tasks - {t.id};
        return;
      }
      if t.resume {
        running := running + [t];
        return;
      }
      sleeping := sleeping[t.id := t];
    }

    /** Makes a sleeping task ready and notifies a worker, or tells the task to stay awake. */
    method Resume(id: Id) returns (notify: bool)
      requires Valid()
      modifies this, objects
      ensures Valid() && View() == Resumed(old(View()), id) && notify == (id in old(View()).sleeping)
      ensures channels == old(channels) && objects == old(objects)
      ensures running == if notify then old(running) + [old(sleeping)[id]] else old(running)
      ensures !notify && id in old(tasks) && old(tasks)[id] != null ==> old(tasks)[id].resume
    {
      if id !in sleeping { sleeping := sleeping[id := null]; }
      var task := sleeping[id];
      if task != null {
        sleeping := sleeping - {id};
        running := running + [task];
        return true;
      }
      if id !in tasks { tasks := tasks[id := null]; }
      task := tasks[id];
      if task != null {
        task.resume := true;
      }
      return false;
    }

    method Exit()
      requires Valid()
      modifies `exit
      ensures Valid() && View() == old(View()).(exit := true)
    {
      exit := true;
    }

    // ----- the channel table -----

    /** The channels that are open. */
    ghost function Open(): set<Id>
      reads this
    {
      set id | id in channels && channels[id] != null
    }

    method CreateChannel() returns (id: Id)
      requires Valid()
      modifies this
      ensures Valid() && id !in old(used) && id !in old(channels) && Open() == old(Open()) + {id}
      ensures channels[id] != null && fresh(channels[id]) && channels[id].View() == Chan([], [], 1, 0, {})
      ensures View() == old(View()).(used := old(used) + {id})
    {
      id := FreshId(channels.Keys);
      var c := new Channel();
      channels := channels[id := c];
      used := used + {id};
    }

    method CloseChannel(id: Id)
      requires Valid()
      modifies this, if id in channels && channels[id] != null then {channels[id]} else {}
      ensures Valid() && Open() == old(Open()) - {id} && View() == old(View())
      ensures id in old(Open()) ==> old(channels[id]).View() == Released(old(channels[id].View()))
    {
      if id !in channels { channels := channels[id := null]; }
      var c := channels[id];
      if c != null {
        c.Close();
        channels := channels - {id};
      }
    }

    /** A reference to an open channel. */
    method GetChannel(id: Id) returns (c: Channel?)
      requires Valid() && (id in channels && channels[id] != null ==> channels[id].counter >= 1)
      modifies this, if id in channels && channels[id] != null then {channels[id]} else {}
      ensures Valid() && Open() == old(Open()) && View() == old(View())
      ensures c != null <==> id in old(Open())
      ensures c != null ==>
        c == old(channels[id]) && c.View() == old(channels[id].View()).(counter := old(channels[id].counter) + 1)
    {
      if id !in channels { channels := channels[id := null]; }
      c := channels[id];
      if c != null {
        var ok := c.AddRef();
        if ok { return; }
      }
      return null;
    }
  }
}

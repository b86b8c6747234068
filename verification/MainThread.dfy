/** One FastAPI instance as its coroutines see it: the task registry
    (backend/main_thread/registry.py), the dispatch of a graph run
    (backend/main_thread/executor.py) and the recovery loop at start-up
    (backend/main_thread/startup.py). */
module MainThread {
  import opened Options
  import opened LockScripts
  import opened Dispatch

  type ThreadId = string
  type TaskId = nat

  /** The asyncio tasks of the process and the module dictionary `_tasks`. The ghost field lists
      the threads that the coroutine in question, and no other, has started tasks for. */
  class Registry {
    var tasks: map<ThreadId, TaskId>
    var done: set<TaskId>
    var created: nat
    ghost var started: seq<ThreadId>

    constructor ()
      ensures tasks == map[] && done == {} && created == 0 && started == []
    {
      tasks, done, created, started := map[], {}, 0, [];
    }

    /** asyncio.create_task: a new task, not done. */
    method CreateTask() returns (task: TaskId)
      modifies this`created, this`done
      ensures task == old(created) && created == old(created) + 1
      ensures done == old(done) - {task}
    {
      task := created;
      created := created + 1;
      done := done - {task};
    }

    method Register(thread: ThreadId, task: TaskId)
      modifies this`tasks
      ensures tasks == old(tasks)[thread := task]
    {
      tasks := tasks[thread := task];
    }

    method StartTask(thread: ThreadId)
      modifies this
      ensures IsRunning(thread) && tasks == old(tasks)[thread := old(created)]
      ensures created == old(created) + 1 && done == old(done) - {old(created)}
      ensures started == old(started) + [thread]
    {
      var task := CreateTask();
      Register(thread, task);
      started := started + [thread];
    }

    function GetTask(thread: ThreadId): Option<TaskId>
      reads this
    {
      if thread in tasks then Some(tasks[thread]) else None
    }

    predicate IsRunning(thread: ThreadId)
      reads this
    {
      var task := GetTask(thread);
      task.Some? && task.value !in done
    }

    /** The callback that `register` adds to a task: it pops by thread, whichever task is
        stored there by then. */
    method DoneCallback(thread: ThreadId)
      modifies this`tasks
      ensures tasks == old(tasks) - {thread}
    {
      tasks := tasks - {thread};
    }

    /** An await lets every other coroutine of the process run. */
    method Interleave()
      modifies this`tasks, this`done, this`created
    {
      tasks, done, created := *, *, *;
    }
  }

  /** The awaits of a log are about this thread: a request on its keys, its flags or its registry
      entry names it, and a liveness probe names an owner only. */
  predicate About(log: seq<Event>, asked: seq<Option<ThreadId>>, thread: ThreadId) {
    && |asked| == |log|
    && forall i | 0 <= i < |log| :: asked[i] == if log[i].request.AskAlive? then None else Some(thread)
  }

  /** A coroutine of the instance. The ghost fields record its awaits with the threads that they
      name, the control point they lead to, and the registry as the last await left it. */
  class Coroutine {
    const me: Owner
    const registry: Registry
    ghost const start: Pc
    ghost var log: seq<Event>
    ghost var asked: seq<Option<ThreadId>>
    ghost var pc: Pc
    ghost var seen: map<ThreadId, TaskId>
    ghost var seenDone: set<TaskId>
    ghost var seenCreated: nat

    constructor (me: Owner, registry: Registry, ghost start: Pc)
      ensures this.me == me && this.registry == registry && this.start == start
      ensures Logged() && log == [] && asked == [] && pc == start && Seen()
    {
      this.me, this.registry, this.start := me, registry, start;
      log, asked, pc := [], [], start;
      seen, seenDone, seenCreated := registry.tasks, registry.done, registry.created;
    }

    ghost predicate Logged()
      reads this
    {
      Follows(me, start, log) && pc == Reached(me, start, log)
    }

    ghost predicate On(thread: ThreadId)
      reads this
    {
      Logged() && About(log, asked, thread)
    }

    /** Nothing has changed since the last await. */
    ghost predicate Seen()
      reads this, registry
    {
      seen == registry.tasks && seenDone == registry.done && seenCreated == registry.created
    }

    /** The last await left the thread with a task that is not done. */
    ghost predicate LiveThen(thread: ThreadId)
      reads this
    {
      thread in seen && seen[thread] !in seenDone
    }

    ghost method Record(request: Request, about: Option<ThreadId>, reply: Reply)
      requires Logged() && request == Waits(pc) && Answers(reply, request)
      modifies this
      ensures Logged() && pc == Next(me, old(pc), reply)
      ensures log == old(log) + [Event(request, reply)] && asked == old(asked) + [about]
      ensures Seen()
    {
      FollowsSnoc(me, start, log, Event(request, reply));
      log, asked, pc := log + [Event(request, reply)], asked + [about], Next(me, pc, reply);
      seen, seenDone, seenCreated := registry.tasks, registry.done, registry.created;
    }

    /** Await `get_lock_owner`: the reply can be anything, or an exception. */
    method GetLockOwner(thread: ThreadId) returns (raised: bool, info: Option<Info>)
      requires On(thread) && Waits(pc) == AskOwner
      modifies this, registry`tasks, registry`done, registry`created
      ensures On(thread) && Seen() && pc == Next(me, old(pc), if raised then Raised else OwnerIs(info))
    {
      registry.Interleave();
      raised, info := *, *;
      Record(AskOwner, Some(thread), if raised then Raised else OwnerIs(info));
    }

    method AcquireLock(thread: ThreadId) returns (raised: bool, token: Option<nat>)
      requires On(thread) && Waits(pc) == AskAcquire
      modifies this, registry`tasks, registry`done, registry`created
      ensures On(thread) && Seen() && pc == Next(me, old(pc), if raised then Raised else TokenIs(token))
    {
      registry.Interleave();
      raised, token := *, *;
      Record(AskAcquire, Some(thread), if raised then Raised else TokenIs(token));
    }

    method StealLock(thread: ThreadId, dead: Owner) returns (raised: bool, token: Option<nat>)
      requires On(thread) && Waits(pc) == AskSteal(dead)
      modifies this, registry`tasks, registry`done, registry`created
      ensures On(thread) && Seen() && pc == Next(me, old(pc), if raised then Raised else TokenIs(token))
    {
      registry.Interleave();
      raised, token := *, *;
      Record(AskSteal(dead), Some(thread), if raised then Raised else TokenIs(token));
    }

    method CheckOwnerAlive(ghost thread: ThreadId, owner: Owner) returns (raised: bool, alive: bool)
      requires On(thread) && Waits(pc) == AskAlive(owner)
      modifies this, registry`tasks, registry`done, registry`created
      ensures On(thread) && Seen() && pc == Next(me, old(pc), if raised then Raised else AliveIs(alive))
    {
      registry.Interleave();
      raised, alive := *, *;
      Record(AskAlive(owner), None, if raised then Raised else AliveIs(alive));
    }

    /** Await `set_thread_user` or `set_viewer`. */
    method RefreshFlag(thread: ThreadId) returns (raised: bool)
      requires On(thread) && Waits(pc) == AskFlag
      modifies this, registry`tasks, registry`done, registry`created
      ensures On(thread) && Seen() && pc == Next(me, old(pc), if raised then Raised else FlagSet)
    {
      registry.Interleave();
      raised := *;
      Record(AskFlag, Some(thread), if raised then Raised else FlagSet);
    }

    method RefreshFlags(thread: ThreadId) returns (raised: bool)
      requires On(thread) && pc == SetUser
      modifies this, registry`tasks, registry`done, registry`created
      ensures On(thread) && Seen() && pc == if raised then Ended(Crashed(false)) else GetOwner
    {
      raised := RefreshFlag(thread);
      if !raised {
        raised := RefreshFlag(thread);
      }
    }

    /** After the first steal was refused: the second look at the lock. */
    method TakeAfterRace(thread: ThreadId) returns (outcome: Option<Outcome>, fencingToken: nat)
      requires On(thread) && pc == Reread
      modifies this, registry`tasks, registry`done, registry`created
      ensures On(thread) && Seen()
      ensures if outcome.Some? then pc == Ended(outcome.value) else pc == Ready(fencingToken, Won)
      ensures outcome.Some? ==> outcome.value.Routed? || outcome.value.Crashed?
    {
      var raised, newOwner := GetLockOwner(thread);
      if raised {
        return Some(Crashed(false)), 0;
      }
      var token;
      if newOwner.Some? {
        var alive;
        raised, alive := CheckOwnerAlive(thread, newOwner.value.owner);
        if raised {
          return Some(Crashed(false)), 0;
        }
        if alive {
          return Some(Routed(newOwner.value.owner.port)), 0;
        }
        raised, token := StealLock(thread, newOwner.value.owner);
      } else {
        raised, token := AcquireLock(thread);
      }
      if raised {
        return Some(Crashed(false)), 0;
      }
      if token.None? {
        return Some(Routed(0)), 0;
      }
      return None, token.value;
    }

    /** The branch of `dispatch_graph_run` for a lock that another process holds, up to the
        token; `outcome` is there if the call ends in it. */
    method TakeFromOther(thread: ThreadId, owner: Owner) returns (outcome: Option<Outcome>, fencingToken: nat)
      requires On(thread) && pc == Probe(First, owner)
      modifies this, registry`tasks, registry`done, registry`created
      ensures On(thread) && Seen()
      ensures if outcome.Some? then pc == Ended(outcome.value) else pc == Ready(fencingToken, Won)
      ensures outcome.Some? ==> outcome.value.Routed? || outcome.value.Crashed?
    {
      var raised, alive := CheckOwnerAlive(thread, owner);
      if raised {
        return Some(Crashed(false)), 0;
      }
      if alive {
        return Some(Routed(owner.port)), 0;
      }
      var token;
      raised, token := StealLock(thread, owner);
      if raised {
        return Some(Crashed(false)), 0;
      }
      if token.None? {
        outcome, fencingToken := TakeAfterRace(thread);
        return;
      }
      return None, token.value;
    }

    /** The branch for no lock. */
    method TakeFree(thread: ThreadId) returns (outcome: Option<Outcome>, fencingToken: nat, origin: Origin)
      requires On(thread) && pc == AcquireFree
      modifies this, registry`tasks, registry`done, registry`created
      ensures On(thread) && Seen()
      ensures if outcome.Some? then pc == Ended(outcome.value) else pc == Ready(fencingToken, origin)
      ensures outcome.Some? ==> outcome.value.Routed? || outcome.value.Crashed?
      ensures !origin.Inherited?
    {
      origin := Won;
      var raised, token := AcquireLock(thread);
      if raised {
        return Some(Crashed(false)), 0, origin;
      }
      if token.Some? {
        return None, token.value, origin;
      }
      var existingOwner;
      raised, existingOwner := GetLockOwner(thread);
      if raised {
        return Some(Crashed(false)), 0, origin;
      }
      if existingOwner.Some? {
        var alive;
        raised, alive := CheckOwnerAlive(thread, existingOwner.value.owner);
        if raised {
          return Some(Crashed(false)), 0, origin;
        }
        if alive {
          return Some(Routed(existingOwner.value.owner.port)), 0, origin;
        }
        raised, token := StealLock(thread, existingOwner.value.owner);
        if raised {
          return Some(Crashed(false)), 0, origin;
        }
        if token.None? {
          return Some(Routed(0)), 0, origin;
        }
      } else {
        origin := Vanished;
      }
      return None, if token.Some? then token.value else 0, origin;
    }

    /** `dispatch_graph_run` up to the token. The registry is asked about this thread, and its
        answer is that of the last await. */
    method Route(thread: ThreadId) returns (outcome: Option<Outcome>, fencingToken: nat, origin: Origin)
      requires On(thread) && pc == GetOwner
      modifies this, registry`tasks, registry`done, registry`created
      ensures On(thread) && Seen()
      ensures if outcome.Some? then pc == Ended(outcome.value) else pc == Ready(fencingToken, origin)
      ensures outcome.Some? ==> !outcome.value.Started? && (outcome.value.NoOp? ==> LiveThen(thread))
      ensures outcome.None? && origin.Inherited? ==> !LiveThen(thread)
    {
      var raised, existingOwner := GetLockOwner(thread);
      if raised {
        return Some(Crashed(false)), 0, Won;
      }
      if existingOwner.Some? {
        var isMine := existingOwner.value.owner == me;
        if isMine {
          var running := registry.IsRunning(thread);
          Record(AskRunning, Some(thread), RunningIs(running));
          if running {
            return Some(NoOp), 0, Inherited;
          }
          return None, existingOwner.value.token, Inherited;
        }
        outcome, fencingToken := TakeFromOther(thread, existingOwner.value.owner);
        origin := Won;
      } else {
        outcome, fencingToken, origin := TakeFree(thread);
      }
    }

    /** `dispatch_graph_run`, await by await. The result is the one the automaton gives for the
        replies received, all of them about this thread. If the call gets as far as a token it
        creates exactly one task and registers it for the thread; if not it creates none and
        leaves the registry alone. It is idle only if the last await left the thread with a task
        that is not done, and starts with the token of its own lock only if there is none. */
    method DispatchGraphRun(thread: ThreadId) returns (outcome: Outcome)
      requires On(thread) && pc == GetOwner
      modifies this, registry
      ensures On(thread)
      ensures if outcome.Started? then pc == Ready(outcome.token, outcome.origin) else pc == Ended(outcome)
      ensures outcome.Started? ==>
        && registry.IsRunning(thread) && registry.tasks == seen[thread := seenCreated]
        && registry.created == seenCreated + 1 && registry.done == seenDone - {seenCreated}
        && registry.started == old(registry.started) + [thread]
      ensures !outcome.Started? ==> Seen() && registry.started == old(registry.started)
      ensures outcome == NoOp ==> LiveThen(thread)
      ensures outcome.Started? && outcome.origin.Inherited? ==> !LiveThen(thread)
    {
      var ended, fencingToken, origin := Route(thread);
      if ended.Some? {
        return ended.value;
      }
      registry.StartTask(thread);
      outcome := Started(fencingToken, origin);
    }

    /** The read-only check in front of a recovery. */
    method CheckOwner(thread: ThreadId) returns (outcome: Option<Outcome>)
      requires On(thread) && pc == RecoverGet
      modifies this, registry`tasks, registry`done, registry`created
      ensures On(thread) && Seen()
      ensures if outcome.Some? then pc == Ended(outcome.value) else pc == SetUser
      ensures outcome.Some? ==> outcome.value == Skipped || outcome.value == Crashed(true)
    {
      var raised, owner := GetLockOwner(thread);
      if raised {
        return Some(Crashed(true));
      }
      if owner.Some? {
        var isMine := owner.value.owner == me;
        if !isMine {
          var alive;
          raised, alive := CheckOwnerAlive(thread, owner.value.owner);
          if raised {
            return Some(Crashed(true));
          }
          if alive {
            return Some(Skipped);
          }
        }
      }
      return None;
    }
  }

  /** What the renewal loop meets after a sleep: the stop event, its own cancellation, an
      exception from Redis, or the answer of the renew script. */
  datatype Wake = StopSet | SleepCancelled | RenewRaised | Renewed | Refused

  /** The wake-up at which the loop loses the lock: a refusal before anything ended it. */
  predicate LosesAt(wakes: seq<Wake>, n: nat) {
    n < |wakes| && wakes[n].Refused? && forall m | 0 <= m < n :: wakes[m].RenewRaised? || wakes[m].Renewed?
  }

  /** `_renew_lock_loop` over the wake-ups it has time for. It reports the loss exactly at the
      first refusal that nothing precedes but answers and exceptions, and then cancels the
      task that the registry holds for the thread at that moment, if that is not done. */
  method RenewLockLoop(registry: Registry, thread: ThreadId, wakes: seq<Wake>)
    returns (lockLost: bool, cancelled: Option<TaskId>)
    modifies registry
    ensures lockLost <==> exists n :: LosesAt(wakes, n)
    ensures cancelled == if lockLost && registry.IsRunning(thread) then registry.GetTask(thread) else None
  {
    lockLost, cancelled := false, None;
    var n := 0;
    while n < |wakes|
      invariant 0 <= n <= |wakes| && !lockLost && cancelled.None?
      invariant forall m | 0 <= m < n :: wakes[m].RenewRaised? || wakes[m].Renewed?
    {
      registry.Interleave();
      match wakes[n] {
        case StopSet | SleepCancelled => break;
        case RenewRaised | Renewed =>
        case Refused =>
          assert LosesAt(wakes, n);
          lockLost := true;
          if registry.IsRunning(thread) {
            cancelled := registry.GetTask(thread);
          }
          return;
      }
      n := n + 1;
    }
  }

  /** The recovery of one row: the read-only check, the two viewer flags, then a dispatch. Every
      await is about this thread, and a task is started for it, and for no other, exactly if the
      outcome says so. */
  method RecoverThread(me: Owner, registry: Registry, thread: ThreadId)
    returns (outcome: Outcome, ghost log: seq<Event>, ghost asked: seq<Option<ThreadId>>)
    modifies registry
    ensures Follows(me, RecoverGet, log) && Concludes(me, log, outcome) && About(log, asked, thread)
    ensures registry.started == old(registry.started) + if outcome.Started? then [thread] else []
    ensures outcome.Started? ==> registry.created > 0 && registry.GetTask(thread) == Some(registry.created - 1)
    ensures outcome.Started? || outcome == NoOp ==> registry.IsRunning(thread)
  {
    var run := new Coroutine(me, registry, RecoverGet);
    var skipped := run.CheckOwner(thread);
    if skipped.Some? {
      return skipped.value, run.log, run.asked;
    }
    var raised := run.RefreshFlags(thread);
    if raised {
      return Crashed(false), run.log, run.asked;
    }
    outcome := run.DispatchGraphRun(thread);
    log, asked := run.log, run.asked;
  }

  /** The rows among the first ones whose recovery started a task, in order. */
  function StartedRows(rows: seq<ThreadId>, outcomes: seq<Outcome>): seq<ThreadId>
    requires |outcomes| <= |rows|
    decreases |outcomes|
  {
    if outcomes == [] then []
    else
      var n := |outcomes| - 1;
      StartedRows(rows, outcomes[..n]) + if outcomes[n].Started? then [rows[n]] else []
  }

  /** `recover_running_threads`: the rows one after the other. `logs[i]` holds the awaits of
      row `i`, and `asked[i]` the thread that each of them names: that of the row. Tasks are
      started for the rows whose outcome says so, one each, and for nothing else. An exception in
      the flags or the dispatch is caught and the loop goes on; one in the check before them is
      not, and ends the recovery of all later rows. */
  method RecoverRunningThreads(me: Owner, registry: Registry, rows: seq<ThreadId>)
    returns (outcomes: seq<Outcome>, ghost logs: seq<seq<Event>>, ghost asked: seq<seq<Option<ThreadId>>>)
    modifies registry
    ensures |outcomes| == |logs| == |asked| <= |rows|
    ensures forall i :: 0 <= i < |outcomes| ==>
      && Follows(me, RecoverGet, logs[i]) && Concludes(me, logs[i], outcomes[i]) && About(logs[i], asked[i], rows[i])
    ensures registry.started == old(registry.started) + StartedRows(rows, outcomes)
    ensures forall i :: 0 <= i < |outcomes| - 1 ==> outcomes[i] != Crashed(true)
    ensures |outcomes| == |rows| || (outcomes != [] && outcomes[|outcomes| - 1] == Crashed(true))
  {
    outcomes, logs, asked := [], [], [];
    for i := 0 to |rows|
      invariant |outcomes| == |logs| == |asked| == i
      invariant forall j :: 0 <= j < i ==> outcomes[j] != Crashed(true)
      invariant forall j :: 0 <= j < i ==>
        && Follows(me, RecoverGet, logs[j]) && Concludes(me, logs[j], outcomes[j]) && About(logs[j], asked[j], rows[j])
      invariant registry.started == old(registry.started) + StartedRows(rows, outcomes)
    {
      var outcome, log, about := RecoverThread(me, registry, rows[i]);
      StartedSnoc(rows, outcomes, outcome);
      outcomes, logs, asked := outcomes + [outcome], logs + [log], asked + [about];
      if outcome == Crashed(true) {
        return;
      }
    }
  }

  lemma StartedSnoc(rows: seq<ThreadId>, outcomes: seq<Outcome>, outcome: Outcome)
    requires |outcomes| < |rows|
    ensures StartedRows(rows, outcomes + [outcome]) ==
            StartedRows(rows, outcomes) + if outcome.Started? then [rows[|outcomes|]] else []
  {
    assert (outcomes + [outcome])[..|outcomes|] == outcomes;
  }

  ghost predicate Concludes(me: Owner, log: seq<Event>, outcome: Outcome)
    requires Follows(me, RecoverGet, log)
  {
    match Reached(me, RecoverGet, log)
    case Ready(token, origin) => outcome == Started(token, origin)
    case Ended(o) => outcome == o
    case _ => false
  }
}

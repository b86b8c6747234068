/** The clean-up of task rows after a run has lost its lock
    (backend/langgraph/lifecycle/threads/nodes/tasks/sql.py, called from the `finally` block of
    a run in backend/main_thread/executor.py), and whose rows it can reach. */
module ZombieCleanup {
  import opened Options
  import opened LockScripts
  import opened Ownership
  import opened OwnershipInvariant
  import opened Fencing
  import opened Statuses

  type TaskId = string

  /** A task row of the thread: the graph run that inserted it, the token stored with it, and
      the runs that have taken it up, its inserter and those that found it there and reuse it. */
  datatype Task = Task(inserter: nat, token: nat, status: Status, workers: set<nat>)

  /** The statements on the task rows. `Cancel` and `Pause` reach one row, those of a node or
      those of the thread. `Reset` is `reset_task_for_retry`, called by a run that reuses the
      row, or by a request of a user. */
  datatype TaskWrite =
    | Insert(id: TaskId, run: nat, token: nat)
    | Complete(id: TaskId, status: Status)
    | Cancel(ids: set<TaskId>)
    | Pause(ids: set<TaskId>)
    | Reset(id: TaskId, taker: Option<nat>)
    | MarkWrong(token: nat)

  predicate Unfinished(status: Status) {
    !Terminal(status) && !status.Paused?
  }

  predicate Resettable(status: Status) {
    status.Completed? || status.Failed? || status.Cancelled? || status.Paused?
  }

  /** What a statement does to a row that is there. A run that resets a row goes on with it
      whether the statement found it in one of the four statuses or not. */
  function RowAfter(id: TaskId, task: Task, w: TaskWrite): Task {
    match w
    case Insert(_, _, _) => task
    case Complete(it, status) => if it == id && Unfinished(task.status) then task.(status := status) else task
    case Cancel(ids) => if id in ids && !Terminal(task.status) then task.(status := Cancelled) else task
    case Pause(ids) => if id in ids && Unfinished(task.status) then task.(status := Paused) else task
    case Reset(it, taker) =>
      if it != id then task
      else
        task.(status := if Resettable(task.status) then Status.Running else task.status,
              workers := task.workers + if taker.Some? then {taker.value} else {})
    case MarkWrong(token) =>
      if task.token == token && Unfinished(task.status) then task.(status := Wrong) else task
  }

  /** An insert that meets a row does nothing. */
  function ApplyTo(tasks: map<TaskId, Task>, w: TaskWrite): map<TaskId, Task> {
    if w.Insert? && w.id !in tasks then tasks[w.id := Task(w.run, w.token, Status.Running, {w.run})]
    else map id | id in tasks :: RowAfter(id, tasks[id], w)
  }

  /** What the statements do to a row, with the statuses written out: a completion, a pause and
      the clean-up find it while it is pending or running, a cancel also while it is paused, and
      a reset only when it is over or paused, and not when it is wrong. */
  lemma StatementsFind(id: TaskId, task: Task, w: TaskWrite)
    ensures var unfinished := task.status in {Pending, Status.Running};
      RowAfter(id, task, w).status ==
        match w {
          case Insert(_, _, _) => task.status
          case Complete(it, status) => if it == id && unfinished then status else task.status
          case Cancel(ids) => if id in ids && (unfinished || task.status == Paused) then Cancelled else task.status
          case Pause(ids) => if id in ids && unfinished then Paused else task.status
          case Reset(it, _) =>
            if it == id && task.status in {Completed, Failed, Cancelled, Paused} then Status.Running else task.status
          case MarkWrong(token) => if task.token == token && unfinished then Wrong else task.status
        }
    ensures RowAfter(id, task, w).inserter == task.inserter && RowAfter(id, task, w).token == task.token
    ensures RowAfter(id, task, w).workers ==
      if w.Reset? && w.id == id && w.taker.Some? then task.workers + {w.taker.value} else task.workers
  {
  }

  class TaskTable {
    var tasks: map<TaskId, Task>

    constructor (tasks: map<TaskId, Task>)
      ensures this.tasks == tasks
    {
      this.tasks := tasks;
    }

    method CleanupZombieTasks(token: nat) returns (returned: set<TaskId>)
      modifies this
      ensures tasks == ApplyTo(old(tasks), MarkWrong(token))
      ensures returned == set id | id in old(tasks) && tasks[id] != old(tasks)[id]
    {
      returned := set id | id in tasks && tasks[id].token == token && Unfinished(tasks[id].status);
      tasks := map id | id in tasks :: if id in returned then tasks[id].(status := Wrong) else tasks[id];
    }

    method ResetTaskForRetry(id: TaskId, taker: Option<nat>) returns (found: bool)
      modifies this
      ensures tasks == ApplyTo(old(tasks), Reset(id, taker))
      ensures found <==> id in old(tasks) && tasks[id].status != old(tasks)[id].status
    {
      found := id in tasks && Resettable(tasks[id].status);
      if id in tasks {
        var workers := tasks[id].workers + if taker.Some? then {taker.value} else {};
        tasks := tasks[id := tasks[id].(workers := workers, status := if found then Status.Running else tasks[id].status)];
      }
    }
  }

  /** The rows after these statements, of any runs and requests, in the order served. */
  function Tasks(ws: seq<TaskWrite>): map<TaskId, Task> {
    if ws == [] then map[] else ApplyTo(Tasks(ws[..|ws| - 1]), ws[|ws| - 1])
  }

  lemma TasksSnoc(ws: seq<TaskWrite>, w: TaskWrite)
    ensures Tasks(ws + [w]) == ApplyTo(Tasks(ws), w)
  {
    assert (ws + [w])[..|ws|] == ws;
  }

  /** A run inserts rows with its own token. */
  ghost predicate OwnTokens(runs: map<nat, Run>, ws: seq<TaskWrite>) {
    forall i | 0 <= i < |ws| && ws[i].Insert? :: ws[i].run in runs && ws[i].token == runs[ws[i].run].token
  }

  /** A row keeps the token of the run that inserted it, whoever takes it up. */
  lemma {:induction false} InsertersToken(runs: map<nat, Run>, ws: seq<TaskWrite>, id: TaskId)
    requires OwnTokens(runs, ws) && id in Tasks(ws)
    ensures Tasks(ws)[id].inserter in runs && Tasks(ws)[id].token == runs[Tasks(ws)[id].inserter].token
    decreases |ws|
  {
    var before := ws[..|ws| - 1];
    if id in Tasks(before) {
      InsertersToken(runs, before, id);
    }
  }

  /** The clean-up of `zombie`, after these statements, leaves this row alone. */
  ghost predicate Spared(runs: map<nat, Run>, ws: seq<TaskWrite>, zombie: nat, id: TaskId)
    requires zombie in runs && id in Tasks(ws)
  {
    ApplyTo(Tasks(ws), MarkWrong(runs[zombie].token))[id] == Tasks(ws)[id]
  }

  /** After any statements it spares an unfinished row exactly if the run that inserted the row
      has another token. Who works on the row now plays no part in it. */
  lemma SparesIffOtherToken(runs: map<nat, Run>, ws: seq<TaskWrite>, zombie: nat, id: TaskId)
    requires OwnTokens(runs, ws) && zombie in runs && id in Tasks(ws) && Unfinished(Tasks(ws)[id].status)
    ensures Tasks(ws)[id].inserter in runs
    ensures Spared(runs, ws, zombie, id) <==> runs[Tasks(ws)[id].inserter].token != runs[zombie].token
  {
    InsertersToken(runs, ws, id);
  }

  // ----- Together with the ownership protocol

  lemma TokenNamesProcess(gs: seq<Grant>, a: Run, b: Run)
    requires Increasing(gs)
    requires GrantedTo(gs, 0, a.proc, a.token) && (b.token == 0 || GrantedTo(gs, 0, b.proc, b.token))
    requires a.token > 0 && a.proc != b.proc
    ensures a.token != b.token
  {
    if b.token > 0 {
      var i :| 0 <= i < |gs| && gs[i].owner == a.proc && gs[i].token == a.token;
      var j :| 0 <= j < |gs| && gs[j].owner == b.proc && gs[j].token == b.token;
      if i < j {
        assert gs[i].token < gs[j].token;
      } else if j < i {
        assert gs[j].token < gs[i].token;
      }
    }
  }

  lemma {:induction false} OtherProcessOtherToken(steps: seq<Step>, n: nat, ttl: Seconds, a: nat, b: nat)
    requires Valid(Init, steps, ttl) && n <= |steps| && ShortGaps(At(steps, n, ttl).grants, ttl)
    requires var runs := At(steps, n, ttl).runs;
      a in runs && b in runs && runs[a].token > 0 && runs[b].proc != runs[a].proc
    ensures At(steps, n, ttl).runs[b].token != At(steps, n, ttl).runs[a].token
  {
    var s := At(steps, n, ttl);
    InvHolds(steps, n, ttl);
    IncreasingIffShortGaps(s.grants, ttl);
    RunProvenance(steps, n, ttl, a);
    RunProvenance(steps, n, ttl, b);
    TokenNamesProcess(s.grants, s.runs[a], s.runs[b]);
  }

  /** With grants less than 20 lock TTLs apart, a token belongs to one process: the clean-up
      spares every row that a run of another process inserted. */
  lemma {:induction false} CleanupSparesOtherProcesses(
      steps: seq<Step>, n: nat, ttl: Seconds, zombie: nat, ws: seq<TaskWrite>, id: TaskId)
    requires Valid(Init, steps, ttl) && n <= |steps| && ShortGaps(At(steps, n, ttl).grants, ttl)
    requires var runs := At(steps, n, ttl).runs;
      && OwnTokens(runs, ws) && id in Tasks(ws)
      && zombie in runs && runs[zombie].token > 0
      && Tasks(ws)[id].inserter in runs && runs[Tasks(ws)[id].inserter].proc != runs[zombie].proc
    ensures Spared(At(steps, n, ttl).runs, ws, zombie, id)
  {
    var runs := At(steps, n, ttl).runs;
    OtherProcessOtherToken(steps, n, ttl, zombie, Tasks(ws)[id].inserter);
    if Unfinished(Tasks(ws)[id].status) {
      SparesIffOtherToken(runs, ws, zombie, id);
    }
  }

  /** The clean-up of `zombie` after `n` of these statements leaves every row alone that the
      other run has taken up. */
  ghost predicate SparesWorker(runs: map<nat, Run>, ws: seq<TaskWrite>, n: nat, zombie: nat, other: nat)
    requires zombie in runs && n <= |ws|
  {
    forall id | id in Tasks(ws[..n]) && other in Tasks(ws[..n])[id].workers :: Spared(runs, ws[..n], zombie, id)
  }

  /** Statement `i` inserts a row for the run with this token. */
  ghost predicate InsertsWith(ws: seq<TaskWrite>, i: nat, token: nat, run: nat)
    requires i < |ws|
  {
    ws[i].Insert? && ws[i].run == run && ws[i].token == token && ws[i].id !in Tasks(ws[..i])
  }

  /** With statement `i` the run takes up again a row that carries this token. */
  ghost predicate TakesOver(ws: seq<TaskWrite>, i: nat, token: nat, run: nat)
    requires i < |ws|
  {
    && ws[i].Reset? && ws[i].taker == Some(run) && ws[i].id in Tasks(ws[..i])
    && Tasks(ws[..i])[ws[i].id].token == token && !Tasks(ws[..i])[ws[i].id].status.Wrong?
  }

  /** The rows of the run with this token, if any, are wrong, and stay so. */
  ghost predicate Clear(tasks: map<TaskId, Task>, token: nat, run: nat) {
    forall id | id in tasks && run in tasks[id].workers :: tasks[id].token != token || tasks[id].status.Wrong?
  }

  lemma ClearStep(ws: seq<TaskWrite>, i: nat, token: nat, run: nat)
    requires i < |ws| && Clear(Tasks(ws[..i]), token, run)
    requires !InsertsWith(ws, i, token, run) && !TakesOver(ws, i, token, run)
    ensures Clear(Tasks(ws[..i + 1]), token, run)
  {
    assert ws[..i + 1][..i] == ws[..i];
    var tasks, after := Tasks(ws[..i]), Tasks(ws[..i + 1]);
    forall id | id in after && run in after[id].workers ensures after[id].token != token || after[id].status.Wrong? {
      if id in tasks && run !in tasks[id].workers {
        assert ws[i] == Reset(id, Some(run));
      }
    }
  }

  lemma {:induction false} ClearWhileNothingTaken(ws: seq<TaskWrite>, n: nat, token: nat, run: nat)
    requires n <= |ws|
    requires forall i | 0 <= i < n :: !InsertsWith(ws, i, token, run) && !TakesOver(ws, i, token, run)
    ensures Clear(Tasks(ws[..n]), token, run)
  {
    if n > 0 {
      ClearWhileNothingTaken(ws, n - 1, token, run);
      ClearStep(ws, n - 1, token, run);
    }
  }

  lemma TakenIsMarked(runs: map<nat, Run>, ws: seq<TaskWrite>, i: nat, zombie: nat, other: nat)
    requires zombie in runs && i < |ws|
    requires InsertsWith(ws, i, runs[zombie].token, other) || TakesOver(ws, i, runs[zombie].token, other)
    ensures !SparesWorker(runs, ws, i + 1, zombie, other)
  {
    assert ws[..i + 1][..i] == ws[..i];
    var task := Tasks(ws[..i + 1])[ws[i].id];
    assert other in task.workers && Unfinished(task.status) && !Spared(runs, ws[..i + 1], zombie, ws[i].id);
  }

  /** Whatever has been done to the rows, in whatever order: the clean-up of a run leaves alone,
      throughout, the rows that another run works on exactly if that run never inserts one with
      the same token and never takes one over. */
  lemma {:induction false} SparedIffNothingTaken(runs: map<nat, Run>, ws: seq<TaskWrite>, zombie: nat, other: nat)
    requires zombie in runs
    ensures (forall n | 0 <= n <= |ws| :: SparesWorker(runs, ws, n, zombie, other)) <==>
            (forall i | 0 <= i < |ws| ::
               !InsertsWith(ws, i, runs[zombie].token, other) && !TakesOver(ws, i, runs[zombie].token, other))
  {
    var token := runs[zombie].token;
    if forall i | 0 <= i < |ws| :: !InsertsWith(ws, i, token, other) && !TakesOver(ws, i, token, other) {
      forall n | 0 <= n <= |ws| ensures SparesWorker(runs, ws, n, zombie, other) {
        ClearWhileNothingTaken(ws, n, token, other);
      }
    }
    if forall n | 0 <= n <= |ws| :: SparesWorker(runs, ws, n, zombie, other) {
      forall i | 0 <= i < |ws| ensures !InsertsWith(ws, i, token, other) && !TakesOver(ws, i, token, other) {
        assert SparesWorker(runs, ws, i + 1, zombie, other);
        if InsertsWith(ws, i, token, other) || TakesOver(ws, i, token, other) {
          TakenIsMarked(runs, ws, i, zombie, other);
        }
      }
    }
  }

  /** So, with short gaps, the tasks of a run of another process, the new owner's included, are
      untouched exactly if it takes over none that the lost run, or one with its token, has
      inserted. */
  lemma {:induction false} CleanupSparesIffNothingTakenOver(
      steps: seq<Step>, n: nat, ttl: Seconds, zombie: nat, other: nat, ws: seq<TaskWrite>)
    requires Valid(Init, steps, ttl) && n <= |steps| && ShortGaps(At(steps, n, ttl).grants, ttl)
    requires var runs := At(steps, n, ttl).runs;
      && OwnTokens(runs, ws) && zombie in runs && other in runs
      && runs[zombie].token > 0 && runs[other].proc != runs[zombie].proc
    ensures var runs := At(steps, n, ttl).runs;
      (forall m | 0 <= m <= |ws| :: SparesWorker(runs, ws, m, zombie, other)) <==>
      (forall i | 0 <= i < |ws| :: !TakesOver(ws, i, runs[zombie].token, other))
  {
    var runs := At(steps, n, ttl).runs;
    OtherProcessOtherToken(steps, n, ttl, zombie, other);
    SparedIffNothingTaken(runs, ws, zombie, other);
  }
}

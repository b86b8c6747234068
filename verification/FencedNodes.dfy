/** The fencing guards on the rows of `fin_agents.nodes`
    (backend/langgraph/lifecycle/threads/nodes/sql.py), the statements without a guard
    (backend/langgraph/lifecycle/threads/sql.py, backend/langgraph/lifecycle/threads/ops.py),
    and what they and the ownership protocol achieve together. */
module FencedNodes {
  import opened Options
  import opened LockScripts
  import opened Ownership
  import opened OwnershipInvariant
  import opened Fencing
  import opened Statuses

  datatype Row = Row(
    status: Status, prev: seq<string>, checkpoint: string, token: nat, pausedByServer: bool,
    group: Option<string>, branch: Option<string>, forked: bool, forkedFrom: Option<int>)

  /** A statement on one row. The first three carry a fencing token. The others do not:
      `CancelSelf` cancels one node, `CancelActive` and `FailActive` end every active node of
      the thread, `PauseRunning` is that of a process that shuts down, `Resume` that of a user
      who continues a paused task. */
  datatype Write =
    | Upsert(token: nat, prev: seq<string>, checkpoint: string, group: Option<string>, branch: Option<string>,
             forked: bool, forkedFrom: Option<int>)
    | Complete(token: nat, status: Status)
    | Pause(token: nat, byServer: bool)
    | CancelSelf
    | CancelActive
    | FailActive
    | PauseRunning
    | Resume

  predicate Fenced(w: Write) {
    w.Upsert? || w.Complete? || w.Pause?
  }

  function Coalesce<T>(a: Option<T>, b: Option<T>): Option<T> {
    if a.Some? then a else b
  }

  function ApplyUpsert(row: Option<Row>, w: Write): Row
    requires w.Upsert?
  {
    match row
    case None => Row(Status.Running, w.prev, w.checkpoint, w.token, true, w.group, w.branch, w.forked, w.forkedFrom)
    case Some(r) =>
      var stale := w.token < r.token;
      Row(
        if stale || Terminal(r.status) then r.status else Status.Running,
        if stale then r.prev else w.prev,
        if stale then r.checkpoint else w.checkpoint,
        if stale then r.token else w.token,
        if stale || Terminal(r.status) then r.pausedByServer else true,
        w.group,
        Coalesce(r.branch, w.branch),
        r.forked || w.forked,
        Coalesce(r.forkedFrom, w.forkedFrom))
  }

  function ApplyWrite(row: Option<Row>, w: Write): (after: Option<Row>)
    ensures row.Some? ==> after.Some? && row.value.token <= after.value.token
  {
    match w
    case Upsert(_, _, _, _, _, _, _) => Some(ApplyUpsert(row, w))
    case Complete(token, status) =>
      if row.Some? && !Terminal(row.value.status) && row.value.token == token
      then Some(row.value.(status := status)) else row
    case Pause(token, byServer) =>
      if row.Some? && row.value.status == Status.Running && row.value.token == token
      then Some(row.value.(status := Paused, pausedByServer := byServer)) else row
    case CancelSelf | CancelActive =>
      if row.Some? && !Terminal(row.value.status) then Some(row.value.(status := Cancelled)) else row
    case FailActive =>
      if row.Some? && !Terminal(row.value.status) then Some(row.value.(status := Failed)) else row
    case PauseRunning =>
      if row.Some? && row.value.status == Status.Running
      then Some(row.value.(status := Paused, pausedByServer := true)) else row
    case Resume =>
      if row.Some? && row.value.status == Paused then Some(row.value.(status := Status.Running)) else row
  }

  /** Who issues a statement: a graph run, a process that shuts down, or a request of a user. */
  datatype Writer = ByRun(id: nat) | ByShutdown(proc: Owner) | ByRequest

  datatype Stamped = Stamped(writer: Writer, write: Write)

  /** The statements of several writers, in the order the database serves them. */
  function ApplyAll(row: Row, ws: seq<Stamped>): Row {
    if ws == [] then row
    else ApplyWrite(Some(ApplyAll(row, ws[..|ws| - 1])), ws[|ws| - 1].write).value
  }

  /** The columns that the guards cover. */
  datatype Guarded = Guarded(status: Status, prev: seq<string>, checkpoint: string, token: nat, pausedByServer: bool)

  function GuardedPart(row: Row): Guarded {
    Guarded(row.status, row.prev, row.checkpoint, row.token, row.pausedByServer)
  }

  /** What the statements with a token do to the columns that the guards cover: an upsert that is
      not stale takes effect, on a row that has ended in all but its status and pause origin; a
      completion takes effect on an active row with its very token, and a pause on a running one;
      and nothing else happens. */
  lemma FencedEffect(row: Row, w: Write)
    requires Fenced(w)
    ensures var Guarded(status, prev, checkpoint, token, byServer) := GuardedPart(row);
      GuardedPart(ApplyWrite(Some(row), w).value) ==
        match w {
          case Upsert(own, newPrev, newCheckpoint, _, _, _, _) =>
            if own < token then GuardedPart(row)
            else if status in {Pending, Status.Running, Paused} then Guarded(Status.Running, newPrev, newCheckpoint, own, true)
            else Guarded(status, newPrev, newCheckpoint, own, byServer)
          case Complete(own, newStatus) =>
            if own == token && status in {Pending, Status.Running, Paused}
            then Guarded(newStatus, prev, checkpoint, token, byServer) else GuardedPart(row)
          case Pause(own, newByServer) =>
            if own == token && status == Status.Running
            then Guarded(Paused, prev, checkpoint, token, newByServer) else GuardedPart(row)
          case _ => GuardedPart(row)
        }
  {
  }

  /** And the ones without: a cancel or a failure ends an active row, the pause of a shutdown
      stops a running one, and a resume starts a paused one again. */
  lemma UnfencedEffect(row: Row, w: Write)
    requires !Fenced(w)
    ensures ApplyWrite(None, w).None?
    ensures var active := row.status in {Pending, Status.Running, Paused};
      ApplyWrite(Some(row), w).value ==
        if w == FailActive && active then row.(status := Failed)
        else if (w == CancelSelf || w == CancelActive) && active then row.(status := Cancelled)
        else if w == PauseRunning && row.status == Status.Running then row.(status := Paused, pausedByServer := true)
        else if w == Resume && row.status == Paused then row.(status := Status.Running)
        else row
  {
  }

  /** The first upsert makes the row. */
  lemma FirstUpsert(w: Write)
    requires Fenced(w)
    ensures ApplyWrite(None, w) ==
      if w.Upsert?
      then Some(Row(Status.Running, w.prev, w.checkpoint, w.token, true, w.group, w.branch, w.forked, w.forkedFrom))
      else None
  {
  }

  /** The highest token among the row's and those of the upserts. */
  function HighestToken(token: nat, ws: seq<Stamped>): nat {
    if ws == [] then token
    else
      var highest, last := HighestToken(token, ws[..|ws| - 1]), ws[|ws| - 1].write;
      if last.Upsert? && last.token > highest then last.token else highest
  }

  /** Over any sequence of statements: the row carries the highest token of them all; a branch
      once set stays, and so do the fork and its origin. */
  lemma {:induction false} ColumnsOverSequences(row: Row, ws: seq<Stamped>)
    ensures var r := ApplyAll(row, ws);
      && r.token == HighestToken(row.token, ws)
      && (row.branch.Some? ==> r.branch == row.branch)
      && (row.forked ==> r.forked)
      && (row.forkedFrom.Some? ==> r.forkedFrom == row.forkedFrom)
    decreases |ws|
  {
    if ws != [] {
      ColumnsOverSequences(row, ws[..|ws| - 1]);
    }
  }

  lemma {:induction false} TokenOnlyRises(row: Row, ws: seq<Stamped>)
    ensures row.token <= ApplyAll(row, ws).token
    decreases |ws|
  {
    if ws != [] {
      TokenOnlyRises(row, ws[..|ws| - 1]);
    }
  }

  /** What a statement does to the guarded columns depends on nothing else. */
  lemma GuardedByGuarded(row: Row, row': Row, w: Write)
    requires GuardedPart(row) == GuardedPart(row')
    ensures GuardedPart(ApplyWrite(Some(row), w).value) == GuardedPart(ApplyWrite(Some(row'), w).value)
  {
  }

  /** The same statements without the ones that carry a token below `token`. */
  function WithoutStale(ws: seq<Stamped>, token: nat): seq<Stamped> {
    if ws == [] then []
    else
      var last := ws[|ws| - 1];
      WithoutStale(ws[..|ws| - 1], token) + if Fenced(last.write) && last.write.token < token then [] else [last]
  }

  lemma ApplySnoc(row: Row, ws: seq<Stamped>, last: Stamped)
    ensures ApplyAll(row, ws + [last]) == ApplyWrite(Some(ApplyAll(row, ws)), last.write).value
  {
    assert (ws + [last])[..|ws|] == ws;
  }

  /** Once a row carries a token, the statements stamped with a lower one might as well not
      have been issued: in any interleaving, whatever else is done to the row, its guarded
      columns come out the same. */
  lemma {:induction false} StaleWritesDoNotInterfere(row: Row, ws: seq<Stamped>, token: nat)
    requires token <= row.token
    ensures GuardedPart(ApplyAll(row, ws)) == GuardedPart(ApplyAll(row, WithoutStale(ws, token)))
    decreases |ws|
  {
    if ws != [] {
      var before, last := ws[..|ws| - 1], ws[|ws| - 1];
      StaleWritesDoNotInterfere(row, before, token);
      if Fenced(last.write) && last.write.token < token {
        TokenOnlyRises(row, before);
        assert WithoutStale(before, token) + [] == WithoutStale(before, token);
      } else {
        ApplySnoc(row, WithoutStale(before, token), last);
        GuardedByGuarded(ApplyAll(row, before), ApplyAll(row, WithoutStale(before, token)), last.write);
      }
    }
  }

  /** The guards do not cover every column: even a stale upsert sets the parallel group, and
      sets the branch and the fork origin where they are still unset. */
  lemma StaleUpsertStillWrites(row: Row, w: Write)
    requires w.Upsert? && w.token < row.token
    ensures var r := ApplyWrite(Some(row), w).value;
      && r.group == w.group
      && (row.branch.None? ==> r.branch == w.branch)
      && (w.forked ==> r.forked)
      && r == row.(group := r.group, branch := r.branch, forked := r.forked, forkedFrom := r.forkedFrom)
  {
  }

  /** A graph run may issue any of the statements, the three with its own token: a node with
      a cancelled predecessor cancels itself, and perhaps all nodes of the thread, and a graph
      that has raised fails them all. A shutdown may issue any without a token. */
  ghost predicate StampOk(s: State, w: Stamped) {
    match w.writer
    case ByRun(id) => id in s.runs && (Fenced(w.write) ==> w.write.token == s.runs[id].token)
    case ByShutdown(_) => !Fenced(w.write)
    case ByRequest => true
  }

  /** The writer is, or belongs to, a process that does not hold the lock. */
  predicate Foreign(s: State, w: Stamped) {
    match w.writer
    case ByRun(id) => id in s.runs && !HeldBy(s.keys, s.runs[id].proc)
    case ByShutdown(proc) => !HeldBy(s.keys, proc)
    case ByRequest => false
  }

  /** A statement without a token meets a row in its reach. */
  predicate Sweeps(row: Row, w: Write) {
    match w
    case CancelSelf | CancelActive | FailActive => !Terminal(row.status)
    case PauseRunning => row.status == Status.Running
    case Resume => row.status == Paused
    case _ => false
  }

  /** The holder of the lock outranks every zombie, and its token is on the row. */
  ghost predicate HoldersRow(s: State, row: Row, ttl: Seconds) {
    && Inv(s, ttl) && ShortGaps(s.grants, ttl)
    && s.keys.lock.Some? && s.keys.lock.value.value.Held?
    && s.keys.lock.value.value.token <= row.token
  }

  lemma ForeignChangesIffSweeps(s: State, row: Row, w: Stamped, ttl: Seconds)
    requires HoldersRow(s, row, ttl) && StampOk(s, w) && Foreign(s, w)
    ensures GuardedPart(ApplyWrite(Some(row), w.write).value) != GuardedPart(row) <==> Sweeps(row, w.write)
  {
    if w.writer.ByRun? && Fenced(w.write) {
      HolderOutranksIn(s, ttl, w.writer.id);
    }
  }

  /** The same statements without those of the processes that do not hold the lock. */
  function WithoutForeign(s: State, ws: seq<Stamped>): seq<Stamped> {
    if ws == [] then []
    else WithoutForeign(s, ws[..|ws| - 1]) + if Foreign(s, ws[|ws| - 1]) then [] else [ws[|ws| - 1]]
  }

  /** After `n` statements the guarded columns are as if no other process had written. */
  predicate AgreesAt(s: State, row: Row, ws: seq<Stamped>, n: nat)
    requires n <= |ws|
  {
    GuardedPart(ApplyAll(row, ws[..n])) == GuardedPart(ApplyAll(row, WithoutForeign(s, ws[..n])))
  }

  /** Statement `i` is one of another process, has no token and meets the row in its reach. */
  predicate SweptAt(s: State, row: Row, ws: seq<Stamped>, i: nat)
    requires i < |ws|
  {
    Foreign(s, ws[i]) && Sweeps(ApplyAll(row, ws[..i]), ws[i].write)
  }

  lemma AgreesStep(s: State, row: Row, ws: seq<Stamped>, i: nat, ttl: Seconds)
    requires HoldersRow(s, row, ttl) && i < |ws| && StampOk(s, ws[i]) && AgreesAt(s, row, ws, i)
    ensures AgreesAt(s, row, ws, i + 1) <==> !SweptAt(s, row, ws, i)
  {
    var before, kept, last := ws[..i], WithoutForeign(s, ws[..i]), ws[i];
    assert ws[..i + 1] == before + [last] && (before + [last])[..i] == before;
    ApplySnoc(row, before, last);
    if Foreign(s, last) {
      TokenOnlyRises(row, before);
      ForeignChangesIffSweeps(s, ApplyAll(row, before), last, ttl);
      assert kept + [] == kept;
    } else {
      ApplySnoc(row, kept, last);
      GuardedByGuarded(ApplyAll(row, before), ApplyAll(row, kept), last.write);
    }
  }

  lemma {:induction false} AgreesWhileUnswept(s: State, row: Row, ws: seq<Stamped>, n: nat, ttl: Seconds)
    requires HoldersRow(s, row, ttl) && n <= |ws|
    requires forall i | 0 <= i < n :: StampOk(s, ws[i]) && !SweptAt(s, row, ws, i)
    ensures AgreesAt(s, row, ws, n)
  {
    if n > 0 {
      AgreesWhileUnswept(s, row, ws, n - 1, ttl);
      AgreesStep(s, row, ws, n - 1, ttl);
    }
  }

  /** Holder and zombies together: in a reachable state whose grants were less than 20 lock
      TTLs apart, once the holder's token is on a row, the row's guarded columns are throughout
      any sequence of statements what they would be without those of other processes, exactly
      if none of those without a token ever meets the row: a run that cancels the node or fails
      or cancels the thread and finds it active, or a shutdown that finds it running. The
      liveness probe may have been wrong, and those processes be alive. */
  lemma {:induction false} ZombieWritesRejectedIffNoSweep(
      steps: seq<Step>, n: nat, ttl: Seconds, row: Row, ws: seq<Stamped>)
    requires Valid(Init, steps, ttl) && n <= |steps|
    requires var s := At(steps, n, ttl);
      && s.keys.lock.Some? && s.keys.lock.value.value.Held?
      && s.keys.lock.value.value.token <= row.token
      && ShortGaps(s.grants, ttl) && forall i | 0 <= i < |ws| :: StampOk(s, ws[i])
    ensures var s := At(steps, n, ttl);
      (forall m | 0 <= m <= |ws| :: AgreesAt(s, row, ws, m)) <==> (forall i | 0 <= i < |ws| :: !SweptAt(s, row, ws, i))
  {
    var s := At(steps, n, ttl);
    InvHolds(steps, n, ttl);
    if forall i | 0 <= i < |ws| :: !SweptAt(s, row, ws, i) {
      forall m | 0 <= m <= |ws| ensures AgreesAt(s, row, ws, m) {
        AgreesWhileUnswept(s, row, ws, m, ttl);
      }
    }
    if forall m | 0 <= m <= |ws| :: AgreesAt(s, row, ws, m) {
      forall i | 0 <= i < |ws| ensures !SweptAt(s, row, ws, i) {
        assert AgreesAt(s, row, ws, i) && AgreesAt(s, row, ws, i + 1);
        AgreesStep(s, row, ws, i, ttl);
      }
    }
  }
}

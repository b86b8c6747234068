/** The polling loop `_await_result` (backend/celery_task/workers/task_delegation.py). Times are
    in milliseconds. */
module AwaitResult {
  import opened Options

  const POLL_INTERVAL: nat := 500

  type TaskId = string

  /** The reply of an awaited call, or its exception. */
  datatype Answer<+T> = Value(value: T) | Raises

  /** The Celery result record: `Unfinished` is PENDING, STARTED or RETRY. */
  datatype Meta = Success(result: string) | PausedSuccess(thinking: string) | Failure | Revoked | Unfinished

  /** What one pass of the loop finds, were it to look at everything: `saved` says whether a
      pause snapshot can be saved, `entry` whether the other coroutines have left the
      registry's entry for the task in place. */
  datatype Poll = Poll(
    now: nat,
    threadFlag: Answer<bool>,
    nodeFlag: Answer<bool>,
    meta: Answer<Option<Meta>>,
    saved: bool,
    pauseFlag: Answer<bool>,
    entry: bool)

  datatype Outcome =
    | TimedOut | ThreadCancelled | NodeCancelled
    | Result(result: string) | Paused(thinking: string) | TaskFailed
    | Error

  /** The outcome that a pass brings about, if any: timeout before thread cancel before node
      cancel before the result record. */
  function Decide(p: Poll, deadline: nat, hasNode: bool): Option<Outcome> {
    if deadline <= p.now then Some(TimedOut)
    else if p.threadFlag.Raises? then Some(Error)
    else if p.threadFlag.value then Some(ThreadCancelled)
    else if hasNode && p.nodeFlag.Raises? then Some(Error)
    else if hasNode && p.nodeFlag.value then Some(NodeCancelled)
    else DecideResult(p)
  }

  function DecideResult(p: Poll): Option<Outcome> {
    if p.meta.Raises? then Some(Error)
    else match p.meta.value
      case None => None
      case Some(Success(result)) => Some(Result(result))
      case Some(PausedSuccess(thinking)) => Some(if thinking != "" && !p.saved then Error else Paused(thinking))
      case Some(Failure) => Some(TaskFailed)
      case Some(Revoked) =>
        if p.pauseFlag.Raises? then Some(Error)
        else if p.pauseFlag.value then Some(Paused(""))
        else Some(ThreadCancelled)
      case Some(Unfinished) => None
  }

  /** The pass gets as far as the result record: it is in time, the thread is not cancelled, nor
      the node if there is one. */
  predicate ReadsResult(p: Poll, deadline: nat, hasNode: bool) {
    p.now < deadline && p.threadFlag == Value(false) && (hasNode ==> p.nodeFlag == Value(false))
  }

  /** A record that says REVOKED. */
  predicate FindsRevoked(p: Poll) {
    p.meta == Value(Some(Revoked))
  }

  /** A record of a paused task whose thinking still has to be saved. */
  predicate FindsThinking(p: Poll) {
    p.meta.Value? && p.meta.value.Some? && p.meta.value.value.PausedSuccess? && p.meta.value.value.thinking != ""
  }

  /** What a pass must find to bring about an outcome. */
  predicate Brings(p: Poll, deadline: nat, hasNode: bool, outcome: Outcome) {
    match outcome
    case TimedOut => deadline <= p.now
    case ThreadCancelled =>
      || (p.now < deadline && p.threadFlag == Value(true))
      || (ReadsResult(p, deadline, hasNode) && FindsRevoked(p) && p.pauseFlag == Value(false))
    case NodeCancelled => p.now < deadline && p.threadFlag == Value(false) && hasNode && p.nodeFlag == Value(true)
    case Result(result) => ReadsResult(p, deadline, hasNode) && p.meta == Value(Some(Success(result)))
    case Paused(thinking) =>
      && ReadsResult(p, deadline, hasNode)
      && if FindsRevoked(p) then thinking == "" && p.pauseFlag == Value(true)
         else p.meta == Value(Some(PausedSuccess(thinking))) && (thinking == "" || p.saved)
    case TaskFailed => ReadsResult(p, deadline, hasNode) && p.meta == Value(Some(Failure))
    case Error =>
      && p.now < deadline
      && (|| p.threadFlag.Raises?
          || (p.threadFlag == Value(false) && hasNode && p.nodeFlag.Raises?)
          || (ReadsResult(p, deadline, hasNode) &&
              (p.meta.Raises? || (FindsRevoked(p) && p.pauseFlag.Raises?) || (FindsThinking(p) && !p.saved))))
  }

  /** A pass that leaves everything open: in time, nothing cancelled, and no record, or one of a
      task under way. */
  predicate LeavesOpen(p: Poll, deadline: nat, hasNode: bool) {
    ReadsResult(p, deadline, hasNode) && (p.meta == Value(None) || p.meta == Value(Some(Unfinished)))
  }

  /** A pass brings about an outcome exactly if it finds what that outcome takes, and no two at
      once; and it leaves the matter open exactly if it finds nothing that counts. */
  lemma DecidesIff(p: Poll, deadline: nat, hasNode: bool, outcome: Outcome)
    ensures Decide(p, deadline, hasNode) == Some(outcome) <==> Brings(p, deadline, hasNode, outcome)
    ensures Decide(p, deadline, hasNode).None? <==> LeavesOpen(p, deadline, hasNode)
  {
    hide Decide, DecideResult;
    DecidesEarlyIff(p, deadline, hasNode, outcome);
    if ReadsResult(p, deadline, hasNode) {
      DecidesResultIff(p, deadline, hasNode, outcome);
    }
  }

  lemma DecidesEarlyIff(p: Poll, deadline: nat, hasNode: bool, outcome: Outcome)
    ensures ReadsResult(p, deadline, hasNode) ==> Decide(p, deadline, hasNode) == DecideResult(p)
    ensures !ReadsResult(p, deadline, hasNode) ==>
      && Decide(p, deadline, hasNode).Some?
      && (Decide(p, deadline, hasNode) == Some(outcome) <==> Brings(p, deadline, hasNode, outcome))
  {
  }

  lemma DecidesResultIff(p: Poll, deadline: nat, hasNode: bool, outcome: Outcome)
    requires ReadsResult(p, deadline, hasNode)
    ensures DecideResult(p) == Some(outcome) <==> Brings(p, deadline, hasNode, outcome)
    ensures DecideResult(p).None? <==> LeavesOpen(p, deadline, hasNode)
  {
  }

  lemma DecidedInTime(p: Poll, deadline: nat, hasNode: bool, decided: Option<Outcome>)
    requires decided == Decide(p, deadline, hasNode)
    ensures if decided.Some? then Brings(p, deadline, hasNode, decided.value) else LeavesOpen(p, deadline, hasNode)
    ensures p.now < deadline <==> decided != Some(TimedOut)
  {
    DecidesIff(p, deadline, hasNode, if decided.Some? then decided.value else TimedOut);
  }

  /** The passes that revoke the task: the late ones, and those that find a cancel flag, but not
      those that find a record that says REVOKED. */
  lemma RevokesIff(p: Poll, deadline: nat, hasNode: bool)
    ensures Revokes(p, deadline, hasNode) <==>
      || deadline <= p.now
      || p.threadFlag == Value(true)
      || (p.threadFlag == Value(false) && hasNode && p.nodeFlag == Value(true))
  {
    if Decide(p, deadline, hasNode) == Some(NodeCancelled) {
      DecidesIff(p, deadline, hasNode, NodeCancelled);
    }
  }

  function Min(a: nat, b: nat): nat {
    if a < b then a else b
  }

  /** The clock never runs back, and after a pass that decides nothing the loop sleeps for the
      poll interval or for what is left of the time. */
  ghost predicate SleepsHonoured(polls: nat -> Poll, start: nat, deadline: nat, hasNode: bool) {
    && start <= polls(0).now
    && forall i: nat | LeavesOpen(polls(i), deadline, hasNode) ::
         polls(i).now + Min(500, deadline - polls(i).now) <= polls(i + 1).now
  }

  /** An entry that another coroutine has removed does not come back. */
  ghost predicate EntriesOnlyGo(polls: nat -> Poll, entry: bool) {
    && (polls(0).entry ==> entry)
    && forall i: nat, j: nat | i <= j && polls(j).entry :: polls(i).entry
  }

  /** The first pass that decides anything is pass `n`, and it brings about this outcome. */
  ghost predicate FirstDecision(polls: nat -> Poll, deadline: nat, hasNode: bool, n: nat, outcome: Outcome) {
    && Brings(polls(n), deadline, hasNode, outcome)
    && forall m: nat | m < n :: LeavesOpen(polls(m), deadline, hasNode)
  }

  /** The process-wide registry of Celery results in flight. */
  class Registry {
    var results: set<TaskId>

    constructor ()
      ensures results == {}
    {
      results := {};
    }

    method Register(task: TaskId)
      modifies this
      ensures results == old(results) + {task}
    {
      results := results + {task};
    }

    /** Sends the revoke if the entry is still there. */
    method Revoke(task: TaskId) returns (sent: bool)
      modifies this
      ensures results == old(results) - {task} && (sent <==> task in old(results))
    {
      sent := task in results;
      results := results - {task};
    }

    method Discard(task: TaskId)
      modifies this
      ensures results == old(results) - {task}
    {
      results := results - {task};
    }

    /** An await: the other coroutines register, revoke and discard what they will, and leave
        this task's entry in place or not; nobody else registers this task. */
    method Interleave(task: TaskId, entry: bool)
      requires entry ==> task in results
      modifies this
      ensures task in results <==> entry
    {
      results := *;
      results := if entry then results + {task} else results - {task};
    }
  }

  /** The outcomes that revoke the task: timeout and the two cancel flags, not a result record
      that says REVOKED. */
  predicate Revokes(p: Poll, deadline: nat, hasNode: bool) {
    match Decide(p, deadline, hasNode)
    case Some(TimedOut) => true
    case Some(ThreadCancelled) => p.threadFlag == Value(true)
    case Some(NodeCancelled) => true
    case _ => false
  }

  /** The part of a pass between two sleeps. `seen` is the registry at the last await. */
  method Look(registry: Registry, task: TaskId, p: Poll, deadline: nat, hasNode: bool)
    returns (decided: Option<Outcome>, sent: bool, ghost seen: set<TaskId>)
    requires task in registry.results <==> p.entry
    modifies registry
    ensures decided == Decide(p, deadline, hasNode)
    ensures sent <==> Revokes(p, deadline, hasNode) && p.entry
    ensures (task in seen <==> p.entry)
    ensures registry.results == if Revokes(p, deadline, hasNode) then seen - {task} else seen
    ensures decided.None? ==> registry.results == seen
  {
    sent, seen := false, registry.results;
    if deadline <= p.now {
      sent := registry.Revoke(task);
      return Some(TimedOut), sent, seen;
    }
    registry.Interleave(task, p.entry);
    seen := registry.results;
    if p.threadFlag.Raises? {
      return Some(Error), sent, seen;
    }
    if p.threadFlag.value {
      sent := registry.Revoke(task);
      return Some(ThreadCancelled), sent, seen;
    }
    if hasNode {
      registry.Interleave(task, p.entry);
      seen := registry.results;
      if p.nodeFlag.Raises? {
        return Some(Error), sent, seen;
      }
      if p.nodeFlag.value {
        sent := registry.Revoke(task);
        return Some(NodeCancelled), sent, seen;
      }
    }
    decided, seen := LookAtResult(registry, task, p);
  }

  /** The part of a pass that reads the result record. */
  method LookAtResult(registry: Registry, task: TaskId, p: Poll) returns (decided: Option<Outcome>, ghost seen: set<TaskId>)
    requires task in registry.results <==> p.entry
    modifies registry
    ensures decided == DecideResult(p)
    ensures (task in seen <==> p.entry) && registry.results == seen
  {
    registry.Interleave(task, p.entry);
    seen := registry.results;
    if p.meta.Raises? {
      return Some(Error), seen;
    }
    if p.meta.value.None? {
      return None, seen;
    }
    match p.meta.value.value {
      case Success(result) => return Some(Result(result)), seen;
      case PausedSuccess(thinking) =>
        if thinking != "" {
          registry.Interleave(task, p.entry);
          seen := registry.results;
          if !p.saved {
            return Some(Error), seen;
          }
        }
        return Some(Paused(thinking)), seen;
      case Failure => return Some(TaskFailed), seen;
      case Revoked =>
        registry.Interleave(task, p.entry);
        seen := registry.results;
        if p.pauseFlag.Raises? {
          return Some(Error), seen;
        }
        return Some(if p.pauseFlag.value then Paused("") else ThreadCancelled), seen;
      case Unfinished =>
        return None, seen;
    }
  }

  /** The 30-second bucket of a time in milliseconds, in seconds. */
  function Bucket(elapsed: nat): nat {
    elapsed / 1000 / 30 * 30
  }

  lemma BucketIs(elapsed: nat)
    ensures Bucket(elapsed) % 30 == 0 && 1000 * Bucket(elapsed) <= elapsed < 1000 * (Bucket(elapsed) + 30)
  {
  }

  /** That of a pass. */
  function PassBucket(polls: nat -> Poll, start: nat, i: nat): nat {
    if polls(i).now < start then 0 else Bucket(polls(i).now - start)
  }

  predicate Ascending(warned: seq<nat>) {
    forall i, j | 0 <= i < j < |warned| :: warned[i] < warned[j]
  }

  /** Some pass before `n` fell into this bucket. */
  ghost predicate Entered(polls: nat -> Poll, start: nat, n: nat, bucket: nat) {
    exists i: nat :: i < n && PassBucket(polls, start, i) == bucket
  }

  /** One warning for each bucket but the first that a pass before `n` fell into. */
  ghost predicate WarnedOnce(polls: nat -> Poll, start: nat, n: nat, warned: seq<nat>) {
    Ascending(warned) && forall bucket :: bucket in warned <==> bucket > 0 && Entered(polls, start, n, bucket)
  }

  method NoteElapsed(elapsed: nat, lastWarn: nat, warned: seq<nat>) returns (last: nat, log: seq<nat>)
    ensures last == if Bucket(elapsed) > lastWarn then Bucket(elapsed) else lastWarn
    ensures log == if Bucket(elapsed) > lastWarn then warned + [Bucket(elapsed)] else warned
  {
    last, log := lastWarn, warned;
    if elapsed > 10000 {
      var bucket := elapsed / 1000 / 30 * 30;
      if bucket > lastWarn {
        last, log := bucket, warned + [bucket];
      }
    }
  }

  lemma NoneWarned(polls: nat -> Poll, start: nat)
    ensures WarnedOnce(polls, start, 0, [])
  {
  }

  lemma LaterBucket(start: nat, now: nat, later: nat)
    requires start <= now <= later
    ensures Bucket(now - start) <= Bucket(later - start)
  {
  }

  /** The warnings before pass `n`, none of them for a bucket after `lastWarn`, and the one that
      the pass adds. */
  lemma WarnsOnce(polls: nat -> Poll, start: nat, n: nat, warned: seq<nat>, lastWarn: nat, log: seq<nat>)
    requires WarnedOnce(polls, start, n, warned) && forall bucket | bucket in warned :: bucket <= lastWarn
    requires lastWarn == if n == 0 then 0 else PassBucket(polls, start, n - 1)
    requires lastWarn <= PassBucket(polls, start, n)
    requires log == if PassBucket(polls, start, n) > lastWarn then warned + [PassBucket(polls, start, n)] else warned
    ensures WarnedOnce(polls, start, n + 1, log) && forall bucket | bucket in log :: bucket <= PassBucket(polls, start, n)
  {
    hide Bucket;
    if n > 0 && lastWarn > 0 {
      assert Entered(polls, start, n, lastWarn);
    }
    forall bucket ensures bucket in log <==> bucket > 0 && Entered(polls, start, n + 1, bucket) {
      assert Entered(polls, start, n + 1, bucket) <==>
             Entered(polls, start, n, bucket) || PassBucket(polls, start, n) == bucket;
    }
    forall i | 0 <= i < |warned| ensures warned[i] <= lastWarn {
      assert warned[i] in warned;
    }
  }

  /** Each pass that decides nothing brings the clock half a second on, or to the deadline. */
  ghost predicate Paced(polls: nat -> Poll, start: nat, timeout: nat, passes: nat) {
    && start + Min(POLL_INTERVAL * passes, timeout) <= polls(passes).now
    && POLL_INTERVAL * passes < timeout + POLL_INTERVAL
  }

  /** The loop of `_await_result`, up to the first pass that decides anything. */
  method PollLoop(registry: Registry, task: TaskId, start: nat, timeout: nat, hasNode: bool, polls: nat -> Poll)
    returns (outcome: Outcome, last: nat, sent: bool, warned: seq<nat>, ghost seen: set<TaskId>)
    requires SleepsHonoured(polls, start, start + timeout, hasNode) && EntriesOnlyGo(polls, task in registry.results)
    modifies registry
    ensures FirstDecision(polls, start + timeout, hasNode, last, outcome)
    ensures POLL_INTERVAL * (if outcome.TimedOut? then last else last + 1) < timeout + POLL_INTERVAL
    ensures sent <==> Revokes(polls(last), start + timeout, hasNode) && polls(last).entry
    ensures registry.results - {task} == seen - {task}
    ensures WarnedOnce(polls, start, last + 1, warned)
  {
    hide Bucket, WarnedOnce, Decide, Revokes, Brings, LeavesOpen;
    NoneWarned(polls, start);
    var deadline := start + timeout;
    var lastWarn: nat := 0;
    warned, last := [], 0;
    while true
      invariant forall m: nat | m < last :: LeavesOpen(polls(m), deadline, hasNode)
      invariant Paced(polls, start, timeout, last)
      invariant task in registry.results <==> if last == 0 then old(task in registry.results) else polls(last - 1).entry
      invariant WarnedOnce(polls, start, last, warned) && forall bucket | bucket in warned :: bucket <= lastWarn
      invariant lastWarn == (if last == 0 then 0 else PassBucket(polls, start, last - 1)) <= PassBucket(polls, start, last)
      decreases timeout + POLL_INTERVAL - POLL_INTERVAL * last
    {
      var p := polls(last);
      registry.Interleave(task, p.entry);
      ghost var before, lastBefore := warned, lastWarn;
      lastWarn, warned := NoteElapsed(p.now - start, lastWarn, warned);
      WarnsOnce(polls, start, last, before, lastBefore, warned);
      var decided;
      decided, sent, seen := Look(registry, task, p, deadline, hasNode);
      DecidedInTime(p, deadline, hasNode, decided);
      if decided.Some? {
        return decided.value, last, sent, warned, seen;
      }
      LaterBucket(start, p.now, polls(last + 1).now);
      last := last + 1;
    }
  }

  /** `_await_result`. `polls(i)` is what pass `i` finds, with the other coroutines of the
      process at work on the registry at every await. The loop ends, with the outcome of the
      first pass that decides anything; the passes that do not time out number at most
      ceil(timeout / 500); a revoke is sent exactly if that pass demands it and the entry is
      still there, so at most once; there is one warning for each later 30-second bucket that a
      pass falls into; and the registry's entry is gone on every exit, with the rest as the last
      await left it, except that nothing is removed when connecting to the result backend
      raises, which happens between the registration and the `try`. */
  method Await(registry: Registry, task: TaskId, start: nat, timeout: nat, hasNode: bool,
      connected: bool, entry: bool, polls: nat -> Poll)
    returns (outcome: Outcome, last: nat, sent: bool, warned: seq<nat>, ghost seen: set<TaskId>)
    requires SleepsHonoured(polls, start, start + timeout, hasNode) && EntriesOnlyGo(polls, entry)
    modifies registry
    ensures !connected ==> outcome == Error && !sent && (task in registry.results <==> entry) && registry.results == seen
    ensures connected ==>
      && FirstDecision(polls, start + timeout, hasNode, last, outcome)
      && 500 * (if outcome.TimedOut? then last else last + 1) < timeout + 500
      && (sent <==> Revokes(polls(last), start + timeout, hasNode) && polls(last).entry)
      && task !in registry.results && registry.results == seen - {task}
    ensures if connected then WarnedOnce(polls, start, last + 1, warned) else warned == []
  {
    registry.Register(task);
    registry.Interleave(task, entry);
    if !connected {
      return Error, 0, false, [], registry.results;
    }
    outcome, last, sent, warned, seen := PollLoop(registry, task, start, timeout, hasNode, polls);
    registry.Discard(task);
  }
}

/** Runs of the ownership protocol that show where it falls short of what its comments
    promise. Each is a run of the system of `Ownership`, with an accurate liveness probe. */
module OwnershipCounterexamples {
  import opened Options
  import opened LockScripts
  import opened Dispatch
  import opened Ownership
  import opened OwnershipTraces
  import opened Fencing
  import opened FencedNodes
  import opened ZombieCleanup
  import Statuses

  /** The process has just been granted its first lock, and nothing else has happened. */
  ghost predicate FirstGranted(s: State, p: Owner, ttl: Seconds) {
    && s.keys == GrantLock(Init.keys, p, ttl) && s.dead == {}
    && s.calls.Keys == {0} && s.grants == [Grant(p, 1, 0, None)]
  }

  lemma FirstGrantWaiting(p: Owner, ttl: Seconds) returns (s: State)
    ensures Reachable(s, ttl) && FirstGranted(s, p, ttl)
    ensures s.calls[0] == Call(p, Ready(1, Won), 0) && s.runs == map[] && s.registry == map[]
  {
    InitReachable(ttl);
    s := ObtainFreeLock(Init, 0, p, ttl);
  }

  lemma FirstRun(p: Owner, ttl: Seconds) returns (s: State)
    ensures Reachable(s, ttl) && FirstGranted(s, p, ttl)
    ensures s.runs == map[0 := Run(p, 1, Won, Running, false, false)]
  {
    InitReachable(ttl);
    s := StartOnFreeLock(Init, 0, p, ttl);
  }

  /** A second dispatch reads the lock that the first has been granted but not been told of,
      and starts a run. */
  lemma InheritedStart(p: Owner, ttl: Seconds) returns (s: State)
    ensures Reachable(s, ttl) && s.keys == GrantLock(Init.keys, p, ttl) && s.dead == {}
    ensures s.calls.Keys == {0, 1} && s.calls[0] == Call(p, Ready(1, Won), 0)
    ensures s.runs == map[1 := Run(p, 1, Inherited, Running, false, false)] && s.registry == map[p := 1]
  {
    s := FirstGrantWaiting(p, ttl);
    s := Begin(s, 1, p, false, ttl);
    s := Read(s, 1, Mine(1), ttl);
    s := StartRun(s, 1, 1, Inherited, ttl);
  }

  /** Then the first dispatch starts its own run, with the same token, and takes its place in
      the registry. */
  lemma DoubleStart(p: Owner, ttl: Seconds) returns (s: State)
    ensures Reachable(s, ttl)
    ensures s.keys == GrantLock(Init.keys, p, ttl) && s.dead == {}
    ensures s.registry == map[p := 0]
    ensures s.calls.Keys == {0, 1}
    ensures s.runs == map[0 := Run(p, 1, Won, Running, false, false), 1 := Run(p, 1, Inherited, Running, false, false)]
  {
    s := InheritedStart(p, ttl);
    s := StartRun(s, 0, 1, Won, ttl);
  }

  /** From there: run 1 ends and releases the lock under run 0, its done-callback empties the
      registry, and run 0, whose renewal then fails, is not cancelled. */
  lemma LostLockUnregistered(p: Owner, ttl: Seconds) returns (s: State)
    ensures Reachable(s, ttl) && s.keys.lock.None? && NextToken(s.keys) == 2 && s.dead == {}
    ensures s.calls.Keys == {0, 1} && p !in s.registry
    ensures 0 in s.runs && s.runs[0] == Run(p, 1, Won, Running, true, false)
  {
    s := DoubleStart(p, ttl);
    s := EndRun(s, 1, ttl);
    s := CallBack(s, 1, ttl);
    s := FailRenewal(s, 0, ttl);
  }

  /** And another process gets the lock and runs the thread at the same time. */
  lemma LostLockWithoutAbort(p: Owner, q: Owner, ttl: Seconds) returns (s: State)
    requires p != q
    ensures Reachable(s, ttl) && HeldBy(s.keys, q)
    ensures 0 in s.runs && 2 in s.runs
    ensures s.runs[0] == Run(p, 1, Won, Running, true, false)
    ensures s.runs[2] == Run(q, 2, Won, Running, false, false)
    ensures Enabled(s, Abort(0)) && Apply(s, Abort(0), ttl) == s
  {
    s := LostLockUnregistered(p, ttl);
    s := StartOnFreeLock(s, 2, q, ttl);
  }

  /** The lock has just been granted to or renewed by `p`; nothing else was ever granted. */
  ghost predicate FreshlyRenewed(k: Keys, p: Owner, ttl: Seconds) {
    && k.lock == Some(Lock(Held(p, 1), k.now + LockTtl(ttl)))
    && k.counter == if k.now < CounterTtl(ttl) then Some(Counter(1, CounterTtl(ttl))) else None
  }

  lemma RenewalRefreshes(k: Keys, p: Owner, ttl: Seconds) returns (k': Keys)
    requires FreshlyRenewed(k, p, ttl)
    ensures k' == Renew(Elapse(k, LockTtl(ttl) - 1), p, ttl).0
    ensures FreshlyRenewed(k', p, ttl) && k'.now > k.now
  {
    k' := Renew(Elapse(k, LockTtl(ttl) - 1), p, ttl).0;
  }

  lemma WaitAndRenew(s: State, p: Owner, ttl: Seconds) returns (s': State)
    requires Reachable(s, ttl) && 0 in s.runs && s.runs[0].proc == p && FreshlyRenewed(s.keys, p, ttl)
    ensures Reachable(s', ttl) && FreshlyRenewed(s'.keys, p, ttl) && s'.keys.now > s.keys.now
    ensures s'.dead == s.dead && s'.calls == s.calls && s'.runs == s.runs && s'.grants == s.grants
  {
    var _ := RenewalRefreshes(s.keys, p, ttl);
    s' := Go(s, Tick(LockTtl(ttl) - 1), ttl);
    s' := Go(s', Renewal(0), ttl);
  }

  /** Renewals that come in time keep the lock and leave the counter to expire. */
  lemma {:induction false} OutliveCounter(s: State, p: Owner, ttl: Seconds) returns (s': State)
    requires Reachable(s, ttl) && 0 in s.runs && s.runs[0].proc == p && FreshlyRenewed(s.keys, p, ttl)
    ensures Reachable(s', ttl) && FreshlyRenewed(s'.keys, p, ttl) && s'.keys.counter.None?
    ensures s'.dead == s.dead && s'.calls == s.calls && s'.runs == s.runs && s'.grants == s.grants
    decreases CounterTtl(ttl) - s.keys.now
  {
    s' := s;
    if s.keys.counter.Some? {
      s' := WaitAndRenew(s, p, ttl);
      s' := OutliveCounter(s', p, ttl);
    }
  }

  lemma LongRun(p: Owner, ttl: Seconds) returns (s: State)
    ensures Reachable(s, ttl) && FreshlyRenewed(s.keys, p, ttl) && s.keys.counter.None?
    ensures s.dead == {} && s.calls.Keys == {0} && s.grants == [Grant(p, 1, 0, None)]
    ensures s.runs == map[0 := Run(p, 1, Won, Running, false, false)]
  {
    s := FirstRun(p, ttl);
    s := OutliveCounter(s, p, ttl);
  }

  /** A run that is renewed in time for 20 lock TTLs outlives the counter: when its process
      then dies, the steal is granted the token 1 again, the very token of the run it
      replaces, although the lock never lapsed. */
  lemma TokenGrantedTwice(p: Owner, q: Owner, ttl: Seconds) returns (s: State)
    requires p != q
    ensures Reachable(s, ttl) && HeldBy(s.keys, q)
    ensures |s.grants| == 2
    ensures s.grants[0] == Grant(p, 1, 0, None)
    ensures s.grants[1].owner == q && s.grants[1].victim == Some(p)
    ensures s.grants[1].token == s.grants[0].token
  {
    s := LongRun(p, ttl);
    s := Die(s, p, ttl);
    s := StealFromDead(s, 1, q, p, ttl);
  }

  /** And if such a run merely misses its renewals for one lock TTL, it goes on, alive, with
      the same token as the run of the new holder. */
  lemma ZombieWithHoldersToken(p: Owner, q: Owner, ttl: Seconds) returns (s: State)
    requires p != q
    ensures Reachable(s, ttl)
    ensures 0 in s.runs && s.runs[0] == Run(p, 1, Won, Running, false, false) && p !in s.dead
    ensures s.keys.lock.Some? && s.keys.lock.value.value == Held(q, 1)
    ensures 1 in s.runs && s.runs[1] == Run(q, 1, Won, Running, false, false)
  {
    s := LongRun(p, ttl);
    s := Lapse(s, ttl);
    s := StartOnFreeLock(s, 1, q, ttl);
  }

  /** The renewal of the old run then fails, and its clean-up goes by a token that is also the
      holder's. */
  lemma ZombieCleansUpUnderHoldersToken(p: Owner, q: Owner, ttl: Seconds, id: TaskId) returns (s: State)
    requires p != q
    ensures Reachable(s, ttl) && HeldBy(s.keys, q)
    ensures 0 in s.runs && s.runs[0].proc == p && s.runs[0].lost
    ensures 1 in s.runs && s.runs[1] == Run(q, 1, Won, Running, false, false)
    ensures OwnTokens(s.runs, [Insert(id, 1, 1)]) && !SparesWorker(s.runs, [Insert(id, 1, 1)], 1, 0, 1)
  {
    s := ZombieWithHoldersToken(p, q, ttl);
    s := FailRenewal(s, 0, ttl);
    InsertIsMarked(s.runs, id, 0, 1);
  }

  lemma InsertIsMarked(runs: map<nat, Run>, id: TaskId, zombie: nat, other: nat)
    requires zombie in runs && other in runs && runs[zombie].token == runs[other].token == 1
    ensures OwnTokens(runs, [Insert(id, other, 1)]) && !SparesWorker(runs, [Insert(id, other, 1)], 1, zombie, other)
  {
    var ws := [Insert(id, other, 1)];
    assert ws[..0] == [];
    TakenIsMarked(runs, ws, 0, zombie, other);
  }

  lemma FirstRunLapsed(p: Owner, ttl: Seconds) returns (s: State)
    ensures Reachable(s, ttl) && s.dead == {} && s.calls.Keys == {0}
    ensures s.keys == Keys(None, Some(Counter(1, CounterTtl(ttl))), LockTtl(ttl))
    ensures s.runs == map[0 := Run(p, 1, Won, Running, false, false)] && s.grants == [Grant(p, 1, 0, None)]
  {
    s := FirstRun(p, ttl);
    LapsedKeys(p, ttl);
    hide GrantLock, Elapse;
    s := Lapse(s, ttl);
  }

  lemma LapsedKeys(p: Owner, ttl: Seconds)
    ensures var k := GrantLock(Init.keys, p, ttl);
      && k.lock.Some? && k.lock.value.expiry == k.now + LockTtl(ttl)
      && Elapse(k, LockTtl(ttl)) == Keys(None, Some(Counter(1, CounterTtl(ttl))), LockTtl(ttl))
  {
  }

  /** The lock of a run lapses while its process is alive, and passes to another process. */
  lemma PassedOn(p: Owner, q: Owner, ttl: Seconds) returns (s: State)
    requires p != q
    ensures Reachable(s, ttl) && HeldBy(s.keys, q) && NextToken(s.keys) == 3 && s.dead == {}
    ensures s.calls.Keys == {0, 1} && s.keys.lock.value.value.token == 2
    ensures s.runs == map[0 := Run(p, 1, Won, Running, false, false), 1 := Run(q, 2, Won, Running, false, false)]
    ensures s.grants == [Grant(p, 1, 0, None), Grant(q, 2, LockTtl(ttl), None)] && s.keys.now == LockTtl(ttl)
  {
    s := FirstRunLapsed(p, ttl);
    s := StartOnFreeLock(s, 1, q, ttl);
  }

  /** What the next lemmas need of that state. */
  lemma TwoRuns(p: Owner, q: Owner, ttl: Seconds) returns (s: State)
    requires p != q
    ensures Reachable(s, ttl) && HeldBy(s.keys, q) && !HeldBy(s.keys, p) && ShortGaps(s.grants, ttl)
    ensures 0 in s.runs && s.runs[0] == Run(p, 1, Won, Running, false, false)
    ensures 1 in s.runs && s.runs[1] == Run(q, 2, Won, Running, false, false)
  {
    s := PassedOn(p, q, ttl);
  }

  /** In that state, with short gaps and tokens in order: when the graph of the old run raises
      before its next renewal is refused, the run fails every active node of the thread, and
      the new holder's too. */
  lemma ZombieFailsHoldersNodes(p: Owner, q: Owner, ttl: Seconds, row: Row) returns (s: State)
    requires p != q && row.token == 2 && row.status == Statuses.Running
    ensures Reachable(s, ttl) && HeldBy(s.keys, q) && ShortGaps(s.grants, ttl)
    ensures 0 in s.runs && s.runs[0] == Run(p, 1, Won, Running, false, false)
    ensures 1 in s.runs && s.runs[1] == Run(q, 2, Won, Running, false, false)
    ensures var sweep := Stamped(ByRun(0), FailActive);
      StampOk(s, sweep) && ApplyAll(row, [sweep]) == row.(status := Statuses.Failed) && !AgreesAt(s, row, [sweep], 1)
  {
    s := TwoRuns(p, q, ttl);
    hide Reachable, ShortGaps, HeldBy;
    SweepHits(s, row, 0, FailActive);
  }

  /** The same without any exception: when the old run gets to a node with a cancelled
      predecessor, its upsert is refused, and it does not notice; it cancels the node, whose
      row is the new holder's, and perhaps the whole thread. */
  lemma ZombieCancelsHoldersNodes(p: Owner, q: Owner, ttl: Seconds, row: Row, upsert: Write, cancel: Write)
      returns (s: State)
    requires p != q && row.token == 2 && row.status == Statuses.Running
    requires upsert.Upsert? && upsert.token == 1 && (cancel.CancelSelf? || cancel.CancelActive?)
    ensures Reachable(s, ttl) && HeldBy(s.keys, q) && ShortGaps(s.grants, ttl)
    ensures 0 in s.runs && s.runs[0] == Run(p, 1, Won, Running, false, false)
    ensures 1 in s.runs && s.runs[1] == Run(q, 2, Won, Running, false, false)
    ensures var refused := Stamped(ByRun(0), upsert);
      StampOk(s, refused) && GuardedPart(ApplyAll(row, [refused])) == GuardedPart(row)
    ensures var row', sweep := ApplyAll(row, [Stamped(ByRun(0), upsert)]), Stamped(ByRun(0), cancel);
      && StampOk(s, sweep) && ApplyAll(row', [sweep]) == row'.(status := Statuses.Cancelled)
      && !AgreesAt(s, row', [sweep], 1)
  {
    s := TwoRuns(p, q, ttl);
    hide Reachable, ShortGaps, HeldBy, ApplyAll, AgreesAt, ApplyWrite;
    UpsertRefused(row, Stamped(ByRun(0), upsert));
    SweepHits(s, ApplyAll(row, [Stamped(ByRun(0), upsert)]), 0, cancel);
  }

  lemma UpsertRefused(row: Row, w: Stamped)
    requires w.write.Upsert? && w.write.token < row.token
    ensures GuardedPart(ApplyAll(row, [w])) == GuardedPart(row)
  {
    ApplySnoc(row, [], w);
    assert [] + [w] == [w];
  }

  lemma SweepHits(s: State, row: Row, id: nat, w: Write)
    requires id in s.runs && !HeldBy(s.keys, s.runs[id].proc) && row.status == Statuses.Running
    requires w.FailActive? || w.CancelSelf? || w.CancelActive?
    ensures var sweep := Stamped(ByRun(id), w);
      && ApplyAll(row, [sweep]) == row.(status := if w.FailActive? then Statuses.Failed else Statuses.Cancelled)
      && !AgreesAt(s, row, [sweep], 1)
  {
    var ws := [Stamped(ByRun(id), w)];
    assert ws[..1] == ws && ws[..0] == [] && WithoutForeign(s, ws) == [];
  }

  /** Nor does the clean-up of the old run, once it knows of its loss, stay off the tasks of
      the new holder, although the tokens differ: the holder has taken over a failed task of
      the old run, under its old token. */
  lemma ZombieMarksTaskTakenOver(p: Owner, q: Owner, ttl: Seconds, id: TaskId) returns (s: State)
    requires p != q
    ensures Reachable(s, ttl) && HeldBy(s.keys, q) && ShortGaps(s.grants, ttl)
    ensures 0 in s.runs && s.runs[0] == Run(p, 1, Won, Running, true, false)
    ensures 1 in s.runs && s.runs[1] == Run(q, 2, Won, Running, false, false)
    ensures var ws := [Insert(id, 0, 1), TaskWrite.Complete(id, Statuses.Failed), Reset(id, Some(1))];
      && OwnTokens(s.runs, ws) && Tasks(ws) == map[id := Task(0, 1, Statuses.Running, {0, 1})]
      && Tasks(ws + [MarkWrong(1)]) == map[id := Task(0, 1, Statuses.Wrong, {0, 1})]
  {
    s := PassedOn(p, q, ttl);
    s := FailRenewal(s, 0, ttl);
    TakenOverTask(id);
  }

  lemma TakenOverTask(id: TaskId)
    ensures var ws := [Insert(id, 0, 1), TaskWrite.Complete(id, Statuses.Failed), Reset(id, Some(1))];
      && Tasks(ws) == map[id := Task(0, 1, Statuses.Running, {0, 1})]
      && Tasks(ws + [MarkWrong(1)]) == map[id := Task(0, 1, Statuses.Wrong, {0, 1})]
  {
    var inserted, failed := [Insert(id, 0, 1)], [Insert(id, 0, 1), TaskWrite.Complete(id, Statuses.Failed)];
    TasksSnoc([], Insert(id, 0, 1));
    assert Tasks(inserted) == map[id := Task(0, 1, Statuses.Running, {0})];
    TasksSnoc(inserted, TaskWrite.Complete(id, Statuses.Failed));
    assert Tasks(failed) == map[id := Task(0, 1, Statuses.Failed, {0})];
    TasksSnoc(failed, Reset(id, Some(1)));
    var ws := [Insert(id, 0, 1), TaskWrite.Complete(id, Statuses.Failed), Reset(id, Some(1))];
    assert ws == failed + [Reset(id, Some(1))];
    assert Tasks(failed)[id].workers + {1} == {0, 1};
    assert Tasks(ws) == map[id := Task(0, 1, Statuses.Running, {0, 1})];
    TasksSnoc(ws, MarkWrong(1));
  }

  /** Or the new holder's run ends and releases, and a dispatch of the old process acquires the
      lock again, since it finds it free and does not look for a live task. The renewals of the
      old run then succeed again: it never learns that its lock had passed to another process,
      and runs on beside the new run. */
  lemma LossNeverNoticed(p: Owner, q: Owner, ttl: Seconds) returns (s: State)
    requires p != q
    ensures Reachable(s, ttl) && s.dead == {}
    ensures |s.grants| == 3 && s.grants[1].owner == q && s.grants[2] == Grant(p, 3, s.grants[1].time, None)
    ensures 0 in s.runs && s.runs[0] == Run(p, 1, Won, Running, false, false)
    ensures 2 in s.runs && s.runs[2] == Run(p, 3, Won, Running, false, false)
    ensures Renew(s.keys, p, ttl).1
  {
    s := PassedOn(p, q, ttl);
    s := EndRun(s, 1, ttl);
    s := StartOnFreeLock(s, 2, p, ttl);
  }

  /** Both processes found no lock; the request of `q` reached Redis first, and the one of `p`
      is refused. */
  lemma Overtaken(p: Owner, q: Owner, ttl: Seconds) returns (s: State)
    ensures Reachable(s, ttl) && s.keys == GrantLock(Init.keys, q, ttl) && s.dead == {} && s.runs == map[]
    ensures 1 in s.calls && s.calls[1] == Call(p, RereadRace, 0) && s.lease.Keys == {q}
  {
    InitReachable(ttl);
    s := Begin(Init, 1, p, false, ttl);
    s := Read(s, 1, AcquireFree, ttl);
    s := Begin(s, 0, q, false, ttl);
    s := Read(s, 0, AcquireFree, ttl);
    s := Obtain(s, 0, ttl);
    s := Miss(s, 1, ttl);
  }

  /** The vanished lock: the acquire of `p` loses to a lock that expires before `p` looks
      again. `p` then runs the thread with no lock and token 0, free for anyone to acquire. */
  lemma RunWithoutLock(p: Owner, q: Owner, ttl: Seconds) returns (s: State)
    requires p != q
    ensures Reachable(s, ttl) && s.keys.lock.None?
    ensures 1 in s.runs && s.runs[1] == Run(p, 0, Vanished, Running, false, false) && p !in s.lease
  {
    s := Overtaken(p, q, ttl);
    s := Lapse(s, ttl);
    s := Read(s, 1, Ready(0, Vanished), ttl);
    s := StartRun(s, 1, 0, Vanished, ttl);
  }
}

/** What every reachable state of the ownership protocol satisfies, whatever the
    interleaving and whether or not the liveness probe tells the truth. */
module OwnershipInvariant {
  import opened Options
  import opened LockScripts
  import opened Dispatch
  import opened Ownership

  /** Grant `i` against the one before it: the counter goes up by one if it is still there,
      and restarts if it has expired; a steal takes the lock from the grant before it. */
  ghost predicate LinkAt(gs: seq<Grant>, i: nat, ttl: Seconds)
    requires 0 < i < |gs|
  {
    && gs[i - 1].time <= gs[i].time
    && gs[i].token == (if gs[i].time - gs[i - 1].time < 20 * 1000 * ttl then gs[i - 1].token + 1 else 1)
    && (gs[i].victim.Some? ==> gs[i].victim.value == gs[i - 1].owner)
  }

  ghost predicate HistoryOk(gs: seq<Grant>, ttl: Seconds) {
    && (gs != [] ==> gs[0].token == 1 && gs[0].victim.None?)
    && forall i | 0 < i < |gs| :: LinkAt(gs, i, ttl)
  }

  /** The keys against the last grant: a lock that is held carries its owner and token, and
      the counter carries its token for 20 lock TTLs after it. */
  ghost predicate KeysOk(k: Keys, gs: seq<Grant>, ttl: Seconds) {
    if gs == [] then k.lock.None? && k.counter.None?
    else
      var last := gs[|gs| - 1];
      && (k.lock.Some? ==> k.lock.value.value == Held(last.owner, last.token) && k.now < k.lock.value.expiry)
      && last.time <= k.now
      && k.counter == (if k.now < last.time + 20 * 1000 * ttl
                       then Some(Counter(last.token, last.time + 20 * 1000 * ttl)) else None)
  }

  /** The holder of the lock knows until when. */
  ghost predicate LeaseOk(k: Keys, lease: map<Owner, nat>) {
    k.lock.Some? && k.lock.value.value.Held? ==>
      var owner := k.lock.value.value.owner;
      owner in lease && lease[owner] == k.lock.value.expiry
  }

  ghost predicate GrantedTo(gs: seq<Grant>, since: nat, proc: Owner, token: nat) {
    exists i :: since <= i < |gs| && gs[i].owner == proc && gs[i].token == token
  }

  /** Where a call's token comes from. */
  ghost predicate TokenOk(gs: seq<Grant>, call: Call, token: nat, origin: Origin) {
    match origin
    case Won => GrantedTo(gs, call.since, call.proc, token)
    case Inherited => GrantedTo(gs, 0, call.proc, token)
    case Vanished => token == 0
  }

  ghost predicate CallOk(gs: seq<Grant>, call: Call) {
    && call.since <= |gs|
    && match call.pc
       case Mine(token) => TokenOk(gs, call, token, Inherited)
       case Ready(token, origin) => TokenOk(gs, call, token, origin)
       case Ended(Started(token, origin)) => TokenOk(gs, call, token, origin)
       case _ => true
  }

  ghost predicate CallsOk(gs: seq<Grant>, calls: map<nat, Call>) {
    forall id | id in calls :: CallOk(gs, calls[id])
  }

  /** Runs and calls: a call that ended by starting a run has exactly that run. */
  ghost predicate RunsOk(calls: map<nat, Call>, runs: map<nat, Run>) {
    && (forall id | id in runs :: id in calls && calls[id].proc == runs[id].proc
         && calls[id].pc == Ended(Started(runs[id].token, runs[id].origin)))
    && (forall id | id in calls && calls[id].pc.Ended? && calls[id].pc.outcome.Started? :: id in runs)
  }

  ghost predicate RegistryOk(registry: map<Owner, nat>, runs: map<nat, Run>) {
    forall proc | proc in registry :: registry[proc] in runs && runs[registry[proc]].proc == proc
  }

  ghost predicate Inv(s: State, ttl: Seconds) {
    && HistoryOk(s.grants, ttl)
    && KeysOk(s.keys, s.grants, ttl)
    && LeaseOk(s.keys, s.lease)
    && CallsOk(s.grants, s.calls)
    && RunsOk(s.calls, s.runs)
    && RegistryOk(s.registry, s.runs)
  }

  lemma GrantKeepsHistory(s: State, proc: Owner, victim: Option<Owner>, ttl: Seconds)
    requires HistoryOk(s.grants, ttl) && KeysOk(s.keys, s.grants, ttl)
    requires victim.Some? ==> HeldBy(s.keys, victim.value)
    ensures HistoryOk(Granted(s, proc, victim, ttl).grants, ttl)
  {
    var gs, gs' := s.grants, Granted(s, proc, victim, ttl).grants;
    forall i | 0 < i < |gs'| ensures LinkAt(gs', i, ttl) {
      if i < |gs| {
        assert LinkAt(gs, i, ttl);
      }
    }
  }

  lemma GrantKeepsCall(gs: seq<Grant>, grant: Grant, call: Call)
    requires CallOk(gs, call)
    ensures CallOk(gs + [grant], call)
  {
    var gs' := gs + [grant];
    forall since: nat, proc, token | GrantedTo(gs, since, proc, token) ensures GrantedTo(gs', since, proc, token) {
      var i :| since <= i < |gs| && gs[i].owner == proc && gs[i].token == token;
      assert gs'[i] == gs[i];
    }
  }

  lemma GrantKeepsInv(s: State, proc: Owner, victim: Option<Owner>, ttl: Seconds)
    requires Inv(s, ttl)
    requires victim.Some? ==> HeldBy(s.keys, victim.value)
    ensures Inv(Granted(s, proc, victim, ttl), ttl)
  {
    var s' := Granted(s, proc, victim, ttl);
    GrantKeepsHistory(s, proc, victim, ttl);
    forall id | id in s'.calls ensures CallOk(s'.grants, s'.calls[id]) {
      GrantKeepsCall(s.grants, s'.grants[|s.grants|], s.calls[id]);
    }
  }

  /** Moving one call that has not ended. */
  lemma CallMoves(s: State, id: nat, pc: Pc, ttl: Seconds)
    requires Inv(s, ttl) && id in s.calls && !s.calls[id].pc.Ended?
    requires CallOk(s.grants, s.calls[id].(pc := pc))
    requires pc.Ended? ==> !pc.outcome.Started?
    ensures Inv(s.(calls := s.calls[id := s.calls[id].(pc := pc)]), ttl)
  {
    assert id !in s.runs;
  }

  /** The reply leaves the call with a token it may claim. */
  lemma ReplyOk(s: State, call: Call, up: bool, ttl: Seconds)
    requires HistoryOk(s.grants, ttl) && KeysOk(s.keys, s.grants, ttl) && CallOk(s.grants, call)
    requires Waits(call.pc) != NoRequest && Waits(call.pc) != AskRunning
    ensures var (served, reply) := ServeRequest(s, call.proc, Waits(call.pc), up, ttl);
      CallOk(served.grants, call.(pc := Next(call.proc, call.pc, reply)))
  {
    var (served, reply) := ServeRequest(s, call.proc, Waits(call.pc), up, ttl);
    var pc := Next(call.proc, call.pc, reply);
    if pc.Ready? && pc.origin.Won? {
      var i := |served.grants| - 1;
      assert served.grants[i].owner == call.proc && served.grants[i].token == pc.token;
    } else if pc.Mine? {
      var i := |s.grants| - 1;
      assert s.grants[i].owner == call.proc && s.grants[i].token == pc.token;
    }
  }

  lemma ServedKeepsInv(s: State, proc: Owner, request: Request, up: bool, ttl: Seconds)
    requires Inv(s, ttl) && request != NoRequest && request != AskRunning
    ensures Inv(ServeRequest(s, proc, request, up, ttl).0, ttl)
  {
    if request.AskAcquire? && s.keys.lock.None? {
      GrantKeepsInv(s, proc, None, ttl);
    } else if request.AskSteal? && HeldBy(s.keys, request.dead) {
      GrantKeepsInv(s, proc, Some(request.dead), ttl);
    }
  }

  lemma NextStartsNothing(me: Owner, pc: Pc, reply: Reply)
    requires Answers(reply, Waits(pc)) && Waits(pc) != NoRequest
    ensures var next := Next(me, pc, reply); next.Ended? ==> !next.outcome.Started?
  {
  }

  lemma ServeKeepsInv(s: State, id: nat, up: bool, ttl: Seconds)
    requires Inv(s, ttl) && id in s.calls && Waits(s.calls[id].pc) != NoRequest && Waits(s.calls[id].pc) != AskRunning
    ensures Inv(ServeCall(s, id, up, ttl), ttl)
  {
    var call := s.calls[id];
    var (served, reply) := ServeRequest(s, call.proc, Waits(call.pc), up, ttl);
    assert served.calls == s.calls && CallOk(s.grants, call);
    ServedKeepsInv(s, call.proc, Waits(call.pc), up, ttl);
    ReplyOk(s, call, up, ttl);
    NextStartsNothing(call.proc, call.pc, reply);
    hide Inv, ServeRequest, Next, CallOk;
    CallMoves(served, id, Next(call.proc, call.pc, reply), ttl);
  }

  lemma LaunchKeepsInv(s: State, id: nat, token: nat, origin: Origin, ttl: Seconds)
    requires Inv(s, ttl) && id in s.calls && !s.calls[id].pc.Ended?
    requires TokenOk(s.grants, s.calls[id], token, origin)
    ensures Inv(Launch(s, id, token, origin), ttl)
  {
    assert id !in s.runs;
  }

  lemma StartKeepsInv(s: State, id: nat, ttl: Seconds)
    requires Inv(s, ttl) && id in s.calls && (s.calls[id].pc.Mine? || s.calls[id].pc.Ready?)
    ensures Inv(StartCall(s, id), ttl)
  {
    var call := s.calls[id];
    assert CallOk(s.grants, call);
    if call.pc.Mine? && Busy(s, call.proc) {
      CallMoves(s, id, Ended(NoOp), ttl);
    } else if call.pc.Mine? {
      LaunchKeepsInv(s, id, call.pc.token, Inherited, ttl);
    } else {
      LaunchKeepsInv(s, id, call.pc.token, call.pc.origin, ttl);
    }
  }

  /** Changing a run's phase or flags. */
  lemma RunMoves(s: State, id: nat, run: Run, ttl: Seconds)
    requires Inv(s, ttl) && id in s.runs
    requires run.proc == s.runs[id].proc && run.token == s.runs[id].token && run.origin == s.runs[id].origin
    ensures Inv(SetRun(s, id, run), ttl)
  {
    assert RunsOk(s.calls, s.runs[id := run]);
    assert RegistryOk(s.registry, s.runs[id := run]);
  }

  lemma KeysMove(s: State, keys: Keys, lease: map<Owner, nat>, ttl: Seconds)
    requires Inv(s, ttl) && KeysOk(keys, s.grants, ttl) && LeaseOk(keys, lease)
    ensures Inv(s.(keys := keys, lease := lease), ttl)
  {
  }

  lemma ReleasedKeysOk(k: Keys, gs: seq<Grant>, lease: map<Owner, nat>, proc: Owner, ttl: Seconds)
    requires KeysOk(k, gs, ttl) && LeaseOk(k, lease)
    ensures KeysOk(Release(k, proc).0, gs, ttl) && LeaseOk(Release(k, proc).0, lease - {proc})
  {
  }

  lemma ReleaseKeepsInv(s: State, id: nat, delivered: bool, ttl: Seconds)
    requires Inv(s, ttl) && id in s.runs
    ensures Inv(ReleaseRun(s, id, delivered), ttl)
  {
    var run := s.runs[id];
    var s' := SetRun(s, id, run.(phase := Finished));
    RunMoves(s, id, run.(phase := Finished), ttl);
    if delivered {
      ReleasedKeysOk(s.keys, s.grants, s.lease, run.proc, ttl);
      hide KeysOk, LeaseOk, Inv;
      KeysMove(s', Release(s.keys, run.proc).0, s.lease - {run.proc}, ttl);
    }
  }

  lemma RenewedKeysOk(k: Keys, gs: seq<Grant>, lease: map<Owner, nat>, proc: Owner, ttl: Seconds)
    requires KeysOk(k, gs, ttl) && LeaseOk(k, lease) && HeldBy(k, proc)
    ensures KeysOk(Renew(k, proc, ttl).0, gs, ttl)
    ensures LeaseOk(Renew(k, proc, ttl).0, lease[proc := k.now + LockTtl(ttl)])
  {
  }

  lemma RenewalKeepsInv(s: State, id: nat, ttl: Seconds)
    requires Inv(s, ttl) && id in s.runs
    ensures Inv(RenewRun(s, id, ttl), ttl)
  {
    var run := s.runs[id];
    if Renew(s.keys, run.proc, ttl).1 {
      RenewedKeysOk(s.keys, s.grants, s.lease, run.proc, ttl);
      hide KeysOk, LeaseOk, Inv;
      KeysMove(s, Renew(s.keys, run.proc, ttl).0, s.lease[run.proc := s.keys.now + LockTtl(ttl)], ttl);
    } else {
      RunMoves(s, id, run.(lost := true), ttl);
    }
  }

  lemma AbortKeepsInv(s: State, id: nat, ttl: Seconds)
    requires Inv(s, ttl) && id in s.runs
    ensures Inv(AbortRun(s, id), ttl)
  {
    var proc := s.runs[id].proc;
    if Busy(s, proc) {
      RunMoves(s, s.registry[proc], s.runs[s.registry[proc]].(cancelled := true), ttl);
    }
  }

  lemma SpawnKeepsInv(s: State, step: Step, ttl: Seconds)
    requires Inv(s, ttl) && Enabled(s, step) && step.Spawn?
    ensures Inv(Apply(s, step, ttl), ttl)
  {
    var s' := Apply(s, step, ttl);
    assert CallsOk(s'.grants, s'.calls);
    assert RunsOk(s'.calls, s'.runs);
  }

  lemma {:induction false} StepKeepsInv(s: State, step: Step, ttl: Seconds)
    requires Inv(s, ttl) && Enabled(s, step)
    ensures Inv(Apply(s, step, ttl), ttl)
  {
    match step
    case Tick(_) =>
    case Crash(_) =>
    case Spawn(_, _, _) => SpawnKeepsInv(s, step, ttl);
    case Serve(id, up) => ServeKeepsInv(s, id, up, ttl);
    case Start(id) => StartKeepsInv(s, id, ttl);
    case Renewal(id) => RenewalKeepsInv(s, id, ttl);
    case Abort(id) => AbortKeepsInv(s, id, ttl);
    case Finish(id) => RunMoves(s, id, s.runs[id].(phase := Finishing), ttl);
    case ReleaseLock(id, delivered) => ReleaseKeepsInv(s, id, delivered, ttl);
    case Reap(id) => RunMoves(s, id, s.runs[id].(phase := Reaped), ttl);
  }

  lemma {:induction false} InvHolds(steps: seq<Step>, n: nat, ttl: Seconds)
    requires Valid(Init, steps, ttl) && n <= |steps|
    ensures Inv(At(steps, n, ttl), ttl)
  {
    if n == 0 {
      assert steps[..0] == [];
    } else {
      InvHolds(steps, n - 1, ttl);
      AtStep(steps, n - 1, ttl);
      StepKeepsInv(At(steps, n - 1, ttl), steps[n - 1], ttl);
    }
  }
}

/** Who may believe to hold the lease, over whole timed runs
    (backend/main_thread/lock.py, executor.py, startup.py). */
module LeaseExclusion {
  import opened Options
  import opened LockScripts
  import opened Dispatch
  import opened Ownership
  import opened OwnershipInvariant

  /** The process was promised the lease until a time that has not come. */
  predicate Inside(s: State, proc: Owner) {
    proc in s.lease && proc !in s.dead && s.keys.now < s.lease[proc]
  }

  /** Every live process inside its lease is the one that Redis names, until the same time. */
  ghost predicate Agreement(s: State) {
    forall proc | Inside(s, proc) :: HeldBy(s.keys, proc) && s.keys.lock.value.expiry == s.lease[proc]
  }

  /** No two processes are inside a lease at once. */
  ghost predicate Exclusive(s: State) {
    forall p, q | Inside(s, p) && Inside(s, q) :: p == q
  }

  /** The step is a steal that will succeed against another process that is alive. */
  predicate WrongSteal(s: State, step: Step) {
    && step.Serve? && step.id in s.calls && s.calls[step.id].pc.StealFrom?
    && var victim := s.calls[step.id].pc.owner;
    HeldBy(s.keys, victim) && victim !in s.dead && victim != s.calls[step.id].proc
  }

  /** A grant of a free lock, or of one that a dead process or the caller itself holds. */
  lemma GrantAgrees(s: State, caller: Owner, victim: Option<Owner>, ttl: Seconds, proc: Owner)
    requires Agreement(s)
    requires if victim.None? then s.keys.lock.None?
             else HeldBy(s.keys, victim.value) && (victim.value in s.dead || victim.value == caller)
    requires Inside(Granted(s, caller, victim, ttl), proc)
    ensures var s' := Granted(s, caller, victim, ttl);
      HeldBy(s'.keys, proc) && s'.keys.lock.value.expiry == s'.lease[proc]
  {
    if proc != caller {
      assert Inside(s, proc);
    }
  }

  /** What serving a request does to the lock and the leases: nothing, or a grant. */
  lemma ServeGrantsOrNot(s: State, id: nat, up: bool, ttl: Seconds) returns (granted: bool, victim: Option<Owner>)
    requires id in s.calls && Waits(s.calls[id].pc) != NoRequest && Waits(s.calls[id].pc) != AskRunning
    requires !WrongSteal(s, Serve(id, up))
    ensures ServeCall(s, id, up, ttl).dead == s.dead
    ensures var s', g := ServeCall(s, id, up, ttl), if granted then Granted(s, s.calls[id].proc, victim, ttl) else s;
      s'.keys == g.keys && s'.lease == g.lease
    ensures granted ==>
      if victim.None? then s.keys.lock.None?
      else HeldBy(s.keys, victim.value) && (victim.value in s.dead || victim.value == s.calls[id].proc)
  {
    var request := Waits(s.calls[id].pc);
    granted := (request.AskAcquire? && s.keys.lock.None?) || (request.AskSteal? && HeldBy(s.keys, request.dead));
    victim := if request.AskSteal? then Some(request.dead) else None;
  }

  lemma ServeAgrees(s: State, id: nat, up: bool, ttl: Seconds, proc: Owner)
    requires Enabled(s, Serve(id, up)) && Agreement(s) && !WrongSteal(s, Serve(id, up))
    requires Inside(ServeCall(s, id, up, ttl), proc)
    ensures var s' := ServeCall(s, id, up, ttl);
      HeldBy(s'.keys, proc) && s'.keys.lock.value.expiry == s'.lease[proc]
  {
    var granted, victim := ServeGrantsOrNot(s, id, up, ttl);
    hide ServeCall, Granted;
    if granted {
      GrantAgrees(s, s.calls[id].proc, victim, ttl, proc);
    } else {
      assert Inside(s, proc);
    }
  }

  lemma RenewalAgrees(s: State, id: nat, ttl: Seconds, proc: Owner)
    requires Agreement(s) && id in s.runs
    requires Inside(RenewRun(s, id, ttl), proc)
    ensures var s' := RenewRun(s, id, ttl);
      HeldBy(s'.keys, proc) && s'.keys.lock.value.expiry == s'.lease[proc]
  {
    if proc != s.runs[id].proc || !HeldBy(s.keys, proc) {
      assert Inside(s, proc);
    }
  }

  lemma ReleaseAgrees(s: State, id: nat, delivered: bool, proc: Owner)
    requires Agreement(s) && id in s.runs
    requires Inside(ReleaseRun(s, id, delivered), proc)
    ensures var s' := ReleaseRun(s, id, delivered);
      HeldBy(s'.keys, proc) && s'.keys.lock.value.expiry == s'.lease[proc]
  {
    assert Inside(s, proc);
  }

  lemma LocalStepAgrees(s: State, step: Step, ttl: Seconds, proc: Owner)
    requires Enabled(s, step) && Agreement(s)
    requires !step.Serve? && !step.Renewal? && !step.ReleaseLock?
    requires Inside(Apply(s, step, ttl), proc)
    ensures var s' := Apply(s, step, ttl);
      HeldBy(s'.keys, proc) && s'.keys.lock.value.expiry == s'.lease[proc]
  {
    assert Inside(s, proc);
  }

  lemma WrongStealDisagrees(s: State, step: Step, ttl: Seconds)
    requires Inv(s, ttl) && Enabled(s, step) && WrongSteal(s, step)
    ensures !Agreement(Apply(s, step, ttl))
  {
    assert Inside(Apply(s, step, ttl), s.calls[step.id].pc.owner);
  }

  lemma {:induction false} AgreementStep(s: State, step: Step, ttl: Seconds)
    requires Inv(s, ttl) && Enabled(s, step) && Agreement(s)
    ensures Agreement(Apply(s, step, ttl)) <==> !WrongSteal(s, step)
  {
    if WrongSteal(s, step) {
      WrongStealDisagrees(s, step, ttl);
    } else {
      var s' := Apply(s, step, ttl);
      forall proc | Inside(s', proc) ensures HeldBy(s'.keys, proc) && s'.keys.lock.value.expiry == s'.lease[proc] {
        match step
        case Serve(id, up) => ServeAgrees(s, id, up, ttl, proc);
        case Renewal(id) => RenewalAgrees(s, id, ttl, proc);
        case ReleaseLock(id, delivered) => ReleaseAgrees(s, id, delivered, proc);
        case _ => LocalStepAgrees(s, step, ttl, proc);
      }
    }
  }

  ghost predicate NoWrongSteal(steps: seq<Step>, n: nat, ttl: Seconds)
    requires Valid(Init, steps, ttl) && n <= |steps|
  {
    forall i | 0 <= i < n :: !WrongSteal(At(steps, i, ttl), steps[i])
  }

  lemma {:induction false} AgreementAt(steps: seq<Step>, n: nat, ttl: Seconds)
    requires Valid(Init, steps, ttl) && n <= |steps|
    requires NoWrongSteal(steps, n, ttl)
    ensures Agreement(At(steps, n, ttl))
  {
    if n == 0 {
      assert steps[..0] == [];
    } else {
      AgreementAt(steps, n - 1, ttl);
      InvHolds(steps, n - 1, ttl);
      AtStep(steps, n - 1, ttl);
      AgreementStep(At(steps, n - 1, ttl), steps[n - 1], ttl);
    }
  }

  /** Over any run of any number of processes, with dispatches, recoveries, renewals,
      releases, crashes and expiries: the processes' leases agree with Redis throughout
      exactly if no steal ever succeeded against another live process. */
  lemma {:induction false} LeasesAgreeIffNoWrongSteal(steps: seq<Step>, ttl: Seconds)
    requires Valid(Init, steps, ttl)
    ensures (forall n | 0 <= n <= |steps| :: Agreement(At(steps, n, ttl))) <==> NoWrongSteal(steps, |steps|, ttl)
  {
    if NoWrongSteal(steps, |steps|, ttl) {
      forall n | 0 <= n <= |steps| ensures Agreement(At(steps, n, ttl)) {
        AgreementAt(steps, n, ttl);
      }
    }
    if forall n | 0 <= n <= |steps| :: Agreement(At(steps, n, ttl)) {
      forall i | 0 <= i < |steps| ensures !WrongSteal(At(steps, i, ttl), steps[i]) {
        InvHolds(steps, i, ttl);
        AtStep(steps, i, ttl);
        assert Agreement(At(steps, i, ttl)) && Agreement(At(steps, i + 1, ttl));
        AgreementStep(At(steps, i, ttl), steps[i], ttl);
      }
    }
  }

  /** The liveness probe never reports a live owner dead. */
  ghost predicate AccurateProbe(s: State, step: Step) {
    step.Serve? && step.id in s.calls && Waits(s.calls[step.id].pc).AskAlive? && !step.up ==>
      Waits(s.calls[step.id].pc).owner in s.dead
  }

  ghost predicate AccurateProbes(steps: seq<Step>, n: nat, ttl: Seconds)
    requires Valid(Init, steps, ttl) && n <= |steps|
  {
    forall i | 0 <= i < n :: AccurateProbe(At(steps, i, ttl), steps[i])
  }

  ghost predicate StealsNameTheDead(s: State) {
    forall id | id in s.calls && s.calls[id].pc.StealFrom? :: s.calls[id].pc.owner in s.dead
  }

  lemma {:induction false} ProbedOwnersAreDead(steps: seq<Step>, n: nat, ttl: Seconds)
    requires Valid(Init, steps, ttl) && n <= |steps|
    requires AccurateProbes(steps, n, ttl)
    ensures StealsNameTheDead(At(steps, n, ttl))
  {
    if n == 0 {
      assert steps[..0] == [];
    } else {
      ProbedOwnersAreDead(steps, n - 1, ttl);
      AtStep(steps, n - 1, ttl);
      assert AccurateProbe(At(steps, n - 1, ttl), steps[n - 1]);
      ProbeStep(At(steps, n - 1, ttl), steps[n - 1], ttl);
    }
  }

  lemma ProbeStep(s: State, step: Step, ttl: Seconds)
    requires Enabled(s, step) && StealsNameTheDead(s) && AccurateProbe(s, step)
    ensures StealsNameTheDead(Apply(s, step, ttl))
  {
  }

  /** If the probe never reports a live owner dead, no two processes are ever inside an
      unexpired lease of one thread, and each one inside is the owner that Redis names. */
  lemma LeaseExclusion(steps: seq<Step>, n: nat, ttl: Seconds)
    requires Valid(Init, steps, ttl) && n <= |steps|
    requires AccurateProbes(steps, |steps|, ttl)
    ensures Exclusive(At(steps, n, ttl)) && Agreement(At(steps, n, ttl))
  {
    forall i | 0 <= i < n ensures !WrongSteal(At(steps, i, ttl), steps[i]) {
      ProbedOwnersAreDead(steps, i, ttl);
    }
    AgreementAt(steps, n, ttl);
  }

  predicate LeavesBy(s: State, step: Step, owner: Owner) {
    match step
    case Tick(delay) => s.keys.lock.Some? && s.keys.lock.value.expiry <= s.keys.now + delay
    case ReleaseLock(id, delivered) => delivered && id in s.runs && s.runs[id].proc == owner
    case Serve(id, _) =>
      id in s.calls && s.calls[id].pc.StealFrom? && s.calls[id].pc.owner == owner && s.calls[id].proc != owner
    case _ => false
  }

  lemma ServeLeaves(s: State, id: nat, up: bool, ttl: Seconds, owner: Owner)
    requires id in s.calls && Waits(s.calls[id].pc) != NoRequest && Waits(s.calls[id].pc) != AskRunning
    requires HeldBy(s.keys, owner)
    ensures !HeldBy(ServeCall(s, id, up, ttl).keys, owner) <==> LeavesBy(s, Serve(id, up), owner)
  {
  }

  lemma LeavesStep(s: State, step: Step, ttl: Seconds, owner: Owner)
    requires Enabled(s, step) && HeldBy(s.keys, owner)
    ensures !HeldBy(Apply(s, step, ttl).keys, owner) <==> LeavesBy(s, step, owner)
  {
    if step.Serve? {
      ServeLeaves(s, step.id, step.up, ttl, owner);
    }
  }

  /** How ownership leaves a process, with any probe: by the clock reaching the expiry of its
      lock, by a release of one of its own runs, or by another's steal that names it, and each
      of these does take it away. */
  lemma {:induction false} OwnershipLeaves(steps: seq<Step>, n: nat, ttl: Seconds, owner: Owner)
    requires Valid(Init, steps, ttl) && n < |steps| && HeldBy(At(steps, n, ttl).keys, owner)
    ensures !HeldBy(At(steps, n + 1, ttl).keys, owner) <==> LeavesBy(At(steps, n, ttl), steps[n], owner)
  {
    hide At, After, Valid;
    AtStep(steps, n, ttl);
    var s, step := At(steps, n, ttl), steps[n];
    LeavesStep(s, step, ttl, owner);
  }
}

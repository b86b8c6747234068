/** Whether the in-process registry still knows the run that a lost lock must abort
    (backend/main_thread/registry.py with the renewal loop of executor.py). */
module RunRegistry {
  import opened LockScripts
  import opened Dispatch
  import opened Ownership
  import opened OwnershipInvariant

  /** Every run whose done-callback has not come is the one registered for its process. */
  ghost predicate Faithful(s: State) {
    Knows(s.registry, s.runs)
  }

  ghost predicate Knows(registry: map<Owner, nat>, runs: map<nat, Run>) {
    forall id | id in runs && !runs[id].phase.Reaped? :: runs[id].proc in registry && registry[runs[id].proc] == id
  }

  /** The step creates a run. */
  predicate Launches(s: State, step: Step) {
    && step.Start? && step.id in s.calls
    && !(s.calls[step.id].pc.Mine? && Busy(s, s.calls[step.id].proc))
  }

  ghost predicate AllReaped(runs: map<nat, Run>, proc: Owner) {
    forall id | id in runs && runs[id].proc == proc :: runs[id].phase.Reaped?
  }

  /** If the step creates a run, the done-callbacks of all earlier runs of the same process
      for this thread have come. */
  ghost predicate Solo(s: State, step: Step) {
    Launches(s, step) ==> AllReaped(s.runs, s.calls[step.id].proc)
  }

  /** A call that found its process's own lock starts a run exactly if the registry has no run
      for the process, or one whose task is done, released or not yet reaped; a run that is in
      its `finally` block is not done. */
  lemma InheritsIffDone(s: State, id: nat, ttl: Seconds)
    requires Inv(s, ttl) && Enabled(s, Start(id)) && s.calls[id].pc.Mine?
    ensures var proc, s' := s.calls[id].proc, Apply(s, Start(id), ttl);
      && id !in s.runs
      && (id in s'.runs <==> proc !in s.registry || s.runs[s.registry[proc]].phase in {Finished, Reaped})
      && (id !in s'.runs <==> s'.calls[id].pc == Ended(NoOp))
  {
    StartedOrIdle(s, id);
    hide Inv, StartCall, Busy;
  }

  lemma StartedOrIdle(s: State, id: nat)
    requires RunsOk(s.calls, s.runs) && RegistryOk(s.registry, s.runs) && id in s.calls && s.calls[id].pc.Mine?
    ensures var proc, s' := s.calls[id].proc, StartCall(s, id);
      && id !in s.runs
      && (id in s'.runs <==> proc !in s.registry || s.runs[s.registry[proc]].phase in {Finished, Reaped})
      && (id !in s'.runs <==> s'.calls[id].pc == Ended(NoOp))
  {
  }

  lemma SoloLaunchFaithful(s: State, id: nat, token: nat, origin: Origin)
    requires Faithful(s) && id in s.calls && id !in s.runs && AllReaped(s.runs, s.calls[id].proc)
    ensures Faithful(Launch(s, id, token, origin))
  {
  }

  lemma SecondLaunchUnfaithful(s: State, id: nat, token: nat, origin: Origin)
    requires id in s.calls && id !in s.runs && !AllReaped(s.runs, s.calls[id].proc)
    ensures !Faithful(Launch(s, id, token, origin))
  {
    var s' := Launch(s, id, token, origin);
    var other :| other in s.runs && s.runs[other].proc == s.calls[id].proc && !s.runs[other].phase.Reaped?;
    assert other in s'.runs && s'.runs[other] == s.runs[other];
  }

  lemma LaunchFaithful(s: State, id: nat, token: nat, origin: Origin, ttl: Seconds)
    requires Inv(s, ttl) && Faithful(s) && id in s.calls && !s.calls[id].pc.Ended?
    ensures Faithful(Launch(s, id, token, origin)) <==> AllReaped(s.runs, s.calls[id].proc)
  {
    assert id !in s.runs;
    if AllReaped(s.runs, s.calls[id].proc) {
      SoloLaunchFaithful(s, id, token, origin);
    } else {
      SecondLaunchUnfaithful(s, id, token, origin);
    }
  }

  /** Changing a run's flags, or its phase to one that is not the last. */
  lemma RunMovesFaithful(s: State, id: nat, run: Run)
    requires Faithful(s) && id in s.runs
    requires run.proc == s.runs[id].proc && (run.phase.Reaped? <==> s.runs[id].phase.Reaped?)
    ensures Faithful(SetRun(s, id, run))
  {
  }

  lemma ServeFaithful(s: State, id: nat, up: bool, ttl: Seconds)
    requires id in s.calls && Waits(s.calls[id].pc) != NoRequest && Waits(s.calls[id].pc) != AskRunning
    ensures ServeCall(s, id, up, ttl).runs == s.runs && ServeCall(s, id, up, ttl).registry == s.registry
  {
  }

  lemma RenewalFaithful(s: State, id: nat, ttl: Seconds)
    requires Faithful(s) && id in s.runs
    ensures Faithful(RenewRun(s, id, ttl))
  {
    RunMovesFaithful(s, id, s.runs[id].(lost := true));
  }

  lemma AbortFaithful(s: State, id: nat)
    requires Faithful(s) && id in s.runs
    ensures Faithful(AbortRun(s, id))
  {
    if Busy(s, s.runs[id].proc) {
      var other := s.registry[s.runs[id].proc];
      RunMovesFaithful(s, other, s.runs[other].(cancelled := true));
    }
  }

  lemma ReleaseFaithful(s: State, id: nat, delivered: bool)
    requires Faithful(s) && id in s.runs && !s.runs[id].phase.Reaped?
    ensures Faithful(ReleaseRun(s, id, delivered))
  {
    RunMovesFaithful(s, id, s.runs[id].(phase := Finished));
  }

  lemma StepFaithful(s: State, step: Step, ttl: Seconds)
    requires Enabled(s, step) && Faithful(s) && !Launches(s, step)
    ensures Faithful(Apply(s, step, ttl))
  {
    hide ServeCall, RenewRun, AbortRun, ReleaseRun;
    match step
    case Serve(id, up) => ServeFaithful(s, id, up, ttl);
    case Renewal(id) => RenewalFaithful(s, id, ttl);
    case Abort(id) => AbortFaithful(s, id);
    case Finish(id) => RunMovesFaithful(s, id, s.runs[id].(phase := Finishing));
    case ReleaseLock(id, delivered) => ReleaseFaithful(s, id, delivered);
    case Reap(id) => ReapedForgotten(s.registry, s.runs, id);
    case _ =>
  }

  lemma ReapedForgotten(registry: map<Owner, nat>, runs: map<nat, Run>, id: nat)
    requires Knows(registry, runs) && id in runs && !runs[id].phase.Reaped?
    ensures Knows(registry - {runs[id].proc}, runs[id := runs[id].(phase := Reaped)])
  {
    var runs' := runs[id := runs[id].(phase := Reaped)];
    forall r | r in runs' && !runs'[r].phase.Reaped?
      ensures runs'[r].proc in registry - {runs[id].proc} && registry[runs'[r].proc] == r
    {
      assert runs'[r] == runs[r] && registry[runs[id].proc] == id;
    }
  }

  ghost predicate SoloStarts(steps: seq<Step>, n: nat, ttl: Seconds)
    requires Valid(Init, steps, ttl) && n <= |steps|
  {
    forall i | 0 <= i < n :: Solo(At(steps, i, ttl), steps[i])
  }

  lemma FaithfulStep(steps: seq<Step>, n: nat, ttl: Seconds)
    requires Valid(Init, steps, ttl) && n < |steps| && Faithful(At(steps, n, ttl))
    ensures Faithful(At(steps, n + 1, ttl)) <==> Solo(At(steps, n, ttl), steps[n])
  {
    InvHolds(steps, n, ttl);
    AtStep(steps, n, ttl);
    var s, step := At(steps, n, ttl), steps[n];
    if Launches(s, step) {
      var pc := s.calls[step.id].pc;
      LaunchFaithful(s, step.id, pc.token, if pc.Mine? then Inherited else pc.origin, ttl);
    } else {
      StepFaithful(s, step, ttl);
    }
  }

  lemma {:induction false} FaithfulAt(steps: seq<Step>, n: nat, ttl: Seconds)
    requires Valid(Init, steps, ttl) && n <= |steps| && SoloStarts(steps, n, ttl)
    ensures Faithful(At(steps, n, ttl))
  {
    if n == 0 {
      assert steps[..0] == [];
    } else {
      FaithfulAt(steps, n - 1, ttl);
      FaithfulStep(steps, n - 1, ttl);
    }
  }

  /** The registry knows every unfinished run throughout exactly if no run was ever created
      while an earlier run of the same process had its done-callback still to come. */
  lemma RegistryFaithfulIffSoloStarts(steps: seq<Step>, ttl: Seconds)
    requires Valid(Init, steps, ttl)
    ensures (forall n | 0 <= n <= |steps| :: Faithful(At(steps, n, ttl))) <==> SoloStarts(steps, |steps|, ttl)
  {
    if SoloStarts(steps, |steps|, ttl) {
      forall n | 0 <= n <= |steps| ensures Faithful(At(steps, n, ttl)) {
        FaithfulAt(steps, n, ttl);
      }
    }
    if forall n | 0 <= n <= |steps| :: Faithful(At(steps, n, ttl)) {
      forall i | 0 <= i < |steps| ensures Solo(At(steps, i, ttl), steps[i]) {
        assert Faithful(At(steps, i, ttl)) && Faithful(At(steps, i + 1, ttl));
        FaithfulStep(steps, i, ttl);
      }
    }
  }

  /** The registry still holds the run. */
  predicate Registered(s: State, id: nat) {
    id in s.runs && s.runs[id].proc in s.registry && s.registry[s.runs[id].proc] == id
  }

  lemma AbortReaches(s: State, id: nat)
    requires RegistryOk(s.registry, s.runs) && id in s.runs && s.runs[id].phase.Running?
    ensures var s' := AbortRun(s, id);
      && id in s'.runs
      && (s'.runs[id].cancelled <==> s.runs[id].cancelled || Registered(s, id))
      && (forall r | r in s.runs && s.runs[r].proc != s.runs[id].proc :: r in s'.runs && s'.runs[r] == s.runs[r])
  {
  }

  /** A run that learns that its lock is lost is cancelled exactly if the registry still
      holds it (or it was cancelled before); whatever else the registry holds is cancelled
      in its place. */
  lemma AbortCancelsTheRegisteredRun(steps: seq<Step>, n: nat, ttl: Seconds, id: nat)
    requires Valid(Init, steps, ttl) && n < |steps| && steps[n] == Abort(id)
    ensures var s, s' := At(steps, n, ttl), At(steps, n + 1, ttl);
      && id in s.runs && id in s'.runs
      && (s'.runs[id].cancelled <==> s.runs[id].cancelled || Registered(s, id))
      && (forall r | r in s.runs && s.runs[r].proc != s.runs[id].proc :: r in s'.runs && s'.runs[r] == s.runs[r])
  {
    AtStep(steps, n, ttl);
    InvHolds(steps, n, ttl);
    AbortReaches(At(steps, n, ttl), id);
  }

  /** With solo starts, a failed renewal always aborts its own run. */
  lemma ZombieAborted(steps: seq<Step>, n: nat, ttl: Seconds, id: nat)
    requires Valid(Init, steps, ttl) && n < |steps| && steps[n] == Abort(id)
    requires SoloStarts(steps, n, ttl)
    ensures id in At(steps, n + 1, ttl).runs && At(steps, n + 1, ttl).runs[id].cancelled
  {
    FaithfulAt(steps, n, ttl);
    AtStep(steps, n, ttl);
    AbortCancelsTheRegisteredRun(steps, n, ttl, id);
  }
}

/** How the renewal loop of a run learns that its lock has gone, in the timed system of all
    processes (backend/main_thread/executor.py), and how long two runs can overlap. */
module LockLoss {
  import opened LockScripts
  import opened Dispatch
  import opened Ownership
  import opened OwnershipInvariant
  import opened LeaseExclusion
  import opened Renewal
  import opened RunRegistry

  /** The step grants the lock to the process. */
  predicate Grants(s: State, step: Step, proc: Owner) {
    && step.Serve? && step.id in s.calls && s.calls[step.id].proc == proc
    && match Waits(s.calls[step.id].pc)
       case AskAcquire => s.keys.lock.None?
       case AskSteal(dead) => HeldBy(s.keys, dead)
       case _ => false
  }

  lemma ServeHolds(s: State, id: nat, up: bool, ttl: Seconds, proc: Owner)
    requires id in s.calls && Waits(s.calls[id].pc) != NoRequest && Waits(s.calls[id].pc) != AskRunning
    ensures Grants(s, Serve(id, up), proc) ==> HeldBy(ServeCall(s, id, up, ttl).keys, proc)
    ensures !HeldBy(s.keys, proc) && HeldBy(ServeCall(s, id, up, ttl).keys, proc) ==> Grants(s, Serve(id, up), proc)
  {
  }

  /** A process comes to hold the lock by a grant, and by nothing else. */
  lemma HoldsIffGranted(s: State, step: Step, ttl: Seconds, proc: Owner)
    requires Enabled(s, step)
    ensures Grants(s, step, proc) ==> HeldBy(Apply(s, step, ttl).keys, proc)
    ensures !HeldBy(s.keys, proc) && HeldBy(Apply(s, step, ttl).keys, proc) ==> Grants(s, step, proc)
  {
    if step.Serve? {
      ServeHolds(s, step.id, step.up, ttl, proc);
    }
  }

  /** Between steps `a` and `b` the process was granted the lock, and nothing has taken it away
      since. */
  ghost predicate Regained(steps: seq<Step>, a: nat, b: nat, proc: Owner, ttl: Seconds)
    requires Valid(Init, steps, ttl) && a <= b <= |steps|
  {
    exists m: nat :: a <= m < b && RegainedAt(steps, m, b, proc, ttl)
  }

  /** Step `m` grants, and no step since is the expiry, a release by the process or a steal
      from it. */
  ghost predicate RegainedAt(steps: seq<Step>, m: nat, b: nat, proc: Owner, ttl: Seconds)
    requires Valid(Init, steps, ttl) && m < b <= |steps|
  {
    && Grants(At(steps, m, ttl), steps[m], proc)
    && forall j | m < j < b :: !LeavesBy(At(steps, j, ttl), steps[j], proc)
  }

  lemma {:induction false} HeldSinceGrant(steps: seq<Step>, m: nat, b: nat, proc: Owner, ttl: Seconds)
    requires Valid(Init, steps, ttl) && m < b <= |steps| && RegainedAt(steps, m, b, proc, ttl)
    ensures HeldBy(At(steps, b, ttl).keys, proc)
  {
    hide At, After, Valid;
    if b == m + 1 {
      AtStep(steps, m, ttl);
      HoldsIffGranted(At(steps, m, ttl), steps[m], ttl, proc);
    } else {
      HeldSinceGrant(steps, m, b - 1, proc, ttl);
      OwnershipLeaves(steps, b - 1, ttl, proc);
    }
  }

  lemma RegainedLast(steps: seq<Step>, b: nat, proc: Owner, ttl: Seconds)
    requires Valid(Init, steps, ttl) && 0 < b <= |steps|
    requires HeldBy(At(steps, b, ttl).keys, proc) && !HeldBy(At(steps, b - 1, ttl).keys, proc)
    ensures RegainedAt(steps, b - 1, b, proc, ttl)
  {
    AtStep(steps, b - 1, ttl);
    HoldsIffGranted(At(steps, b - 1, ttl), steps[b - 1], ttl, proc);
  }

  /** A process that does not hold the lock at step `a` holds it at step `b` exactly if it was
      granted the lock in between, and no expiry, release or steal has taken it away since. */
  lemma {:induction false} HeldIffRegained(steps: seq<Step>, a: nat, b: nat, proc: Owner, ttl: Seconds)
    requires Valid(Init, steps, ttl) && a <= b <= |steps| && !HeldBy(At(steps, a, ttl).keys, proc)
    ensures HeldBy(At(steps, b, ttl).keys, proc) <==> Regained(steps, a, b, proc, ttl)
  {
    hide At, After, Valid;
    if Regained(steps, a, b, proc, ttl) {
      var m: nat :| a <= m < b && RegainedAt(steps, m, b, proc, ttl);
      HeldSinceGrant(steps, m, b, proc, ttl);
    } else if a < b && HeldBy(At(steps, b - 1, ttl).keys, proc) {
      HeldIffRegained(steps, a, b - 1, proc, ttl);
      var m: nat :| a <= m < b - 1 && RegainedAt(steps, m, b - 1, proc, ttl);
      OwnershipLeaves(steps, b - 1, ttl, proc);
      assert LeavesBy(At(steps, b - 1, ttl), steps[b - 1], proc) || RegainedAt(steps, m, b, proc, ttl);
    } else if a < b && HeldBy(At(steps, b, ttl).keys, proc) {
      RegainedLast(steps, b, proc, ttl);
    }
  }

  lemma ServeStays(s: State, id: nat, up: bool, ttl: Seconds)
    requires id in s.calls && Waits(s.calls[id].pc) != NoRequest && Waits(s.calls[id].pc) != AskRunning
    ensures ServeCall(s, id, up, ttl).runs == s.runs && ServeCall(s, id, up, ttl).keys.now == s.keys.now
  {
  }

  lemma StartStays(s: State, call: nat, id: nat)
    requires RunsOk(s.calls, s.runs) && call in s.calls && (s.calls[call].pc.Mine? || s.calls[call].pc.Ready?)
    requires id in s.runs
    ensures id in StartCall(s, call).runs && StartCall(s, call).runs[id] == s.runs[id]
    ensures StartCall(s, call).keys == s.keys
  {
    assert call !in s.runs;
  }

  lemma RunStays(s: State, step: Step, ttl: Seconds, id: nat)
    requires Inv(s, ttl) && Enabled(s, step) && id in s.runs
    ensures var s' := Apply(s, step, ttl); id in s'.runs && s'.runs[id].proc == s.runs[id].proc
    ensures s.keys.now <= Apply(s, step, ttl).keys.now
  {
    hide HistoryOk, KeysOk, LeaseOk, CallsOk, RegistryOk;
    hide ServeCall, StartCall, AbortRun, RenewRun, ReleaseRun, Waits;
    match step
    case Serve(call, up) => ServeStays(s, call, up, ttl);
    case Start(call) => StartStays(s, call, id);
    case Abort(run) => AbortStays(s, run, id);
    case Renewal(run) => RenewalStays(s, run, ttl, id);
    case ReleaseLock(run, delivered) => ReleaseStays(s, run, delivered, id);
    case _ =>
  }

  lemma RenewalStays(s: State, run: nat, ttl: Seconds, id: nat)
    requires run in s.runs && id in s.runs
    ensures var s' := RenewRun(s, run, ttl);
      id in s'.runs && s'.runs[id].proc == s.runs[id].proc && s'.keys.now == s.keys.now
  {
  }

  lemma ReleaseStays(s: State, run: nat, delivered: bool, id: nat)
    requires run in s.runs && id in s.runs
    ensures var s' := ReleaseRun(s, run, delivered);
      id in s'.runs && s'.runs[id].proc == s.runs[id].proc && s'.keys.now == s.keys.now
  {
  }

  lemma AbortStays(s: State, run: nat, id: nat)
    requires run in s.runs && id in s.runs
    ensures var s' := AbortRun(s, run); id in s'.runs && s'.runs[id].proc == s.runs[id].proc && s'.keys == s.keys
  {
  }

  lemma {:induction false} RunPersists(steps: seq<Step>, a: nat, b: nat, ttl: Seconds, id: nat)
    requires Valid(Init, steps, ttl) && a <= b <= |steps| && id in At(steps, a, ttl).runs
    ensures id in At(steps, b, ttl).runs && At(steps, b, ttl).runs[id].proc == At(steps, a, ttl).runs[id].proc
    ensures At(steps, a, ttl).keys.now <= At(steps, b, ttl).keys.now
  {
    hide At, After, Valid;
    if a < b {
      RunPersists(steps, a, b - 1, ttl, id);
      InvHolds(steps, b - 1, ttl);
      AtStep(steps, b - 1, ttl);
      hide Inv, Enabled, Apply;
      RunStays(At(steps, b - 1, ttl), steps[b - 1], ttl, id);
    }
  }

  lemma RenewalAnswer(s: State, id: nat, ttl: Seconds)
    requires id in s.runs
    ensures RenewRun(s, id, ttl).keys.now == s.keys.now
    ensures id in RenewRun(s, id, ttl).runs
    ensures RenewRun(s, id, ttl).runs[id].lost <==> s.runs[id].lost || !HeldBy(s.keys, s.runs[id].proc)
  {
  }

  /** After its process has lost the lock, at step `a`, a renewal of a run is refused, and the
      loss signalled, exactly if the process was not granted the lock again in between, or an
      expiry, a release or a steal has taken it away again. The token of the run plays no part
      in it. */
  lemma {:induction false} RefusedIffNotRegained(steps: seq<Step>, a: nat, b: nat, ttl: Seconds, id: nat)
    requires Valid(Init, steps, ttl) && a <= b < |steps| && steps[b] == Renewal(id)
    requires id in At(steps, a, ttl).runs && !HeldBy(At(steps, a, ttl).keys, At(steps, a, ttl).runs[id].proc)
    ensures var s, s', proc := At(steps, b, ttl), At(steps, b + 1, ttl), At(steps, a, ttl).runs[id].proc;
      && (Renew(s.keys, proc, ttl).1 <==> Regained(steps, a, b, proc, ttl))
      && id in s.runs && id in s'.runs
      && (s'.runs[id].lost <==> s.runs[id].lost || !Regained(steps, a, b, proc, ttl))
  {
    hide At, After, Valid;
    RunPersists(steps, a, b, ttl, id);
    HeldIffRegained(steps, a, b, At(steps, a, ttl).runs[id].proc, ttl);
    AtStep(steps, b, ttl);
    RenewalAnswer(At(steps, b, ttl), id, ttl);
  }

  // ----- The time until then

  /** Attempt `i` of the loop reaches Redis at step `places[i]`; one that is answered is a
      renewal step of the system. */
  ghost predicate Plays(steps: seq<Step>, id: nat, attempts: seq<Attempt>, places: seq<nat>, ttl: Seconds)
    requires Valid(Init, steps, ttl)
  {
    && |places| == |attempts|
    && forall i | 0 <= i < |places| ::
         && places[i] < |steps|
         && At(steps, places[i], ttl).keys.now == attempts[i].time
         && (attempts[i].kind.Returns? ==> steps[places[i]] == Renewal(id))
  }

  /** The loop of run `id` is under way when its process loses the lock, at step `a`; `first` is
      its next attempt, and at least `k` follow that one. */
  ghost predicate LosesLock(steps: seq<Step>, id: nat, granted: nat, attempts: seq<Attempt>, places: seq<nat>,
      gap: nat, k: nat, a: nat, first: nat, ttl: Seconds)
    requires Valid(Init, steps, ttl)
  {
    && OnSchedule(granted, attempts, gap) && AtMostRaises(attempts, k) && Plays(steps, id, attempts, places, ttl)
    && a <= |steps| && id in At(steps, a, ttl).runs && !HeldBy(At(steps, a, ttl).keys, At(steps, a, ttl).runs[id].proc)
    && first + k < |attempts| && Previous(granted, attempts, first) <= At(steps, a, ttl).keys.now
    && forall i | first <= i < |attempts| :: a <= places[i]
  }

  /** The process is not granted the lock again before the attempts in question. */
  ghost predicate NotGranted(steps: seq<Step>, id: nat, places: seq<nat>, a: nat, first: nat, k: nat, ttl: Seconds)
    requires Valid(Init, steps, ttl) && a <= |steps| && id in At(steps, a, ttl).runs
    requires first + k < |places| && forall i | first <= i < |places| :: a <= places[i] < |steps|
  {
    forall i, m | first <= i <= first + k && a <= m < places[i] ::
      !Grants(At(steps, m, ttl), steps[m], At(steps, a, ttl).runs[id].proc)
  }

  /** If the process is not granted the lock again, the loss is signalled no later than
      `(k + 1) * gap` after, where `gap` bounds the time between attempts and `k` the raising
      attempts in a row. */
  lemma {:induction false} LossSignalledWithin(steps: seq<Step>, id: nat, granted: nat, attempts: seq<Attempt>,
      places: seq<nat>, gap: nat, k: nat, a: nat, first: nat, ttl: Seconds) returns (b: nat)
    requires Valid(Init, steps, ttl) && LosesLock(steps, id, granted, attempts, places, gap, k, a, first, ttl)
    requires NotGranted(steps, id, places, a, first, k, ttl)
    ensures a <= b < |steps| && steps[b] == Renewal(id)
    ensures id in At(steps, b + 1, ttl).runs && At(steps, b + 1, ttl).runs[id].lost
    ensures At(steps, b, ttl).keys.now <= At(steps, a, ttl).keys.now + (k + 1) * gap
  {
    var n := AnsweredWithin(granted, attempts, gap, k, At(steps, a, ttl).keys.now, first);
    b := places[n];
    assert !Regained(steps, a, b, At(steps, a, ttl).runs[id].proc, ttl);
    RefusedIffNotRegained(steps, a, b, ttl, id);
  }

  /** The run is over, or is told to be. */
  ghost predicate Stopped(s: State, id: nat) {
    id in s.runs && (s.runs[id].cancelled || !s.runs[id].phase.Running?)
  }

  /** The loop reacts to a refusal within `latency`, unless the run has stopped by then. */
  ghost predicate Reacts(steps: seq<Step>, id: nat, latency: nat, ttl: Seconds)
    requires Valid(Init, steps, ttl)
  {
    forall b: nat | b < |steps| && steps[b] == Renewal(id) && id in At(steps, b + 1, ttl).runs && At(steps, b + 1, ttl).runs[id].lost ::
      exists c: nat :: b < c < |steps| && ReactsAt(steps, id, b, c, latency, ttl)
  }

  ghost predicate ReactsAt(steps: seq<Step>, id: nat, b: nat, c: nat, latency: nat, ttl: Seconds)
    requires Valid(Init, steps, ttl) && b < c < |steps|
  {
    && At(steps, c, ttl).keys.now <= At(steps, b, ttl).keys.now + latency
    && (steps[c] == Abort(id) || Stopped(At(steps, c, ttl), id))
  }

  lemma Reaction(steps: seq<Step>, id: nat, b: nat, latency: nat, ttl: Seconds) returns (d: nat)
    requires Valid(Init, steps, ttl) && Reacts(steps, id, latency, ttl)
    requires b < |steps| && steps[b] == Renewal(id)
    requires id in At(steps, b + 1, ttl).runs && At(steps, b + 1, ttl).runs[id].lost
    ensures b < d < |steps| && ReactsAt(steps, id, b, d, latency, ttl)
  {
    d :| b < d < |steps| && ReactsAt(steps, id, b, d, latency, ttl);
  }

  /** Whenever the loop aborts, the registry still holds the run. */
  ghost predicate AbortsRegistered(steps: seq<Step>, id: nat, ttl: Seconds)
    requires Valid(Init, steps, ttl)
  {
    forall c: nat | c < |steps| && steps[c] == Abort(id) :: Registered(At(steps, c, ttl), id)
  }

  lemma AbortStops(steps: seq<Step>, id: nat, d: nat, ttl: Seconds)
    requires Valid(Init, steps, ttl) && d < |steps| && steps[d] == Abort(id) && Registered(At(steps, d, ttl), id)
    ensures Stopped(At(steps, d + 1, ttl), id)
    ensures At(steps, d + 1, ttl).keys.now == At(steps, d, ttl).keys.now
  {
    AtStep(steps, d, ttl);
    AbortCancelsTheRegisteredRun(steps, d, ttl, id);
  }

  lemma StopsAfterRefusal(steps: seq<Step>, id: nat, b: nat, latency: nat, ttl: Seconds) returns (c: nat)
    requires Valid(Init, steps, ttl) && Reacts(steps, id, latency, ttl) && AbortsRegistered(steps, id, ttl)
    requires b < |steps| && steps[b] == Renewal(id)
    requires id in At(steps, b + 1, ttl).runs && At(steps, b + 1, ttl).runs[id].lost
    ensures b < c <= |steps| && Stopped(At(steps, c, ttl), id)
    ensures At(steps, c, ttl).keys.now <= At(steps, b, ttl).keys.now + latency
  {
    hide At, After, Valid;
    c := Reaction(steps, id, b, latency, ttl);
    if steps[c] == Abort(id) {
      AbortStops(steps, id, c, ttl);
      c := c + 1;
    }
  }

  /** Under the same conditions, if the registry still holds the run whenever the loop aborts,
      the run has stopped no later than `(k + 1) * gap` after the loss, and the latency of the
      loop: so long can it overlap with the run of a new owner. */
  lemma {:induction false} OverlapBounded(steps: seq<Step>, id: nat, granted: nat, attempts: seq<Attempt>,
      places: seq<nat>, gap: nat, k: nat, a: nat, first: nat, latency: nat, ttl: Seconds) returns (c: nat)
    requires Valid(Init, steps, ttl) && LosesLock(steps, id, granted, attempts, places, gap, k, a, first, ttl)
    requires NotGranted(steps, id, places, a, first, k, ttl)
    requires Reacts(steps, id, latency, ttl) && AbortsRegistered(steps, id, ttl)
    ensures a <= c <= |steps| && Stopped(At(steps, c, ttl), id)
    ensures At(steps, c, ttl).keys.now <= At(steps, a, ttl).keys.now + (k + 1) * gap + latency
  {
    var b := LossSignalledWithin(steps, id, granted, attempts, places, gap, k, a, first, ttl);
    hide LosesLock, NotGranted, Stopped, Reacts, AbortsRegistered;
    c := StopsAfterRefusal(steps, id, b, latency, ttl);
  }

  /** With solo starts the registry does hold the run. */
  lemma {:induction false} SoloAbortsRegistered(steps: seq<Step>, id: nat, ttl: Seconds)
    requires Valid(Init, steps, ttl) && SoloStarts(steps, |steps|, ttl)
    ensures AbortsRegistered(steps, id, ttl)
  {
    forall c: nat | c < |steps| && steps[c] == Abort(id) ensures Registered(At(steps, c, ttl), id) {
      FaithfulAt(steps, c, ttl);
      AtStep(steps, c, ttl);
    }
  }
}

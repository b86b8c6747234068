/** How to lead a run of the ownership protocol to a state step by step, with an accurate
    liveness probe: one lemma per kind of step, with the new state spelt out, and one each for
    a whole dispatch that finds no lock and for the end of a run. */
module OwnershipTraces {
  import opened Options
  import opened LockScripts
  import opened Dispatch
  import opened Ownership
  import opened LeaseExclusion

  /** The state is reached by a run in which the probe never reports a live owner dead. */
  ghost predicate Reachable(s: State, ttl: Seconds) {
    exists steps :: Leads(steps, s, ttl)
  }

  ghost predicate Leads(steps: seq<Step>, s: State, ttl: Seconds) {
    Valid(Init, steps, ttl) && After(Init, steps, ttl) == s && AccurateProbes(steps, |steps|, ttl)
  }

  lemma InitReachable(ttl: Seconds)
    ensures Reachable(Init, ttl)
  {
    assert Leads([], Init, ttl);
  }

  lemma Go(s: State, step: Step, ttl: Seconds) returns (s': State)
    requires Reachable(s, ttl) && Enabled(s, step) && AccurateProbe(s, step)
    ensures s' == Apply(s, step, ttl) && Reachable(s', ttl)
  {
    s' := Apply(s, step, ttl);
    var steps :| Leads(steps, s, ttl);
    var all := steps + [step];
    assert all[..|all| - 1] == steps;
    assert Valid(Init, all, ttl);
    forall i | 0 <= i < |all| ensures AccurateProbe(At(all, i, ttl), all[i]) {
      assert all[..i] == steps[..i];
      if i < |steps| {
        assert At(all, i, ttl) == At(steps, i, ttl);
        assert AccurateProbe(At(steps, i, ttl), steps[i]);
      } else {
        assert steps[..i] == steps;
      }
    }
    assert Leads(all, s', ttl);
  }

  // One lemma per kind of step, with the new state spelt out.

  lemma Begin(s: State, id: nat, proc: Owner, recovery: bool, ttl: Seconds) returns (s': State)
    requires Reachable(s, ttl) && id !in s.calls && proc !in s.dead
    ensures Reachable(s', ttl)
    ensures s' == s.(calls := s.calls[id := Call(proc, if recovery then RecoverGet else GetOwner, |s.grants|)])
  {
    s' := Go(s, Spawn(id, proc, recovery), ttl);
  }

  lemma Read(s: State, id: nat, pc: Pc, ttl: Seconds) returns (s': State)
    requires Reachable(s, ttl) && id in s.calls && Waits(s.calls[id].pc) == AskOwner
    requires pc == Next(s.calls[id].proc, s.calls[id].pc, OwnerIs(ReadInfo(s.keys)))
    ensures Reachable(s', ttl) && s' == s.(calls := s.calls[id := s.calls[id].(pc := pc)])
  {
    s' := Go(s, Serve(id, true), ttl);
  }

  lemma FindDead(s: State, id: nat, pc: Pc, ttl: Seconds) returns (s': State)
    requires Reachable(s, ttl) && id in s.calls && Waits(s.calls[id].pc).AskAlive? && Waits(s.calls[id].pc).owner in s.dead
    requires pc == Next(s.calls[id].proc, s.calls[id].pc, AliveIs(false))
    ensures Reachable(s', ttl) && s' == s.(calls := s.calls[id := s.calls[id].(pc := pc)])
  {
    s' := Go(s, Serve(id, false), ttl);
  }

  lemma Obtain(s: State, id: nat, ttl: Seconds) returns (s': State)
    requires Reachable(s, ttl) && id in s.calls && s.calls[id].pc == AcquireFree && s.keys.lock.None?
    ensures Reachable(s', ttl)
    ensures s' == Granted(s, s.calls[id].proc, None, ttl).(
                    calls := s.calls[id := s.calls[id].(pc := Ready(NextToken(s.keys), Won))])
  {
    s' := Go(s, Serve(id, true), ttl);
  }

  lemma Take(s: State, id: nat, ttl: Seconds) returns (s': State)
    requires Reachable(s, ttl) && id in s.calls && s.calls[id].pc.StealFrom? && HeldBy(s.keys, s.calls[id].pc.owner)
    ensures Reachable(s', ttl)
    ensures s' == Granted(s, s.calls[id].proc, Some(s.calls[id].pc.owner), ttl).(
                    calls := s.calls[id := s.calls[id].(pc := Ready(NextToken(s.keys), Won))])
  {
    s' := Go(s, Serve(id, true), ttl);
  }

  lemma StartRun(s: State, id: nat, token: nat, origin: Origin, ttl: Seconds) returns (s': State)
    requires Reachable(s, ttl) && id in s.calls && s.calls[id].proc !in s.dead
    requires s.calls[id].pc == Ready(token, origin) ||
             (s.calls[id].pc == Mine(token) && origin.Inherited? && !Busy(s, s.calls[id].proc))
    ensures Reachable(s', ttl) && s' == Launch(s, id, token, origin)
  {
    s' := Go(s, Start(id), ttl);
  }

  lemma Conclude(s: State, id: nat, ttl: Seconds) returns (s': State)
    requires Reachable(s, ttl) && id in s.runs && s.runs[id].phase.Running? && s.runs[id].proc !in s.dead
    ensures Reachable(s', ttl) && s' == SetRun(s, id, s.runs[id].(phase := Finishing))
  {
    s' := Go(s, Finish(id), ttl);
  }

  lemma LetGo(s: State, id: nat, ttl: Seconds) returns (s': State)
    requires Reachable(s, ttl) && id in s.runs && s.runs[id].phase.Finishing? && s.runs[id].proc !in s.dead
    ensures Reachable(s', ttl)
    ensures s' == SetRun(s, id, s.runs[id].(phase := Finished)).(
                    keys := Release(s.keys, s.runs[id].proc).0, lease := s.lease - {s.runs[id].proc})
  {
    s' := Go(s, ReleaseLock(id, true), ttl);
  }

  lemma CallBack(s: State, id: nat, ttl: Seconds) returns (s': State)
    requires Reachable(s, ttl) && id in s.runs && s.runs[id].phase.Finished? && s.runs[id].proc !in s.dead
    ensures Reachable(s', ttl)
    ensures s' == SetRun(s, id, s.runs[id].(phase := Reaped)).(registry := s.registry - {s.runs[id].proc})
  {
    s' := Go(s, Reap(id), ttl);
  }

  lemma FailRenewal(s: State, id: nat, ttl: Seconds) returns (s': State)
    requires Reachable(s, ttl) && id in s.runs && !HeldBy(s.keys, s.runs[id].proc)
    ensures Reachable(s', ttl) && s' == SetRun(s, id, s.runs[id].(lost := true))
  {
    s' := Go(s, Renewal(id), ttl);
  }

  lemma Die(s: State, proc: Owner, ttl: Seconds) returns (s': State)
    requires Reachable(s, ttl)
    ensures Reachable(s', ttl) && s' == s.(dead := s.dead + {proc})
  {
    s' := Go(s, Crash(proc), ttl);
  }

  lemma Lapse(s: State, ttl: Seconds) returns (s': State)
    requires Reachable(s, ttl) && s.keys.lock.Some? && s.keys.lock.value.expiry == s.keys.now + LockTtl(ttl)
    ensures Reachable(s', ttl) && s'.keys.lock.None? && (s.keys.counter.None? ==> s'.keys.counter.None?)
    ensures s' == s.(keys := Elapse(s.keys, LockTtl(ttl)))
  {
    s' := Go(s, Tick(LockTtl(ttl)), ttl);
  }

  lemma Miss(s: State, id: nat, ttl: Seconds) returns (s': State)
    requires Reachable(s, ttl) && id in s.calls && s.calls[id].pc == AcquireFree && s.keys.lock.Some?
    ensures Reachable(s', ttl) && s' == s.(calls := s.calls[id := s.calls[id].(pc := RereadRace)])
  {
    s' := Go(s, Serve(id, true), ttl);
  }

  /** A dispatch that finds the lock free and acquires it. */
  lemma ObtainFreeLock(s: State, id: nat, proc: Owner, ttl: Seconds) returns (s': State)
    requires Reachable(s, ttl) && id !in s.calls && proc !in s.dead && s.keys.lock.None?
    ensures Reachable(s', ttl)
    ensures s'.keys == GrantLock(s.keys, proc, ttl) && s'.dead == s.dead && s'.runs == s.runs
    ensures s'.calls.Keys == s.calls.Keys + {id}
    ensures s'.calls[id] == Call(proc, Ready(NextToken(s.keys), Won), |s.grants|)
    ensures s'.registry == s.registry
    ensures s'.grants == s.grants + [Grant(proc, NextToken(s.keys), s.keys.now, None)]
  {
    s' := Begin(s, id, proc, false, ttl);
    s' := Read(s', id, AcquireFree, ttl);
    s' := Obtain(s', id, ttl);
  }

  /** And one that starts its run, too. */
  lemma StartOnFreeLock(s: State, id: nat, proc: Owner, ttl: Seconds) returns (s': State)
    requires Reachable(s, ttl) && id !in s.calls && proc !in s.dead && s.keys.lock.None?
    ensures Reachable(s', ttl)
    ensures s'.keys == GrantLock(s.keys, proc, ttl) && s'.dead == s.dead
    ensures s'.calls.Keys == s.calls.Keys + {id}
    ensures s'.runs == s.runs[id := Run(proc, NextToken(s.keys), Won, Running, false, false)]
    ensures s'.registry == s.registry[proc := id]
    ensures s'.grants == s.grants + [Grant(proc, NextToken(s.keys), s.keys.now, None)]
  {
    s' := ObtainFreeLock(s, id, proc, ttl);
    s' := StartRun(s', id, NextToken(s.keys), Won, ttl);
  }

  /** A dispatch that finds the lock with a dead process and steals it. */
  lemma StealFromDead(s: State, id: nat, proc: Owner, dead: Owner, ttl: Seconds) returns (s': State)
    requires Reachable(s, ttl) && id !in s.calls && proc !in s.dead && dead in s.dead && proc != dead
    requires HeldBy(s.keys, dead)
    ensures Reachable(s', ttl)
    ensures s'.keys == GrantLock(s.keys, proc, ttl)
    ensures s'.grants == s.grants + [Grant(proc, NextToken(s.keys), s.keys.now, Some(dead))]
  {
    s' := Begin(s, id, proc, false, ttl);
    s' := Read(s', id, Probe(First, dead), ttl);
    s' := FindDead(s', id, StealFrom(First, dead), ttl);
    s' := Take(s', id, ttl);
  }

  /** A run ends and releases the lock. */
  lemma EndRun(s: State, id: nat, ttl: Seconds) returns (s': State)
    requires Reachable(s, ttl) && id in s.runs && s.runs[id].phase.Running? && s.runs[id].proc !in s.dead
    ensures Reachable(s', ttl)
    ensures s'.keys == Release(s.keys, s.runs[id].proc).0 && s'.dead == s.dead
    ensures s'.calls == s.calls && s'.registry == s.registry && s'.grants == s.grants
    ensures s'.runs == s.runs[id := s.runs[id].(phase := Finished)]
  {
    s' := Conclude(s, id, ttl);
    s' := LetGo(s', id, ttl);
  }
}

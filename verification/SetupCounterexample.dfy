/** A run of the setup protocol in which a lease lapses and the sentinel stands for no tables
    (backend/db/postgres/checkpointer.py). */
module SetupCounterexample {
  import opened Options
  import opened SetupFlow
  import opened SetupProtocol

  /** The state is reached by a run in which every UniqueViolation has a cause. */
  ghost predicate Reachable(s: State) {
    exists steps :: Leads(steps, s)
  }

  ghost predicate Leads(steps: seq<Step>, s: State) {
    Valid(steps) && After(steps) == s && ViolationsHaveCause(steps)
  }

  lemma Go(s: State, step: Step) returns (s': State)
    requires Reachable(s) && Enabled(s, step) && (Violates(step) ==> BothMigrate(s, step.id))
    ensures s' == Apply(s, step) && Reachable(s')
  {
    s' := Apply(s, step);
    var steps :| Leads(steps, s);
    assert (steps + [step])[..|steps|] == steps;
    assert Violates(step) ==> Raced(steps, step.id);
    assert Leads(steps + [step], s');
  }

  /** Only this call has moved, and nothing but perhaps the lock has changed. */
  predicate Moves(s: State, s': State, id: nat) {
    && s'.now == s.now && s'.sentinel == s.sentinel && s'.tables == s.tables && s'.done == s.done
    && s'.calls.Keys == s.calls.Keys + {id}
    && forall other | other in s.calls && other != id :: s'.calls[other] == s.calls[other]
  }

  /** No fault, and the call goes on to `pc`. */
  lemma Ask(s: State, id: nat, pc: Pc) returns (s': State)
    requires Reachable(s) && id in s.calls && s.calls[id].proc !in s.done && !s.sentinel
    requires s.calls[id].pc.FastPath? || s.calls[id].pc.PreCheck? || s.calls[id].pc.InnerCheck? || s.calls[id].pc.InSetup?
    requires pc == Next(s.calls[id].pc, if s.calls[id].pc.InSetup? then Yes else No)
    ensures Reachable(s') && Moves(s, s', id) && s'.calls[id] == s.calls[id].(pc := pc)
    ensures s'.lock == s.lock && s'.issued == s.issued
  {
    hide Reachable;
    s' := Go(s, Advance(id, Fine));
  }

  lemma Obtain(s: State, id: nat) returns (s': State)
    requires Reachable(s) && id in s.calls && s.calls[id].pc.Acquiring? && s.lock.None?
    ensures Reachable(s') && Moves(s, s', id)
    ensures s'.calls[id] == s.calls[id].(pc := InnerCheck, token := Some(s.issued))
    ensures s'.lock == Some(Lock(s.issued, s.now + LOCK_TTL)) && s'.issued == s.issued + 1
  {
    hide Reachable;
    s' := Go(s, Advance(id, Fine));
  }

  lemma Arrive(s: State, id: nat, proc: nat) returns (s': State)
    requires Reachable(s) && id !in s.calls
    ensures Reachable(s') && Moves(s, s', id) && s'.calls[id] == Call(proc, FastPath, None, false)
    ensures s'.lock == s.lock && s'.issued == s.issued
  {
    hide Reachable;
    s' := Go(s, Spawn(id, proc));
  }

  /** A call that finds no sentinel and the lock free begins its migrations. */
  lemma BeginMigrations(s: State, id: nat, proc: nat) returns (s': State)
    requires Reachable(s) && id !in s.calls && proc !in s.done && !s.sentinel && s.lock.None?
    ensures Reachable(s') && Moves(s, s', id) && s'.calls[id] == Call(proc, Migrating, Some(s.issued), false)
    ensures s'.lock == Some(Lock(s.issued, s.now + LOCK_TTL)) && s'.issued == s.issued + 1
  {
    hide Reachable;
    s' := AskForLock(s, id, proc);
    s' := Obtain(s', id);
    s' := Ask(s', id, InSetup);
    s' := Ask(s', id, Migrating);
  }

  lemma AskForLock(s: State, id: nat, proc: nat) returns (s': State)
    requires Reachable(s) && id !in s.calls && proc !in s.done && !s.sentinel
    ensures Reachable(s') && Moves(s, s', id) && s'.calls[id] == Call(proc, Acquiring(MAX_RETRIES), None, false)
    ensures s'.lock == s.lock && s'.issued == s.issued
  {
    hide Reachable;
    s' := Arrive(s, id, proc);
    s' := Ask(s', id, PreCheck);
    s' := Ask(s', id, Acquiring(MAX_RETRIES));
  }

  lemma Lapse(s: State) returns (s': State)
    requires Reachable(s) && s.lock.Some? && s.lock.value.expiry == s.now + LOCK_TTL
    ensures Reachable(s') && s' == s.(now := s.now + LOCK_TTL, lock := None)
  {
    s' := Go(s, Tick(LOCK_TTL));
  }

  /** The call's migrations stop at a UniqueViolation, which it takes for success. */
  lemma Stop(s: State, id: nat) returns (s': State)
    requires Reachable(s) && BothMigrate(s, id)
    ensures Reachable(s') && Moves(s, s', id) && s'.calls[id].pc.WritingSentinel?
  {
    hide Reachable;
    s' := Go(s, Advance(id, Violation));
  }

  /** It writes the sentinel. */
  lemma WriteSentinel(s: State, id: nat) returns (s': State)
    requires Reachable(s) && id in s.calls && s.calls[id].pc.WritingSentinel?
    ensures Reachable(s') && Moves(s.(sentinel := true, done := s.done + {s.calls[id].proc}), s', id)
    ensures s'.calls[id] == s.calls[id].(pc := Releasing(Normal))
  {
    hide Reachable;
    s' := Go(s, Advance(id, Fine));
  }

  /** And it releases, looks at the sentinel and returns. */
  lemma Return(s: State, id: nat) returns (s': State)
    requires Reachable(s) && id in s.calls && s.calls[id].pc == Releasing(Normal)
    requires s.sentinel && s.calls[id].proc in s.done
    ensures Reachable(s') && Moves(s, s', id) && s'.calls[id].pc.Returned?
  {
    hide Reachable;
    var released := Go(s, Advance(id, Fine));
    assert Moves(s, released, id) && released.calls[id].pc.PostCheck?;
    s' := Go(released, Advance(id, Fine));
  }

  lemma GiveUp(s: State, id: nat) returns (s': State)
    requires Reachable(s) && id in s.calls && s.calls[id].pc.Migrating?
    ensures Reachable(s') && Moves(s, s', id) && s'.calls[id].pc == Releasing(Failing)
  {
    hide Reachable;
    s' := Go(s, Advance(id, NotExecuted));
  }

  lemma TwoMigrate() returns (s: State)
    ensures Reachable(s) && !s.sentinel && !s.tables && s.calls.Keys == {0, 1}
    ensures s.calls[0].pc.Migrating? && s.calls[1].pc.Migrating?
  {
    assert Leads([], Init);
    hide Reachable, Leads;
    s := BeginMigrations(Init, 0, 0);
    s := Lapse(s);
    s := BeginMigrations(s, 1, 1);
  }

  lemma StopAndReturn(s: State, id: nat) returns (s': State)
    requires Reachable(s) && BothMigrate(s, id)
    ensures Reachable(s') && s'.sentinel && s'.tables == s.tables
    ensures s'.calls.Keys == s.calls.Keys && s'.calls[id].pc.Returned?
    ensures forall other | other in s.calls && other != id :: s'.calls[other] == s.calls[other]
  {
    hide Reachable;
    s' := Stop(s, id);
    s' := WriteSentinel(s', id);
    s' := Return(s', id);
  }

  /** The lease of a call lapses during its migrations; a second call begins its own, meets the
      unfinished ones as a UniqueViolation, and writes the sentinel. Then the first call fails:
      the second has returned normally, every later call will, and no setup has finished. */
  lemma SentinelWithoutTables() returns (s: State)
    ensures Reachable(s) && s.sentinel && !s.tables
    ensures s.calls.Keys == {0, 1} && s.calls[0].pc == Releasing(Failing) && s.calls[1].pc.Returned?
  {
    hide Reachable;
    s := TwoMigrate();
    s := StopAndReturn(s, 1);
    s := GiveUp(s, 0);
  }
}

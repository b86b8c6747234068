/** When a call of `ensure_setup` must succeed, and what makes it fail, over the runs of the setup
    protocol (backend/db/postgres/checkpointer.py). */
module SetupRules {
  import opened Options
  import opened SetupFlow
  import opened SetupProtocol

  /** A request of the call is not executed, or its reply is lost. An error of the release is
      swallowed, and the local flag is no request. */
  ghost predicate FaultAt(s: State, step: Step, id: nat) {
    && step.Advance? && step.id == id && (step.fault.NotExecuted? || step.fault.ReplyLost?)
    && id in s.calls && !s.calls[id].pc.FastPath? && !s.calls[id].pc.Releasing?
  }

  /** The call asks for the lock, and is told that someone else has it. */
  ghost predicate RefusedAt(s: State, step: Step, id: nat) {
    step == Advance(id, Fine) && id in s.calls && s.calls[id].pc.Acquiring? && s.lock.Some?
  }

  ghost predicate Faulted(steps: seq<Step>, id: nat)
    requires Valid(steps)
    decreases |steps|
  {
    steps != [] && (Faulted(steps[..|steps| - 1], id) || FaultAt(After(steps[..|steps| - 1]), steps[|steps| - 1], id))
  }

  ghost function Refusals(steps: seq<Step>, id: nat): nat
    requires Valid(steps)
    decreases |steps|
  {
    if steps == [] then 0
    else
      var before, last := steps[..|steps| - 1], steps[|steps| - 1];
      Refusals(before, id) + if RefusedAt(After(before), last, id) then 1 else 0
  }

  /** The steps that the call has taken. */
  ghost function Advances(steps: seq<Step>, id: nat): nat {
    if steps == [] then 0
    else Advances(steps[..|steps| - 1], id) + if steps[|steps| - 1].Advance? && steps[|steps| - 1].id == id then 1 else 0
  }

  /** Steps still ahead, at most. */
  function Ahead(pc: Pc): nat {
    match pc
    case FastPath => 38
    case PreCheck => 37
    case Acquiring(left) => if left <= 30 then left + 6 else 36
    case InnerCheck => 6
    case InSetup => 5
    case Migrating => 4
    case WritingSentinel => 3
    case Releasing(_) => 2
    case PostCheck => 1
    case _ => 0
  }

  predicate Doomed(pc: Pc) {
    pc.Failed? || pc == Releasing(Failing)
  }

  /** What is known of a call from its faults, its refusals and its steps. */
  ghost predicate Fate(pc: Pc, faulted: bool, refusals: nat, advances: nat) {
    && (Doomed(pc) <==> faulted)
    && advances + Ahead(pc) <= 38
    && match pc
       case FastPath => refusals == 0
       case PreCheck => refusals == 0
       case Acquiring(left) => 1 <= left <= 30 && refusals == 30 - left
       case TimedOut => refusals == 30
       case _ => refusals < 30
  }

  ghost predicate FateOf(steps: seq<Step>, id: nat)
    requires Valid(steps)
  {
    if id in After(steps).calls
    then Fate(After(steps).calls[id].pc, Faulted(steps, id), Refusals(steps, id), Advances(steps, id))
    else !Faulted(steps, id) && Refusals(steps, id) == 0 && Advances(steps, id) == 0
  }

  lemma AdvanceFate(s: State, id: nat, fault: Fault, faulted: bool, refusals: nat, advances: nat)
    requires Inv(s) && Enabled(s, Advance(id, fault)) && Fate(s.calls[id].pc, faulted, refusals, advances)
    ensures Fate(Apply(s, Advance(id, fault)).calls[id].pc,
                 faulted || FaultAt(s, Advance(id, fault), id),
                 refusals + if RefusedAt(s, Advance(id, fault), id) then 1 else 0,
                 advances + 1)
  {
    assert CallOk(s, s.calls[id]);
  }

  lemma {:induction false} FateHolds(steps: seq<Step>, id: nat)
    requires Valid(steps)
    ensures FateOf(steps, id)
    decreases |steps|
  {
    if steps != [] {
      var before, last := steps[..|steps| - 1], steps[|steps| - 1];
      FateHolds(before, id);
      InvHolds(before);
      hide Inv, Fate;
      if last.Advance? && last.id == id {
        AdvanceFate(After(before), id, last.fault, Faulted(before, id), Refusals(before, id), Advances(before, id));
      } else if last.Spawn? && last.id == id {
        Fresh();
      }
    }
  }

  lemma Fresh()
    ensures Fate(FastPath, false, 0, 0)
  {
  }

  /** For any interleaving, faults and expiries: a call that has ended has failed exactly if a
      request of its own failed outside the release, timed out exactly if it found the lock taken
      thirty times, and otherwise returned; and it has ended after at most 38 steps of its own. */
  lemma EndsAsServed(steps: seq<Step>, id: nat)
    requires Valid(steps) && id in After(steps).calls
    ensures var pc := After(steps).calls[id].pc;
      && (Over(pc) ==>
            && (pc.Failed? <==> Faulted(steps, id))
            && (pc.TimedOut? <==> Refusals(steps, id) == 30)
            && (pc.Returned? <==> !Faulted(steps, id) && Refusals(steps, id) < 30))
      && (!Over(pc) ==> Advances(steps, id) < 38)
      && Advances(steps, id) <= 38
  {
    FateHolds(steps, id);
  }

  /** A local flag that is set ends the call well at once. An answered check that finds the
      sentinel does: before the lock at once, and inside it with the release, whatever becomes of
      that. */
  lemma SentinelFoundReturns(s: State, id: nat, fault: Fault)
    requires id in s.calls && s.sentinel && !fault.Violation?
    ensures s.calls[id].pc.FastPath? ==>
      Apply(s, Advance(id, fault)).calls[id].pc == if s.calls[id].proc in s.done then Returned else PreCheck
    ensures s.calls[id].pc.PreCheck? ==>
      var s' := Apply(s, Advance(id, Fine)); s'.calls[id].pc.Returned? && s.calls[id].proc in s'.done
    ensures s.calls[id].pc.InnerCheck? ==>
      var s' := Apply(Apply(s, Advance(id, Fine)), Advance(id, fault));
      s'.calls[id].pc.Returned? && s.calls[id].proc in s'.done
  {
  }

  /** The step makes the tables, the sentinel, or this process's local flag: by migrations that
      run to their end, by a write that arrives, and by an answer that tells of the sentinel. */
  ghost predicate MakesTables(s: State, step: Step) {
    && step.Advance? && step.id in s.calls && s.calls[step.id].pc.Migrating? && (step.fault.Fine? || step.fault.ReplyLost?)
  }

  ghost predicate MakesSentinel(s: State, step: Step) {
    && step.Advance? && step.id in s.calls && s.calls[step.id].pc.WritingSentinel?
    && (step.fault.Fine? || step.fault.ReplyLost?)
  }

  ghost predicate MakesFlag(s: State, step: Step, proc: nat) {
    && step.Advance? && step.fault.Fine? && step.id in s.calls && s.calls[step.id].proc == proc
    && (s.calls[step.id].pc.WritingSentinel? ||
        (s.sentinel && (s.calls[step.id].pc.PreCheck? || s.calls[step.id].pc.InnerCheck?)))
  }

  /** Nothing else does, and nothing takes them away. */
  lemma FlagsStep(s: State, step: Step, proc: nat)
    requires Enabled(s, step)
    ensures var s' := Apply(s, step);
      && (s'.tables <==> s.tables || MakesTables(s, step))
      && (s'.sentinel <==> s.sentinel || MakesSentinel(s, step))
      && (proc in s'.done <==> proc in s.done || MakesFlag(s, step, proc))
  {
  }

  /** The next steps of a call when nobody else takes one and nothing fails. */
  ghost function Alone(s: State, id: nat, n: nat): State
    decreases n
  {
    if n == 0 || !Enabled(s, Advance(id, Fine)) then s else Alone(Apply(s, Advance(id, Fine)), id, n - 1)
  }

  /** A call that is alone, finds neither flag nor sentinel, and the lock free, has set up and
      returned after nine steps: the tables, the sentinel and the flag are there, and the lock is
      free again. */
  lemma AloneSetsUp(s: State, id: nat)
    requires id in s.calls && s.calls[id].pc.FastPath? && s.calls[id].proc !in s.done && !s.sentinel && s.lock.None?
    ensures var s' := Alone(s, id, 9);
      && id in s'.calls && s'.calls[id].pc.Returned? && s'.tables && s'.sentinel && s.calls[id].proc in s'.done && s'.lock.None?
  {
    var call := s.calls[id];
    var a := s.(calls := s.calls[id := call.(pc := Acquiring(MAX_RETRIES))]);
    Two(s, id, 7);
    assert Alone(s, id, 9) == Alone(a, id, 7);
    ObtainsAndChecks(a, id, 5);
    var b := Apply(Apply(a, Advance(id, Fine)), Advance(id, Fine));
    MigratesAlone(b, id);
  }

  lemma Two(s: State, id: nat, n: nat)
    requires id in s.calls && s.calls[id].pc.FastPath? && s.calls[id].proc !in s.done && !s.sentinel
    ensures Alone(s, id, n + 2) == Alone(s.(calls := s.calls[id := s.calls[id].(pc := Acquiring(MAX_RETRIES))]), id, n)
  {
    var p := Apply(s, Advance(id, Fine));
    assert p.calls[id] == s.calls[id].(pc := PreCheck);
    assert Apply(p, Advance(id, Fine)) == s.(calls := s.calls[id := s.calls[id].(pc := Acquiring(MAX_RETRIES))]);
    assert Alone(s, id, n + 2) == Alone(p, id, n + 1);
  }

  lemma ObtainsAndChecks(s: State, id: nat, n: nat)
    requires id in s.calls && s.calls[id].pc.Acquiring? && !s.sentinel && s.lock.None?
    ensures var o := Apply(s, Advance(id, Fine)); Enabled(o, Advance(id, Fine))
    ensures var s' := Apply(Apply(s, Advance(id, Fine)), Advance(id, Fine));
      && Alone(s, id, n + 2) == Alone(s', id, n)
      && id in s'.calls && s'.calls[id].pc.InSetup? && s'.calls[id].proc == s.calls[id].proc && !s'.sentinel
      && s'.lock.Some? && s'.calls[id].token == Some(s'.lock.value.token)
  {
    var o := Apply(s, Advance(id, Fine));
    assert Alone(s, id, n + 2) == Alone(o, id, n + 1);
  }

  lemma MigratesAlone(s: State, id: nat)
    requires id in s.calls && s.calls[id].pc.InSetup? && !s.sentinel
    requires s.lock.Some? && s.calls[id].token == Some(s.lock.value.token)
    ensures var s' := Alone(s, id, 5);
      && id in s'.calls && s'.calls[id].pc.Returned?
      && s'.tables && s'.sentinel && s.calls[id].proc in s'.done && s'.lock.None?
  {
    var m := Apply(s, Advance(id, Fine));
    var w := Apply(m, Advance(id, Fine));
    assert Alone(s, id, 5) == Alone(m, id, 4) == Alone(w, id, 3);
    assert w.calls[id].pc.WritingSentinel? && w.tables && w.lock == s.lock && w.calls[id].token == s.calls[id].token;
    WritesAlone(w, id);
  }

  lemma WritesAlone(s: State, id: nat)
    requires id in s.calls && s.calls[id].pc.WritingSentinel? && s.tables
    requires s.lock.Some? && s.calls[id].token == Some(s.lock.value.token)
    ensures var s' := Alone(s, id, 3);
      && id in s'.calls && s'.calls[id].pc.Returned?
      && s'.tables && s'.sentinel && s.calls[id].proc in s'.done && s'.lock.None?
  {
    var r := Apply(s, Advance(id, Fine));
    var p := Apply(r, Advance(id, Fine));
    assert r.calls[id].pc == Releasing(Normal) && p.calls[id].pc.PostCheck?;
    assert Alone(s, id, 3) == Alone(r, id, 2) == Alone(p, id, 1);
    assert Alone(p, id, 1) == Apply(p, Advance(id, Fine)) by {
      assert Alone(Apply(p, Advance(id, Fine)), id, 0) == Apply(p, Advance(id, Fine));
    }
  }

  /** The setup lock lasts for 60 s from its grant, and from each renewal that finds it. */
  lemma LeaseLasts(s: State, id: nat, delay: nat)
    requires id in s.calls
    ensures s.calls[id].pc.Acquiring? && s.lock.None? ==>
      (Apply(Apply(s, Advance(id, Fine)), Tick(delay)).lock.Some? <==> delay < 60)
    ensures s.calls[id].matched && s.lock.Some? ==>
      (Apply(Apply(s, RenewExpire(id)), Tick(delay)).lock.Some? <==> delay < 60)
  {
  }
}

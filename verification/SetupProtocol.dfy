/** `ensure_setup` in any number of processes at once: a timed transition system over the
    setup lock (backend/db/redis/lock_manager.py), the sentinel and the control flow of each
    call (backend/db/postgres/checkpointer.py). */
module SetupProtocol {
  import opened Options
  import opened SetupFlow

  datatype Lock = Lock(token: nat, expiry: nat)

  /** A call: its process, the token of its `RedisLock`, and whether its renewal loop has seen
      that token and is about to send EXPIRE. */
  datatype Call = Call(proc: nat, pc: Pc, token: Option<nat>, matched: bool)

  /** `tables`: a `cp.setup()` has run to its end. `done`: the processes whose `_setup_done` is set.
      `issued`: tokens drawn so far. */
  datatype State = State(
    now: nat, lock: Option<Lock>, sentinel: bool, tables: bool,
    done: set<nat>, calls: map<nat, Call>, issued: nat)

  /** Whether a request reaches the other side, and its reply comes back. The migrations may
      also stop at a UniqueViolation, which is taken for success. */
  datatype Fault = Fine | NotExecuted | ReplyLost | Violation

  datatype Step =
    | Tick(delay: nat)
    | Spawn(id: nat, proc: nat)
    | Advance(id: nat, fault: Fault)
    | RenewGet(id: nat)
    | RenewExpire(id: nat)

  const Init := State(0, None, false, false, {}, map[], 0)

  predicate Enabled(s: State, step: Step) {
    match step
    case Tick(_) => true
    case Spawn(id, _) => id !in s.calls
    case Advance(id, fault) =>
      id in s.calls && !Over(s.calls[id].pc) && (fault.Violation? ==> s.calls[id].pc.Migrating?)
    case RenewGet(id) => id in s.calls && s.calls[id].token.Some?
    case RenewExpire(id) => id in s.calls && s.calls[id].matched
  }

  function Answer(yes: bool, fault: Fault): Reply {
    if !fault.Fine? then Exception else if yes then Yes else No
  }

  /** What the request of a call does outside of it, what it does to the call's token, and the
      reply. */
  function Serve(s: State, call: Call, fault: Fault): (State, Option<nat>, Reply) {
    var executed := !fault.NotExecuted?;
    match call.pc
    case FastPath => (s, call.token, if call.proc in s.done then Yes else No)
    case PreCheck | InnerCheck =>
      var reply := Answer(s.sentinel, fault);
      (if reply.Yes? then s.(done := s.done + {call.proc}) else s, call.token, reply)
    case Acquiring(_) =>
      var free := s.lock.None?;
      var s' := if executed && free
                then s.(lock := Some(Lock(s.issued, s.now + LOCK_TTL)), issued := s.issued + 1)
                else s.(issued := s.issued + 1);
      (s', if free && fault.Fine? then Some(s.issued) else call.token, Answer(free, fault))
    case InSetup => (s, call.token, Answer(true, fault))
    case Migrating =>
      if fault.Violation? then (s, call.token, Yes)
      else (if executed then s.(tables := true) else s, call.token, Answer(true, fault))
    case WritingSentinel =>
      var s' := if executed then s.(sentinel := true) else s;
      (if fault.Fine? then s'.(done := s'.done + {call.proc}) else s', call.token, Answer(true, fault))
    case Releasing(_) =>
      var mine := s.lock.Some? && call.token == Some(s.lock.value.token);
      (if executed && mine then s.(lock := None) else s, None, Yes)
    case PostCheck => (s, call.token, Answer(s.sentinel && call.proc in s.done, fault))
    case _ => (s, call.token, Yes)
  }

  function Apply(s: State, step: Step): State
    requires Enabled(s, step)
  {
    match step
    case Tick(delay) =>
      var now := s.now + delay;
      s.(now := now, lock := if s.lock.Some? && s.lock.value.expiry <= now then None else s.lock)
    case Spawn(id, proc) => s.(calls := s.calls[id := Call(proc, FastPath, None, false)])
    case Advance(id, fault) =>
      var call := s.calls[id];
      var (served, token, reply) := Serve(s, call, fault);
      served.(calls := s.calls[id := call.(pc := Next(call.pc, reply), token := token)])
    case RenewGet(id) =>
      var call := s.calls[id];
      s.(calls := s.calls[id := call.(matched := s.lock.Some? && call.token == Some(s.lock.value.token))])
    case RenewExpire(id) =>
      s.(calls := s.calls[id := s.calls[id].(matched := false)],
         lock := if s.lock.Some? then Some(s.lock.value.(expiry := s.now + LOCK_TTL)) else None)
  }

  ghost predicate Valid(steps: seq<Step>)
    decreases |steps|, 0
  {
    steps == [] ||
    (var before := steps[..|steps| - 1]; Valid(before) && Enabled(After(before), steps[|steps| - 1]))
  }

  ghost function After(steps: seq<Step>): State
    requires Valid(steps)
    decreases |steps|, 1
  {
    if steps == [] then Init else Apply(After(steps[..|steps| - 1]), steps[|steps| - 1])
  }

  // ---------------------------------------------------------------------------------------
  // What holds in every reachable state

  /** Between obtaining the lock and writing the sentinel. */
  predicate InSection(pc: Pc) {
    pc.InnerCheck? || pc.InSetup? || pc.Migrating? || pc.WritingSentinel?
  }

  /** Control points that are only reached once the sentinel is set. */
  predicate PastSentinel(pc: Pc) {
    pc == Releasing(Early) || pc == Releasing(Normal) || pc.PostCheck? || pc.Returned?
  }

  ghost predicate CallOk(s: State, call: Call) {
    && (call.token.Some? ==> call.token.value < s.issued)
    && (InSection(call.pc) ==> call.token.Some?)
    && (PastSentinel(call.pc) ==> s.sentinel)
    && (call.pc == Releasing(Normal) || call.pc.PostCheck? ==> call.proc in s.done)
  }

  /** Every token was drawn once. */
  ghost predicate TokensDistinct(calls: map<nat, Call>) {
    forall a, b | a in calls && b in calls && a != b :: calls[a].token.Some? ==> calls[a].token != calls[b].token
  }

  ghost predicate Inv(s: State) {
    && (s.done != {} ==> s.sentinel)
    && (s.lock.Some? ==> s.lock.value.token < s.issued)
    && (forall id | id in s.calls :: CallOk(s, s.calls[id]))
    && TokensDistinct(s.calls)
  }

  lemma AdvanceKeepsDistinct(s: State, id: nat, fault: Fault)
    requires Inv(s) && Enabled(s, Advance(id, fault))
    ensures TokensDistinct(Apply(s, Advance(id, fault)).calls)
  {
    var s' := Apply(s, Advance(id, fault));
    forall a, b | a in s'.calls && b in s'.calls && a != b
      ensures s'.calls[a].token.Some? ==> s'.calls[a].token != s'.calls[b].token
    {
      assert CallOk(s, s.calls[a]) && CallOk(s, s.calls[b]);
    }
  }

  /** The sentinel, the tables, the local flags and the number of tokens only grow. */
  ghost predicate Grows(s: State, s': State) {
    s.done <= s'.done && (s.sentinel ==> s'.sentinel) && (s.tables ==> s'.tables) && s.issued <= s'.issued
  }

  lemma ServedCallOk(s: State, call: Call, fault: Fault)
    requires Inv(s) && CallOk(s, call)
    ensures var (served, token, reply) := Serve(s, call, fault);
      Grows(s, served) && CallOk(served, call.(pc := Next(call.pc, reply), token := token))
  {
  }

  lemma AdvanceKeepsInv(s: State, id: nat, fault: Fault)
    requires Inv(s) && Enabled(s, Advance(id, fault))
    ensures Inv(Apply(s, Advance(id, fault)))
  {
    var s' := Apply(s, Advance(id, fault));
    AdvanceKeepsDistinct(s, id, fault);
    ServedCallOk(s, s.calls[id], fault);
    assert Grows(s, s');
    forall other | other in s'.calls ensures CallOk(s', s'.calls[other]) {
      assert CallOk(s, s.calls[other]);
    }
  }

  lemma {:induction false} StepKeepsInv(s: State, step: Step)
    requires Inv(s) && Enabled(s, step)
    ensures Inv(Apply(s, step))
  {
    if step.Advance? {
      AdvanceKeepsInv(s, step.id, step.fault);
    } else {
      var s' := Apply(s, step);
      forall id | id in s'.calls ensures CallOk(s', s'.calls[id]) {
        assert id in s.calls ==> CallOk(s, s.calls[id]);
      }
    }
  }

  lemma {:induction false} InvHolds(steps: seq<Step>)
    requires Valid(steps)
    ensures Inv(After(steps))
    decreases |steps|
  {
    if steps != [] {
      var before := steps[..|steps| - 1];
      InvHolds(before);
      StepKeepsInv(After(before), steps[|steps| - 1]);
    }
  }

  /** For any interleaving, faults and expiries: a call that returned normally implies that the
      sentinel is set. */
  lemma ReturnImpliesSentinel(steps: seq<Step>, id: nat)
    requires Valid(steps) && id in After(steps).calls && After(steps).calls[id].pc.Returned?
    ensures After(steps).sentinel
  {
    InvHolds(steps);
    assert CallOk(After(steps), After(steps).calls[id]);
  }

  // ---------------------------------------------------------------------------------------
  // Mutual exclusion

  /** Every call in the section is the one that the lock names. */
  ghost predicate Held(s: State) {
    forall id | id in s.calls && InSection(s.calls[id].pc) ::
      s.lock.Some? && s.calls[id].token == Some(s.lock.value.token)
  }

  /** The lock of a call in the section runs out. */
  ghost predicate Lapses(s: State, step: Step) {
    && step.Tick? && s.lock.Some? && s.lock.value.expiry <= s.now + step.delay
    && exists id :: id in s.calls && InSection(s.calls[id].pc) && s.calls[id].token == Some(s.lock.value.token)
  }

  lemma AdvanceKeepsHeld(s: State, id: nat, fault: Fault)
    requires Inv(s) && Held(s) && Enabled(s, Advance(id, fault))
    ensures Held(Apply(s, Advance(id, fault)))
  {
    var s' := Apply(s, Advance(id, fault));
    forall other | other in s'.calls && InSection(s'.calls[other].pc)
      ensures s'.lock.Some? && s'.calls[other].token == Some(s'.lock.value.token)
    {
      if other != id {
        assert InSection(s.calls[other].pc);
        assert CallOk(s, s.calls[id]) && CallOk(s, s.calls[other]);
      }
    }
  }

  lemma HeldStep(s: State, step: Step)
    requires Inv(s) && Held(s) && Enabled(s, step)
    ensures Held(Apply(s, step)) <==> !Lapses(s, step)
  {
    match step
    case Tick(_) =>
      if Lapses(s, step) {
        var id :| id in s.calls && InSection(s.calls[id].pc) && s.calls[id].token == Some(s.lock.value.token);
        assert Apply(s, step).calls[id] == s.calls[id];
      }
    case Advance(id, fault) => AdvanceKeepsHeld(s, id, fault);
    case _ =>
  }

  ghost predicate Always(steps: seq<Step>)
    requires Valid(steps)
    decreases |steps|
  {
    Held(After(steps)) && (steps != [] ==> Always(steps[..|steps| - 1]))
  }

  ghost predicate NeverLapses(steps: seq<Step>)
    requires Valid(steps)
    decreases |steps|
  {
    steps != [] ==>
      NeverLapses(steps[..|steps| - 1]) && !Lapses(After(steps[..|steps| - 1]), steps[|steps| - 1])
  }

  /** Throughout a run, every call in the section is the one that the lock names, exactly if
      no holder's lease runs out while it is in the section. */
  lemma {:induction false} HeldIffNeverLapses(steps: seq<Step>)
    requires Valid(steps)
    ensures Always(steps) <==> NeverLapses(steps)
    decreases |steps|
  {
    if steps != [] {
      var before := steps[..|steps| - 1];
      HeldIffNeverLapses(before);
      InvHolds(before);
      if Always(before) {
        assert Held(After(before));
        HeldStep(After(before), steps[|steps| - 1]);
      }
    }
  }

  ghost predicate SetupBeforeSentinel(s: State) {
    forall id | id in s.calls && (s.calls[id].pc.InSetup? || s.calls[id].pc.Migrating?) :: !s.sentinel
  }

  lemma {:induction false} NoSetupAfterSentinel(steps: seq<Step>)
    requires Valid(steps) && NeverLapses(steps)
    ensures SetupBeforeSentinel(After(steps))
    decreases |steps|
  {
    if steps != [] {
      var before := steps[..|steps| - 1];
      NoSetupAfterSentinel(before);
      HeldIffNeverLapses(before);
      assert Held(After(before));
      InvHolds(before);
      SentinelStep(After(before), steps[|steps| - 1]);
    }
  }

  ghost predicate OneInSection(s: State) {
    forall a, b | a in s.calls && b in s.calls && InSection(s.calls[a].pc) && InSection(s.calls[b].pc) :: a == b
  }

  lemma HeldByOne(s: State)
    requires Inv(s) && Held(s)
    ensures OneInSection(s)
  {
    forall a, b | a in s.calls && b in s.calls && InSection(s.calls[a].pc) && InSection(s.calls[b].pc)
      ensures a == b
    {
      assert CallOk(s, s.calls[a]) && CallOk(s, s.calls[b]);
    }
  }

  lemma SentinelStep(s: State, step: Step)
    requires Inv(s) && Held(s) && SetupBeforeSentinel(s) && Enabled(s, step)
    ensures SetupBeforeSentinel(Apply(s, step))
  {
    HeldByOne(s);
  }

  /** Provided no holder's lease lapses in the section: at most one call is in `cp.setup()`,
      and none is there once the sentinel is set. */
  lemma SetupExclusion(steps: seq<Step>)
    requires Valid(steps) && NeverLapses(steps)
    ensures var s := After(steps);
      && (forall a, b | a in s.calls && b in s.calls && s.calls[a].pc.Migrating? && s.calls[b].pc.Migrating? :: a == b)
      && SetupBeforeSentinel(s)
  {
    InvHolds(steps);
    HeldIffNeverLapses(steps);
    HeldByOne(After(steps));
    NoSetupAfterSentinel(steps);
  }

  // ---------------------------------------------------------------------------------------
  // What the sentinel stands for

  /** Where the sentinel is set, or is about to be, a setup has run to its end. */
  ghost predicate Honest(s: State) {
    (s.sentinel ==> s.tables) && forall id | id in s.calls && s.calls[id].pc.WritingSentinel? :: s.tables
  }

  predicate Violates(step: Step) {
    step.Advance? && step.fault.Violation?
  }

  lemma HonestStep(s: State, step: Step)
    requires Honest(s) && Enabled(s, step)
    ensures Honest(Apply(s, step)) <==> !Violates(step) || s.tables
  {
    if Violates(step) {
      assert Apply(s, step).calls[step.id].pc.WritingSentinel?;
    }
  }

  ghost predicate AlwaysHonest(steps: seq<Step>)
    requires Valid(steps)
    decreases |steps|
  {
    Honest(After(steps)) && (steps != [] ==> AlwaysHonest(steps[..|steps| - 1]))
  }

  /** Every UniqueViolation comes after a setup that has run to its end. */
  ghost predicate NoEarlyViolation(steps: seq<Step>)
    requires Valid(steps)
    decreases |steps|
  {
    steps != [] ==>
      NoEarlyViolation(steps[..|steps| - 1]) && (Violates(steps[|steps| - 1]) ==> After(steps[..|steps| - 1]).tables)
  }

  /** The sentinel stands for a finished setup, throughout a run, exactly if no call takes a
      UniqueViolation for success before any setup has finished. */
  lemma {:induction false} HonestIffNoEarlyViolation(steps: seq<Step>)
    requires Valid(steps)
    ensures AlwaysHonest(steps) <==> NoEarlyViolation(steps)
    decreases |steps|
  {
    if steps != [] {
      var before := steps[..|steps| - 1];
      HonestIffNoEarlyViolation(before);
      if AlwaysHonest(before) {
        assert Honest(After(before));
        HonestStep(After(before), steps[|steps| - 1]);
      }
    }
  }

  /** This call and another one are in their migrations. */
  ghost predicate BothMigrate(s: State, id: nat) {
    && id in s.calls && s.calls[id].pc.Migrating?
    && exists other :: other in s.calls && other != id && s.calls[other].pc.Migrating?
  }

  ghost predicate Raced(steps: seq<Step>, id: nat)
    requires Valid(steps)
    decreases |steps|
  {
    BothMigrate(After(steps), id) || (steps != [] && Raced(steps[..|steps| - 1], id))
  }

  /** A UniqueViolation has a cause: a setup that has finished, or one that ran at the same
      time. */
  ghost predicate ViolationsHaveCause(steps: seq<Step>)
    requires Valid(steps)
    decreases |steps|
  {
    steps != [] ==>
      var before, last := steps[..|steps| - 1], steps[|steps| - 1];
      ViolationsHaveCause(before) && (Violates(last) ==> After(before).tables || Raced(before, last.id))
  }

  lemma {:induction false} NoRaceWithoutLapse(steps: seq<Step>, id: nat)
    requires Valid(steps) && NeverLapses(steps)
    ensures !Raced(steps, id)
    decreases |steps|
  {
    InvHolds(steps);
    HeldIffNeverLapses(steps);
    HeldByOne(After(steps));
    if steps != [] {
      NoRaceWithoutLapse(steps[..|steps| - 1], id);
    }
  }

  lemma {:induction false} NoEarlyViolationWithoutLapse(steps: seq<Step>)
    requires Valid(steps) && NeverLapses(steps) && ViolationsHaveCause(steps)
    ensures NoEarlyViolation(steps)
    decreases |steps|
  {
    if steps != [] {
      var before, last := steps[..|steps| - 1], steps[|steps| - 1];
      NoEarlyViolationWithoutLapse(before);
      if Violates(last) {
        NoRaceWithoutLapse(before, last.id);
      }
    }
  }

  /** If no holder's lease runs out in the section, the sentinel stands for a finished setup,
      and so does a normal return. */
  lemma ReturnImpliesSetup(steps: seq<Step>, id: nat)
    requires Valid(steps) && NeverLapses(steps) && ViolationsHaveCause(steps)
    ensures After(steps).sentinel ==> After(steps).tables
    ensures id in After(steps).calls && After(steps).calls[id].pc.Returned? ==> After(steps).sentinel
  {
    NoEarlyViolationWithoutLapse(steps);
    HonestIffNoEarlyViolation(steps);
    InvHolds(steps);
    assert id in After(steps).calls ==> CallOk(After(steps), After(steps).calls[id]);
  }

  /** How the lock changes hands, in any run: to a call that acquires it when it is free, from
      its holder by that call's release, or by expiry. A renewal, even one whose GET was
      answered before the lock passed to someone else, never changes the token. */
  lemma HolderChanges(steps: seq<Step>, step: Step)
    requires Valid(steps) && Enabled(After(steps), step)
    requires var s, s' := After(steps), Apply(After(steps), step);
      s.lock.Some? && (s'.lock.Some? ==> s'.lock.value.token != s.lock.value.token)
    ensures var s, s' := After(steps), Apply(After(steps), step);
      && s'.lock.None?
      && match step
         case Tick(delay) => s.lock.value.expiry <= s.now + delay
         case Advance(id, _) => s.calls[id].pc.Releasing? && s.calls[id].token == Some(s.lock.value.token)
         case _ => false
  {
  }
}

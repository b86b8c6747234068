/** All instances at work on one graph thread: a timed transition system whose steps are the
    Redis scripts, the passage of time and the local control points of
    backend/main_thread/executor.py. Any number of dispatches and runs of any number of
    processes interleave in any order. */
module Ownership {
  import opened Options
  import opened LockScripts
  import opened Dispatch

  /** A dispatch in flight; `since` is the number of grants there had been when it began. */
  datatype Call = Call(proc: Owner, pc: Pc, since: nat)

  /** A graph run: `Finishing` is the `finally` block before its release, `Finished` the
      task that is done but whose done-callback has not run. */
  datatype Phase = Running | Finishing | Finished | Reaped

  datatype Run = Run(proc: Owner, token: nat, origin: Origin, phase: Phase, lost: bool, cancelled: bool)

  /** One successful acquire (`victim` is None) or steal. */
  datatype Grant = Grant(owner: Owner, token: nat, time: nat, victim: Option<Owner>)

  /** `lease` is what each process was last promised: the time its lease runs out. A run has
      the number of the call that started it. `grants` is the history of the counter. */
  datatype State = State(
    keys: Keys,
    dead: set<Owner>,
    calls: map<nat, Call>,
    runs: map<nat, Run>,
    registry: map<Owner, nat>,
    lease: map<Owner, nat>,
    grants: seq<Grant>)

  /** `Serve` is the arrival of a call's request at Redis (or the end of its liveness probe,
      whose answer is `up`), `Start` the resumption that looks at the registry and creates
      the task, `Abort` the renewal loop's reaction to a failed renewal. A reply that is lost,
      and a coroutine that dies, is a call or a run that takes no further step; a release
      that never reaches Redis is one with `delivered` false. */
  datatype Step =
    | Tick(delay: nat)
    | Crash(proc: Owner)
    | Spawn(id: nat, proc: Owner, recovery: bool)
    | Serve(id: nat, up: bool)
    | Start(id: nat)
    | Renewal(id: nat)
    | Abort(id: nat)
    | Finish(id: nat)
    | ReleaseLock(id: nat, delivered: bool)
    | Reap(id: nat)

  const Init := State(Keys(None, None, 0), {}, map[], map[], map[], map[], [])

  predicate Busy(s: State, proc: Owner) {
    && proc in s.registry
    && s.registry[proc] in s.runs
    && (s.runs[s.registry[proc]].phase.Running? || s.runs[s.registry[proc]].phase.Finishing?)
  }

  predicate Enabled(s: State, step: Step) {
    match step
    case Tick(_) => true
    case Crash(_) => true
    case Spawn(id, proc, _) => id !in s.calls && proc !in s.dead
    case Serve(id, _) => id in s.calls && Waits(s.calls[id].pc) != NoRequest && Waits(s.calls[id].pc) != AskRunning
    case Start(id) =>
      && id in s.calls && s.calls[id].proc !in s.dead
      && (s.calls[id].pc.Mine? || s.calls[id].pc.Ready?)
    case Renewal(id) => id in s.runs
    case Abort(id) => id in s.runs && s.runs[id].proc !in s.dead && s.runs[id].lost && s.runs[id].phase.Running?
    case Finish(id) => id in s.runs && s.runs[id].proc !in s.dead && s.runs[id].phase.Running?
    case ReleaseLock(id, _) => id in s.runs && s.runs[id].proc !in s.dead && s.runs[id].phase.Finishing?
    case Reap(id) => id in s.runs && s.runs[id].proc !in s.dead && s.runs[id].phase.Finished?
  }

  function ReadInfo(k: Keys): Option<Info> {
    if k.lock.Some? && k.lock.value.value.Held?
    then Some(Info(k.lock.value.value.owner, k.lock.value.value.token))
    else None
  }

  function Granted(s: State, proc: Owner, victim: Option<Owner>, ttl: Seconds): State {
    s.(keys := GrantLock(s.keys, proc, ttl),
       lease := s.lease[proc := s.keys.now + LockTtl(ttl)],
       grants := s.grants + [Grant(proc, NextToken(s.keys), s.keys.now, victim)])
  }

  /** What a request does at Redis, and its reply. */
  function ServeRequest(s: State, proc: Owner, request: Request, up: bool, ttl: Seconds): (State, Reply)
    requires request != NoRequest && request != AskRunning
  {
    match request
    case AskOwner => (s, OwnerIs(ReadInfo(s.keys)))
    case AskAlive(_) => (s, AliveIs(up))
    case AskFlag => (s, FlagSet)
    case AskAcquire =>
      var token := Acquire(s.keys, proc, ttl).1;
      (if token.Some? then Granted(s, proc, None, ttl) else s, TokenIs(token))
    case AskSteal(dead) =>
      var token := Steal(s.keys, dead, proc, ttl).1;
      (if token.Some? then Granted(s, proc, Some(dead), ttl) else s, TokenIs(token))
  }

  function Launch(s: State, id: nat, token: nat, origin: Origin): State
    requires id in s.calls
  {
    s.(calls := s.calls[id := s.calls[id].(pc := Ended(Started(token, origin)))],
       runs := s.runs[id := Run(s.calls[id].proc, token, origin, Running, false, false)],
       registry := s.registry[s.calls[id].proc := id])
  }

  function SetRun(s: State, id: nat, run: Run): State {
    s.(runs := s.runs[id := run])
  }

  function ServeCall(s: State, id: nat, up: bool, ttl: Seconds): State
    requires id in s.calls && Waits(s.calls[id].pc) != NoRequest && Waits(s.calls[id].pc) != AskRunning
  {
    var call := s.calls[id];
    var (served, reply) := ServeRequest(s, call.proc, Waits(call.pc), up, ttl);
    served.(calls := s.calls[id := call.(pc := Next(call.proc, call.pc, reply))])
  }

  function StartCall(s: State, id: nat): State
    requires id in s.calls && (s.calls[id].pc.Mine? || s.calls[id].pc.Ready?)
  {
    var call := s.calls[id];
    if call.pc.Mine? && Busy(s, call.proc) then s.(calls := s.calls[id := call.(pc := Ended(NoOp))])
    else if call.pc.Mine? then Launch(s, id, call.pc.token, Inherited)
    else Launch(s, id, call.pc.token, call.pc.origin)
  }

  function RenewRun(s: State, id: nat, ttl: Seconds): State
    requires id in s.runs
  {
    var run := s.runs[id];
    var (keys, extended) := Renew(s.keys, run.proc, ttl);
    if extended then s.(keys := keys, lease := s.lease[run.proc := s.keys.now + LockTtl(ttl)])
    else SetRun(s, id, run.(lost := true))
  }

  function AbortRun(s: State, id: nat): State
    requires id in s.runs
  {
    var proc := s.runs[id].proc;
    if Busy(s, proc) then SetRun(s, s.registry[proc], s.runs[s.registry[proc]].(cancelled := true)) else s
  }

  function ReleaseRun(s: State, id: nat, delivered: bool): State
    requires id in s.runs
  {
    var run := s.runs[id];
    var s' := SetRun(s, id, run.(phase := Finished));
    if delivered then s'.(keys := Release(s.keys, run.proc).0, lease := s.lease - {run.proc}) else s'
  }

  function Apply(s: State, step: Step, ttl: Seconds): State
    requires Enabled(s, step)
  {
    match step
    case Tick(delay) => s.(keys := Elapse(s.keys, delay))
    case Crash(proc) => s.(dead := s.dead + {proc})
    case Spawn(id, proc, recovery) =>
      s.(calls := s.calls[id := Call(proc, if recovery then RecoverGet else GetOwner, |s.grants|)])
    case Serve(id, up) => ServeCall(s, id, up, ttl)
    case Start(id) => StartCall(s, id)
    case Renewal(id) => RenewRun(s, id, ttl)
    case Abort(id) => AbortRun(s, id)
    case Finish(id) => SetRun(s, id, s.runs[id].(phase := Finishing))
    case ReleaseLock(id, delivered) => ReleaseRun(s, id, delivered)
    case Reap(id) =>
      SetRun(s, id, s.runs[id].(phase := Reaped)).(registry := s.registry - {s.runs[id].proc})
  }

  // ---------------------------------------------------------------------------------------
  // Runs of the system

  ghost predicate Valid(s: State, steps: seq<Step>, ttl: Seconds)
    decreases |steps|, 0
  {
    steps == [] ||
    (var before := steps[..|steps| - 1];
     Valid(s, before, ttl) && Enabled(After(s, before, ttl), steps[|steps| - 1]))
  }

  ghost function After(s: State, steps: seq<Step>, ttl: Seconds): State
    requires Valid(s, steps, ttl)
    decreases |steps|, 1
  {
    if steps == [] then s else Apply(After(s, steps[..|steps| - 1], ttl), steps[|steps| - 1], ttl)
  }

  /** A prefix of a run is a run. */
  lemma {:induction false} ValidPrefix(s: State, steps: seq<Step>, ttl: Seconds, n: nat)
    requires Valid(s, steps, ttl) && n <= |steps|
    ensures Valid(s, steps[..n], ttl)
    decreases |steps|
  {
    if n < |steps| {
      var before := steps[..|steps| - 1];
      ValidPrefix(s, before, ttl, n);
      assert before[..n] == steps[..n];
    } else {
      assert steps[..n] == steps;
    }
  }

  /** The state after `n` steps of a run from the empty store. */
  ghost function At(steps: seq<Step>, n: nat, ttl: Seconds): State
    requires Valid(Init, steps, ttl) && n <= |steps|
  {
    ValidPrefix(Init, steps, ttl, n);
    After(Init, steps[..n], ttl)
  }

  lemma AtStep(steps: seq<Step>, n: nat, ttl: Seconds)
    requires Valid(Init, steps, ttl) && n < |steps|
    ensures Enabled(At(steps, n, ttl), steps[n])
    ensures At(steps, n + 1, ttl) == Apply(At(steps, n, ttl), steps[n], ttl)
  {
    ValidPrefix(Init, steps, ttl, n + 1);
    var longer := steps[..n + 1];
    assert longer[..|longer| - 1] == steps[..n];
  }
}

/** A run of the ownership protocol in which two runs of one thread overlap until the first
    learns of its loss: the conditions of `LockLoss.OverlapBounded` can be met together. */
module OverlapExample {
  import opened Options
  import opened LockScripts
  import opened Dispatch
  import opened Ownership
  import opened Renewal
  import opened RunRegistry
  import opened LockLoss

  /** The steps lead from each state to the next. */
  ghost predicate Links(states: seq<State>, steps: seq<Step>, ttl: Seconds) {
    && |states| == |steps| + 1
    && forall i | 0 <= i < |steps| :: Enabled(states[i], steps[i]) && states[i + 1] == Apply(states[i], steps[i], ttl)
  }

  lemma {:induction false} LinksAt(states: seq<State>, steps: seq<Step>, n: nat, ttl: Seconds)
    requires Links(states, steps, ttl) && states[0] == Init && n <= |steps|
    ensures Valid(Init, steps[..n], ttl) && After(Init, steps[..n], ttl) == states[n]
  {
    hide Enabled, Apply;
    if n > 0 {
      LinksAt(states, steps, n - 1, ttl);
      assert steps[..n][..n - 1] == steps[..n - 1];
    }
  }

  lemma LinksReach(states: seq<State>, steps: seq<Step>, ttl: Seconds)
    requires Links(states, steps, ttl) && states[0] == Init
    ensures Valid(Init, steps, ttl) && forall n | 0 <= n <= |steps| :: At(steps, n, ttl) == states[n]
  {
    hide Enabled, Apply;
    assert steps[..|steps|] == steps;
    LinksAt(states, steps, |steps|, ttl);
    forall n | 0 <= n <= |steps| ensures At(steps, n, ttl) == states[n] {
      LinksAt(states, steps, n, ttl);
    }
  }

  lemma LinksJoin(states: seq<State>, steps: seq<Step>, more: seq<State>, rest: seq<Step>, ttl: Seconds)
    requires Links(states, steps, ttl) && Links(more, rest, ttl) && states[|steps|] == more[0]
    ensures Links(states + more[1..], steps + rest, ttl)
  {
    hide Enabled, Apply;
  }

  function StartOnFreeLock(id: nat, proc: Owner): seq<Step> {
    [Spawn(id, proc, false), Serve(id, true), Serve(id, true), Start(id)]
  }

  lemma ReadsNoLock(s: State, id: nat, proc: Owner, ttl: Seconds)
    requires id in s.calls && s.calls[id] == Call(proc, GetOwner, |s.grants|) && s.keys.lock.None?
    ensures Enabled(s, Serve(id, true))
    ensures Apply(s, Serve(id, true), ttl) == s.(calls := s.calls[id := Call(proc, AcquireFree, |s.grants|)])
  {
  }

  lemma Obtains(s: State, id: nat, proc: Owner, ttl: Seconds)
    requires id in s.calls && s.calls[id] == Call(proc, AcquireFree, |s.grants|) && s.keys.lock.None?
    ensures Enabled(s, Serve(id, true))
    ensures Apply(s, Serve(id, true), ttl) ==
            Granted(s, proc, None, ttl).(calls := s.calls[id := Call(proc, Ready(NextToken(s.keys), Won), |s.grants|)])
  {
  }

  lemma Spawns(s: State, id: nat, proc: Owner, ttl: Seconds)
    requires id !in s.calls && proc !in s.dead
    ensures Enabled(s, Spawn(id, proc, false))
    ensures Apply(s, Spawn(id, proc, false), ttl) == s.(calls := s.calls[id := Call(proc, GetOwner, |s.grants|)])
  {
  }

  lemma Starts(s: State, id: nat, proc: Owner, token: nat, ttl: Seconds)
    requires id in s.calls && s.calls[id].proc == proc && s.calls[id].pc == Ready(token, Won) && proc !in s.dead
    ensures Enabled(s, Start(id)) && Apply(s, Start(id), ttl) == Launch(s, id, token, Won)
  {
  }

  /** A dispatch that finds the lock free and starts its run. */
  lemma StartStates(s: State, id: nat, proc: Owner, ttl: Seconds) returns (states: seq<State>)
    requires id !in s.calls && proc !in s.dead && s.keys.lock.None?
    ensures Links(states, StartOnFreeLock(id, proc), ttl) && states[0] == s
    ensures forall i, other | 0 <= i < 4 && other != proc :: !Grants(states[i], StartOnFreeLock(id, proc)[i], other)
    ensures states[4].keys == GrantLock(s.keys, proc, ttl) && states[4].dead == s.dead
    ensures states[4].calls.Keys == s.calls.Keys + {id}
    ensures states[4].runs == s.runs[id := Run(proc, NextToken(s.keys), Won, Running, false, false)]
    ensures states[4].registry == s.registry[proc := id]
  {
    hide Apply, Enabled, NextToken, GrantLock;
    Spawns(s, id, proc, ttl);
    var a := Apply(s, Spawn(id, proc, false), ttl);
    ReadsNoLock(a, id, proc, ttl);
    var b := Apply(a, Serve(id, true), ttl);
    Obtains(b, id, proc, ttl);
    var c := Apply(b, Serve(id, true), ttl);
    Starts(c, id, proc, NextToken(s.keys), ttl);
    states := [s, a, b, c, Apply(c, Start(id), ttl)];
  }

  /** What happens: `p` starts a run and misses its renewals for one TTL, `q` starts another,
      and then the loop of the first run is refused and aborts it. */
  function OverlapSteps(p: Owner, q: Owner, ttl: Seconds): seq<Step> {
    StartOnFreeLock(0, p) + ([Tick(LockTtl(ttl))] + (StartOnFreeLock(1, q) + [Renewal(0), Abort(0)]))
  }

  lemma FirstRunLapses(p: Owner, ttl: Seconds) returns (states: seq<State>)
    ensures Links(states, StartOnFreeLock(0, p) + [Tick(LockTtl(ttl))], ttl) && states[0] == Init
    ensures states[5].keys.lock.None? && states[5].keys.now == LockTtl(ttl) && states[5].dead == {}
    ensures NextToken(states[5].keys) == 2 && states[5].calls.Keys == {0} && states[5].registry == map[p := 0]
    ensures states[5].runs == map[0 := Run(p, 1, Won, Running, false, false)]
  {
    states := StartStates(Init, 0, p, ttl);
    var lapsed := Apply(states[4], Tick(LockTtl(ttl)), ttl);
    LinksJoin(states, StartOnFreeLock(0, p), [states[4], lapsed], [Tick(LockTtl(ttl))], ttl);
    states := states + [states[4], lapsed][1..];
  }

  lemma RefusedAndAborted(s: State, p: Owner, q: Owner, ttl: Seconds) returns (states: seq<State>)
    requires p != q && HeldBy(s.keys, q) && s.dead == {} && s.registry == map[p := 0, q := 1]
    requires 0 in s.runs && s.runs[0] == Run(p, 1, Won, Running, false, false)
    ensures Links(states, [Renewal(0), Abort(0)], ttl) && states[0] == s
    ensures states[1] == SetRun(s, 0, Run(p, 1, Won, Running, true, false))
  {
    var refused := SetRun(s, 0, Run(p, 1, Won, Running, true, false));
    states := [s, refused, AbortRun(refused, 0)];
  }

  lemma OverlapStates(p: Owner, q: Owner, ttl: Seconds) returns (states: seq<State>)
    requires p != q
    ensures Links(states, OverlapSteps(p, q, ttl), ttl) && states[0] == Init
    ensures states[5].keys.now == states[9].keys.now == states[10].keys.now == LockTtl(ttl)
    ensures !HeldBy(states[5].keys, p) && 0 in states[5].runs && states[5].runs[0].proc == p
    ensures forall i | 5 <= i < 9 :: !Grants(states[i], OverlapSteps(p, q, ttl)[i], p)
    ensures 0 in states[9].runs && states[9].runs[0] == Run(p, 1, Won, Running, false, false)
    ensures 1 in states[9].runs && states[9].runs[1] == Run(q, 2, Won, Running, false, false)
    ensures Registered(states[10], 0)
  {
    hide Apply, Enabled;
    var first := FirstRunLapses(p, ttl);
    var second := StartStates(first[5], 1, q, ttl);
    var last := RefusedAndAborted(second[4], p, q, ttl);
    var head, middle, tail := StartOnFreeLock(0, p) + [Tick(LockTtl(ttl))], StartOnFreeLock(1, q), [Renewal(0), Abort(0)];
    LinksJoin(second, middle, last, tail, ttl);
    var rest := second + last[1..];
    LinksJoin(first, head, rest, middle + tail, ttl);
    states := first + rest[1..];
    assert head + (middle + tail) == OverlapSteps(p, q, ttl);
    forall i | 5 <= i < 9 ensures !Grants(states[i], OverlapSteps(p, q, ttl)[i], p) {
      assert states[i] == second[i - 5] && OverlapSteps(p, q, ttl)[i] == middle[i - 5];
    }
  }

  /** Every hypothesis of `OverlapBounded` holds of these steps, and two runs of one thread are
      active at once until the first is refused. */
  lemma OverlapHappens(p: Owner, q: Owner, ttl: Seconds)
    requires p != q
    ensures var steps := OverlapSteps(p, q, ttl);
      && Valid(Init, steps, ttl)
      && var attempts := [Attempt(LockTtl(ttl), Returns)];
      && LosesLock(steps, 0, 0, attempts, [9], LockTtl(ttl), 0, 5, 0, ttl)
      && NotGranted(steps, 0, [9], 5, 0, 0, ttl) && Reacts(steps, 0, 0, ttl) && AbortsRegistered(steps, 0, ttl)
      && forall id | 0 <= id < 2 :: id in At(steps, 9, ttl).runs && !Stopped(At(steps, 9, ttl), id)
  {
    hide Apply, Enabled, After, Valid;
    var steps := OverlapSteps(p, q, ttl);
    var states := OverlapStates(p, q, ttl);
    LinksReach(states, steps, ttl);
    assert ReactsAt(steps, 0, 9, 10, 0, ttl);
    var attempts := [Attempt(LockTtl(ttl), Returns)];
    assert attempts[0].kind.Returns? && AnswerWithin(attempts, 0, 0);
  }
}

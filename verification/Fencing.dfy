/** The order of fencing tokens over whole runs (backend/main_thread/lock.py). Nothing here
    depends on the liveness probe. */
module Fencing {
  import opened Options
  import opened LockScripts
  import opened Dispatch
  import opened Ownership
  import opened OwnershipInvariant

  ghost predicate GapShort(gs: seq<Grant>, i: nat, ttl: Seconds)
    requires 0 < i < |gs|
  {
    gs[i].time - gs[i - 1].time < 20 * 1000 * ttl
  }

  /** Every two consecutive grants are less than 20 lock TTLs apart. */
  ghost predicate ShortGaps(gs: seq<Grant>, ttl: Seconds) {
    forall i | 0 < i < |gs| :: GapShort(gs, i, ttl)
  }

  ghost predicate Increasing(gs: seq<Grant>) {
    forall i, j | 0 <= i < j < |gs| :: gs[i].token < gs[j].token
  }

  /** Between two grants without a long gap, the token counts the grants. */
  lemma {:induction false} TokenDistance(gs: seq<Grant>, i: nat, j: nat, ttl: Seconds)
    requires HistoryOk(gs, ttl) && i <= j < |gs|
    requires forall m | i < m <= j :: GapShort(gs, m, ttl)
    ensures gs[j].token == gs[i].token + (j - i)
  {
    if i < j {
      TokenDistance(gs, i, j - 1, ttl);
      assert LinkAt(gs, j, ttl) && GapShort(gs, j, ttl);
    }
  }

  lemma TokenPositive(gs: seq<Grant>, i: nat, ttl: Seconds)
    requires HistoryOk(gs, ttl) && i < |gs|
    ensures gs[i].token >= 1
  {
    if i > 0 {
      assert LinkAt(gs, i, ttl);
    }
  }

  lemma IncreasingIffShortGaps(gs: seq<Grant>, ttl: Seconds)
    requires HistoryOk(gs, ttl)
    ensures Increasing(gs) <==> ShortGaps(gs, ttl)
  {
    if ShortGaps(gs, ttl) {
      forall i, j | 0 <= i < j < |gs| ensures gs[i].token < gs[j].token {
        TokenDistance(gs, i, j, ttl);
      }
    }
    if Increasing(gs) {
      forall i | 0 < i < |gs| ensures GapShort(gs, i, ttl) {
        assert LinkAt(gs, i, ttl);
        TokenPositive(gs, i - 1, ttl);
        assert gs[i - 1].token < gs[i].token;
      }
    }
  }

  /** In every reachable state the tokens ever granted are strictly increasing in grant order
      exactly if no two consecutive grants were 20 lock TTLs or more apart, and between two
      grants without such a gap the token counts the grants. */
  lemma FencingOrder(steps: seq<Step>, n: nat, ttl: Seconds)
    requires Valid(Init, steps, ttl) && n <= |steps|
    ensures var gs := At(steps, n, ttl).grants;
      && (Increasing(gs) <==> ShortGaps(gs, ttl))
      && forall i, j | 0 <= i <= j < |gs| && (forall m | i < m <= j :: GapShort(gs, m, ttl)) ::
           gs[j].token == gs[i].token + (j - i)
  {
    InvHolds(steps, n, ttl);
    var gs := At(steps, n, ttl).grants;
    IncreasingIffShortGaps(gs, ttl);
    forall i, j | 0 <= i <= j < |gs| && (forall m | i < m <= j :: GapShort(gs, m, ttl))
      ensures gs[j].token == gs[i].token + (j - i)
    {
      TokenDistance(gs, i, j, ttl);
    }
  }

  /** Whether the next grant outranks the last one can be read off the clock: it does exactly
      while 20 lock TTLs have not passed since the last grant. Renewals do not count. */
  lemma NextGrantOutranks(steps: seq<Step>, n: nat, ttl: Seconds)
    requires Valid(Init, steps, ttl) && n <= |steps| && At(steps, n, ttl).grants != []
    ensures var s := At(steps, n, ttl);
      var last := s.grants[|s.grants| - 1];
      && (last.token < NextToken(s.keys) <==> s.keys.now < last.time + 20 * 1000 * ttl)
      && (s.keys.counter.Some? ==> s.keys.counter.value.value == last.token)
  {
    InvHolds(steps, n, ttl);
    var s := At(steps, n, ttl);
    TokenPositive(s.grants, |s.grants| - 1, ttl);
  }

  lemma LastGrantOutranks(gs: seq<Grant>, proc: Owner, token: nat, ttl: Seconds)
    requires HistoryOk(gs, ttl) && ShortGaps(gs, ttl)
    requires GrantedTo(gs, 0, proc, token) && gs[|gs| - 1].owner != proc
    ensures token < gs[|gs| - 1].token
  {
    var i :| 0 <= i < |gs| && gs[i].owner == proc && gs[i].token == token;
    IncreasingIffShortGaps(gs, ttl);
  }

  lemma HolderOutranksIn(s: State, ttl: Seconds, id: nat)
    requires Inv(s, ttl) && s.keys.lock.Some? && ShortGaps(s.grants, ttl)
    requires id in s.runs && !HeldBy(s.keys, s.runs[id].proc)
    ensures s.keys.lock.value.value.Held? && s.runs[id].token < s.keys.lock.value.value.token
  {
    assert CallOk(s.grants, s.calls[id]);
    if s.runs[id].origin.Vanished? {
      TokenPositive(s.grants, |s.grants| - 1, ttl);
    } else {
      LastGrantOutranks(s.grants, s.runs[id].proc, s.runs[id].token, ttl);
    }
  }

  /** While the lock is held, no run of another process has a token as high as the holder's,
      even if the holder took the lock from a live process, as long as the gaps were short. */
  lemma {:induction false} HolderOutranksEveryZombie(steps: seq<Step>, n: nat, ttl: Seconds, id: nat)
    requires Valid(Init, steps, ttl) && n <= |steps|
    requires var s := At(steps, n, ttl);
      && s.keys.lock.Some? && ShortGaps(s.grants, ttl)
      && id in s.runs && !HeldBy(s.keys, s.runs[id].proc)
    ensures var s := At(steps, n, ttl);
      && s.keys.lock.value.value.Held?
      && s.runs[id].token < s.keys.lock.value.value.token
  {
    InvHolds(steps, n, ttl);
    HolderOutranksIn(At(steps, n, ttl), ttl, id);
  }

  /** Provenance over all interleavings: a call starts at most one run (they share a number),
      and that run's token was granted to its process since the call began, or earlier and
      read from the lock; only the vanished-lock path runs without a grant, with token 0. */
  lemma RunProvenance(steps: seq<Step>, n: nat, ttl: Seconds, id: nat)
    requires Valid(Init, steps, ttl) && n <= |steps| && id in At(steps, n, ttl).runs
    ensures var s := At(steps, n, ttl);
      var run := s.runs[id];
      && id in s.calls && s.calls[id].proc == run.proc
      && s.calls[id].pc == Ended(Started(run.token, run.origin))
      && (run.origin.Won? ==> GrantedTo(s.grants, s.calls[id].since, run.proc, run.token))
      && (run.origin.Inherited? ==> GrantedTo(s.grants, 0, run.proc, run.token))
      && (run.origin.Vanished? <==> run.token == 0)
  {
    hide At, After, Valid;
    InvHolds(steps, n, ttl);
    var s := At(steps, n, ttl);
    assert CallOk(s.grants, s.calls[id]);
    if !s.runs[id].origin.Vanished? {
      var i :| 0 <= i < |s.grants| && s.grants[i].owner == s.runs[id].proc && s.grants[i].token == s.runs[id].token;
      TokenPositive(s.grants, i, ttl);
    }
  }

  // ---------------------------------------------------------------------------------------
  // Steals

  ghost function StealsFrom(gs: seq<Grant>, owner: Owner): nat {
    if gs == [] then 0
    else StealsFrom(gs[..|gs| - 1], owner) + (if gs[|gs| - 1].victim == Some(owner) then 1 else 0)
  }

  ghost function GrantsTo(gs: seq<Grant>, owner: Owner): nat {
    if gs == [] then 0
    else GrantsTo(gs[..|gs| - 1], owner) + (if gs[|gs| - 1].owner == owner then 1 else 0)
  }

  lemma {:induction false} StealsCounted(gs: seq<Grant>, owner: Owner, ttl: Seconds)
    requires HistoryOk(gs, ttl)
    ensures StealsFrom(gs, owner) + (if gs != [] && gs[|gs| - 1].owner == owner then 1 else 0) <= GrantsTo(gs, owner)
    decreases |gs|
  {
    if gs != [] {
      var before := gs[..|gs| - 1];
      forall i | 0 < i < |before| ensures LinkAt(before, i, ttl) {
        assert LinkAt(gs, i, ttl);
      }
      StealsCounted(before, owner, ttl);
      if |gs| > 1 {
        assert LinkAt(gs, |gs| - 1, ttl);
      }
    }
  }

  /** However many steals name the same owner, concurrent or delayed, each one that succeeds
      takes the lock of the very last grant, and that grant was to this owner; so the steals
      from an owner never outnumber the grants to it. */
  lemma EachGrantStolenAtMostOnce(steps: seq<Step>, n: nat, ttl: Seconds, owner: Owner)
    requires Valid(Init, steps, ttl) && n <= |steps|
    ensures var gs := At(steps, n, ttl).grants;
      && (forall j | 0 <= j < |gs| && gs[j].victim == Some(owner) :: j > 0 && gs[j - 1].owner == owner)
      && StealsFrom(gs, owner) <= GrantsTo(gs, owner)
  {
    InvHolds(steps, n, ttl);
    var gs := At(steps, n, ttl).grants;
    StealsCounted(gs, owner, ttl);
    forall j | 0 <= j < |gs| && gs[j].victim == Some(owner) ensures j > 0 && gs[j - 1].owner == owner {
      if j > 0 {
        assert LinkAt(gs, j, ttl);
      }
    }
  }
}

/** `RedisLock` (backend/db/redis/lock_manager.py) and `ensure_setup`
    (backend/db/postgres/checkpointer.py) as they run in one process, among others. */
module Checkpointer {
  import opened Options
  import opened SetupFlow

  const RENEWAL_INTERVAL: nat := 10

  type Token = nat

  /** The two keys on shard 0, how many requests of this process have failed and how often it was
      refused the lock, and whether any `cp.setup()` has been answered: it succeeded, or
      met a UniqueViolation, which some other setup caused that may not have finished
      (`SetupProtocol`). The sentinel has no TTL and nothing deletes it. Tokens up to `issued`
      have been drawn. */
  class Shard {
    var lock: Option<Token>
    var lockExpiry: nat
    var sentinel: bool
    var now: nat
    ghost var answered: bool
    ghost var faults: nat
    ghost var refusals: nat
    var issued: Token

    constructor ()
      ensures lock.None? && !sentinel && !answered && issued == 0 && faults == 0 && refusals == 0
    {
      lock, lockExpiry, sentinel, now, answered, issued := None, 0, false, 0, false, 0;
      faults, refusals := 0, 0;
    }

    /** A sentinel that is set was preceded by a setup that was answered. */
    ghost predicate Valid()
      reads this
    {
      sentinel ==> answered
    }

    /** An await: the other processes do what they will, but the sentinel stays. */
    method Interleave()
      requires Valid()
      modifies this`lock, this`lockExpiry, this`now, this`issued, this`sentinel, this`answered
      ensures Valid() && (old(sentinel) ==> sentinel) && (old(answered) ==> answered)
      ensures issued >= old(issued)
    {
      var other: bool := *;
      ghost var made: bool := *;
      lock, lockExpiry, now := *, *, *;
      var drawn: int := *;
      issued := if drawn > 0 then issued + drawn else issued;
      sentinel := sentinel || other;
      answered := answered || made || sentinel;
    }
  }

  /** `RedisLock`: the token that this holder wrote, and whether its renewal task runs. */
  class RedisLock {
    const shard: Shard
    const ttl: nat
    const renewalInterval: nat
    var token: Option<Token>
    var renewing: bool

    constructor (shard: Shard, ttl: nat, renewalInterval: nat)
      ensures this.shard == shard && this.ttl == ttl && this.renewalInterval == renewalInterval
      ensures token.None? && !renewing
    {
      this.shard, this.ttl, this.renewalInterval, token, renewing := shard, ttl, renewalInterval, None, false;
    }

    /** SET NX EX with a token that nobody drew before. */
    method Acquire() returns (acquired: bool)
      modifies this`token, this`renewing, shard`lock, shard`lockExpiry, shard`issued, shard`refusals
      ensures acquired <==> old(shard.lock).None?
      ensures shard.issued == old(shard.issued) + 1
      ensures shard.refusals == old(shard.refusals) + if acquired then 0 else 1
      ensures acquired ==>
        && token == Some(old(shard.issued)) && shard.lock == token
        && shard.lockExpiry == shard.now + ttl && renewing == (old(renewing) || renewalInterval > 0)
      ensures !acquired ==>
        && token == old(token) && shard.lock == old(shard.lock)
        && shard.lockExpiry == old(shard.lockExpiry) && renewing == old(renewing)
    {
      var drawn := shard.issued;
      shard.issued := shard.issued + 1;
      if shard.lock.Some? {
        shard.refusals := shard.refusals + 1;
        return false;
      }
      shard.lock, shard.lockExpiry := Some(drawn), shard.now + ttl;
      token := Some(drawn);
      if renewalInterval > 0 {
        renewing := true;
      }
      return true;
    }

    /** Deletes the key only if it still carries this holder's token; the atomic script may
        fail to reach Redis, which is swallowed. */
    method Release(delivered: bool)
      modifies this`token, this`renewing, shard`lock
      ensures token.None? && !renewing
      ensures shard.lock ==
        if delivered && old(token).Some? && old(shard.lock) == old(token) then None else old(shard.lock)
    {
      renewing := false;
      if token.None? {
        return;
      }
      if delivered && shard.lock == token {
        shard.lock := None;
      }
      token := None;
    }

    /** One turn of the renewal loop: a GET, then, if the token matches, an EXPIRE, with
        everyone else free to run in between. The EXPIRE may hit another holder's key: it
        changes when the lock runs out, never whose it is. */
    method RenewOnce() returns (goOn: bool, ghost between: Option<Token>)
      requires shard.Valid()
      modifies shard
      ensures shard.Valid()
      ensures !goOn ==> unchanged(shard)
      ensures goOn <==> token.Some? && old(shard.lock) == token
      ensures goOn ==> shard.lock == between && (between.Some? ==> shard.lockExpiry == shard.now + ttl)
    {
      between := shard.lock;
      if token.None? {
        return false, between;
      }
      var current := shard.lock;
      if current != token {
        return false, between;
      }
      shard.Interleave();
      between := shard.lock;
      if shard.lock.Some? {
        shard.lockExpiry := shard.now + ttl;
      }
      return true, between;
    }
  }

  /** The process-local flag `_setup_done`. */
  class Process {
    var setupDone: bool

    constructor ()
      ensures !setupDone
    {
      setupDone := false;
    }
  }

  /** The migrations: they raise, or they succeed or meet a UniqueViolation. */
  method RunSetup(shard: Shard) returns (reached: bool)
    requires shard.Valid()
    modifies shard`answered, shard`faults
    ensures shard.Valid() && (old(shard.answered) ==> shard.answered)
    ensures reached ==> shard.answered
    ensures shard.faults == old(shard.faults) + if reached then 0 else 1
  {
    reached := Reaches(shard);
    if reached {
      shard.answered := true;
    }
  }

  /** A request that may raise instead of being answered. */
  method Reaches(shard: Shard) returns (reached: bool)
    modifies shard`faults
    ensures shard.faults == old(shard.faults) + if reached then 0 else 1
  {
    reached := *;
    if !reached {
      shard.faults := shard.faults + 1;
    }
  }

  /** The script of a release may fail to reach Redis, and nobody learns of it. */
  method Delivers() returns (delivered: bool)
  {
    delivered := *;
  }

  /** Step 3: the acquire loop. */
  method AcquireWithRetry(shard: Shard, lock: RedisLock, ghost start: Trail) returns (end: Pc, ghost trail: Trail)
    requires shard.Valid() && lock.shard == shard
    requires OnFlow(start) && start.pc == Acquiring(MAX_RETRIES)
    modifies shard, lock
    ensures shard.Valid() && (old(shard.sentinel) ==> shard.sentinel)
    ensures OnFlow(trail) && trail.pc == end
    ensures end.InnerCheck? || end.TimedOut? || end.Failed?
    ensures end.InnerCheck? ==> lock.token.Some? && shard.lock == lock.token
    ensures shard.faults >= old(shard.faults) && (end.Failed? <==> shard.faults > old(shard.faults))
    ensures shard.refusals <= old(shard.refusals) + 30
    ensures end.TimedOut? <==> shard.refusals == old(shard.refusals) + 30
  {
    hide OnFlow;
    trail := start;
    var left: nat := MAX_RETRIES;
    while left > 0
      invariant shard.Valid() && left <= MAX_RETRIES && (old(shard.sentinel) ==> shard.sentinel)
      invariant OnFlow(trail) && trail.pc == if left > 0 then Acquiring(left) else TimedOut
      invariant shard.faults == old(shard.faults) && shard.refusals == old(shard.refusals) + (30 - left)
    {
      shard.Interleave();
      var reached := Reaches(shard);
      if !reached {
        return Failed, Then(trail, Exception);
      }
      var acquired := lock.Acquire();
      if acquired {
        return InnerCheck, Then(trail, Yes);
      }
      trail := Then(trail, No);
      left := left - 1;
    }
    return TimedOut, trail;
  }

  /** Steps 5 and 6: the migrations and the sentinel. */
  method Migrate(process: Process, shard: Shard, ghost start: Trail) returns (exit: Exit, ghost trail: Trail)
    requires shard.Valid() && (process.setupDone ==> shard.sentinel)
    requires OnFlow(start) && start.pc == InSetup
    modifies process, shard
    ensures shard.Valid() && (process.setupDone ==> shard.sentinel)
    ensures OnFlow(trail) && trail.pc == Releasing(exit) && (exit.Normal? || exit.Failing?)
    ensures exit.Normal? ==> process.setupDone && shard.sentinel
    ensures shard.faults == old(shard.faults) + if exit.Failing? then 1 else 0
    ensures shard.refusals == old(shard.refusals)
  {
    hide OnFlow;
    trail := start;
    shard.Interleave();
    var reached := Reaches(shard);
    if !reached {
      return Failing, Then(trail, Exception);
    }
    trail := Then(trail, Yes);
    shard.Interleave();
    reached := RunSetup(shard);
    if !reached {
      return Failing, Then(trail, Exception);
    }
    trail := Then(trail, Yes);
    shard.Interleave();
    reached := Reaches(shard);
    if !reached {
      return Failing, Then(trail, Exception);
    }
    shard.sentinel := true;
    process.setupDone := true;
    return Normal, Then(trail, Yes);
  }

  /** Steps 4 to 6, under the lock. */
  method Section(process: Process, shard: Shard, ghost start: Trail) returns (exit: Exit, ghost trail: Trail)
    requires shard.Valid() && (process.setupDone ==> shard.sentinel)
    requires OnFlow(start) && start.pc == InnerCheck
    modifies process, shard
    ensures shard.Valid() && (process.setupDone ==> shard.sentinel)
    ensures OnFlow(trail) && trail.pc == Releasing(exit)
    ensures !exit.Failing? ==> process.setupDone && shard.sentinel
    ensures shard.faults == old(shard.faults) + if exit.Failing? then 1 else 0
    ensures old(shard.sentinel) ==> !exit.Normal?
    ensures shard.refusals == old(shard.refusals)
  {
    hide OnFlow;
    trail := start;
    shard.Interleave();
    var reached := Reaches(shard);
    if !reached {
      return Failing, Then(trail, Exception);
    }
    if shard.sentinel {
      process.setupDone := true;
      return Early, Then(trail, Yes);
    }
    exit, trail := Migrate(process, shard, Then(trail, No));
  }

  /** Steps 7 and 8: the release, and the check that the sentinel is there. The check can only
      fail by not reaching Redis, since nothing deletes a sentinel that was written. */
  method Leave(process: Process, shard: Shard, lock: RedisLock, exit: Exit, ghost start: Trail)
    returns (end: Pc, ghost trail: Trail)
    requires shard.Valid() && lock.shard == shard
    requires OnFlow(start) && start.pc == Releasing(exit)
    requires !exit.Failing? ==> process.setupDone && shard.sentinel
    modifies shard, lock
    ensures shard.Valid() && (old(shard.sentinel) ==> shard.sentinel)
    ensures OnFlow(trail) && trail.pc == end && Over(end) && trail.replies != []
    ensures lock.token.None? && !lock.renewing
    ensures end.Returned? || end.Failed?
    ensures end.Failed? <==> exit.Failing? || shard.faults > old(shard.faults)
    ensures exit.Early? ==> end.Returned? && shard.faults == old(shard.faults)
    ensures shard.faults >= old(shard.faults) && shard.refusals == old(shard.refusals)
  {
    shard.Interleave();
    var delivered := Delivers();
    lock.Release(delivered);
    trail := Then(start, Yes);
    if exit.Early? {
      return Returned, trail;
    }
    if exit.Failing? {
      return Failed, trail;
    }
    shard.Interleave();
    var reached := Reaches(shard);
    if !reached {
      return Failed, Then(trail, Exception);
    }
    if !shard.sentinel || !process.setupDone {
      assert false;
    }
    return Returned, Then(trail, Yes);
  }

  /** `ensure_setup`. The ghost `trail` leads through the automaton of `SetupFlow` to where the
      call ended. It has failed exactly if a request of its own has, but for the release, timed
      out exactly if it was refused the lock thirty times, and otherwise returned, which it does
      when the sentinel is there; and a normal return means that the sentinel is set, after a
      setup that was answered. */
  method EnsureSetup(process: Process, shard: Shard) returns (end: Pc, ghost trail: Trail)
    requires shard.Valid() && (process.setupDone ==> shard.sentinel)
    modifies process, shard
    ensures shard.Valid() && (process.setupDone ==> shard.sentinel)
    ensures OnFlow(trail) && trail.pc == end && Over(end)
    ensures end.Returned? ==> shard.sentinel && shard.answered && process.setupDone
    ensures end.Failed? <==> shard.faults > old(shard.faults)
    ensures end.TimedOut? <==> shard.refusals == old(shard.refusals) + 30
    ensures old(process.setupDone) ==> end.Returned?
    ensures old(shard.sentinel) && shard.faults == old(shard.faults) ==> end.Returned? && shard.refusals == old(shard.refusals)
  {
    hide OnFlow;
    trail := Begin();
    if process.setupDone {
      return Returned, Then(trail, Yes);
    }
    trail := Then(trail, No);

    shard.Interleave();
    var reached := Reaches(shard);
    if !reached {
      return Failed, Then(trail, Exception);
    }
    if shard.sentinel {
      process.setupDone := true;
      return Returned, Then(trail, Yes);
    }
    trail := Then(trail, No);

    var lock := new RedisLock(shard, LOCK_TTL, RENEWAL_INTERVAL);
    end, trail := AcquireWithRetry(shard, lock, trail);
    if end.InnerCheck? {
      var exit;
      exit, trail := Section(process, shard, trail);
      end, trail := Leave(process, shard, lock, exit, trail);
    }
  }
}

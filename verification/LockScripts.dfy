/** The Redis keys of one graph thread and the four Lua scripts that change them
    (backend/main_thread/lock.py). Times are in milliseconds. */
module LockScripts {
  import opened Options

  /** A main-thread instance, as the lock value names it. The token is not part of the identity. */
  datatype Owner = Owner(port: int, pid: int)

  /** The JSON text of the lock value: either it decodes, or the scripts' `pcall` fails. */
  datatype Value = Held(owner: Owner, token: nat) | Malformed

  datatype Lock = Lock(value: Value, expiry: nat)

  datatype Counter = Counter(value: nat, expiry: nat)

  /** What a client can read at time `now`: an expired key is absent. */
  datatype Keys = Keys(lock: Option<Lock>, counter: Option<Counter>, now: nat)

  /** Settings: the lock TTL in seconds. */
  type Seconds = s: nat | s > 0 witness 60

  function LockTtl(ttl: Seconds): nat { ttl * 1000 }

  function CounterTtl(ttl: Seconds): nat { ttl * 20 * 1000 }

  predicate HeldBy(k: Keys, owner: Owner) {
    k.lock.Some? && k.lock.value.value.Held? && k.lock.value.value.owner == owner
  }

  function NextToken(k: Keys): nat {
    if k.counter.Some? then k.counter.value.value + 1 else 1
  }

  /** The keys after a grant: INCR and EXPIRE on the counter, SET PX on the lock. */
  function GrantLock(k: Keys, owner: Owner, ttl: Seconds): Keys {
    Keys(Some(Lock(Held(owner, NextToken(k)), k.now + LockTtl(ttl))),
         Some(Counter(NextToken(k), k.now + CounterTtl(ttl))),
         k.now)
  }

  function Acquire(k: Keys, me: Owner, ttl: Seconds): (Keys, Option<nat>) {
    if k.lock.Some? then (k, None) else (GrantLock(k, me, ttl), Some(NextToken(k)))
  }

  function Steal(k: Keys, dead: Owner, me: Owner, ttl: Seconds): (Keys, Option<nat>) {
    if HeldBy(k, dead) then (GrantLock(k, me, ttl), Some(NextToken(k))) else (k, None)
  }

  function Renew(k: Keys, me: Owner, ttl: Seconds): (Keys, bool) {
    if HeldBy(k, me) then
      (k.(lock := Some(k.lock.value.(expiry := k.now + LockTtl(ttl)))), true)
    else
      (k, false)
  }

  function Release(k: Keys, me: Owner): (Keys, bool) {
    if HeldBy(k, me) then (k.(lock := None), true) else (k, false)
  }

  /** The passage of time: keys whose expiry has come are gone. */
  function Elapse(k: Keys, delay: nat): Keys {
    var now := k.now + delay;
    Keys(if k.lock.Some? && k.lock.value.expiry <= now then None else k.lock,
         if k.counter.Some? && k.counter.value.expiry <= now then None else k.counter,
         now)
  }

  /** The Redis node holding the two keys of one thread. Each script runs alone on it,
      as one call of a method below. */
  class ThreadKeys {
    var lock: Option<Value>
    var lockExpiry: Option<nat>
    var counter: Option<nat>
    var counterExpiry: Option<nat>
    var now: nat

    /** Between scripts both keys carry a TTL that has not run out. */
    ghost predicate Valid()
      reads this
    {
      && lock.Some? == lockExpiry.Some?
      && counter.Some? == counterExpiry.Some?
    }

    ghost function View(): Keys
      reads this
      requires Valid()
    {
      Keys(if lock.Some? then Some(Lock(lock.value, lockExpiry.value)) else None,
           if counter.Some? then Some(Counter(counter.value, counterExpiry.value)) else None,
           now)
    }

    constructor ()
      ensures Valid() && View() == Keys(None, None, 0)
    {
      lock, lockExpiry, counter, counterExpiry, now := None, None, None, None, 0;
    }

    method Tick(delay: nat)
      requires Valid()
      modifies this
      ensures Valid() && View() == Elapse(old(View()), delay)
    {
      now := now + delay;
      if lock.Some? && lockExpiry.value <= now {
        lock, lockExpiry := None, None;
      }
      if counter.Some? && counterExpiry.value <= now {
        counter, counterExpiry := None, None;
      }
    }

    /** INCR: a missing counter starts from zero and has no TTL yet. */
    method Incr() returns (value: nat)
      modifies this`counter
      ensures value == (if old(counter).Some? then old(counter).value + 1 else 1)
      ensures counter == Some(value)
    {
      value := if counter.Some? then counter.value + 1 else 1;
      counter := Some(value);
    }

    method GrantScript(me: Owner, ttl: Seconds) returns (token: nat)
      requires Valid()
      modifies this
      ensures Valid() && View() == GrantLock(old(View()), me, ttl)
      ensures token == NextToken(old(View()))
    {
      token := Incr();
      counterExpiry := Some(now + CounterTtl(ttl));
      lock := Some(Held(me, token));
      lockExpiry := Some(now + LockTtl(ttl));
    }

    method AcquireScript(me: Owner, ttl: Seconds) returns (token: Option<nat>)
      requires Valid()
      modifies this
      ensures Valid() && (View(), token) == Acquire(old(View()), me, ttl)
    {
      if lock.Some? {
        return None;
      }
      var granted := GrantScript(me, ttl);
      token := Some(granted);
    }

    method StealScript(dead: Owner, me: Owner, ttl: Seconds) returns (token: Option<nat>)
      requires Valid()
      modifies this
      ensures Valid() && (View(), token) == Steal(old(View()), dead, me, ttl)
    {
      if lock.None? {
        return None;
      }
      if lock.value.Held? && lock.value.owner == dead {
        var granted := GrantScript(me, ttl);
        return Some(granted);
      }
      return None;
    }

    method RenewScript(me: Owner, ttl: Seconds) returns (extended: bool)
      requires Valid()
      modifies this`lockExpiry
      ensures Valid() && (View(), extended) == Renew(old(View()), me, ttl)
    {
      if lock.Some? {
        if lock.value.Held? && lock.value.owner == me {
          lockExpiry := Some(now + LockTtl(ttl));
          return true;
        }
      }
      return false;
    }

    method ReleaseScript(me: Owner) returns (deleted: bool)
      requires Valid()
      modifies this`lock, this`lockExpiry
      ensures Valid() && (View(), deleted) == Release(old(View()), me)
    {
      if lock.Some? {
        if lock.value.Held? && lock.value.owner == me {
          lock, lockExpiry := None, None;
          return true;
        }
      }
      return false;
    }
  }
}

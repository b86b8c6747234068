/** What the four Lua scripts do on any keys at all, with the settings written out: how long a
    grant and a renewal last, and whose lock each script takes for the caller's own
    (backend/main_thread/lock.py). */
module ScriptLaws {
  import opened Options
  import opened LockScripts

  /** A grant lasts for one lock TTL, and the counter for 20 of them: to the millisecond. The
      token after it is the next one until then, and 1 again from then on. */
  lemma GrantLasts(k: Keys, me: Owner, ttl: Seconds, delay: nat)
    ensures var later := Elapse(GrantLock(k, me, ttl), delay);
      && (HeldBy(later, me) <==> delay < 1000 * ttl)
      && (later.lock.None? <==> delay >= 1000 * ttl)
      && (later.counter.Some? <==> delay < 20 * 1000 * ttl)
      && NextToken(later) == if delay < 20 * 1000 * ttl then NextToken(k) + 1 else 1
  {
  }

  /** A renewal lasts for one lock TTL from its own time, and neither prolongs nor changes the
      counter or the value. */
  lemma RenewalLasts(k: Keys, me: Owner, ttl: Seconds, delay: nat)
    requires HeldBy(k, me)
    ensures var renewed, later := Renew(k, me, ttl).0, Elapse(Renew(k, me, ttl).0, delay);
      && Renew(k, me, ttl).1 && renewed.lock.Some? && renewed.lock.value.value == k.lock.value.value
      && (HeldBy(later, me) <==> delay < 1000 * ttl)
      && later.counter == Elapse(k, delay).counter
  {
  }

  /** A lock that decodes to another port or another pid is nobody's that the caller could renew
      or release, or steal in that name; the token plays no part. A value that does not decode
      is no one's, and still keeps others from acquiring. */
  lemma IdentityDecides(k: Keys, me: Owner, dead: Owner, ttl: Seconds)
    requires k.lock.Some?
    ensures Acquire(k, me, ttl) == (k, None)
    ensures k.lock.value.value.Malformed? ==>
      Steal(k, dead, me, ttl) == (k, None) && Renew(k, me, ttl) == (k, false) && Release(k, me) == (k, false)
    ensures k.lock.value.value.Held? ==>
      var Owner(port, pid) := k.lock.value.value.owner;
      && (Steal(k, dead, me, ttl).1.Some? <==> dead.port == port && dead.pid == pid)
      && (Renew(k, me, ttl).1 <==> me.port == port && me.pid == pid)
      && (Release(k, me).1 <==> me.port == port && me.pid == pid)
      && (Release(k, me).0.lock.None? <==> me.port == port && me.pid == pid)
  {
  }

  /** A script that refuses changes nothing, and one that grants hands out the token after the
      counter's, or 1 where there is no counter, to the caller. */
  lemma GrantOrNothing(k: Keys, me: Owner, dead: Owner, ttl: Seconds)
    ensures var (k', token) := Acquire(k, me, ttl);
      if k.lock.Some? then k' == k && token.None? else Granted(k, k', me, token)
    ensures var (k', token) := Steal(k, dead, me, ttl);
      if HeldBy(k, dead) then Granted(k, k', me, token) else k' == k && token.None?
  {
  }

  predicate Granted(k: Keys, k': Keys, me: Owner, token: Option<nat>) {
    && token == Some(if k.counter.Some? then k.counter.value.value + 1 else 1)
    && k'.lock.Some? && k'.lock.value.value == Held(me, token.value)
    && k'.counter.Some? && k'.counter.value.value == token.value
    && k'.now == k.now
  }
}

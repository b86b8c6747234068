/** The arithmetic of the renewal loop (backend/main_thread/executor.py): how often renewals
    may fail to get an answer before the lease of a run breaks, and how long a run can go on
    after its lock has passed to another process. Times are in milliseconds. */
module Renewal {
  import opened Options
  import opened LockScripts

  /** One pass of the loop: it reaches Redis at time `time`; it may raise, with the script
      executed or not, or return an answer. The release at the end of the run is the last
      attempt. */
  datatype Attempt = Attempt(time: nat, kind: Kind)

  datatype Kind = Returns | Raises(executed: bool)

  /** The attempts of a run whose lock was granted at `granted` come at most `gap` after the
      grant and after one another: `gap` bounds the sleep and the call after it together. */
  ghost predicate OnSchedule(granted: nat, attempts: seq<Attempt>, gap: nat) {
    forall i | 0 <= i < |attempts| ::
      Previous(granted, attempts, i) <= attempts[i].time <= Previous(granted, attempts, i) + gap
  }

  function Previous(granted: nat, attempts: seq<Attempt>, i: nat): nat
    requires i <= |attempts|
  {
    if i == 0 then granted else attempts[i - 1].time
  }

  ghost predicate AnswerWithin(attempts: seq<Attempt>, i: nat, k: nat) {
    exists j :: i <= j <= i + k && j < |attempts| && attempts[j].kind.Returns?
  }

  /** No more than `k` consecutive attempts raise. */
  ghost predicate AtMostRaises(attempts: seq<Attempt>, k: nat) {
    forall i | 0 <= i && i + k < |attempts| :: AnswerWithin(attempts, i, k)
  }

  /** The keys after the first `n` attempts of a run of `me`, if nobody else touches them. */
  function KeysAfter(me: Owner, granted: nat, attempts: seq<Attempt>, n: nat, gap: nat, ttl: Seconds): (k: Keys)
    requires n <= |attempts| && OnSchedule(granted, attempts, gap)
    ensures k.now == Previous(granted, attempts, n)
    decreases n, 0
  {
    if n == 0 then GrantLock(Keys(None, None, granted), me, ttl)
    else
      var k := Arriving(me, granted, attempts, n - 1, gap, ttl);
      var kind := attempts[n - 1].kind;
      if kind.Returns? || kind.executed then Renew(k, me, ttl).0 else k
  }

  /** The keys as attempt `n` reaches Redis. */
  function Arriving(me: Owner, granted: nat, attempts: seq<Attempt>, n: nat, gap: nat, ttl: Seconds): (k: Keys)
    requires n < |attempts| && OnSchedule(granted, attempts, gap)
    ensures k.now == attempts[n].time
    decreases n, 1
  {
    var k := KeysAfter(me, granted, attempts, n, gap, ttl);
    Elapse(k, attempts[n].time - k.now)
  }

  /** Every attempt, and so the release, still finds the lock that was granted. */
  ghost predicate Unbroken(me: Owner, granted: nat, attempts: seq<Attempt>, gap: nat, ttl: Seconds)
    requires OnSchedule(granted, attempts, gap)
  {
    forall n | 0 <= n < |attempts| :: HeldBy(Arriving(me, granted, attempts, n, gap, ttl), me)
  }

  /** The last time before attempt `n` at which the lease is known to have been extended. */
  function LastAnswer(granted: nat, attempts: seq<Attempt>, n: nat): nat
    requires n <= |attempts|
  {
    if n == 0 then granted
    else if attempts[n - 1].kind.Returns? then attempts[n - 1].time
    else LastAnswer(granted, attempts, n - 1)
  }

  /** The raising attempts in a row just before attempt `n`. */
  function RaisesBefore(attempts: seq<Attempt>, n: nat): nat
    requires n <= |attempts|
  {
    if n == 0 || attempts[n - 1].kind.Returns? then 0 else RaisesBefore(attempts, n - 1) + 1
  }

  lemma {:induction false} RaisesAreConsecutive(attempts: seq<Attempt>, n: nat)
    requires n <= |attempts|
    ensures RaisesBefore(attempts, n) <= n
    ensures forall j | n - RaisesBefore(attempts, n) <= j < n :: attempts[j].kind.Raises?
  {
    if n > 0 && attempts[n - 1].kind.Raises? {
      RaisesAreConsecutive(attempts, n - 1);
    }
  }

  lemma RaisesBounded(attempts: seq<Attempt>, n: nat, k: nat)
    requires n <= |attempts| && AtMostRaises(attempts, k)
    ensures RaisesBefore(attempts, n) <= k
  {
    RaisesAreConsecutive(attempts, n);
    if n > k {
      assert AnswerWithin(attempts, n - 1 - k, k);
    }
  }

  lemma {:induction false} ElapsedSinceAnswer(granted: nat, attempts: seq<Attempt>, n: nat, gap: nat)
    requires n < |attempts| && OnSchedule(granted, attempts, gap)
    ensures attempts[n].time <= LastAnswer(granted, attempts, n) + (RaisesBefore(attempts, n) + 1) * gap
  {
    if n > 0 && attempts[n - 1].kind.Raises? {
      ElapsedSinceAnswer(granted, attempts, n - 1, gap);
      var r := RaisesBefore(attempts, n - 1);
      assert (r + 2) * gap == (r + 1) * gap + gap;
    }
  }

  /** The lock is held from the last answer for at least one TTL. */
  ghost predicate Secure(me: Owner, granted: nat, attempts: seq<Attempt>, n: nat, gap: nat, ttl: Seconds)
    requires n <= |attempts| && OnSchedule(granted, attempts, gap)
  {
    var k := KeysAfter(me, granted, attempts, n, gap, ttl);
    && HeldBy(k, me)
    && LastAnswer(granted, attempts, n) <= Previous(granted, attempts, n)
    && LastAnswer(granted, attempts, n) + LockTtl(ttl) <= k.lock.value.expiry
  }

  /** When the renewal script last ran for the run: at the grant, at an answered attempt, or at
      one that raised after the script. */
  function LastExecuted(granted: nat, attempts: seq<Attempt>, n: nat): nat
    requires n <= |attempts|
  {
    if n == 0 then granted
    else if attempts[n - 1].kind == Raises(false) then LastExecuted(granted, attempts, n - 1)
    else attempts[n - 1].time
  }

  /** As long as it is held, the lock runs out one TTL after the script last ran. */
  lemma {:induction false} ExpiryFollowsScript(me: Owner, granted: nat, attempts: seq<Attempt>, n: nat, gap: nat, ttl: Seconds)
    requires n <= |attempts| && OnSchedule(granted, attempts, gap)
    ensures var k := KeysAfter(me, granted, attempts, n, gap, ttl);
      HeldBy(k, me) ==> k.lock.value.expiry == LastExecuted(granted, attempts, n) + 1000 * ttl
  {
    if n > 0 {
      ExpiryFollowsScript(me, granted, attempts, n - 1, gap, ttl);
    }
  }

  lemma InTime(me: Owner, granted: nat, attempts: seq<Attempt>, n: nat, gap: nat, ttl: Seconds, k: nat)
    requires n < |attempts| && OnSchedule(granted, attempts, gap) && AtMostRaises(attempts, k)
    requires (k + 1) * gap < LockTtl(ttl) && Secure(me, granted, attempts, n, gap, ttl)
    ensures HeldBy(Arriving(me, granted, attempts, n, gap, ttl), me)
  {
    ElapsedSinceAnswer(granted, attempts, n, gap);
    RaisesBounded(attempts, n, k);
    Monotone(RaisesBefore(attempts, n) + 1, k + 1, gap);
  }

  lemma {:induction false} StaysSecure(me: Owner, granted: nat, attempts: seq<Attempt>, n: nat, gap: nat, ttl: Seconds, k: nat)
    requires n <= |attempts| && OnSchedule(granted, attempts, gap) && AtMostRaises(attempts, k)
    requires (k + 1) * gap < LockTtl(ttl)
    ensures Secure(me, granted, attempts, n, gap, ttl)
  {
    if n > 0 {
      StaysSecure(me, granted, attempts, n - 1, gap, ttl, k);
      InTime(me, granted, attempts, n - 1, gap, ttl, k);
    }
  }

  lemma Monotone(a: nat, b: nat, c: nat)
    requires a <= b
    ensures a * c <= b * c
  {
    assert (b - a) * c >= 0;
  }

  /** The worst schedule: `k` attempts raise before reaching Redis, the next one is answered. */
  function Worst(gap: nat, k: nat): seq<Attempt> {
    seq(k + 1, i requires 0 <= i => Attempt((i + 1) * gap, if i < k then Raises(false) else Returns))
  }

  lemma WorstOnSchedule(gap: nat, k: nat)
    ensures OnSchedule(0, Worst(gap, k), gap) && AtMostRaises(Worst(gap, k), k)
  {
    var attempts := Worst(gap, k);
    forall i | 0 <= i < |attempts|
      ensures Previous(0, attempts, i) <= attempts[i].time <= Previous(0, attempts, i) + gap
    {
      assert (i + 1) * gap == i * gap + gap;
    }
    forall i | 0 <= i && i + k < |attempts| ensures AnswerWithin(attempts, i, k) {
      assert attempts[k].kind.Returns?;
    }
  }

  lemma {:induction false} WorstLock(me: Owner, gap: nat, k: nat, n: nat, ttl: Seconds)
    requires n <= k && OnSchedule(0, Worst(gap, k), gap)
    ensures var lock := KeysAfter(me, 0, Worst(gap, k), n, gap, ttl).lock;
      lock.Some? ==> lock.value.expiry == LockTtl(ttl)
  {
    if n > 0 {
      WorstLock(me, gap, k, n - 1, ttl);
    }
  }

  ghost predicate AlwaysUnbroken(me: Owner, gap: nat, ttl: Seconds, k: nat) {
    forall granted, attempts | OnSchedule(granted, attempts, gap) && AtMostRaises(attempts, k) ::
      Unbroken(me, granted, attempts, gap, ttl)
  }

  /** For any largest gap, TTL and number of consecutive raising attempts tolerated: the lease
      is unbroken from grant to release on every schedule exactly if `(k + 1) * gap` is less
      than the TTL. */
  lemma UnbrokenIffMargin(me: Owner, gap: nat, ttl: Seconds, k: nat)
    ensures AlwaysUnbroken(me, gap, ttl, k) <==> (k + 1) * gap < LockTtl(ttl)
  {
    if (k + 1) * gap < LockTtl(ttl) {
      forall granted, attempts | OnSchedule(granted, attempts, gap) && AtMostRaises(attempts, k)
        ensures Unbroken(me, granted, attempts, gap, ttl)
      {
        forall n | 0 <= n < |attempts| ensures HeldBy(Arriving(me, granted, attempts, n, gap, ttl), me) {
          StaysSecure(me, granted, attempts, n, gap, ttl, k);
          InTime(me, granted, attempts, n, gap, ttl, k);
        }
      }
    } else {
      WorstOnSchedule(gap, k);
      WorstLock(me, gap, k, k, ttl);
      assert Worst(gap, k)[k].time == (k + 1) * gap;
      assert !HeldBy(Arriving(me, 0, Worst(gap, k), k, gap, ttl), me);
      assert !Unbroken(me, 0, Worst(gap, k), gap, ttl);
    }
  }

  const TTL: Seconds := 60
  const SLEEP: nat := 25000

  /** With the configured 60 s and a sleep of 25 s, when no attempt takes longer than `call`:
      one raising attempt in a row is tolerated exactly if `call` is less than 5 s, none but
      answers exactly if it is less than 35 s, and two never. */
  lemma ConfiguredMargin(me: Owner, call: nat)
    ensures AlwaysUnbroken(me, SLEEP + call, TTL, 0) <==> call < 35000
    ensures AlwaysUnbroken(me, SLEEP + call, TTL, 1) <==> call < 5000
    ensures !AlwaysUnbroken(me, SLEEP + call, TTL, 2)
  {
    UnbrokenIffMargin(me, SLEEP + call, TTL, 0);
    UnbrokenIffMargin(me, SLEEP + call, TTL, 1);
    UnbrokenIffMargin(me, SLEEP + call, TTL, 2);
  }

  /** At any time some attempt is answered no later than `(k + 1) * gap` after. */
  lemma AnsweredWithin(granted: nat, attempts: seq<Attempt>, gap: nat, k: nat, time: nat, first: nat) returns (n: nat)
    requires OnSchedule(granted, attempts, gap) && AtMostRaises(attempts, k)
    requires first + k < |attempts| && Previous(granted, attempts, first) <= time
    ensures first <= n <= first + k && attempts[n].kind.Returns? && attempts[n].time <= time + (k + 1) * gap
  {
    assert AnswerWithin(attempts, first, k);
    n :| first <= n <= first + k && n < |attempts| && attempts[n].kind.Returns?;
    TimeBetween(granted, attempts, gap, first, n);
    StepsFit(n - first, k, gap);
  }

  lemma StepsFit(steps: nat, k: nat, gap: nat)
    requires steps <= k
    ensures gap + steps * gap <= (k + 1) * gap
  {
    Monotone(steps + 1, k + 1, gap);
  }

  lemma {:induction false} TimeBetween(granted: nat, attempts: seq<Attempt>, gap: nat, i: nat, j: nat)
    requires OnSchedule(granted, attempts, gap) && i <= j < |attempts|
    ensures attempts[j].time <= attempts[i].time + (j - i) * gap
  {
    if i < j {
      TimeBetween(granted, attempts, gap, i, j - 1);
      assert (j - i) * gap == (j - 1 - i) * gap + gap;
    }
  }
}

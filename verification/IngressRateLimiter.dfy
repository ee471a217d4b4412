/** The ingress limit on report attempts per address: one fixed window per address, with periodic cleanup. */
module IngressRateLimiter {
  import opened Status
  import opened RateLimits

  const MAX_ATTEMPTS: nat := 900

  datatype Attempts = Attempts(windowStartedAt: Time, attempts: nat, touchedAt: Time)

  type AttemptTable = map<string, Attempts>

  function Retry(b: Attempts, now: Time): int {
    Max(1, Ceiling(b.windowStartedAt + WINDOW_MS - now))
  }

  predicate Lapsed(b: Attempts, now: Time) {
    now - b.windowStartedAt >= WINDOW_MS
  }

  /** A refused attempt is not counted, but it keeps the bucket from being forgotten. */
  function TakeAttempt(t: AttemptTable, ip: string, now: Time): (AttemptTable, Decision) {
    var bucket := if ip !in t || Lapsed(t[ip], now) then Attempts(now, 0, now) else t[ip];
    if bucket.attempts >= MAX_ATTEMPTS then
      (t[ip := bucket.(touchedAt := now)], Decision(false, Retry(bucket, now)))
    else
      (t[ip := Attempts(bucket.windowStartedAt, bucket.attempts + 1, now)], Decision(true, Retry(bucket, now)))
  }

  function Forget(t: AttemptTable, now: Time): AttemptTable {
    map k | k in t && !(now - t[k].touchedAt > WINDOW_MS * 2) :: t[k]
  }

  datatype Attempt = Attempt(ip: string, now: Time, sweep: bool)

  function StepAttempt(t: AttemptTable, a: Attempt): (AttemptTable, Decision) {
    TakeAttempt(if a.sweep then Forget(t, a.now) else t, a.ip, a.now)
  }

  function Answers(t: AttemptTable, attempts: seq<Attempt>): seq<Decision>
    decreases |attempts|
  {
    if attempts == [] then []
    else var (next, d) := StepAttempt(t, attempts[0]); [d] + Answers(next, attempts[1..])
  }

  /** The same attempts on a limiter that never forgets. */
  function AnswersWithoutForgetting(t: AttemptTable, attempts: seq<Attempt>): seq<Decision>
    decreases |attempts|
  {
    if attempts == [] then []
    else var (next, d) := TakeAttempt(t, attempts[0].ip, attempts[0].now); [d] + AnswersWithoutForgetting(next, attempts[1..])
  }

  predicate InOrder(now: Time, attempts: seq<Attempt>)
    decreases |attempts|
  {
    attempts == [] || (now <= attempts[0].now && InOrder(attempts[0].now, attempts[1..]))
  }

  /** What was forgotten has a lapsed window, so the next attempt starts a new one either way. */
  ghost predicate Equivalent(c: AttemptTable, n: AttemptTable, now: Time) {
    && (forall k :: k in n ==> n[k].windowStartedAt <= n[k].touchedAt <= now)
    && (forall k :: k in c ==> k in n && c[k] == n[k])
    && (forall k :: k in n && k !in c ==> Lapsed(n[k], now))
  }

  lemma {:induction false} AttemptIsEquivalent(c: AttemptTable, n: AttemptTable, now: Time, a: Attempt)
    requires Equivalent(c, n, now) && now <= a.now
    ensures StepAttempt(c, a).1 == TakeAttempt(n, a.ip, a.now).1
    ensures Equivalent(StepAttempt(c, a).0, TakeAttempt(n, a.ip, a.now).0, a.now)
  {
    hide Retry;
  }

  /** Wherever the cleanups fall, every attempt is decided as on a limiter that never forgets. */
  lemma {:induction false} IngressForgettingIsInvisible(c: AttemptTable, n: AttemptTable, now: Time, attempts: seq<Attempt>)
    requires Equivalent(c, n, now) && InOrder(now, attempts)
    ensures Answers(c, attempts) == AnswersWithoutForgetting(n, attempts)
    decreases |attempts|
  {
    hide StepAttempt, TakeAttempt, Equivalent;
    if attempts != [] {
      AttemptIsEquivalent(c, n, now, attempts[0]);
      IngressForgettingIsInvisible(StepAttempt(c, attempts[0]).0, TakeAttempt(n, attempts[0].ip, attempts[0].now).0,
        attempts[0].now, attempts[1..]);
    }
  }

  // ---------------------------------------------------------------- what is allowed

  /** The latest earlier attempt of the same address. */
  function Previous(attempts: seq<Attempt>, ip: string, n: nat): (p: int)
    requires n <= |attempts|
    ensures -1 <= p < n
    ensures p >= 0 ==> attempts[p].ip == ip
    ensures forall i :: p < i < n ==> attempts[i].ip != ip
  {
    if n == 0 then -1 else if attempts[n - 1].ip == ip then n - 1 else Previous(attempts, ip, n - 1)
  }

  /** The attempt that began the minute attempt n falls into: it does itself when the address's last minute is over. */
  function Opener(attempts: seq<Attempt>, n: nat): (w: nat)
    requires n < |attempts|
    ensures w <= n && attempts[w].ip == attempts[n].ip
    decreases n
  {
    var p := Previous(attempts, attempts[n].ip, n);
    if p < 0 || attempts[n].now - attempts[Opener(attempts, p)].now >= WINDOW_MS then n else Opener(attempts, p)
  }

  /** How many attempts of the address from w on and before n were allowed. */
  function AllowedBetween(attempts: seq<Attempt>, answers: seq<Decision>, ip: string, w: nat, n: nat): nat
    requires n <= |attempts| && |answers| == |attempts|
    decreases n
  {
    if n <= w then 0
    else AllowedBetween(attempts, answers, ip, w, n - 1) + (if attempts[n - 1].ip == ip && answers[n - 1].allowed then 1 else 0)
  }

  /** The answer names the fewest whole seconds, but at least one, until the minute of the attempt is over. */
  lemma {:induction false} RetryNamesTheRest(t: AttemptTable, ip: string, now: Time)
    ensures var (next, d) := TakeAttempt(t, ip, now);
      ip in next && WaitsFor(d.retryAfterSeconds, next[ip].windowStartedAt, now)
  {
  }

  /** The table after the first n attempts, without forgetting. */
  function KeptTable(attempts: seq<Attempt>, n: nat): AttemptTable
    requires n <= |attempts|
  {
    if n == 0 then map[] else TakeAttempt(KeptTable(attempts, n - 1), attempts[n - 1].ip, attempts[n - 1].now).0
  }

  function KeptAnswers(attempts: seq<Attempt>): (r: seq<Decision>)
    ensures |r| == |attempts|
    ensures forall n :: 0 <= n < |attempts| ==> r[n] == TakeAttempt(KeptTable(attempts, n), attempts[n].ip, attempts[n].now).1
  {
    seq(|attempts|, n requires 0 <= n < |attempts| => TakeAttempt(KeptTable(attempts, n), attempts[n].ip, attempts[n].now).1)
  }

  /** Each bucket dates from the opener of its address's latest attempt and counts what was allowed since. */
  ghost predicate Counts(attempts: seq<Attempt>, n: nat)
    requires n <= |attempts|
  {
    forall ip :: var p := Previous(attempts, ip, n);
      && (ip in KeptTable(attempts, n) <==> p >= 0)
      && (p >= 0 ==>
            var b := KeptTable(attempts, n)[ip];
            && b.windowStartedAt == attempts[Opener(attempts, p)].now
            && b.attempts == AllowedBetween(attempts, KeptAnswers(attempts), ip, Opener(attempts, p), n))
  }

  lemma {:induction false} NobodyBetween(attempts: seq<Attempt>, answers: seq<Decision>, ip: string, w: nat, n: nat)
    requires w <= n <= |attempts| && |answers| == |attempts| && forall i :: w <= i < n ==> attempts[i].ip != ip
    ensures AllowedBetween(attempts, answers, ip, w, n) == 0
  {
    if n > w { NobodyBetween(attempts, answers, ip, w, n - 1); }
  }

  lemma {:induction false} CountStep(attempts: seq<Attempt>, n: nat)
    requires n < |attempts| && Counts(attempts, n)
    ensures Counts(attempts, n + 1)
  {
    hide Retry, TakeAttempt, KeptAnswers, AllowedBetween, Opener, Previous;
    var t, next, me := KeptTable(attempts, n), KeptTable(attempts, n + 1), attempts[n].ip;
    assert next == TakeAttempt(t, me, attempts[n].now).0;
    forall ip ensures Previous(attempts, ip, n + 1) == if ip == me then n else Previous(attempts, ip, n) { PreviousStep(attempts, ip, n); }
    forall ip ensures AllowedBetween(attempts, KeptAnswers(attempts), ip, 0, 0) == 0 { NobodyBetween(attempts, KeptAnswers(attempts), ip, 0, 0); }
    forall ip | Previous(attempts, ip, n + 1) >= 0 || ip in next
      ensures Previous(attempts, ip, n + 1) >= 0 && ip in next
      ensures next[ip].windowStartedAt == attempts[Opener(attempts, Previous(attempts, ip, n + 1))].now
      ensures next[ip].attempts == AllowedBetween(attempts, KeptAnswers(attempts), ip, Opener(attempts, Previous(attempts, ip, n + 1)), n + 1)
    {
      var p := Previous(attempts, ip, n);
      assert ip in t <==> p >= 0;
      if ip == me { OwnStep(attempts, n); } else { OtherStep(attempts, n, ip); }
    }
  }

  lemma {:induction false} PreviousStep(attempts: seq<Attempt>, ip: string, n: nat)
    requires n < |attempts|
    ensures Previous(attempts, ip, n + 1) == if ip == attempts[n].ip then n else Previous(attempts, ip, n)
  {
  }

  lemma {:induction false} OtherStep(attempts: seq<Attempt>, n: nat, ip: string)
    requires n < |attempts| && ip != attempts[n].ip && Counts(attempts, n)
    ensures var t, next, p := KeptTable(attempts, n), KeptTable(attempts, n + 1), Previous(attempts, ip, n);
      && (ip in next <==> p >= 0)
      && (p >= 0 ==> next[ip].windowStartedAt == attempts[Opener(attempts, p)].now
                     && next[ip].attempts == AllowedBetween(attempts, KeptAnswers(attempts), ip, Opener(attempts, p), n + 1))
  {
    hide Retry, KeptAnswers, Opener, Previous;
    var p := Previous(attempts, ip, n);
    assert ip in KeptTable(attempts, n) <==> p >= 0;
  }

  lemma {:induction false} OwnStep(attempts: seq<Attempt>, n: nat)
    requires n < |attempts| && Counts(attempts, n)
    ensures var me, next := attempts[n].ip, KeptTable(attempts, n + 1);
      && me in next && next[me].windowStartedAt == attempts[Opener(attempts, n)].now
      && next[me].attempts == AllowedBetween(attempts, KeptAnswers(attempts), me, Opener(attempts, n), n + 1)
    ensures KeptAnswers(attempts)[n].allowed
       <==> AllowedBetween(attempts, KeptAnswers(attempts), attempts[n].ip, Opener(attempts, n), n) < MAX_ATTEMPTS
  {
    hide Retry, Previous, KeptAnswers;
    var me := attempts[n].ip;
    var p := Previous(attempts, me, n);
    assert me in KeptTable(attempts, n) <==> p >= 0;
    NobodyBetween(attempts, KeptAnswers(attempts), me, n, n);
  }

  lemma {:induction false} CountsAlways(attempts: seq<Attempt>, n: nat)
    requires n <= |attempts|
    ensures Counts(attempts, n)
  {
    hide Counts;
    if n == 0 { NothingCounts(attempts); } else { CountsAlways(attempts, n - 1); CountStep(attempts, n - 1); }
  }

  lemma {:induction false} NothingCounts(attempts: seq<Attempt>)
    ensures Counts(attempts, 0)
  {
  }

  lemma {:induction false} KeptAnswersFrom(attempts: seq<Attempt>, n: nat)
    requires n <= |attempts|
    ensures AnswersWithoutForgetting(KeptTable(attempts, n), attempts[n..]) == KeptAnswers(attempts)[n..]
    decreases |attempts| - n
  {
    hide TakeAttempt, KeptAnswers;
    if n < |attempts| {
      KeptAnswersFrom(attempts, n + 1);
      var d, rest := KeptAnswers(attempts), attempts[n..];
      assert rest[0] == attempts[n] && rest[1..] == attempts[n + 1..];
      assert d[n..] == [d[n]] + d[n + 1..];
      hide KeptTable;
    }
  }

  /**
   From an empty table, wherever the cleanups fall, an attempt is allowed exactly when fewer than 900 of its address were
   allowed in the minute it falls into; a minute begins with the first attempt after the last minute of the address.
   */
  lemma {:induction false} NineHundredAMinute(attempts: seq<Attempt>, now: Time, n: nat)
    requires InOrder(now, attempts) && n < |attempts|
    ensures |Answers(map[], attempts)| == |attempts|
    ensures Answers(map[], attempts)[n].allowed
       <==> AllowedBetween(attempts, Answers(map[], attempts), attempts[n].ip, Opener(attempts, n), n) < 900
  {
    IngressForgettingIsInvisible(map[], map[], now, attempts);
    KeptAnswersFrom(attempts, 0);
    assert attempts[0..] == attempts && KeptAnswers(attempts)[0..] == KeptAnswers(attempts);
    CountsAlways(attempts, n);
    OwnStep(attempts, n);
  }

  class EdgeIngressRateLimiter {
    var buckets: AttemptTable
    var callsSinceCleanup: nat

    constructor ()
      ensures buckets == map[] && callsSinceCleanup == 0
    {
      buckets, callsSinceCleanup := map[], 0;
    }

    method TakeOne(ip: string, now: Time) returns (d: Decision)
      modifies this
      ensures (buckets, d) == StepAttempt(old(buckets), Attempt(ip, now, old(callsSinceCleanup) >= 511))
      ensures callsSinceCleanup == if old(callsSinceCleanup) >= 511 then 0 else old(callsSinceCleanup) + 1
    {
      callsSinceCleanup := callsSinceCleanup + 1;
      if callsSinceCleanup >= 512 {
        callsSinceCleanup := 0;
        ForgetIdle(now);
      }
      var bucket := if ip !in buckets || now - buckets[ip].windowStartedAt >= WINDOW_MS then Attempts(now, 0, now) else buckets[ip];
      if bucket.attempts >= MAX_ATTEMPTS {
        bucket := bucket.(touchedAt := now);
        buckets := buckets[ip := bucket];
        return Decision(false, Retry(bucket, now));
      }
      bucket := bucket.(attempts := bucket.attempts + 1, touchedAt := now);
      buckets := buckets[ip := bucket];
      return Decision(true, Retry(bucket, now));
    }

    method ForgetIdle(now: Time)
      modifies this`buckets
      ensures buckets == Forget(old(buckets), now)
    {
      var rest := buckets.Keys;
      ghost var was := buckets;
      while rest != {}
        invariant rest <= was.Keys
        invariant buckets == map k | k in was && (k in rest || !(now - was[k].touchedAt > WINDOW_MS * 2)) :: was[k]
      {
        var k :| k in rest;
        rest := rest - {k};
        if now - buckets[k].touchedAt > WINDOW_MS * 2 { buckets := buckets - {k}; }
      }
    }
  }
}

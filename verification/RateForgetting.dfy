/** When the public rate limiter's cleanup can be noticed: exactly by a call refused after one of its buckets was swept away. */
module RateForgetting {
  import opened Status
  import opened RateLimits

  // ---------------------------------------------------------------- is forgetting noticed?

  predicate Timely(t: Table, now: Time) {
    forall k :: k in t ==> t[k].windowStartedAt <= t[k].touchedAt <= now
  }

  predicate Forgot(c: Table, n: Table, k: Key) {
    k in n && k !in c
  }

  /** A forgotten bucket is one whose window is over and that holds no slot: a new one would behave the same. */
  ghost predicate Alike(c: Table, n: Table, now: Time) {
    && Timely(n, now)
    && (forall k :: k in c ==> k in n && c[k] == n[k])
    && (forall k :: Forgot(c, n, k) ==> WindowOver(n[k], now) && n[k].activeStreams == 0)
  }

  lemma {:induction false} SweptIsAlike(c: Table, n: Table, now: Time, later: Time)
    requires Alike(c, n, now) && now <= later
    ensures Alike(c, n, later) && Alike(Sweep(c, later), n, later)
  {
  }

  lemma {:induction false} SameCurrent(c: Table, n: Table, now: Time, k: Key)
    requires Alike(c, n, now)
    ensures Current(Lookup(c, k), now) == Current(Lookup(n, k), now)
  {
  }

  /** One call decides the same on both tables, and leaves them alike unless it is refused after forgetting. */
  lemma {:induction false} TakeIsAlike(c: Table, n: Table, ip: nat, token: nat, limits: Limits, now: Time)
    requires Alike(c, n, now)
    ensures Take(c, ip, token, limits, now).1 == Take(n, ip, token, limits, now).1
    ensures Take(n, ip, token, limits, now).1.allowed || (!Forgot(c, n, Ip(ip)) && !Forgot(c, n, Token(token))) ==>
              Alike(Take(c, ip, token, limits, now).0, Take(n, ip, token, limits, now).0, now)
  {
    hide RetryAfter, Blocks, WindowOver, Alike, Current, Touch, Charged;
    SameCurrent(c, n, now, Ip(ip));
    SameCurrent(c, n, now, Token(token));
    assert Refusal(c, ip, token, limits, now) == Refusal(n, ip, token, limits, now);
    if Refusal(n, ip, token, limits, now).Some? {
      if !Forgot(c, n, Ip(ip)) && !Forgot(c, n, Token(token)) {
        TouchIsAlike(c, n, now, Ip(ip));
        TouchIsAlike(Touch(c, Ip(ip), now), Touch(n, Ip(ip), now), now, Token(token));
      }
    } else {
      var a, b := Current(Lookup(n, Ip(ip)), now), Current(Lookup(n, Token(token)), now);
      AlikeIsTimely(c, n, now);
      CurrentIsTimely(n, now, Ip(ip));
      CurrentIsTimely(n, now, Token(token));
      StoreIsAlike(c, n, now, Ip(ip), Charged(a, limits.ip, now));
      StoreIsAlike(c[Ip(ip) := Charged(a, limits.ip, now)], n[Ip(ip) := Charged(a, limits.ip, now)], now,
        Token(token), Charged(b, limits.token, now));
    }
  }

  lemma {:induction false} AlikeIsTimely(c: Table, n: Table, now: Time)
    requires Alike(c, n, now)
    ensures Timely(n, now)
  {
  }

  lemma {:induction false} TouchIsAlike(c: Table, n: Table, now: Time, k: Key)
    requires Alike(c, n, now)
    ensures !Forgot(c, n, k) ==> Alike(Touch(c, k, now), Touch(n, k, now), now)
    ensures forall j :: Forgot(Touch(c, k, now), Touch(n, k, now), j) <==> Forgot(c, n, j)
  {
  }

  lemma {:induction false} StoreIsAlike(c: Table, n: Table, now: Time, k: Key, b: Bucket)
    requires Alike(c, n, now) && b.windowStartedAt <= b.touchedAt <= now
    ensures Alike(c[k := b], n[k := b], now)
  {
  }

  lemma {:induction false} CurrentIsTimely(t: Table, now: Time, k: Key)
    requires Timely(t, now)
    ensures var b := Current(Lookup(t, k), now); b.windowStartedAt <= b.touchedAt <= now
    ensures forall limit :: var b := Charged(Current(Lookup(t, k), now), limit, now); b.windowStartedAt <= b.touchedAt <= now
  {
  }

  lemma {:induction false} ReleaseIsAlike(c: Table, n: Table, ip: nat, token: nat, now: Time)
    requires Alike(c, n, now)
    ensures Alike(Release(c, ip, token), Release(n, ip, token), now)
  {
  }

  /** The keys a call leaves in a table: those of an allowed call are added, and nothing else is. */
  lemma {:induction false} TakeKeys(t: Table, ip: nat, token: nat, limits: Limits, now: Time)
    ensures var (next, d) := Take(t, ip, token, limits, now);
      next.Keys == if d.allowed then t.Keys + {Ip(ip), Token(token)} else t.Keys
  {
    hide RetryAfter, Current, Blocks, Charged;
  }

  ghost predicate AlikeLimiters(c: Limiter, n: Limiter, now: Time) {
    Alike(c.snapshots, n.snapshots, now) && Alike(c.streams, n.streams, now)
  }

  // ---------------------------------------------------------------- what a run's history says was forgotten

  /** Call j was allowed and used the key. */
  predicate Charges(calls: seq<Call>, j: int, kind: Kind, k: Key) {
    && 0 <= j < |calls| && calls[j].TakeCall? && calls[j].kind == kind && (k == Ip(calls[j].ip) || k == Token(calls[j].token))
    && var d := Step(After(calls[..j]), calls[j]).1; d.Some? && d.value.allowed
  }

  /** Call i was a 256th call and found the key's bucket without a stream and last touched more than two windows ago. */
  predicate ForgetsAt(calls: seq<Call>, i: int, kind: Kind, k: Key) {
    && 0 <= i < |calls| && calls[i].TakeCall? && After(calls[..i]).calls >= 255
    && var t := TableOf(After(calls[..i]), kind); k in t && Forgettable(t[k], calls[i].now)
  }

  predicate SweptSince(calls: seq<Call>, i: int, kind: Kind, k: Key) {
    ForgetsAt(calls, i, kind, k) && forall j :: i <= j < |calls| ==> !Charges(calls, j, kind, k)
  }

  predicate SweptAway(calls: seq<Call>, kind: Kind, k: Key) {
    exists i :: 0 <= i < |calls| && SweptSince(calls, i, kind, k)
  }

  /** The last call is refused although a bucket of one of its keys has been swept away. */
  predicate Noticed(calls: seq<Call>) {
    calls != []
    && var c := calls[|calls| - 1];
       && c.TakeCall?
       && (var d := Step(After(calls[..|calls| - 1]), c).1; d.Some? && !d.value.allowed)
       && (SweptAway(calls, c.kind, Ip(c.ip)) || SweptAway(calls, c.kind, Token(c.token)))
  }

  predicate NeverNoticed(calls: seq<Call>) {
    forall i :: 0 < i <= |calls| ==> !Noticed(calls[..i])
  }

  lemma {:induction false} ChargesPrefix(calls: seq<Call>, n: nat, j: int, kind: Kind, k: Key)
    requires j < n <= |calls|
    ensures Charges(calls[..n], j, kind, k) <==> Charges(calls, j, kind, k)
    ensures ForgetsAt(calls[..n], j, kind, k) <==> ForgetsAt(calls, j, kind, k)
  {
    if 0 <= j { assert calls[..n][..j] == calls[..j] && calls[..n][j] == calls[j]; }
  }

  lemma {:induction false} SweptAwayStep(calls: seq<Call>, kind: Kind, k: Key)
    requires calls != []
    ensures var n := |calls| - 1;
      SweptAway(calls, kind, k) <==> (SweptAway(calls[..n], kind, k) || ForgetsAt(calls, n, kind, k)) && !Charges(calls, n, kind, k)
  {
    hide Charges, ForgetsAt;
    var n := |calls| - 1;
    forall j | 0 <= j < n
      ensures Charges(calls[..n], j, kind, k) <==> Charges(calls, j, kind, k)
      ensures ForgetsAt(calls[..n], j, kind, k) <==> ForgetsAt(calls, j, kind, k)
    {
      ChargesPrefix(calls, n, j, kind, k);
    }
    if SweptAway(calls, kind, k) {
      var i :| 0 <= i < |calls| && SweptSince(calls, i, kind, k);
      assert i < n ==> SweptSince(calls[..n], i, kind, k);
    }
    if SweptAway(calls[..n], kind, k) && !Charges(calls, n, kind, k) {
      var i :| 0 <= i < n && SweptSince(calls[..n], i, kind, k);
      assert SweptSince(calls, i, kind, k);
    }
    if ForgetsAt(calls, n, kind, k) && !Charges(calls, n, kind, k) { assert SweptSince(calls, n, kind, k); }
  }

  /** The keys that only the limiter that never forgets still holds are those that were swept away. */
  ghost predicate LosesWhatWasSwept(calls: seq<Call>) {
    forall kind, k :: Forgot(TableOf(After(calls), kind), TableOf(KeptAfter(calls), kind), k) <==> SweptAway(calls, kind, k)
  }

  ghost predicate Together(calls: seq<Call>, now: Time) {
    && AlikeLimiters(After(calls), KeptAfter(calls), now)
    && Decisions(calls) == KeptDecisions(calls)
    && LosesWhatWasSwept(calls)
  }

  lemma {:induction false} CleanedIsAlike(c: Limiter, n: Limiter, now: Time, call: Call)
    requires AlikeLimiters(c, n, now) && (call.TakeCall? ==> now <= call.now)
    ensures AlikeLimiters(Cleaned(c, call), n, if call.TakeCall? then call.now else now)
  {
    hide Sweep, Alike;
    if call.TakeCall? {
      SweptIsAlike(c.snapshots, n.snapshots, now, call.now);
      SweptIsAlike(c.streams, n.streams, now, call.now);
    }
  }

  /** One more call is decided alike, and keeps the limiters alike unless it is refused after forgetting. */
  lemma {:induction false} AnswerIsAlike(c: Limiter, n: Limiter, now: Time, call: Call)
    requires AlikeLimiters(c, n, now) && (call.TakeCall? ==> now == call.now)
    ensures Answer(c, call).1 == Answer(n, call).1
    ensures call.ReleaseCall? || Answer(n, call).1.value.allowed
            || (!Forgot(TableOf(c, call.kind), TableOf(n, call.kind), Ip(call.ip))
                && !Forgot(TableOf(c, call.kind), TableOf(n, call.kind), Token(call.token))) ==>
              AlikeLimiters(Answer(c, call).0, Answer(n, call).0, now)
  {
    hide Take, Release, Alike;
    match call
    case TakeCall(kind, ip, token, at) =>
      TakeIsAlike(TableOf(c, kind), TableOf(n, kind), ip, token, LimitsOf(kind), at);
    case ReleaseCall(ip, token) => ReleaseIsAlike(c.streams, n.streams, ip, token, now);
  }

  lemma {:induction false} ReleaseKeys(t: Table, ip: nat, token: nat)
    ensures Release(t, ip, token).Keys == t.Keys
  {
  }

  predicate Adds(call: Call, d: Option<Decision>, kind: Kind, k: Key) {
    call.TakeCall? && call.kind == kind && (k == Ip(call.ip) || k == Token(call.token)) && d.Some? && d.value.allowed
  }

  lemma {:induction false} AnswerKeys(l: Limiter, call: Call, kind: Kind, k: Key)
    ensures k in TableOf(Answer(l, call).0, kind) <==> k in TableOf(l, kind) || Adds(call, Answer(l, call).1, kind, k)
  {
    hide Take, Release;
    if call.TakeCall? {
      TakeKeys(TableOf(l, call.kind), call.ip, call.token, LimitsOf(call.kind), call.now);
    } else {
      ReleaseKeys(l.streams, call.ip, call.token);
    }
  }

  lemma {:induction false} CleanedKeys(l: Limiter, call: Call, kind: Kind, k: Key)
    ensures var t := TableOf(l, kind);
      k in TableOf(Cleaned(l, call), kind) <==> k in t && !(call.TakeCall? && l.calls >= 255 && Forgettable(t[k], call.now))
  {
  }

  /** Which keys one more call leaves lost, when it is decided alike. */
  lemma {:induction false} StepLoses(calls: seq<Call>, now: Time)
    requires calls != [] && Together(calls[..|calls| - 1], now)
    requires Step(After(calls[..|calls| - 1]), calls[|calls| - 1]).1 == Answer(KeptAfter(calls[..|calls| - 1]), calls[|calls| - 1]).1
    ensures LosesWhatWasSwept(calls)
  {
    hide Answer, Cleaned, Decisions, KeptDecisions, SweptAway, Forgettable;
    var before, call := calls[..|calls| - 1], calls[|calls| - 1];
    var c, n := After(before), KeptAfter(before);
    forall kind, k ensures Forgot(TableOf(After(calls), kind), TableOf(KeptAfter(calls), kind), k) <==> SweptAway(calls, kind, k) {
      SweptAwayStep(calls, kind, k);
      assert Forgot(TableOf(c, kind), TableOf(n, kind), k) <==> SweptAway(before, kind, k);
      assert k in TableOf(c, kind) ==> k in TableOf(n, kind);
      CleanedKeys(c, call, kind, k);
      AnswerKeys(Cleaned(c, call), call, kind, k);
      AnswerKeys(n, call, kind, k);
      assert Charges(calls, |calls| - 1, kind, k) <==> Adds(call, Step(c, call).1, kind, k);
    }
  }

  lemma {:induction false} StepTogether(calls: seq<Call>, now: Time)
    requires calls != [] && var before, c := calls[..|calls| - 1], calls[|calls| - 1];
      Together(before, now) && (c.TakeCall? ==> now == c.now)
    ensures Decisions(calls) == KeptDecisions(calls) && LosesWhatWasSwept(calls)
    ensures !Noticed(calls) ==> Together(calls, now)
  {
    hide Cleaned, Answer, SweptAway, Alike;
    var before, call := calls[..|calls| - 1], calls[|calls| - 1];
    var c, n := After(before), KeptAfter(before);
    CleanedIsAlike(c, n, now, call);
    AnswerIsAlike(Cleaned(c, call), n, now, call);
    StepLoses(calls, now);
    if call.TakeCall? {
      DecisionGiven(c, call);
      if !Step(c, call).1.value.allowed {
        RefusedKeys(Cleaned(c, call), n, call, Ip(call.ip));
        RefusedKeys(Cleaned(c, call), n, call, Token(call.token));
        assert Forgot(TableOf(After(calls), call.kind), TableOf(KeptAfter(calls), call.kind), Ip(call.ip)) <==> SweptAway(calls, call.kind, Ip(call.ip));
        assert Forgot(TableOf(After(calls), call.kind), TableOf(KeptAfter(calls), call.kind), Token(call.token)) <==> SweptAway(calls, call.kind, Token(call.token));
      }
    }
  }

  lemma {:induction false} RefusedKeys(c: Limiter, n: Limiter, call: Call, k: Key)
    requires call.TakeCall? && !Answer(c, call).1.value.allowed && !Answer(n, call).1.value.allowed
    ensures Forgot(TableOf(Answer(c, call).0, call.kind), TableOf(Answer(n, call).0, call.kind), k)
       <==> Forgot(TableOf(c, call.kind), TableOf(n, call.kind), k)
  {
    hide Take;
    TakeKeys(TableOf(c, call.kind), call.ip, call.token, LimitsOf(call.kind), call.now);
    TakeKeys(TableOf(n, call.kind), call.ip, call.token, LimitsOf(call.kind), call.now);
  }

  lemma {:induction false} LaterTogether(calls: seq<Call>, now: Time, later: Time)
    requires Together(calls, now) && now <= later
    ensures Together(calls, later)
  {
    hide Decisions, KeptDecisions, LosesWhatWasSwept;
    SweptIsAlike(After(calls).snapshots, KeptAfter(calls).snapshots, now, later);
    SweptIsAlike(After(calls).streams, KeptAfter(calls).streams, now, later);
  }

  lemma {:induction false} NothingLost(now: Time)
    ensures Together([], now)
  {
    assert forall kind, k :: !SweptAway([], kind, k);
  }

  /**
   A run in which no call is refused after one of its buckets was swept away is decided exactly as by a limiter that
   never cleans up.
   */
  lemma {:induction false} ForgettingIsInvisible(calls: seq<Call>, now: Time)
    requires InTimeOrder(calls) && Reached(calls, now) && NeverNoticed(calls)
    ensures Together(calls, now) && Decisions(calls) == KeptDecisions(calls)
  {
    hide AlikeLimiters, LosesWhatWasSwept, Noticed, Decisions, KeptDecisions;
    if calls == [] {
      NothingLost(now);
    } else {
      var before, c := calls[..|calls| - 1], calls[|calls| - 1];
      var at := if c.TakeCall? then c.now else now;
      NeverNoticedPrefix(calls);
      assert calls[..|calls|] == calls;
      ForgettingIsInvisible(before, at);
      StepTogether(calls, at);
      LaterTogether(calls, at, now);
    }
  }

  lemma {:induction false} NeverNoticedPrefix(calls: seq<Call>)
    requires calls != [] && NeverNoticed(calls)
    ensures NeverNoticed(calls[..|calls| - 1])
  {
    hide Noticed;
    var before := calls[..|calls| - 1];
    forall i | 0 < i <= |before| ensures !Noticed(before[..i]) { assert before[..i] == calls[..i]; }
  }

  // ---------------------------------------------------------------- when it is noticed

  function LimitOf(kind: Kind, k: Key): Limit {
    if k.Ip? then LimitsOf(kind).ip else LimitsOf(kind).token
  }

  /** A call with this key, and the j-th number for the other one. */
  function CallWith(kind: Kind, k: Key, j: nat, now: Time): Call {
    if k.Ip? then TakeCall(kind, k.ip, j, now) else TakeCall(kind, j, k.digest, now)
  }

  function ReleaseWith(k: Key, j: nat): Call {
    if k.Ip? then ReleaseCall(k.ip, j) else ReleaseCall(j, k.digest)
  }

  function Other(k: Key, j: nat): Key {
    if k.Ip? then Token(j) else Ip(j)
  }

  function Number(k: Key): nat {
    if k.Ip? then k.ip else k.digest
  }

  predicate NumbersBelow(calls: seq<Call>, m: nat) {
    forall i :: 0 <= i < |calls| && calls[i].TakeCall? ==> calls[i].ip < m && calls[i].token < m
  }

  predicate FreshFrom(t: Table, m: nat) {
    forall k :: k in t ==> Number(k) < m
  }

  ghost predicate BothFresh(calls: seq<Call>, m: nat) {
    forall kind :: FreshFrom(TableOf(After(calls), kind), m) && FreshFrom(TableOf(KeptAfter(calls), kind), m)
  }

  /** Then i calls one millisecond later, each with a new number for the other key; a granted stream is released at once. */
  function Exhaust(calls: seq<Call>, kind: Kind, k: Key, m: nat, at: Time, i: nat): seq<Call> {
    if i == 0 then calls
    else
      var more := Exhaust(calls, kind, k, m, at, i - 1) + [CallWith(kind, k, m + i - 1, at + 1)];
      if kind.Streams? then more + [ReleaseWith(k, m + i - 1)] else more
  }

  /** Then as many such calls as the key's limit allows, and one when the window that started at `at` is over. */
  function TellApart(calls: seq<Call>, kind: Kind, k: Key, m: nat, at: Time): seq<Call> {
    var limit := LimitOf(kind, k).requests;
    Exhaust(calls, kind, k, m, at, limit) + [CallWith(kind, k, m + limit, at + WINDOW_MS)]
  }

  /** After i of those calls: the forgetful limiter's window started with the first of them, the other's started before. */
  predicate Drifted(c: Table, n: Table, k: Key, i: nat, at: Time) {
    && k in n && n[k].windowStartedAt == at && n[k].requests == i && n[k].activeStreams == 0
    && (i == 0 ==> k !in c)
    && (i > 0 ==> k in c && c[k] == Bucket(at + 1, i, 0, at + 1))
  }

  lemma {:induction false} FreshKeys(t: Table, call: Call, m: nat)
    requires call.TakeCall? && call.ip < m && call.token < m && FreshFrom(t, m)
    ensures FreshFrom(Take(t, call.ip, call.token, LimitsOf(call.kind), call.now).0, m)
  {
    hide Take;
    TakeKeys(t, call.ip, call.token, LimitsOf(call.kind), call.now);
  }

  lemma {:induction false} CallKeepsFresh(calls: seq<Call>, c: Call, m: nat)
    requires BothFresh(calls, m) && (c.TakeCall? ==> c.ip < m && c.token < m)
    ensures BothFresh(calls + [c], m)
  {
    hide Take, Release, FreshFrom;
    OneMoreCall(calls, c);
    var l, n := After(calls), KeptAfter(calls);
    forall kind
      ensures FreshFrom(TableOf(After(calls + [c]), kind), m) && FreshFrom(TableOf(KeptAfter(calls + [c]), kind), m)
    {
      assert FreshFrom(TableOf(l, kind), m) && FreshFrom(TableOf(n, kind), m);
      if c.TakeCall? {
        SubsetIsFresh(TableOf(l, kind), TableOf(Cleaned(l, c), kind), m);
        FreshKeys(TableOf(Cleaned(l, c), c.kind), c, m) by { SubsetIsFresh(TableOf(l, c.kind), TableOf(Cleaned(l, c), c.kind), m); assert FreshFrom(TableOf(l, c.kind), m); }
        FreshKeys(TableOf(n, c.kind), c, m) by { assert FreshFrom(TableOf(n, c.kind), m); }
      } else {
        ReleaseKeys(l.streams, c.ip, c.token);
        ReleaseKeys(n.streams, c.ip, c.token);
        SubsetIsFresh(l.streams, Release(l.streams, c.ip, c.token), m);
        SubsetIsFresh(n.streams, Release(n.streams, c.ip, c.token), m);
      }
    }
  }

  lemma {:induction false} SubsetIsFresh(t: Table, u: Table, m: nat)
    requires u.Keys <= t.Keys
    ensures FreshFrom(t, m) ==> FreshFrom(u, m)
  {
    assert forall k :: k in u ==> k in u.Keys;
  }

  lemma {:induction false} RunIsFresh(calls: seq<Call>, m: nat)
    requires NumbersBelow(calls, m)
    ensures BothFresh(calls, m)
  {
    hide Step, Answer;
    if calls != [] {
      var before := calls[..|calls| - 1];
      RunIsFresh(before, m);
      assert calls == before + [calls[|calls| - 1]];
      CallKeepsFresh(before, calls[|calls| - 1], m);
    }
  }

  /** With a new number for the other key, only the bucket of `k` can block the call. */
  lemma {:induction false} NewCall(t: Table, kind: Kind, k: Key, j: nat, now: Time)
    requires Other(k, j) !in t
    ensures var call, b := CallWith(kind, k, j, now), Current(Lookup(t, k), now);
            var (next, d) := Take(t, call.ip, call.token, LimitsOf(kind), now);
      && d.allowed == !Blocks(b, LimitOf(kind, k))
      && (d.allowed ==> next == t[k := Charged(b, LimitOf(kind, k), now)][Other(k, j) := Charged(Bucket(now, 0, 0, now), LimitOf(kind, Other(k, j)), now)])
  {
    hide RetryAfter;
  }

  lemma {:induction false} CleaningKeepsDrift(l: Limiter, call: Call, n: Table, k: Key, i: nat, at: Time)
    requires call.TakeCall? && call.now <= at + 2 * WINDOW_MS && Drifted(TableOf(l, call.kind), n, k, i, at)
    ensures Drifted(TableOf(Cleaned(l, call), call.kind), n, k, i, at)
  {
  }

  /** One more of those calls. */
  lemma {:induction false} DriftStep(calls: seq<Call>, kind: Kind, k: Key, m: nat, at: Time, i: nat)
    requires i < LimitOf(kind, k).requests && BothFresh(calls, m) && Number(k) < m
    requires Drifted(TableOf(After(calls), kind), TableOf(KeptAfter(calls), kind), k, i, at)
    ensures var call := CallWith(kind, k, m, at + 1);
            var next := if kind.Streams? then calls + [call] + [ReleaseWith(k, m)] else calls + [call];
      && Step(After(calls), call).1.value.allowed
      && Drifted(TableOf(After(next), kind), TableOf(KeptAfter(next), kind), k, i + 1, at)
      && BothFresh(next, m + 1)
  {
    hide Take, Sweep, Cleaned, Release, Drifted, Decisions, KeptDecisions, BothFresh;
    var call := CallWith(kind, k, m, at + 1);
    var c, n := Cleaned(After(calls), call), KeptAfter(calls);
    CleaningKeepsDrift(After(calls), call, TableOf(n, kind), k, i, at);
    BothAreFresh(calls, call, kind, m);
    OtherIsFresh(TableOf(c, kind), k, m);
    OtherIsFresh(TableOf(n, kind), k, m);
    DriftedCall(TableOf(c, kind), TableOf(n, kind), kind, k, m, at, i);
    assert call.TakeCall? && call.kind == kind && call.now == at + 1;
    WithTableOf(c, n, call);
    OneMoreCall(calls, call);
    MoreIsFresh(calls, m);
    CallKeepsFresh(calls, call, m + 1);
    if kind.Streams? {
      var free := ReleaseWith(k, m);
      OneMoreCall(calls + [call], free);
      CallKeepsFresh(calls + [call], free, m + 1);
      assert free.ReleaseCall?;
      ReleaseIsStep(After(calls + [call]), free);
      ReleaseIsStep(KeptAfter(calls + [call]), free);
    }
  }

  lemma {:induction false} BothAreFresh(calls: seq<Call>, call: Call, kind: Kind, m: nat)
    requires BothFresh(calls, m)
    ensures FreshFrom(TableOf(Cleaned(After(calls), call), kind), m) && FreshFrom(TableOf(KeptAfter(calls), kind), m)
  {
    hide FreshFrom;
    assert FreshFrom(TableOf(After(calls), kind), m) && FreshFrom(TableOf(KeptAfter(calls), kind), m);
    SweepKeys(After(calls), call, kind);
    SubsetIsFresh(TableOf(After(calls), kind), TableOf(Cleaned(After(calls), call), kind), m);
  }

  lemma {:induction false} OtherIsFresh(t: Table, k: Key, m: nat)
    requires FreshFrom(t, m)
    ensures Other(k, m) !in t
  {
  }

  /** What one such call, and the release of what it granted, do to drifted tables. */
  lemma {:induction false} DriftedCall(c: Table, n: Table, kind: Kind, k: Key, m: nat, at: Time, i: nat)
    requires Drifted(c, n, k, i, at) && i < LimitOf(kind, k).requests && Other(k, m) !in c && Other(k, m) !in n
    ensures var call, free := CallWith(kind, k, m, at + 1), ReleaseWith(k, m);
            var (c', d) := Take(c, call.ip, call.token, LimitsOf(kind), at + 1);
            var (n', _) := Take(n, call.ip, call.token, LimitsOf(kind), at + 1);
      && d.allowed
      && (kind.Snapshots? ==> Drifted(c', n', k, i + 1, at))
      && (kind.Streams? ==> Drifted(Release(c', free.ip, free.token), Release(n', free.ip, free.token), k, i + 1, at))
  {
    NewCall(c, kind, k, m, at + 1);
    NewCall(n, kind, k, m, at + 1);
    hide Take, Release;
    var call := CallWith(kind, k, m, at + 1);
    FreesBoth(Take(c, call.ip, call.token, LimitsOf(kind), at + 1).0, k, m);
    FreesBoth(Take(n, call.ip, call.token, LimitsOf(kind), at + 1).0, k, m);
  }

  lemma {:induction false} SweepKeys(l: Limiter, call: Call, kind: Kind)
    ensures TableOf(Cleaned(l, call), kind).Keys <= TableOf(l, kind).Keys
  {
  }

  lemma {:induction false} MoreIsFresh(calls: seq<Call>, m: nat)
    requires BothFresh(calls, m)
    ensures BothFresh(calls, m + 1)
  {
    forall kind ensures FreshFrom(TableOf(After(calls), kind), m + 1) && FreshFrom(TableOf(KeptAfter(calls), kind), m + 1) {
      assert FreshFrom(TableOf(After(calls), kind), m) && FreshFrom(TableOf(KeptAfter(calls), kind), m);
    }
  }

  lemma {:induction false} FreesBoth(t: Table, k: Key, j: nat)
    requires k in t && Other(k, j) in t
    ensures var free := ReleaseWith(k, j); k in Release(t, free.ip, free.token) && Release(t, free.ip, free.token)[k] == Freed(t[k])
  {
  }

  lemma {:induction false} ExhaustDrifts(calls: seq<Call>, kind: Kind, k: Key, m: nat, at: Time, i: nat)
    requires i <= LimitOf(kind, k).requests && BothFresh(calls, m) && Number(k) < m
    requires Drifted(TableOf(After(calls), kind), TableOf(KeptAfter(calls), kind), k, 0, at)
    ensures var run := Exhaust(calls, kind, k, m, at, i);
      && Drifted(TableOf(After(run), kind), TableOf(KeptAfter(run), kind), k, i, at)
      && BothFresh(run, m + i)
  {
    hide Drifted, BothFresh, After, KeptAfter, TableOf, CallWith, LimitOf;
    if i > 0 {
      ExhaustDrifts(calls, kind, k, m, at, i - 1);
      DriftStep(Exhaust(calls, kind, k, m, at, i - 1), kind, k, m + i - 1, at, i - 1);
    }
  }

  // ---------------------------------------------------------------- those calls are a run

  predicate Run(calls: seq<Call>) {
    InTimeOrder(calls) && ReleasesGranted(calls)
  }

  lemma {:induction false} RunGrows(calls: seq<Call>, c: Call, now: Time)
    requires Run(calls) && Reached(calls, now)
    requires if c.TakeCall? then now <= c.now else Grant(c.ip, c.token) in OpenAfter(calls)
    ensures Run(calls + [c]) && Reached(calls + [c], if c.TakeCall? then c.now else now)
  {
    hide OpenAfter;
    assert forall i :: 0 <= i <= |calls| ==> (calls + [c])[..i] == calls[..i];
    assert calls[..|calls|] == calls;
  }

  lemma {:induction false} GrantedIsOpen(calls: seq<Call>, c: Call)
    requires c.TakeCall? && c.kind.Streams? && Step(After(calls), c).1.value.allowed
    ensures Grant(c.ip, c.token) in OpenAfter(calls + [c])
  {
    hide Step;
    assert (calls + [c])[..|calls|] == calls;
    DecisionGiven(After(calls), c);
  }

  lemma {:induction false} ExhaustIsRun(calls: seq<Call>, kind: Kind, k: Key, m: nat, at: Time, i: nat)
    requires i <= LimitOf(kind, k).requests && BothFresh(calls, m) && Number(k) < m && Run(calls) && Reached(calls, at)
    requires Drifted(TableOf(After(calls), kind), TableOf(KeptAfter(calls), kind), k, 0, at)
    ensures var run := Exhaust(calls, kind, k, m, at, i); Run(run) && Reached(run, at + 1) && calls <= run
  {
    hide Drifted, BothFresh, After, KeptAfter, TableOf, LimitOf, Run, OpenAfter, Step, Number;
    if i > 0 {
      ExhaustDrifts(calls, kind, k, m, at, i - 1);
      ExhaustIsRun(calls, kind, k, m, at, i - 1);
      var before, call := Exhaust(calls, kind, k, m, at, i - 1), CallWith(kind, k, m + i - 1, at + 1);
      DriftStep(before, kind, k, m + i - 1, at, i - 1);
      RunGrows(before, call, at + 1);
      if kind.Streams? {
        GrantedIsOpen(before, call);
        RunGrows(before + [call], ReleaseWith(k, m + i - 1), at + 1);
      }
    }
  }

  /** The key whose bucket was swept away before the noticed refusal. */
  function SweptKey(calls: seq<Call>): Key
    requires Noticed(calls)
  {
    var c := calls[|calls| - 1];
    if SweptAway(calls, c.kind, Ip(c.ip)) then Ip(c.ip) else Token(c.token)
  }

  lemma {:induction false} NoticedParts(calls: seq<Call>)
    requires Noticed(calls)
    ensures var c, l := calls[|calls| - 1], After(calls[..|calls| - 1]);
      && c.TakeCall? && !Step(l, c).1.value.allowed
      && SweptAway(calls, c.kind, SweptKey(calls)) && (SweptKey(calls) == Ip(c.ip) || SweptKey(calls) == Token(c.token))
  {
    hide Step;
    DecisionGiven(After(calls[..|calls| - 1]), calls[|calls| - 1]);
  }

  lemma {:induction false} NoticedDrifts(calls: seq<Call>)
    requires InTimeOrder(calls) && Noticed(calls) && NeverNoticed(calls[..|calls| - 1])
    ensures var c := calls[|calls| - 1];
      Drifted(TableOf(After(calls), c.kind), TableOf(KeptAfter(calls), c.kind), SweptKey(calls), 0, c.now)
  {
    var before, call, k := calls[..|calls| - 1], calls[|calls| - 1], SweptKey(calls);
    NoticedParts(calls);
    hide SweptAway, SweptKey, Noticed, Sweep, Cleaned, Refusal, RetryAfter, TableOf;
    ForgettingIsInvisible(before, call.now);
    StepTogether(calls, call.now);
    assert Forgot(TableOf(After(calls), call.kind), TableOf(KeptAfter(calls), call.kind), k) <==> SweptAway(calls, call.kind, k);
    var c, n := Cleaned(After(before), call), KeptAfter(before);
    CleanedIsAlike(After(before), n, call.now, call);
    AnswerIsAlike(c, n, call.now, call);
    RefusedKeys(c, n, call, k);
    assert Forgot(TableOf(c, call.kind), TableOf(n, call.kind), k);
    RefusedStartsWindow(TableOf(c, call.kind), TableOf(n, call.kind), call, k);
    WithTableOf(c, n, call);
  }

  lemma {:induction false} WithTableOf(c: Limiter, n: Limiter, call: Call)
    requires call.TakeCall?
    ensures TableOf(Answer(c, call).0, call.kind) == Take(TableOf(c, call.kind), call.ip, call.token, LimitsOf(call.kind), call.now).0
    ensures TableOf(Answer(n, call).0, call.kind) == Take(TableOf(n, call.kind), call.ip, call.token, LimitsOf(call.kind), call.now).0
    ensures Answer(n, call).1 == Some(Take(TableOf(n, call.kind), call.ip, call.token, LimitsOf(call.kind), call.now).1)
  {
    hide Take;
  }

  /** A refused call starts a new window in the kept bucket, and stores none where it was forgotten. */
  lemma {:induction false} RefusedStartsWindow(c: Table, n: Table, call: Call, k: Key)
    requires call.TakeCall? && Alike(c, n, call.now) && Forgot(c, n, k) && (k == Ip(call.ip) || k == Token(call.token))
    requires !Take(n, call.ip, call.token, LimitsOf(call.kind), call.now).1.allowed
    ensures Drifted(Take(c, call.ip, call.token, LimitsOf(call.kind), call.now).0,
                    Take(n, call.ip, call.token, LimitsOf(call.kind), call.now).0, k, 0, call.now)
  {
    hide RetryAfter, Blocks;
    TakeIsAlike(c, n, call.ip, call.token, LimitsOf(call.kind), call.now);
  }

  /**
   From a call refused after one of its buckets was swept away, this continuation of the run, with its own cleanups, is
   decided differently: its last call is refused, and a limiter that never forgets would allow it.
   */
  lemma {:induction false} ForgettingShows(calls: seq<Call>, m: nat)
    requires Run(calls) && Noticed(calls) && NeverNoticed(calls[..|calls| - 1]) && NumbersBelow(calls, m)
    ensures var c := calls[|calls| - 1];
            var run := TellApart(calls, c.kind, SweptKey(calls), m, c.now);
      && calls <= run && Run(run)
      && (var d, d' := Decisions(run)[|run| - 1], KeptDecisions(run)[|run| - 1];
          d.Some? && d'.Some? && !d.value.allowed && d'.value.allowed)
  {
    KnownNumbers(calls, m);
    var c, k := calls[|calls| - 1], SweptKey(calls);
    RunParts(calls);
    NoticedDrifts(calls);
    ReachedByLast(calls);
    RunIsFresh(calls, m);
    hide *;
    ContinuationShows(calls, c.kind, k, m, c.now);
  }

  lemma {:induction false} ContinuationShows(calls: seq<Call>, kind: Kind, k: Key, m: nat, at: Time)
    requires Run(calls) && Reached(calls, at) && BothFresh(calls, m) && Number(k) < m
    requires Drifted(TableOf(After(calls), kind), TableOf(KeptAfter(calls), kind), k, 0, at)
    ensures var run := TellApart(calls, kind, k, m, at);
      && calls <= run && Run(run)
      && (var d, d' := Decisions(run)[|run| - 1], KeptDecisions(run)[|run| - 1];
          d.Some? && d'.Some? && !d.value.allowed && d'.value.allowed)
  {
    var limit := LimitOf(kind, k).requests;
    hide Run, Reached, BothFresh, Drifted, Exhaust, Decisions, KeptDecisions, After, KeptAfter, CallWith, LimitOf;
    ExhaustDrifts(calls, kind, k, m, at, limit);
    ExhaustIsRun(calls, kind, k, m, at, limit);
    LastCallShows(Exhaust(calls, kind, k, m, at, limit), kind, k, m + limit, at);
  }

  lemma {:induction false} LastCallShows(calls: seq<Call>, kind: Kind, k: Key, m: nat, at: Time)
    requires Run(calls) && Reached(calls, at + 1) && BothFresh(calls, m)
    requires Drifted(TableOf(After(calls), kind), TableOf(KeptAfter(calls), kind), k, LimitOf(kind, k).requests, at)
    ensures var run := calls + [CallWith(kind, k, m, at + WINDOW_MS)];
      && Run(run)
      && (var d, d' := Decisions(run)[|run| - 1], KeptDecisions(run)[|run| - 1];
          d.Some? && d'.Some? && !d.value.allowed && d'.value.allowed)
  {
    hide Run, BothFresh, Drifted, Decisions, KeptDecisions, After, KeptAfter, Step, Answer, LimitOf;
    var last := CallWith(kind, k, m, at + WINDOW_MS);
    RunGrows(calls, last, at + 1);
    OneMoreCall(calls, last);
    LastCall(calls, kind, k, m, at);
  }

  lemma {:induction false} RunParts(calls: seq<Call>)
    ensures Run(calls) <==> InTimeOrder(calls) && ReleasesGranted(calls)
  {
  }

  lemma {:induction false} KnownNumbers(calls: seq<Call>, m: nat)
    requires Noticed(calls) && NumbersBelow(calls, m)
    ensures calls != [] && calls[|calls| - 1].TakeCall? && Number(SweptKey(calls)) < m
  {
  }

  lemma {:induction false} ReachedByLast(calls: seq<Call>)
    requires InTimeOrder(calls) && calls != [] && calls[|calls| - 1].TakeCall?
    ensures Reached(calls, calls[|calls| - 1].now)
  {
  }

  lemma {:induction false} LastCall(calls: seq<Call>, kind: Kind, k: Key, m: nat, at: Time)
    requires BothFresh(calls, m) && Drifted(TableOf(After(calls), kind), TableOf(KeptAfter(calls), kind), k, LimitOf(kind, k).requests, at)
    ensures var call := CallWith(kind, k, m, at + WINDOW_MS);
      && Step(After(calls), call).1.Some? && Answer(KeptAfter(calls), call).1.Some?
      && !Step(After(calls), call).1.value.allowed && Answer(KeptAfter(calls), call).1.value.allowed
  {
    hide Take, Sweep;
    var call := CallWith(kind, k, m, at + WINDOW_MS);
    var c, n := TableOf(Cleaned(After(calls), call), kind), TableOf(KeptAfter(calls), kind);
    CleaningKeepsDrift(After(calls), call, n, k, LimitOf(kind, k).requests, at);
    BothAreFresh(calls, call, kind, m);
    NewCall(c, kind, k, m, at + WINDOW_MS);
    NewCall(n, kind, k, m, at + WINDOW_MS);
  }

  // ---------------------------------------------------------------- a run of the limiter from empty tables

  const FirstCall := TakeCall(Snapshots, 0, 0, 0)

  const Filler := TakeCall(Snapshots, 5, 1, 120_001)

  /** One call, and n calls from another address more than two windows later. */
  function Busy(n: nat): seq<Call> {
    if n == 0 then [FirstCall] else Busy(n - 1) + [Filler]
  }

  function BusyTable(n: nat): Table {
    var stored := map[Ip(0) := Bucket(0, 1, 0, 0), Token(0) := Bucket(0, 1, 0, 0)];
    var count := if n < 120 then n else 120;
    if n == 0 then stored
    else stored[Ip(5) := Bucket(120_001, count, 0, 120_001)][Token(1) := Bucket(120_001, count, 0, 120_001)]
  }

  lemma {:induction false} BusyState(n: nat)
    requires n <= 254
    ensures |Busy(n)| == n + 1 && After(Busy(n)) == Limiter(BusyTable(n), map[], n + 1)
    ensures forall i :: 0 <= i <= n ==> Busy(n)[i] == if i == 0 then FirstCall else Filler
  {
    hide Step, Answer, BusyTable;
    if n == 0 {
      assert Busy(0)[..0] == [];
      BusyFirst();
    } else {
      BusyState(n - 1);
      OneMoreCall(Busy(n - 1), Filler);
      BusyCall(n - 1);
    }
  }

  lemma {:induction false} BusyFirst()
    ensures Step(NewLimiter, FirstCall).0 == Limiter(BusyTable(0), map[], 1)
  {
    hide RetryAfter;
  }

  lemma {:induction false} BusyCall(n: nat)
    requires n < 254
    ensures Step(Limiter(BusyTable(n), map[], n + 1), Filler).0 == Limiter(BusyTable(n + 1), map[], n + 2)
  {
    hide RetryAfter;
    var t, next := BusyTable(n), Take(BusyTable(n), 5, 1, SNAPSHOT_LIMITS, 120_001).0;
    if n < 120 {
      assert next == BusyTable(n + 1);
    } else {
      assert Touch(t, Ip(5), 120_001) == t && Touch(t, Token(1), 120_001) == t;
    }
  }

  lemma {:induction false} BusyPrefix(n: nat, i: nat)
    requires i < n <= 254
    ensures |Busy(n)| == n + 1 && Busy(n)[..i + 1] == Busy(i)
  {
    BusyState(n);
    BusyState(i);
  }

  /** Fewer than 256 calls forget nothing. */
  lemma {:induction false} BusySweepsNothing(n: nat, kind: Kind, k: Key)
    requires n <= 254
    ensures !SweptAway(Busy(n), kind, k)
  {
    hide After, Charges;
    BusyState(n);
    forall i | 0 <= i < |Busy(n)| ensures !ForgetsAt(Busy(n), i, kind, k) {
      if i > 0 {
        BusyPrefix(n, i - 1);
        BusyState(i - 1);
      } else {
        assert Busy(n)[..0] == [];
        NothingAfter();
      }
    }
  }

  lemma {:induction false} NothingAfter()
    ensures After([]) == NewLimiter
  {
  }

  lemma {:induction false} BusyIsQuiet(n: nat)
    requires n <= 254
    ensures NeverNoticed(Busy(n)) && InTimeOrder(Busy(n)) && ReleasesGranted(Busy(n)) && NumbersBelow(Busy(n), 6)
  {
    hide SweptAway, OpenAfter, After, Busy;
    BusyState(n);
    forall i | 0 < i <= |Busy(n)| ensures !Noticed(Busy(n)[..i]) {
      if i == |Busy(n)| { assert Busy(n)[..i] == Busy(n); } else { BusyPrefix(n, i - 1); }
      var c := Busy(i - 1)[i - 1];
      BusyState(i - 1);
      BusySweepsNothing(i - 1, c.kind, Ip(c.ip));
      BusySweepsNothing(i - 1, c.kind, Token(c.token));
    }
  }

  /** The 256th call: its address is over its limit, and its token was last used more than two windows ago. */
  const LastFiller := TakeCall(Snapshots, 5, 0, 120_001)

  const NoticedRun := Busy(254) + [LastFiller]

  lemma {:induction false} RunIsNoticed()
    ensures Noticed(NoticedRun) && SweptKey(NoticedRun) == Token(0)
  {
    hide RetryAfter, Busy, BusyTable;
    BusyState(254);
    assert NoticedRun[..255] == Busy(254) && |NoticedRun| == 256 && NoticedRun[255] == LastFiller;
    LastFillerIsRefused();
    hide Step;
    TokenIsIdle();
    assert ForgetsAt(NoticedRun, 255, Snapshots, Token(0)) && !ForgetsAt(NoticedRun, 255, Snapshots, Ip(5));
    assert SweptSince(NoticedRun, 255, Snapshots, Token(0));
    BusySweepsNothing(254, Snapshots, Ip(5));
    SweptAwayStep(NoticedRun, Snapshots, Ip(5));
  }

  lemma {:induction false} TokenIsIdle()
    ensures Token(0) in BusyTable(254) && Forgettable(BusyTable(254)[Token(0)], 120_001)
    ensures Ip(5) in BusyTable(254) ==> !Forgettable(BusyTable(254)[Ip(5)], 120_001)
  {
  }

  lemma {:induction false} LastFillerIsRefused()
    ensures var d := Step(Limiter(BusyTable(254), map[], 255), LastFiller).1; d.Some? && !d.value.allowed
  {
    hide RetryAfter;
  }

  /**
   A run from empty tables: the cleanup of its 256th call forgets a token, that call is refused for its address, and
   some ten thousand calls later one is refused that a limiter without cleanups would have allowed.
   */
  lemma {:induction false} CleanupChangesADecision()
    ensures var run := TellApart(NoticedRun, Snapshots, Token(0), 6, 120_001);
      && NoticedRun <= run && Run(run)
      && (var d, d' := Decisions(run)[|run| - 1], KeptDecisions(run)[|run| - 1];
          d.Some? && d'.Some? && !d.value.allowed && d'.value.allowed)
  {
    BusyIsQuiet(254);
    BusyState(254);
    RunIsNoticed();
    hide Busy, After, OpenAfter;
    BusyReached();
    RunParts(Busy(254));
    RunGrows(Busy(254), LastFiller, 120_001);
    assert NoticedRun[..|NoticedRun| - 1] == Busy(254) && NoticedRun[|NoticedRun| - 1] == LastFiller;
    hide Noticed, Run, Decisions, KeptDecisions, TellApart, NeverNoticed, SweptKey;
    ForgettingShows(NoticedRun, 6);
  }

  lemma {:induction false} BusyReached()
    ensures Reached(Busy(254), 120_001) && NumbersBelow(NoticedRun, 6)
  {
    BusyState(254);
    hide Busy;
  }
}

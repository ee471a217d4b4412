/**
 Fixed-window rate limits with periodic cleanup: what one call decides, and what a stream's slot count means in every run.
 Addresses and token digests are opaque numbers.
 */
module RateLimits {
  import opened Status

  const WINDOW_MS: int := 60_000

  datatype Key = Ip(ip: nat) | Token(digest: nat)

  datatype Bucket = Bucket(windowStartedAt: Time, requests: nat, activeStreams: nat, touchedAt: Time)

  type Table = map<Key, Bucket>

  /** No limit on concurrent streams for snapshots. */
  datatype Limit = Limit(requests: nat, active: Option<nat>)

  datatype Limits = Limits(ip: Limit, token: Limit)

  const SNAPSHOT_LIMITS := Limits(Limit(120, None), Limit(10_000, None))

  const STREAM_LIMITS := Limits(Limit(20, Some(5)), Limit(2_000, Some(1_000)))

  datatype Decision = Decision(allowed: bool, retryAfterSeconds: int)

  // ---------------------------------------------------------------- one call

  function Ceiling(ms: int): int {
    -((-ms) / 1000)
  }

  function RetryAfter(b: Bucket, now: Time): int {
    Max(1, Ceiling(b.windowStartedAt + WINDOW_MS - now))
  }

  predicate WindowOver(b: Bucket, now: Time) {
    now - b.windowStartedAt >= WINDOW_MS
  }

  function Lookup(t: Table, k: Key): Option<Bucket> {
    if k in t then Some(t[k]) else None
  }

  function Current(o: Option<Bucket>, now: Time): Bucket {
    if o.None? then Bucket(now, 0, 0, now)
    else if WindowOver(o.value, now) then Bucket(now, 0, o.value.activeStreams, now)
    else o.value
  }

  predicate Blocks(b: Bucket, limit: Limit) {
    b.requests >= limit.requests || (limit.active.Some? && b.activeStreams >= limit.active.value)
  }

  function Charged(b: Bucket, limit: Limit, now: Time): Bucket {
    Bucket(b.windowStartedAt, b.requests + 1, b.activeStreams + (if limit.active.Some? then 1 else 0), now)
  }

  /** A bucket that exists is brought up to date in place even when the call is refused; a new one is not stored then. */
  function Touch(t: Table, k: Key, now: Time): Table {
    if k in t then t[k := Current(Some(t[k]), now)] else t
  }

  function Refusal(t: Table, ip: nat, token: nat, limits: Limits, now: Time): Option<Bucket> {
    var a, b := Current(Lookup(t, Ip(ip)), now), Current(Lookup(t, Token(token)), now);
    if Blocks(a, limits.ip) then Some(a) else if Blocks(b, limits.token) then Some(b) else None
  }

  function Take(t: Table, ip: nat, token: nat, limits: Limits, now: Time): (Table, Decision) {
    var a, b := Current(Lookup(t, Ip(ip)), now), Current(Lookup(t, Token(token)), now);
    var refusal := Refusal(t, ip, token, limits, now);
    if refusal.Some? then
      (Touch(Touch(t, Ip(ip), now), Token(token), now), Decision(false, RetryAfter(refusal.value, now)))
    else
      (t[Ip(ip) := Charged(a, limits.ip, now)][Token(token) := Charged(b, limits.token, now)],
       Decision(true, Max(RetryAfter(a, now), RetryAfter(b, now))))
  }

  function Freed(b: Bucket): Bucket {
    b.(activeStreams := if b.activeStreams < 1 then 0 else b.activeStreams - 1)
  }

  /** Ending a granted stream gives its two slots back. */
  function Release(t: Table, ip: nat, token: nat): Table {
    var freed := if Ip(ip) in t then t[Ip(ip) := Freed(t[Ip(ip)])] else t;
    if Token(token) in freed then freed[Token(token) := Freed(freed[Token(token)])] else freed
  }

  predicate Forgettable(b: Bucket, now: Time) {
    b.activeStreams == 0 && now - b.touchedAt > WINDOW_MS * 2
  }

  function Sweep(t: Table, now: Time): Table {
    map k | k in t && !Forgettable(t[k], now) :: t[k]
  }

  // ---------------------------------------------------------------- what a refusal says

  /** The fewest whole seconds, but at least one, after which the window that started then is over. */
  predicate WaitsFor(seconds: int, windowStartedAt: Time, now: Time) {
    && seconds >= 1 && windowStartedAt + 60_000 <= now + 1000 * seconds
    && (seconds > 1 ==> now + 1000 * (seconds - 1) < windowStartedAt + 60_000)
  }

  lemma {:induction false} RetryWaits(b: Bucket, now: Time)
    ensures WaitsFor(RetryAfter(b, now), b.windowStartedAt, now)
  {
  }

  predicate Full(b: Bucket, limit: Limit) {
    b.requests >= limit.requests || (limit.active.Some? && b.activeStreams >= limit.active.value)
  }

  /** The bucket a call meets: as it is while its minute lasts, and without requests afterwards. */
  predicate Meets(o: Option<Bucket>, now: Time, b: Bucket) {
    match o
    case None => b.windowStartedAt == now && b.requests == 0 && b.activeStreams == 0
    case Some(stored) =>
      if now < stored.windowStartedAt + 60_000 then b == stored
      else b.windowStartedAt == now && b.requests == 0 && b.activeStreams == stored.activeStreams
  }

  /**
   A call is allowed exactly when neither of the buckets it meets is full. A refusal names the seconds until the window of
   a full one, the address's if it is full, is over; an allowed call those until both are.
   */
  lemma {:induction false} TakeDecides(t: Table, ip: nat, token: nat, limits: Limits, now: Time)
    ensures var d := Take(t, ip, token, limits, now).1;
      exists a: Bucket, b: Bucket ::
        && Meets(Lookup(t, Ip(ip)), now, a) && Meets(Lookup(t, Token(token)), now, b)
        && (d.allowed <==> !Full(a, limits.ip) && !Full(b, limits.token))
        && (!d.allowed ==> WaitsFor(d.retryAfterSeconds, (if Full(a, limits.ip) then a else b).windowStartedAt, now))
        && (d.allowed ==> WaitsFor(d.retryAfterSeconds, Max(a.windowStartedAt, b.windowStartedAt), now))
  {
    var a, b := Current(Lookup(t, Ip(ip)), now), Current(Lookup(t, Token(token)), now);
    CurrentMeets(Lookup(t, Ip(ip)), now);
    CurrentMeets(Lookup(t, Token(token)), now);
    RetryWaits(a, now);
    RetryWaits(b, now);
    LaterWaits(a, b, now);
    TakeAnswers(t, ip, token, limits, now);
    hide RetryAfter, Current, Meets, Full, Take, WaitsFor;
  }

  lemma {:induction false} CurrentMeets(o: Option<Bucket>, now: Time)
    ensures Meets(o, now, Current(o, now))
  {
  }

  lemma {:induction false} LaterWaits(a: Bucket, b: Bucket, now: Time)
    ensures WaitsFor(Max(RetryAfter(a, now), RetryAfter(b, now)), Max(a.windowStartedAt, b.windowStartedAt), now)
  {
  }

  lemma {:induction false} TakeAnswers(t: Table, ip: nat, token: nat, limits: Limits, now: Time)
    ensures var a, b, d := Current(Lookup(t, Ip(ip)), now), Current(Lookup(t, Token(token)), now), Take(t, ip, token, limits, now).1;
      && (d.allowed <==> !Full(a, limits.ip) && !Full(b, limits.token))
      && (!d.allowed ==> d.retryAfterSeconds == RetryAfter(if Full(a, limits.ip) then a else b, now))
      && (d.allowed ==> d.retryAfterSeconds == Max(RetryAfter(a, now), RetryAfter(b, now)))
  {
    hide RetryAfter, Current;
  }

  // ---------------------------------------------------------------- the limiter

  datatype Kind = Snapshots | Streams

  /** The two tables and the number of calls since the last cleanup. */
  datatype Limiter = Limiter(snapshots: Table, streams: Table, calls: nat)

  const NewLimiter := Limiter(map[], map[], 0)

  datatype Call =
    | TakeCall(kind: Kind, ip: nat, token: nat, now: Time)
    | ReleaseCall(ip: nat, token: nat)

  function LimitsOf(kind: Kind): Limits {
    if kind.Snapshots? then SNAPSHOT_LIMITS else STREAM_LIMITS
  }

  function TableOf(l: Limiter, kind: Kind): Table {
    if kind.Snapshots? then l.snapshots else l.streams
  }

  function WithTable(l: Limiter, kind: Kind, t: Table): Limiter {
    if kind.Snapshots? then l.(snapshots := t) else l.(streams := t)
  }

  /** Every 256th call, of either kind, forgets the idle buckets of both tables. */
  function Cleanup(l: Limiter, now: Time): Limiter {
    if l.calls + 1 < 256 then l.(calls := l.calls + 1) else Limiter(Sweep(l.snapshots, now), Sweep(l.streams, now), 0)
  }

  function Cleaned(l: Limiter, c: Call): Limiter {
    if c.TakeCall? then Cleanup(l, c.now) else l
  }

  /** A call without the cleanup that precedes it. */
  function Answer(l: Limiter, c: Call): (Limiter, Option<Decision>) {
    match c
    case TakeCall(kind, ip, token, now) =>
      var (t, d) := Take(TableOf(l, kind), ip, token, LimitsOf(kind), now);
      (WithTable(l, kind, t), Some(d))
    case ReleaseCall(ip, token) => (l.(streams := Release(l.streams, ip, token)), None)
  }

  function Step(l: Limiter, c: Call): (Limiter, Option<Decision>) {
    Answer(Cleaned(l, c), c)
  }

  // ---------------------------------------------------------------- runs

  function After(calls: seq<Call>): Limiter {
    if calls == [] then NewLimiter else Step(After(calls[..|calls| - 1]), calls[|calls| - 1]).0
  }

  function Decisions(calls: seq<Call>): (r: seq<Option<Decision>>)
    ensures |r| == |calls|
  {
    if calls == [] then []
    else Decisions(calls[..|calls| - 1]) + [Step(After(calls[..|calls| - 1]), calls[|calls| - 1]).1]
  }

  /** The same calls on a limiter that never forgets a bucket. */
  function KeptAfter(calls: seq<Call>): Limiter {
    if calls == [] then NewLimiter else Answer(KeptAfter(calls[..|calls| - 1]), calls[|calls| - 1]).0
  }

  function KeptDecisions(calls: seq<Call>): (r: seq<Option<Decision>>)
    ensures |r| == |calls|
  {
    if calls == [] then []
    else KeptDecisions(calls[..|calls| - 1]) + [Answer(KeptAfter(calls[..|calls| - 1]), calls[|calls| - 1]).1]
  }

  predicate Reached(calls: seq<Call>, now: Time) {
    forall i :: 0 <= i < |calls| && calls[i].TakeCall? ==> calls[i].now <= now
  }

  predicate InTimeOrder(calls: seq<Call>) {
    forall i, j {:trigger calls[i], calls[j]} :: 0 <= i < j < |calls| && calls[i].TakeCall? && calls[j].TakeCall? ==>
      calls[i].now <= calls[j].now
  }

  lemma {:induction false} OneMoreCall(calls: seq<Call>, c: Call)
    ensures After(calls + [c]) == Step(After(calls), c).0
    ensures KeptAfter(calls + [c]) == Answer(KeptAfter(calls), c).0
    ensures Decisions(calls + [c]) == Decisions(calls) + [Step(After(calls), c).1]
    ensures KeptDecisions(calls + [c]) == KeptDecisions(calls) + [Answer(KeptAfter(calls), c).1]
  {
    hide Step, Answer;
    assert (calls + [c])[..|calls|] == calls;
  }

  // ---------------------------------------------------------------- slots

  datatype Grant = Grant(ip: nat, token: nat)

  predicate Uses(g: Grant, k: Key) {
    k == Ip(g.ip) || k == Token(g.token)
  }

  function InUse(open: seq<Grant>, k: Key): nat {
    if open == [] then 0 else (if Uses(open[0], k) then 1 else 0) + InUse(open[1..], k)
  }

  /** Every slot count is the number of granted streams not yet released, within its limit. */
  ghost predicate SlotsExact(t: Table, open: seq<Grant>) {
    && (forall k :: k in t ==> t[k].activeStreams == InUse(open, k))
    && (forall k :: k !in t ==> InUse(open, k) == 0)
    && (forall k :: k in t && k.Ip? ==> t[k].activeStreams <= STREAM_LIMITS.ip.active.value)
    && (forall k :: k in t && k.Token? ==> t[k].activeStreams <= STREAM_LIMITS.token.active.value)
  }

  lemma {:induction false} TakeKeepsSlots(t: Table, open: seq<Grant>, ip: nat, token: nat, now: Time)
    requires SlotsExact(t, open)
    ensures var (next, d) := Take(t, ip, token, STREAM_LIMITS, now);
      SlotsExact(next, if d.allowed then [Grant(ip, token)] + open else open)
  {
    hide InUse;
    var (next, d) := Take(t, ip, token, STREAM_LIMITS, now);
    if d.allowed {
      var grown := [Grant(ip, token)] + open;
      forall k ensures InUse(grown, k) == InUse(open, k) + (if Uses(Grant(ip, token), k) then 1 else 0) {
        GrantCounts(open, Grant(ip, token), k);
      }
    }
  }

  lemma {:induction false} GrantCounts(open: seq<Grant>, g: Grant, k: Key)
    ensures InUse([g] + open, k) == InUse(open, k) + (if Uses(g, k) then 1 else 0)
  {
    assert ([g] + open)[1..] == open;
  }

  function Without<T>(s: seq<T>, i: nat): seq<T>
    requires i < |s|
  {
    s[..i] + s[i + 1..]
  }

  lemma {:induction false} RemovalCounts(open: seq<Grant>, i: nat, k: Key)
    requires i < |open|
    ensures InUse(open, k) == InUse(Without(open, i), k) + (if Uses(open[i], k) then 1 else 0)
  {
    if i == 0 {
      assert Without(open, 0) == open[1..];
    } else {
      RemovalCounts(open[1..], i - 1, k);
      assert Without(open, i)[1..] == Without(open[1..], i - 1);
    }
  }

  /** An open grant holds a slot in both of its buckets. */
  lemma {:induction false} OpenHoldsSlots(t: Table, open: seq<Grant>, i: nat)
    requires SlotsExact(t, open) && i < |open|
    ensures Ip(open[i].ip) in t && t[Ip(open[i].ip)].activeStreams >= 1
    ensures Token(open[i].token) in t && t[Token(open[i].token)].activeStreams >= 1
  {
    hide InUse;
    RemovalCounts(open, i, Ip(open[i].ip));
    RemovalCounts(open, i, Token(open[i].token));
  }

  /** Releasing any granted stream keeps the counts exact. */
  lemma {:induction false} ReleaseKeepsSlots(t: Table, open: seq<Grant>, i: nat)
    requires SlotsExact(t, open) && i < |open|
    ensures SlotsExact(Release(t, open[i].ip, open[i].token), Without(open, i))
  {
    hide InUse, Without;
    OpenHoldsSlots(t, open, i);
    forall k ensures InUse(open, k) == InUse(Without(open, i), k) + (if Uses(open[i], k) then 1 else 0) {
      RemovalCounts(open, i, k);
    }
  }

  /** Forgetting never touches a bucket with a slot in use. */
  lemma {:induction false} SweepKeepsSlots(t: Table, open: seq<Grant>, now: Time)
    requires SlotsExact(t, open)
    ensures SlotsExact(Sweep(t, now), open)
  {
    hide InUse;
  }

  lemma {:induction false} StepKeepsSlots(l: Limiter, open: seq<Grant>, c: Call)
    requires SlotsExact(l.streams, open) && c.TakeCall?
    ensures var (next, d) := Step(l, c);
      SlotsExact(next.streams, if c.kind.Streams? && d.value.allowed then [Grant(c.ip, c.token)] + open else open)
  {
    hide SlotsExact, Take, Sweep;
    SweepKeepsSlots(l.streams, open, c.now);
    TakeKeepsSlots(Cleaned(l, c).streams, open, c.ip, c.token, c.now);
  }

  /** The first of the open grants with these numbers; any other would do as well. */
  function IndexOf(open: seq<Grant>, g: Grant): (i: nat)
    requires g in open
    ensures i < |open| && open[i] == g
  {
    if open[0] == g then 0 else 1 + IndexOf(open[1..], g)
  }

  /** The streams granted and not yet released. */
  function OpenAfter(calls: seq<Call>): seq<Grant> {
    if calls == [] then []
    else
      var before, c := calls[..|calls| - 1], calls[|calls| - 1];
      var open := OpenAfter(before);
      match c
      case TakeCall(kind, ip, token, _) =>
        var d := Step(After(before), c).1;
        if kind.Streams? && d.Some? && d.value.allowed then [Grant(ip, token)] + open else open
      case ReleaseCall(ip, token) =>
        if Grant(ip, token) in open then Without(open, IndexOf(open, Grant(ip, token))) else open
  }

  /** Only granted streams are released, each once. */
  predicate ReleasesGranted(calls: seq<Call>) {
    forall i :: 0 <= i < |calls| && calls[i].ReleaseCall? ==> Grant(calls[i].ip, calls[i].token) in OpenAfter(calls[..i])
  }

  predicate HoldsSlots(t: Table, g: Grant) {
    && Ip(g.ip) in t && t[Ip(g.ip)].activeStreams >= 1
    && Token(g.token) in t && t[Token(g.token)].activeStreams >= 1
  }

  /**
   In every run from empty tables, wherever its cleanups fall, every slot count equals the open streams of its key and
   is within its limit, and every open stream holds a slot in both of its buckets: no decrement meets the clamp at zero.
   */
  lemma {:induction false} SlotsAlwaysExact(calls: seq<Call>)
    requires ReleasesGranted(calls)
    ensures SlotsExact(After(calls).streams, OpenAfter(calls))
    ensures forall g :: g in OpenAfter(calls) ==> HoldsSlots(After(calls).streams, g)
  {
    hide Step, SlotsExact, Without;
    if calls == [] {
      NothingOpen();
    } else {
      var before, c := calls[..|calls| - 1], calls[|calls| - 1];
      assert forall i :: 0 <= i < |before| ==> before[..i] == calls[..i];
      SlotsAlwaysExact(before);
      if c.TakeCall? {
        StepKeepsSlots(After(before), OpenAfter(before), c);
        DecisionGiven(After(before), c);
      } else {
        var i := IndexOf(OpenAfter(before), Grant(c.ip, c.token));
        ReleaseKeepsSlots(After(before).streams, OpenAfter(before), i);
        ReleaseIsStep(After(before), c);
      }
    }
    var open := OpenAfter(calls);
    forall g | g in open ensures HoldsSlots(After(calls).streams, g) {
      OpenHoldsSlots(After(calls).streams, open, IndexOf(open, g));
    }
  }

  lemma {:induction false} NothingOpen()
    ensures SlotsExact(map[], [])
  {
  }

  lemma {:induction false} DecisionGiven(l: Limiter, c: Call)
    ensures Step(l, c).1.Some? <==> c.TakeCall?
  {
  }

  lemma {:induction false} ReleaseIsStep(l: Limiter, c: Call)
    requires c.ReleaseCall?
    ensures Step(l, c).0.streams == Release(l.streams, c.ip, c.token) && Step(l, c) == Answer(l, c)
  {
  }
}

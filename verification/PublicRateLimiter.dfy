/** The public rate limiter's shared, mutable buckets, its grants that hold on to them, and its periodic cleanup. */
module PublicRateLimiter {
  import opened Status
  import opened RateLimits

  class BucketObject {
    var windowStartedAt: Time
    var requests: nat
    var activeStreams: nat
    var touchedAt: Time

    function Value(): Bucket
      reads this
    {
      Bucket(windowStartedAt, requests, activeStreams, touchedAt)
    }

    constructor (now: Time)
      ensures Value() == Bucket(now, 0, 0, now)
    {
      windowStartedAt, requests, activeStreams, touchedAt := now, 0, 0, now;
    }

    method Refresh(now: Time)
      modifies this
      ensures Value() == Current(Some(old(Value())), now)
    {
      if now - windowStartedAt >= WINDOW_MS {
        windowStartedAt, requests, touchedAt := now, 0, now;
      }
    }

    method Charge(limit: Limit, now: Time)
      modifies this
      ensures Value() == Charged(old(Value()), limit, now)
    {
      requests := requests + 1;
      if limit.active.Some? { activeStreams := activeStreams + 1; }
      touchedAt := now;
    }

    method Free()
      modifies this
      ensures Value() == Freed(old(Value()))
    {
      activeStreams := if activeStreams < 1 then 0 else activeStreams - 1;
    }

    method FreeIn(ghost table: BucketTable, ghost k: Key)
      requires table.Valid() && k in table.buckets && table.buckets[k] == this
      modifies this
      ensures table.Valid() && table.View() == old(table.View())[k := Freed(old(table.View())[k])]
    {
      hide Freed;
      Free();
    }
  }

  /** What a granted call hands back: the two buckets it charged, to be freed once. */
  class StreamGrant {
    const ip: nat
    const token: nat
    const ipBucket: BucketObject
    const tokenBucket: BucketObject
    const countsStreams: bool
    var released: bool

    constructor (ip: nat, token: nat, ipBucket: BucketObject, tokenBucket: BucketObject, countsStreams: bool)
      ensures this.ip == ip && this.token == token && this.ipBucket == ipBucket && this.tokenBucket == tokenBucket
      ensures this.countsStreams == countsStreams && !released
    {
      this.ip, this.token, this.ipBucket, this.tokenBucket := ip, token, ipBucket, tokenBucket;
      this.countsStreams, released := countsStreams, false;
    }

    function Value(): Grant {
      Grant(ip, token)
    }

    /** The buckets are still those the table holds for the grant's keys. */
    predicate HeldIn(table: BucketTable)
      reads table
    {
      && Ip(ip) in table.buckets && table.buckets[Ip(ip)] == ipBucket
      && Token(token) in table.buckets && table.buckets[Token(token)] == tokenBucket
    }

    method FreeSlots(ghost limiter: PublicRateLimiter)
      requires limiter.TablesValid() && HeldIn(limiter.streamBuckets)
      modifies ipBucket, tokenBucket
      ensures limiter.TablesValid() && limiter.State() == RateLimits.Step(old(limiter.State()), ReleaseCall(ip, token)).0
    {
      hide Freed;
      HeldAreObjects(limiter.streamBuckets);
      ipBucket.FreeIn(limiter.streamBuckets, Ip(ip));
      tokenBucket.FreeIn(limiter.streamBuckets, Token(token));
      assert limiter.snapshotBuckets.View() == old(limiter.snapshotBuckets.View());
    }

    /** Gives the two slots back; the other grants stay as they are. */
    method ReleaseOnce(ghost limiter: PublicRateLimiter, ghost rest: seq<StreamGrant>)
      requires limiter.TablesValid() && HeldIn(limiter.streamBuckets) && Unreleased(rest) && this !in rest
      modifies this`released, ipBucket, tokenBucket
      ensures limiter.TablesValid() && limiter.State() == RateLimits.Step(old(limiter.State()), ReleaseCall(ip, token)).0
      ensures released && Unreleased(rest)
    {
      hide PublicRateLimiter.TablesValid, RateLimits.Step;
      MarkReleased(limiter);
      assert forall g :: g in rest ==> (g as object) != ipBucket && (g as object) != tokenBucket && g != this;
      FreeSlots(limiter);
    }

    method MarkReleased(ghost limiter: PublicRateLimiter)
      requires limiter.TablesValid()
      modifies this`released
      ensures released && limiter.TablesValid() && limiter.State() == old(limiter.State())
    {
      assert this !in limiter.streamBuckets.Objects() && this !in limiter.snapshotBuckets.Objects();
      released := true;
    }

    /**
     Frees the slots the first time, and does nothing after that. The grant need only be one the limiter gave out; the
     clamp at zero never acts.
     */
    method Release(ghost limiter: PublicRateLimiter)
      requires limiter.Valid() && (released || this in limiter.open)
      modifies this`released, limiter`open, ipBucket, tokenBucket
      ensures limiter.Valid() && released && this !in limiter.open
      ensures limiter.State() == if old(released) then old(limiter.State())
                                 else RateLimits.Step(old(limiter.State()), ReleaseCall(ip, token)).0
      ensures !old(released) ==> old(ipBucket.activeStreams) >= 1 && old(tokenBucket.activeStreams) >= 1
      ensures forall g :: g in old(limiter.open) && g != this ==> g in limiter.open
    {
      hide SlotsExact, RateLimits.Release, HoldOwn, Distinct, Values, Without, PublicRateLimiter.TablesValid;
      if released {
        ReleasedIsNotOpen(limiter.open, this);
        return;
      }
      ghost var i :| 0 <= i < |limiter.open| && limiter.open[i] == this;
      ghost var was := limiter.open;
      ghost var t := limiter.streamBuckets.View();
      OpenHoldsSlots(t, Values(was), i);
      ReleaseKeepsSlots(t, Values(was), i);
      WithoutKeeps(was, i, limiter.streamBuckets.buckets);
      ValuesAt(was, i);
      OwnHeld(was, this, limiter.streamBuckets);
      ghost var rest := Without(was, i);
      hide Unreleased;
      ReleaseOnce(limiter, rest);
      assert limiter.streamBuckets.View() == RateLimits.Release(t, ip, token);
      assert limiter !in limiter.streamBuckets.Objects();
      limiter.open := rest;
    }

    lemma {:induction false} HeldAreObjects(table: BucketTable)
      requires HeldIn(table)
      ensures ipBucket in table.Objects() && tokenBucket in table.Objects()
      ensures table.View()[Ip(ip)] == ipBucket.Value() && table.View()[Token(token)] == tokenBucket.Value()
    {
    }
  }

  predicate Distinct(open: seq<StreamGrant>) {
    forall i, j {:trigger open[i], open[j]} :: 0 <= i < j < |open| ==> open[i] != open[j]
  }

  predicate Unreleased(open: seq<StreamGrant>)
    reads open
  {
    forall g :: g in open ==> !g.released && g.countsStreams
  }

  predicate HoldOwn(open: seq<StreamGrant>, buckets: map<Key, BucketObject>) {
    forall g :: g in open ==>
      && Ip(g.ip) in buckets && buckets[Ip(g.ip)] == g.ipBucket
      && Token(g.token) in buckets && buckets[Token(g.token)] == g.tokenBucket
  }

  lemma {:induction false} ReleasedIsNotOpen(open: seq<StreamGrant>, g: StreamGrant)
    requires Unreleased(open) && g.released
    ensures g !in open
  {
  }

  lemma {:induction false} OwnHeld(open: seq<StreamGrant>, g: StreamGrant, table: BucketTable)
    requires g in open && HoldOwn(open, table.buckets)
    ensures g.HeldIn(table)
  {
  }

  lemma {:induction false} WithoutKeeps(open: seq<StreamGrant>, i: nat, buckets: map<Key, BucketObject>)
    requires i < |open| && Distinct(open) && Unreleased(open) && HoldOwn(open, buckets)
    ensures var rest := Without(open, i);
      && open[i] !in rest && Distinct(rest) && Unreleased(rest) && HoldOwn(rest, buckets)
      && (forall g :: g in open && g != open[i] ==> g in rest)
  {
    var rest := Without(open, i);
    assert forall j :: 0 <= j < |rest| ==> rest[j] == if j < i then open[j] else open[j + 1];
    forall g | g in open && g != open[i] ensures g in rest {
      var j :| 0 <= j < |open| && open[j] == g;
      assert rest[if j < i then j else j - 1] == g;
    }
  }

  lemma {:induction false} ValuesAt(open: seq<StreamGrant>, i: nat)
    requires i < |open|
    ensures Values(open)[i] == open[i].Value() && Values(Without(open, i)) == Without(Values(open), i)
  {
  }

  lemma {:induction false} OneMoreValue(open: seq<StreamGrant>, g: StreamGrant)
    ensures Values([g] + open) == [g.Value()] + Values(open)
  {
  }

  lemma {:induction false} OneMoreGrant(open: seq<StreamGrant>, g: StreamGrant, buckets: map<Key, BucketObject>)
    requires Distinct(open) && Unreleased(open) && HoldOwn(open, buckets) && g !in open && !g.released && g.countsStreams
    requires HoldOwn([g], buckets)
    ensures Distinct([g] + open) && Unreleased([g] + open) && HoldOwn([g] + open, buckets)
  {
    assert g in [g];
  }

  lemma {:induction false} MoreBuckets(open: seq<StreamGrant>, was: map<Key, BucketObject>, buckets: map<Key, BucketObject>)
    requires HoldOwn(open, was) && forall k :: k in was ==> k in buckets && buckets[k] == was[k]
    ensures HoldOwn(open, buckets)
  {
  }

  /** A bucket with a slot in use is never forgotten. */
  lemma {:induction false} SlotsStay(open: seq<StreamGrant>, t: Table, now: Time, was: map<Key, BucketObject>, buckets: map<Key, BucketObject>)
    requires HoldOwn(open, was) && SlotsExact(t, Values(open)) && buckets.Keys == Sweep(t, now).Keys
    requires forall k :: k in buckets ==> k in was && buckets[k] == was[k]
    ensures HoldOwn(open, buckets)
  {
    hide SlotsExact;
    forall g | g in open
      ensures Ip(g.ip) in Sweep(t, now) && Token(g.token) in Sweep(t, now) && Ip(g.ip) in buckets.Keys && Token(g.token) in buckets.Keys
    {
      var i :| 0 <= i < |open| && open[i] == g;
      OpenHoldsSlots(t, Values(open), i);
    }
  }

  function Values(open: seq<StreamGrant>): (r: seq<Grant>)
    ensures |r| == |open|
  {
    seq(|open|, i requires 0 <= i < |open| => open[i].Value())
  }

  class BucketTable {
    var buckets: map<Key, BucketObject>

    function Objects(): set<object>
      reads this
    {
      set k | k in buckets :: buckets[k]
    }

    /** No two keys share a bucket. */
    ghost predicate Valid()
      reads this
    {
      forall j, k :: j in buckets && k in buckets && buckets[j] == buckets[k] ==> j == k
    }

    ghost function View(): Table
      reads this, Objects()
    {
      map k | k in buckets :: buckets[k].Value()
    }

    constructor ()
      ensures Valid() && View() == map[] && buckets == map[]
    {
      buckets := map[];
    }

    /** The bucket for the key as of now: the stored one brought up to date in place, or a new one not yet stored. */
    method CurrentBucket(k: Key, now: Time) returns (b: BucketObject)
      requires Valid()
      modifies if k in buckets then {buckets[k]} else {}
      ensures Valid() && buckets == old(buckets)
      ensures b.Value() == Current(Lookup(old(View()), k), now)
      ensures View() == Touch(old(View()), k, now)
      ensures if k in buckets then b == buckets[k] else fresh(b)
    {
      if k in buckets {
        b := buckets[k];
        b.Refresh(now);
      } else {
        b := new BucketObject(now);
      }
    }

    method Store(k: Key, b: BucketObject)
      requires Valid() && if k in buckets then b == buckets[k] else b !in Objects()
      modifies this
      ensures Valid() && buckets == old(buckets)[k := b]
      ensures View() == old(View())[k := old(b.Value())]
    {
      buckets := buckets[k := b];
    }

    method ChargeAndStore(k: Key, b: BucketObject, limit: Limit, now: Time)
      requires Valid() && if k in buckets then b == buckets[k] else b !in Objects()
      modifies this, b
      ensures Valid() && buckets == old(buckets)[k := b]
      ensures View() == old(View())[k := Charged(old(b.Value()), limit, now)]
    {
      b.Charge(limit, now);
      ghost var charged := View();
      assert k in buckets ==> charged[k] == b.Value();
      assert forall j :: j in buckets && j != k ==> charged[j] == old(View())[j];
      Store(k, b);
    }

    predicate Holds(k: Key, b: BucketObject)
      reads this
    {
      if k in buckets then b == buckets[k] else b !in Objects()
    }

    method ChargeBoth(ip: nat, token: nat, a: BucketObject, b: BucketObject, limits: Limits, now: Time) returns (grant: StreamGrant)
      requires Valid() && Holds(Ip(ip), a) && Holds(Token(token), b) && a != b
      modifies this, a, b
      ensures Valid() && buckets == old(buckets)[Ip(ip) := a][Token(token) := b]
      ensures View() == old(View())[Ip(ip) := Charged(old(a.Value()), limits.ip, now)]
                                   [Token(token) := Charged(old(b.Value()), limits.token, now)]
      ensures fresh(grant) && !grant.released && grant.ip == ip && grant.token == token && grant.HeldIn(this)
      ensures grant.countsStreams == limits.ip.active.Some?
    {
      hide Charged;
      ChargeAndStore(Ip(ip), a, limits.ip, now);
      ChargeAndStore(Token(token), b, limits.token, now);
      grant := new StreamGrant(ip, token, a, b, limits.ip.active.Some?);
    }

    method TakeFrom(ip: nat, token: nat, limits: Limits, now: Time) returns (d: Decision, grant: StreamGrant?)
      requires Valid() && CountsAlike(limits)
      modifies this, Objects()
      ensures Valid() && (View(), d) == Take(old(View()), ip, token, limits, now)
      ensures forall k :: k in old(buckets) ==> k in buckets && buckets[k] == old(buckets)[k]
      ensures forall k :: k in buckets && k !in old(buckets) ==> fresh(buckets[k])
      ensures (grant != null) == d.allowed
      ensures grant != null ==>
                && fresh(grant) && !grant.released && grant.ip == ip && grant.token == token && grant.HeldIn(this)
                && grant.countsStreams == limits.ip.active.Some?
    {
      hide Take, Refusal, Current, Touch, Charged, Blocks, RetryAfter, Lookup;
      grant := null;
      ghost var t := View();
      var a := CurrentBucket(Ip(ip), now);
      var b := CurrentBucket(Token(token), now);
      TouchOther(t, Ip(ip), Token(token), now);
      var aValue, bValue := a.Value(), b.Value();
      TakeCases(t, ip, token, limits, now);
      if Blocks(aValue, limits.ip) {
        d := Decision(false, RetryAfter(aValue, now));
        return;
      }
      if Blocks(bValue, limits.token) {
        d := Decision(false, RetryAfter(bValue, now));
        return;
      }
      d := Decision(true, Max(RetryAfter(aValue, now), RetryAfter(bValue, now)));
      grant := ChargeBoth(ip, token, a, b, limits, now);
      TouchThenStore(t, Ip(ip), Token(token), now, Charged(aValue, limits.ip, now), Charged(bValue, limits.token, now));
    }

    /** Forgets the idle buckets; those that stay are the same objects. */
    method SweepIdle(now: Time)
      requires Valid()
      modifies this
      ensures Valid() && View() == Sweep(old(View()), now)
      ensures Objects() <= old(Objects())
      ensures forall k :: k in buckets ==> k in old(buckets) && buckets[k] == old(buckets)[k]
    {
      var rest := buckets.Keys;
      ghost var was := buckets;
      while rest != {}
        invariant rest <= was.Keys
        invariant buckets == map k | k in was && (k in rest || !Forgettable(was[k].Value(), now)) :: was[k]
      {
        var k :| k in rest;
        rest := rest - {k};
        if buckets[k].activeStreams == 0 && now - buckets[k].touchedAt > WINDOW_MS * 2 {
          buckets := buckets - {k};
        }
      }
    }
  }

  predicate CountsAlike(limits: Limits) {
    limits.ip.active.Some? <==> limits.token.active.Some?
  }

  lemma {:induction false} TakeCases(t: Table, ip: nat, token: nat, limits: Limits, now: Time)
    ensures var a, b := Current(Lookup(t, Ip(ip)), now), Current(Lookup(t, Token(token)), now);
            var touched := Touch(Touch(t, Ip(ip), now), Token(token), now);
            var taken := Take(t, ip, token, limits, now);
      && (Blocks(a, limits.ip) ==> taken == (touched, Decision(false, RetryAfter(a, now))))
      && (!Blocks(a, limits.ip) && Blocks(b, limits.token) ==> taken == (touched, Decision(false, RetryAfter(b, now))))
      && (!Blocks(a, limits.ip) && !Blocks(b, limits.token) ==>
            taken == (t[Ip(ip) := Charged(a, limits.ip, now)][Token(token) := Charged(b, limits.token, now)],
                      Decision(true, Max(RetryAfter(a, now), RetryAfter(b, now)))))
  {
    hide RetryAfter;
  }

  lemma {:induction false} TouchOther(t: Table, a: Key, b: Key, now: Time)
    requires a != b
    ensures Lookup(Touch(t, a, now), b) == Lookup(t, b)
  {
  }

  lemma {:induction false} TouchThenStore(t: Table, a: Key, b: Key, now: Time, x: Bucket, y: Bucket)
    ensures Touch(Touch(t, a, now), b, now)[a := x][b := y] == t[a := x][b := y]
  {
  }

  class PublicRateLimiter {
    const snapshotBuckets: BucketTable
    const streamBuckets: BucketTable
    var callsSinceCleanup: nat
    ghost var open: seq<StreamGrant>

    ghost predicate TablesValid()
      reads this`callsSinceCleanup, snapshotBuckets, streamBuckets
    {
      && snapshotBuckets != streamBuckets
      && snapshotBuckets.Valid() && streamBuckets.Valid()
      && snapshotBuckets.Objects() !! streamBuckets.Objects()
      && callsSinceCleanup < 256
    }

    /** Every grant not yet released still holds the table's own buckets, whose slot counts count exactly these grants. */
    ghost predicate Valid()
      reads this, snapshotBuckets, streamBuckets, streamBuckets.Objects(), open
    {
      && TablesValid()
      && Distinct(open) && Unreleased(open) && HoldOwn(open, streamBuckets.buckets)
      && SlotsExact(streamBuckets.View(), Values(open))
    }

    ghost function State(): Limiter
      reads this`callsSinceCleanup, snapshotBuckets, streamBuckets, snapshotBuckets.Objects(), streamBuckets.Objects()
    {
      Limiter(snapshotBuckets.View(), streamBuckets.View(), callsSinceCleanup)
    }

    /** Everything the limiter owns besides its own fields. */
    ghost function Owned(): set<object>
      reads snapshotBuckets, streamBuckets
    {
      {snapshotBuckets, streamBuckets} + snapshotBuckets.Objects() + streamBuckets.Objects()
    }

    constructor ()
      ensures Valid() && State() == NewLimiter && open == [] && fresh(Owned())
    {
      snapshotBuckets := new BucketTable();
      streamBuckets := new BucketTable();
      callsSinceCleanup := 0;
      open := [];
    }

    method SweepBoth(now: Time)
      requires TablesValid()
      modifies snapshotBuckets, streamBuckets
      ensures TablesValid()
      ensures snapshotBuckets.View() == Sweep(old(snapshotBuckets.View()), now) && streamBuckets.View() == Sweep(old(streamBuckets.View()), now)
      ensures snapshotBuckets.Objects() <= old(snapshotBuckets.Objects()) && streamBuckets.Objects() <= old(streamBuckets.Objects())
      ensures streamBuckets.buckets.Keys == streamBuckets.View().Keys
      ensures forall k :: k in streamBuckets.buckets ==>
                k in old(streamBuckets.buckets) && streamBuckets.buckets[k] == old(streamBuckets.buckets)[k]
    {
      hide Sweep;
      snapshotBuckets.SweepIdle(now);
      streamBuckets.SweepIdle(now);
    }

    /** Every 256th call, of either kind, forgets the idle buckets of both tables; a bucket with a slot in use stays. */
    method CleanUp(now: Time)
      requires Valid()
      modifies this`callsSinceCleanup, snapshotBuckets, streamBuckets
      ensures Valid() && State() == Cleanup(old(State()), now)
      ensures snapshotBuckets.Objects() <= old(snapshotBuckets.Objects()) && streamBuckets.Objects() <= old(streamBuckets.Objects())
    {
      hide Sweep, SlotsExact, HoldOwn, Unreleased, Distinct, Values;
      callsSinceCleanup := callsSinceCleanup + 1;
      if callsSinceCleanup < 256 { return; }
      callsSinceCleanup := 0;
      ghost var t, was := streamBuckets.View(), streamBuckets.buckets;
      SweepKeepsSlots(t, Values(open), now);
      SweepBoth(now);
      SlotsStay(open, t, now, was, streamBuckets.buckets);
    }

    method AnswerSnapshot(ip: nat, token: nat, now: Time) returns (d: Decision)
      requires Valid()
      modifies snapshotBuckets, snapshotBuckets.Objects()
      ensures Valid() && (State(), Some(d)) == Answer(old(State()), TakeCall(Snapshots, ip, token, now))
      ensures fresh(Owned() - old(Owned()))
    {
      hide SlotsExact, Take, HoldOwn, Unreleased, Distinct, Values;
      var grant;
      d, grant := snapshotBuckets.TakeFrom(ip, token, SNAPSHOT_LIMITS, now);
    }

    method AnswerStream(ip: nat, token: nat, now: Time) returns (d: Decision, grant: StreamGrant?)
      requires Valid()
      modifies this`open, streamBuckets, streamBuckets.Objects()
      ensures Valid() && (State(), Some(d)) == Answer(old(State()), TakeCall(Streams, ip, token, now))
      ensures fresh(Owned() - old(Owned()))
      ensures (grant != null) == d.allowed
      ensures open == if grant == null then old(open) else [grant] + old(open)
      ensures grant != null ==> fresh(grant) && grant.countsStreams && grant.Value() == Grant(ip, token)
    {
      hide SlotsExact, Take, HoldOwn, Unreleased, Distinct, Values;
      ghost var t, was := streamBuckets.View(), streamBuckets.buckets;
      TakeKeepsSlots(t, Values(open), ip, token, now);
      d, grant := streamBuckets.TakeFrom(ip, token, STREAM_LIMITS, now);
      MoreBuckets(open, was, streamBuckets.buckets);
      assert TablesValid() && Unreleased(open);
      if grant != null {
        GrantHolds(grant, streamBuckets);
        OneMoreValue(open, grant);
        OneMoreGrant(open, grant, streamBuckets.buckets);
        open := [grant] + open;
      }
    }

    method TakeSnapshot(ip: nat, token: nat, now: Time) returns (d: Decision)
      requires Valid()
      modifies this`callsSinceCleanup, snapshotBuckets, streamBuckets, snapshotBuckets.Objects()
      ensures Valid() && (State(), Some(d)) == Step(old(State()), TakeCall(Snapshots, ip, token, now))
      ensures fresh(Owned() - old(Owned()))
    {
      hide Cleanup, Answer, TablesValid, SlotsExact, HoldOwn, Unreleased, Distinct;
      CleanUp(now);
      d := AnswerSnapshot(ip, token, now);
    }

    /** A granted stream joins the open ones, all of which stay valid through any later calls and cleanups. */
    method TakeStream(ip: nat, token: nat, now: Time) returns (d: Decision, grant: StreamGrant?)
      requires Valid()
      modifies this, snapshotBuckets, streamBuckets, streamBuckets.Objects()
      ensures Valid() && (State(), Some(d)) == Step(old(State()), TakeCall(Streams, ip, token, now))
      ensures fresh(Owned() - old(Owned()))
      ensures (grant != null) == d.allowed
      ensures open == if grant == null then old(open) else [grant] + old(open)
      ensures grant != null ==> fresh(grant) && grant.countsStreams && grant.Value() == Grant(ip, token)
    {
      hide Cleanup, Answer, TablesValid, SlotsExact, HoldOwn, Unreleased, Distinct;
      CleanUp(now);
      d, grant := AnswerStream(ip, token, now);
    }
  }

  lemma {:induction false} GrantHolds(g: StreamGrant, table: BucketTable)
    requires g.HeldIn(table)
    ensures HoldOwn([g], table.buckets)
  {
  }
}

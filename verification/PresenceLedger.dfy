/**
 The presence row and the activity-interval ledger of one instance: the row updates a report or the
 lease sweeper makes inside its transaction, and the proof that the ledger is exactly what the list
 of accepted reports implies.
 */
module PresenceLedger {
  import opened Status
  import opened EdgeWire

  datatype CloseReason = StateChanged | LeaseExpired | BootReplaced

  datatype Closing = Closing(endedAt: Time, endSequence: nat, reason: CloseReason)

  datatype Interval = Interval(
    generation: nat,
    activity: ActivityState,
    startedAt: Time,
    startSequence: nat,
    closing: Option<Closing>)

  /** The part of the presence row that events rewrite. */
  datatype Snapshot = Snapshot(
    lastAcceptedSequence: nat,
    lastStateSequence: nat,
    displayState: DisplayState,
    activityState: ActivityState,
    petId: string,
    displaySince: Time,
    activitySince: Time,
    eligibleSince: Option<Time>)

  datatype Presence = Presence(
    generation: nat,
    bootId: Uuid,
    snapshot: Snapshot,
    lastReportReceivedAt: Time,
    leaseExpiresAt: Time,
    leaseClosedAt: Option<Time>)

  datatype Ledger = Ledger(presence: Option<Presence>, intervals: seq<Interval>)

  // ---------------------------------------------------------------- row updates

  /** `UPDATE ... WHERE ended_at IS NULL`, and the number of rows it touches. */
  function CloseEvery(intervals: seq<Interval>, closing: Closing): (r: seq<Interval>)
    ensures |r| == |intervals|
  {
    seq(|intervals|, i requires 0 <= i < |intervals| =>
      if intervals[i].closing.None? then intervals[i].(closing := Some(closing)) else intervals[i])
  }

  function OpenCount(intervals: seq<Interval>): nat {
    if intervals == [] then 0
    else OpenCount(intervals[..|intervals| - 1]) + (if intervals[|intervals| - 1].closing.None? then 1 else 0)
  }

  /** Closing throws, and so rolls the transaction back, unless exactly one row was open. */
  function CloseOpen(intervals: seq<Interval>, closing: Closing): Option<seq<Interval>> {
    if OpenCount(intervals) == 1 then Some(CloseEvery(intervals, closing)) else None
  }

  function MoveEvery(intervals: seq<Interval>, generation: nat): (r: seq<Interval>)
    ensures |r| == |intervals|
  {
    seq(|intervals|, i requires 0 <= i < |intervals| =>
      if intervals[i].closing.None? then intervals[i].(generation := generation, startSequence := 1) else intervals[i])
  }

  function MoveOpen(intervals: seq<Interval>, generation: nat): Option<seq<Interval>> {
    if OpenCount(intervals) == 1 then Some(MoveEvery(intervals, generation)) else None
  }

  function OpenInterval(intervals: seq<Interval>, generation: nat, activity: ActivityState,
                        startSequence: nat, startedAt: Time): seq<Interval> {
    intervals + [Interval(generation, activity, startedAt, startSequence, None)]
  }

  // ---------------------------------------------------------------- boot rollover and lease expiry

  predicate CanRoll(presence: Option<Presence>, first: EdgeEvent, at: Time) {
    && presence.Some?
    && presence.value.leaseClosedAt.None?
    && presence.value.leaseExpiresAt > at
    && first.StateTransition?
    && first.activityState == presence.value.snapshot.activityState
  }

  /** Fencing closes whatever the old boot left open and drops its presence row. */
  function Fence(l: Ledger, at: Time): Option<Ledger> {
    match l.presence
    case None => Some(l)
    case Some(p) =>
      var expired := p.leaseExpiresAt <= at;
      if !expired || p.leaseClosedAt.None? then
        match CloseOpen(l.intervals, Closing(if expired then p.leaseExpiresAt else at, p.snapshot.lastAcceptedSequence,
                                             if expired then LeaseExpired else BootReplaced))
        case None => None
        case Some(closed) => Some(Ledger(None, closed))
      else
        Some(Ledger(None, l.intervals))
  }

  function RollBoot(l: Ledger, first: EdgeEvent, generation: nat, at: Time): Option<Ledger> {
    if CanRoll(l.presence, first, at) then
      match MoveOpen(l.intervals, generation)
      case None => None
      case Some(moved) => Some(l.(intervals := moved))
    else
      Fence(l, at)
  }

  predicate LeaseWasExpired(presence: Option<Presence>, at: Time) {
    presence.Some? && presence.value.leaseExpiresAt <= at
  }

  function CloseExpired(l: Ledger, at: Time): Option<seq<Interval>> {
    if LeaseWasExpired(l.presence, at) && l.presence.value.leaseClosedAt.None? then
      CloseOpen(l.intervals, Closing(l.presence.value.leaseExpiresAt,
                                     l.presence.value.snapshot.lastAcceptedSequence, LeaseExpired))
    else
      Some(l.intervals)
  }

  // ---------------------------------------------------------------- applying a batch

  datatype Progress = Progress(current: Option<Snapshot>, needsOpenInterval: bool, intervals: seq<Interval>)

  function ApplyStateTransition(current: Option<Snapshot>, event: EdgeEvent, at: Time, resetEligible: bool): Snapshot
    requires event.StateTransition?
  {
    var displayChanged := current.None? || current.value.displayState != event.displayState;
    var activityChanged := current.None? || current.value.activityState != event.activityState;
    var eligibleSince :=
      if !event.activityState.EligibleIdle? then None
      else if !resetEligible && current.Some? && current.value.activityState.EligibleIdle?
              && current.value.eligibleSince.Some? then current.value.eligibleSince
      else Some(at);
    Snapshot(event.sequence, event.sequence, event.displayState, event.activityState, event.petId,
             if displayChanged then at else current.value.displaySince,
             if activityChanged then at else current.value.activitySince,
             eligibleSince)
  }

  function ApplyHeartbeat(p: Progress, event: EdgeEvent, generation: nat, at: Time): Option<Progress>
    requires event.Heartbeat?
  {
    if p.current.None? then None
    else
      var current := p.current.value.(lastAcceptedSequence := event.sequence);
      if p.needsOpenInterval then
        Some(Progress(
          Some(if current.activityState.EligibleIdle? then current.(eligibleSince := Some(at)) else current),
          false,
          OpenInterval(p.intervals, generation, current.activityState, event.sequence, at)))
      else
        Some(p.(current := Some(current)))
  }

  function ApplyEvent(p: Progress, event: EdgeEvent, generation: nat, boundaryBroken: bool, at: Time): Option<Progress> {
    if event.Heartbeat? then ApplyHeartbeat(p, event, generation, at)
    else
      var activityChanged := p.current.None? || p.current.value.activityState != event.activityState;
      var closed :=
        if activityChanged && !p.needsOpenInterval && p.current.Some?
        then CloseOpen(p.intervals, Closing(at, event.sequence, StateChanged))
        else Some(p.intervals);
      if closed.None? then None
      else
        var opens := activityChanged || p.needsOpenInterval;
        Some(Progress(
          Some(ApplyStateTransition(p.current, event, at, boundaryBroken || activityChanged)),
          if opens then false else p.needsOpenInterval,
          if opens then OpenInterval(closed.value, generation, event.activityState, event.sequence, at) else closed.value))
  }

  function ApplyEvents(p: Progress, events: seq<EdgeEvent>, generation: nat, boundaryBroken: bool, at: Time): Option<Progress>
    decreases |events|
  {
    if events == [] then Some(p)
    else
      match ApplyEvent(p, events[0], generation, boundaryBroken, at)
      case None => None
      case Some(next) => ApplyEvents(next, events[1..], generation, boundaryBroken, at)
  }

  /** Everything one accepted report does to the presence row and the intervals; None is a rollback. */
  function Record(l: Ledger, newBoot: bool, generation: nat, bootId: Uuid, events: seq<EdgeEvent>,
                  at: Time, leaseExpiresAt: Time): Option<Ledger>
    requires events != []
  {
    var seamless := newBoot && CanRoll(l.presence, events[0], at);
    var rolled := if newBoot then RollBoot(l, events[0], generation, at) else Some(l);
    if rolled.None? then None
    else
      var broken := (newBoot && !seamless) || LeaseWasExpired(rolled.value.presence, at);
      var current := if rolled.value.presence.None? then None else Some(rolled.value.presence.value.snapshot);
      match CloseExpired(rolled.value, at)
      case None => None
      case Some(closed) =>
        match ApplyEvents(Progress(current, broken, closed), events, generation, broken, at)
        case None => None
        case Some(done) =>
          if done.current.None? then None
          else Some(Ledger(Some(Presence(generation, bootId, done.current.value, at, leaseExpiresAt, None)), done.intervals))
  }

  /** One sweeper transaction: nothing unless the lease is due and still open. None is a rollback. */
  function Sweep(l: Ledger, now: Time): Option<Ledger> {
    if l.presence.None? || l.presence.value.leaseClosedAt.Some? || l.presence.value.leaseExpiresAt > now then Some(l)
    else
      var p := l.presence.value;
      match CloseOpen(l.intervals, Closing(p.leaseExpiresAt, p.snapshot.lastAcceptedSequence, LeaseExpired))
      case None => None
      case Some(closed) => Some(Ledger(Some(p.(leaseClosedAt := Some(p.leaseExpiresAt))), closed))
  }

  // ---------------------------------------------------------------- well-formed ledgers

  predicate ClosedSoundly(i: Interval) {
    && i.closing.Some?
    && i.startedAt <= i.closing.value.endedAt
    && 1 <= i.startSequence <= i.closing.value.endSequence
  }

  predicate Precedes(a: Interval, b: Interval) {
    a.closing.Some? && a.closing.value.endedAt <= b.startedAt
  }

  /** Intervals are in time order, disjoint, and only the last one may be open. */
  predicate Ordered(intervals: seq<Interval>) {
    && (forall i :: 0 <= i < |intervals| && intervals[i].closing.Some? ==> ClosedSoundly(intervals[i]))
    && (forall i :: 0 <= i < |intervals| ==> intervals[i].startSequence >= 1)
    && (forall i, j {:trigger intervals[i], intervals[j]} :: 0 <= i < j < |intervals| ==>
          Precedes(intervals[i], intervals[j]))
  }

  predicate LastOpen(intervals: seq<Interval>) {
    intervals != [] && intervals[|intervals| - 1].closing.None?
  }

  predicate AllEndBy(intervals: seq<Interval>, at: Time) {
    forall i :: 0 <= i < |intervals| ==> intervals[i].closing.Some? && intervals[i].closing.value.endedAt <= at
  }

  predicate SnapshotValid(s: Snapshot) {
    && 1 <= s.lastStateSequence <= s.lastAcceptedSequence
    && PairAllowed(s.displayState, s.activityState)
    && (s.activityState.EligibleIdle? <==> s.eligibleSince.Some?)
  }

  /** The open interval mirrors the live presence row. */
  predicate Mirrors(open: Interval, generation: nat, s: Snapshot) {
    && open.closing.None?
    && open.generation == generation
    && open.activity == s.activityState
    && (open.activity.EligibleIdle? ==> s.eligibleSince == Some(open.startedAt))
  }

  predicate LedgerValid(l: Ledger, ttl: int) {
    && Ordered(l.intervals)
    && (l.presence.None? ==> l.intervals == [])
    && (l.presence.Some? ==>
          var p := l.presence.value;
          && SnapshotValid(p.snapshot)
          && p.leaseExpiresAt == p.lastReportReceivedAt + ttl
          && (p.leaseClosedAt.Some? ==>
                p.leaseClosedAt == Some(p.leaseExpiresAt) && AllEndBy(l.intervals, p.leaseExpiresAt))
          && (p.leaseClosedAt.None? ==>
                && LastOpen(l.intervals)
                && var open := l.intervals[|l.intervals| - 1];
                   && Mirrors(open, p.generation, p.snapshot)
                   && open.startedAt <= p.lastReportReceivedAt
                   && open.startSequence <= p.snapshot.lastAcceptedSequence))
  }

  lemma {:induction false} OrderedPrefix(intervals: seq<Interval>, k: nat)
    requires Ordered(intervals) && k <= |intervals|
    ensures Ordered(intervals[..k])
    ensures k < |intervals| ==> !LastOpen(intervals[..k])
  {
    var rest := intervals[..k];
    forall i, j | 0 <= i < j < |rest|
      ensures Precedes(rest[i], rest[j])
    {
      assert rest[i] == intervals[i] && rest[j] == intervals[j];
    }
    if 0 < k < |intervals| {
      assert Precedes(intervals[k - 1], intervals[k]);
    }
  }

  lemma {:induction false} OpenCountOrdered(intervals: seq<Interval>)
    requires Ordered(intervals)
    ensures OpenCount(intervals) == if LastOpen(intervals) then 1 else 0
  {
    if intervals != [] {
      OrderedPrefix(intervals, |intervals| - 1);
      OpenCountOrdered(intervals[..|intervals| - 1]);
    }
  }

  /** Closing a well-formed ledger touches exactly its last interval. */
  lemma {:induction false} CloseLast(intervals: seq<Interval>, closing: Closing)
    requires Ordered(intervals) && LastOpen(intervals)
    requires intervals[|intervals| - 1].startedAt <= closing.endedAt
    requires intervals[|intervals| - 1].startSequence <= closing.endSequence
    ensures CloseOpen(intervals, closing) == Some(CloseEvery(intervals, closing))
    ensures CloseEvery(intervals, closing)
      == intervals[..|intervals| - 1] + [intervals[|intervals| - 1].(closing := Some(closing))]
    ensures Ordered(CloseEvery(intervals, closing)) && AllEndBy(CloseEvery(intervals, closing), closing.endedAt)
  {
    OpenCountOrdered(intervals);
    var n := |intervals| - 1;
    assert CloseEvery(intervals, closing) == intervals[..n] + [intervals[n].(closing := Some(closing))];
  }

  lemma {:induction false} MoveLast(intervals: seq<Interval>, generation: nat)
    requires Ordered(intervals) && LastOpen(intervals)
    ensures MoveOpen(intervals, generation) == Some(MoveEvery(intervals, generation))
    ensures MoveEvery(intervals, generation)
      == intervals[..|intervals| - 1] + [intervals[|intervals| - 1].(generation := generation, startSequence := 1)]
    ensures Ordered(MoveEvery(intervals, generation)) && LastOpen(MoveEvery(intervals, generation))
  {
    OpenCountOrdered(intervals);
    var n := |intervals| - 1;
    assert MoveEvery(intervals, generation)
        == intervals[..n] + [intervals[n].(generation := generation, startSequence := 1)];
  }

  // ---------------------------------------------------------------- coverage

  /** The instant at which an interval stops covering; an open one runs to the end of the lease. */
  function EndOr(i: Interval, lease: Time): Time {
    if i.closing.Some? then i.closing.value.endedAt else lease
  }

  predicate Covers(i: Interval, lease: Time, t: Time) {
    i.startedAt <= t < EndOr(i, lease)
  }

  /** The activity covering t, looked up from the latest interval backwards. */
  function CoverAt(intervals: seq<Interval>, lease: Time, t: Time): Option<ActivityState> {
    if intervals == [] then None
    else
      var last := intervals[|intervals| - 1];
      if last.startedAt <= t then (if t < EndOr(last, lease) then Some(last.activity) else None)
      else CoverAt(intervals[..|intervals| - 1], lease, t)
  }

  /** Before any instant at which the open interval could end, the lease does not matter. */
  lemma {:induction false} CoverIgnoresLease(intervals: seq<Interval>, lease: Time, lease': Time, t: Time)
    requires Ordered(intervals)
    requires LastOpen(intervals) ==> t < lease && t < lease'
    ensures CoverAt(intervals, lease, t) == CoverAt(intervals, lease', t)
  {
    if intervals != [] && intervals[|intervals| - 1].startedAt > t {
      OrderedPrefix(intervals, |intervals| - 1);
      CoverIgnoresLease(intervals[..|intervals| - 1], lease, lease', t);
    }
  }

  lemma {:induction false} CoverAfterOpen(intervals: seq<Interval>, generation: nat, activity: ActivityState, s: nat, at: Time, lease: Time, t: Time)
    ensures CoverAt(OpenInterval(intervals, generation, activity, s, at), lease, t)
      == if t >= at then (if t < lease then Some(activity) else None) else CoverAt(intervals, lease, t)
  {
    var grown := OpenInterval(intervals, generation, activity, s, at);
    assert grown[..|grown| - 1] == intervals;
  }

  lemma {:induction false} CoverAfterClose(intervals: seq<Interval>, closing: Closing, lease: Time, t: Time)
    requires Ordered(intervals) && LastOpen(intervals)
    requires intervals[|intervals| - 1].startedAt <= closing.endedAt
    requires intervals[|intervals| - 1].startSequence <= closing.endSequence
    ensures CoverAt(CloseEvery(intervals, closing), lease, t) == CoverAt(intervals, closing.endedAt, t)
  {
    CloseLast(intervals, closing);
    var n := |intervals| - 1;
    var closed := CloseEvery(intervals, closing);
    assert closed[..n] == intervals[..n];
    OrderedPrefix(intervals, n);
    CoverIgnoresLease(intervals[..n], lease, closing.endedAt, t);
  }

  lemma {:induction false} CoverAfterMove(intervals: seq<Interval>, generation: nat, lease: Time, t: Time)
    requires Ordered(intervals) && LastOpen(intervals)
    ensures CoverAt(MoveEvery(intervals, generation), lease, t) == CoverAt(intervals, lease, t)
  {
    MoveLast(intervals, generation);
    var moved := MoveEvery(intervals, generation);
    assert moved[..|moved| - 1] == intervals[..|intervals| - 1];
  }

  /** The backwards lookup finds exactly the interval that covers, and at most one does. */
  lemma {:induction false} CoverIsMembership(intervals: seq<Interval>, lease: Time, t: Time)
    requires Ordered(intervals)
    ensures forall a :: CoverAt(intervals, lease, t) == Some(a) <==>
                        exists i :: 0 <= i < |intervals| && Covers(intervals[i], lease, t) && intervals[i].activity == a
    ensures forall i, j | 0 <= i < |intervals| && 0 <= j < |intervals| ::
              Covers(intervals[i], lease, t) && Covers(intervals[j], lease, t) ==> i == j
  {
    if intervals != [] {
      var n := |intervals| - 1;
      var rest := intervals[..n];
      OrderedPrefix(intervals, n);
      CoverIsMembership(rest, lease, t);
      forall a
        ensures CoverAt(intervals, lease, t) == Some(a) <==>
                exists i :: 0 <= i < |intervals| && Covers(intervals[i], lease, t) && intervals[i].activity == a
      {
        if intervals[n].startedAt <= t {
          assert forall i :: 0 <= i < n ==> !Covers(intervals[i], lease, t);
          if CoverAt(intervals, lease, t) == Some(a) { assert Covers(intervals[n], lease, t); }
        } else {
          assert forall i :: 0 <= i < n ==> rest[i] == intervals[i];
          if CoverAt(rest, lease, t) == Some(a) {
            var i :| 0 <= i < |rest| && Covers(rest[i], lease, t) && rest[i].activity == a;
            assert Covers(intervals[i], lease, t);
          }
        }
      }
    }
  }
}

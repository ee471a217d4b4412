/** The interval ledger refines a much simpler thing: the list of accepted reports. */
module LedgerRefinement {
  import opened Status
  import opened EdgeWire
  import opened PresenceLedger

  /** One accepted report, at the instant the server gave it. */
  datatype Accepted = Accepted(at: Time, events: seq<EdgeEvent>)

  /** The activity after the events: that of the last state transition, or the earlier one. */
  function ActivityAfter(before: Option<ActivityState>, events: seq<EdgeEvent>): Option<ActivityState> {
    if events == [] then before
    else
      var last := events[|events| - 1];
      if last.StateTransition? then Some(last.activityState) else ActivityAfter(before, events[..|events| - 1])
  }

  function LogActivity(log: seq<Accepted>): Option<ActivityState> {
    if log == [] then None
    else ActivityAfter(LogActivity(log[..|log| - 1]), log[|log| - 1].events)
  }

  predicate Chronological(log: seq<Accepted>) {
    forall i, j :: 0 <= i < j < |log| ==> log[i].at <= log[j].at
  }

  /** Report i speaks for t: from its own instant until the next report or the end of its lease. */
  predicate SpeaksFor(log: seq<Accepted>, i: nat, ttl: int, t: Time)
    requires i < |log|
  {
    && log[i].at <= t < log[i].at + ttl
    && (i + 1 < |log| ==> t < log[i + 1].at)
  }

  /** The activity the log implies at t, looked up from the latest report backwards. */
  function LogAt(log: seq<Accepted>, ttl: int, t: Time): Option<ActivityState> {
    if log == [] then None
    else
      var last := log[|log| - 1];
      if last.at <= t then (if t < last.at + ttl then LogActivity(log) else None)
      else LogAt(log[..|log| - 1], ttl, t)
  }

  /** Report i speaks for t, and a is the latest activity accepted up to it. */
  predicate SaysAt(log: seq<Accepted>, i: nat, ttl: int, t: Time, a: ActivityState)
    requires i < |log|
  {
    SpeaksFor(log, i, ttl, t) && LogActivity(log[..i + 1]) == Some(a)
  }

  predicate LogSays(log: seq<Accepted>, ttl: int, t: Time, a: ActivityState) {
    exists i :: 0 <= i < |log| && SaysAt(log, i, ttl, t, a)
  }

  /** A report later than t changes nothing about who speaks for t. */
  lemma {:induction false} SaysAtPrefix(log: seq<Accepted>, i: nat, ttl: int, t: Time, a: ActivityState)
    requires i < |log| - 1 && t < log[|log| - 1].at
    ensures SaysAt(log, i, ttl, t, a) == SaysAt(log[..|log| - 1], i, ttl, t, a)
  {
    assert log[..|log| - 1][..i + 1] == log[..i + 1];
  }

  /** Once a later report is in, the earlier ones no longer speak. */
  lemma {:induction false} Superseded(log: seq<Accepted>, i: nat, ttl: int, t: Time)
    requires Chronological(log)
    requires i + 1 < |log| && log[|log| - 1].at <= t
    ensures !SpeaksFor(log, i, ttl, t)
  {
    assert i + 1 < |log| - 1 ==> log[i + 1].at <= log[|log| - 1].at;
  }

  lemma {:induction false} LogSaysPrefix(log: seq<Accepted>, ttl: int, t: Time, a: ActivityState)
    requires log != [] && t < log[|log| - 1].at
    ensures LogSays(log, ttl, t, a) == LogSays(log[..|log| - 1], ttl, t, a)
  {
    var rest := log[..|log| - 1];
    if LogSays(rest, ttl, t, a) {
      var i :| 0 <= i < |rest| && SaysAt(rest, i, ttl, t, a);
      SaysAtPrefix(log, i, ttl, t, a);
    }
    if LogSays(log, ttl, t, a) {
      var i :| 0 <= i < |log| && SaysAt(log, i, ttl, t, a);
      SaysAtPrefix(log, i, ttl, t, a);
    }
  }

  lemma {:induction false} LogSaysLast(log: seq<Accepted>, ttl: int, t: Time, a: ActivityState)
    requires Chronological(log)
    requires log != [] && log[|log| - 1].at <= t
    ensures LogSays(log, ttl, t, a) == SaysAt(log, |log| - 1, ttl, t, a)
  {
    if LogSays(log, ttl, t, a) {
      var i :| 0 <= i < |log| && SaysAt(log, i, ttl, t, a);
      if i < |log| - 1 { Superseded(log, i, ttl, t); }
    }
  }

  lemma {:induction false} LogAtIsMembership(log: seq<Accepted>, ttl: int, t: Time, a: ActivityState)
    requires Chronological(log)
    ensures LogAt(log, ttl, t) == Some(a) <==> LogSays(log, ttl, t, a)
    decreases |log|
  {
    if log != [] {
      var n := |log| - 1;
      if log[n].at <= t {
        assert log[..n + 1] == log;
        LogSaysLast(log, ttl, t, a);
      } else {
        LogSaysPrefix(log, ttl, t, a);
        LogAtIsMembership(log[..n], ttl, t, a);
      }
    }
  }

  // ---------------------------------------------------------------- the refinement invariant

  ghost predicate SameCover(l: Ledger, log: seq<Accepted>, ttl: int) {
    l.presence.Some? ==>
      forall t :: CoverAt(l.intervals, l.presence.value.leaseExpiresAt, t) == LogAt(log, ttl, t)
  }

  ghost predicate Refines(l: Ledger, log: seq<Accepted>, ttl: int) {
    && LedgerValid(l, ttl)
    && Chronological(log)
    && (l.presence.None? <==> log == [])
    && (l.presence.Some? ==>
          && l.presence.value.lastReportReceivedAt == log[|log| - 1].at
          && LogActivity(log) == Some(l.presence.value.snapshot.activityState))
    && SameCover(l, log, ttl)
  }

  // ---------------------------------------------------------------- one batch

  /** State of the batch loop: either the lease boundary is broken and nothing is open, or the open
      interval mirrors the current snapshot. `low` bounds the open interval's first sequence. */
  predicate InBatch(p: Progress, generation: nat, at: Time, low: nat) {
    && Ordered(p.intervals)
    && (p.current.Some? ==> SnapshotValid(p.current.value))
    && (p.needsOpenInterval ==> AllEndBy(p.intervals, at))
    && (!p.needsOpenInterval ==>
          && p.current.Some?
          && LastOpen(p.intervals)
          && var open := p.intervals[|p.intervals| - 1];
             && Mirrors(open, generation, p.current.value)
             && open.startedAt <= at
             && open.startSequence <= low)
  }

  ghost predicate SameBefore(a: seq<Interval>, b: seq<Interval>, at: Time) {
    forall t :: t < at ==> CoverAt(a, at, t) == CoverAt(b, at, t)
  }

  lemma {:induction false} OpenKeepsBefore(intervals: seq<Interval>, generation: nat, activity: ActivityState, s: nat, at: Time)
    ensures SameBefore(OpenInterval(intervals, generation, activity, s, at), intervals, at)
  {
    forall t | t < at
      ensures CoverAt(OpenInterval(intervals, generation, activity, s, at), at, t) == CoverAt(intervals, at, t)
    {
      CoverAfterOpen(intervals, generation, activity, s, at, at, t);
    }
  }

  lemma {:induction false} CloseKeepsBefore(intervals: seq<Interval>, closing: Closing)
    requires Ordered(intervals) && LastOpen(intervals)
    requires intervals[|intervals| - 1].startedAt <= closing.endedAt
    requires intervals[|intervals| - 1].startSequence <= closing.endSequence
    ensures SameBefore(CloseEvery(intervals, closing), intervals, closing.endedAt)
  {
    forall t | t < closing.endedAt
      ensures CoverAt(CloseEvery(intervals, closing), closing.endedAt, t) == CoverAt(intervals, closing.endedAt, t)
    {
      CoverAfterClose(intervals, closing, closing.endedAt, t);
    }
  }

  lemma {:induction false} OpenIsOrdered(intervals: seq<Interval>, generation: nat, activity: ActivityState, s: nat, at: Time)
    requires Ordered(intervals) && AllEndBy(intervals, at) && s >= 1
    ensures Ordered(OpenInterval(intervals, generation, activity, s, at))
  {
  }

  /** One event keeps the loop state and never touches coverage before `at`. */
  lemma {:induction false} EventInBatch(p: Progress, event: EdgeEvent, generation: nat, broken: bool, at: Time)
    requires InBatch(p, generation, at, event.sequence) && event.sequence >= 1
    requires event.Heartbeat? ==> p.current.Some?
    requires event.Heartbeat? ==> p.current.value.lastStateSequence <= event.sequence
    requires event.StateTransition? ==> PairAllowed(event.displayState, event.activityState)
    requires broken && !p.needsOpenInterval && p.current.value.activityState.EligibleIdle? ==>
               p.current.value.eligibleSince == Some(at)
    requires p.needsOpenInterval ==> broken
    ensures var next := ApplyEvent(p, event, generation, broken, at);
      && next.Some?
      && InBatch(next.value, generation, at, event.sequence)
      && !next.value.needsOpenInterval
      && next.value.current.value.lastAcceptedSequence == event.sequence
      && SameBefore(next.value.intervals, p.intervals, at)
      && (event.StateTransition? ==> next.value.current.value.activityState == event.activityState)
      && (event.Heartbeat? ==> next.value.current.value.activityState == p.current.value.activityState)
      && next.value.current.value.lastStateSequence <= event.sequence
      && (broken && next.value.current.value.activityState.EligibleIdle? ==>
            next.value.current.value.eligibleSince == Some(at))
  {
    if p.needsOpenInterval {
      var activity := if event.Heartbeat? then p.current.value.activityState else event.activityState;
      OpenKeepsBefore(p.intervals, generation, activity, event.sequence, at);
      OpenIsOrdered(p.intervals, generation, activity, event.sequence, at);
    } else if event.StateTransition? && p.current.value.activityState != event.activityState {
      var closing := Closing(at, event.sequence, StateChanged);
      CloseLast(p.intervals, closing);
      CloseKeepsBefore(p.intervals, closing);
      var closed := CloseEvery(p.intervals, closing);
      OpenKeepsBefore(closed, generation, event.activityState, event.sequence, at);
      OpenIsOrdered(closed, generation, event.activityState, event.sequence, at);
    }
  }

  lemma {:induction false} ActivityAfterSplit(before: Option<ActivityState>, events: seq<EdgeEvent>)
    requires events != []
    ensures ActivityAfter(before, events) == ActivityAfter(ActivityAfter(before, events[..1]), events[1..])
  {
    var n := |events| - 1;
    if n > 0 {
      assert events[1..][..n - 1] == events[..n][1..];
      assert events[..n][..1] == events[..1];
      assert events[1..][n - 1] == events[n];
      if !events[n].StateTransition? { ActivityAfterSplit(before, events[..n]); }
    } else {
      assert events[..1] == events && events[1..] == [];
    }
  }

  lemma {:induction false} ActivityAfterOne(before: Option<ActivityState>, event: EdgeEvent)
    ensures ActivityAfter(before, [event]) == if event.StateTransition? then Some(event.activityState) else before
  {
    assert [event][..0] == [];
  }

  function CurrentActivity(p: Progress): Option<ActivityState> {
    if p.current.Some? then Some(p.current.value.activityState) else None
  }

  /** A whole batch: it cannot fail, ends with a mirrored open interval, and leaves the past alone. */
  lemma {:induction false} BatchInBatch(p: Progress, events: seq<EdgeEvent>, first: nat, generation: nat, broken: bool, at: Time)
    requires events != [] && first >= 1
    requires forall i :: 0 <= i < |events| ==> events[i].sequence == first + i
    requires forall i :: 0 <= i < |events| && events[i].StateTransition? ==>
               PairAllowed(events[i].displayState, events[i].activityState)
    requires InBatch(p, generation, at, first)
    requires events[0].Heartbeat? ==> p.current.Some? && p.current.value.lastStateSequence <= first
    requires broken && !p.needsOpenInterval && p.current.value.activityState.EligibleIdle? ==>
               p.current.value.eligibleSince == Some(at)
    requires p.needsOpenInterval ==> broken
    ensures var done := ApplyEvents(p, events, generation, broken, at);
      && done.Some?
      && InBatch(done.value, generation, at, first + |events| - 1)
      && !done.value.needsOpenInterval
      && done.value.current.value.lastAcceptedSequence == first + |events| - 1
      && SameBefore(done.value.intervals, p.intervals, at)
      && CurrentActivity(done.value) == ActivityAfter(CurrentActivity(p), events)
    decreases |events|
  {
    EventInBatch(p, events[0], generation, broken, at);
    var next := ApplyEvent(p, events[0], generation, broken, at).value;
    ActivityAfterSplit(CurrentActivity(p), events);
    assert events[..1] == [events[0]];
    ActivityAfterOne(CurrentActivity(p), events[0]);
    if |events| > 1 {
      BatchInBatch(next, events[1..], first + 1, generation, broken, at);
    } else {
      assert events[1..] == [];
    }
  }

  // ---------------------------------------------------------------- one report

  /** The shared clock is monotone: it is past the last report, and past any lease already found expired. */
  predicate ClockReached(l: Ledger, at: Time) {
    l.presence.Some? ==>
      && l.presence.value.lastReportReceivedAt <= at
      && (l.presence.value.leaseClosedAt.Some? ==> l.presence.value.leaseExpiresAt <= at)
  }

  lemma {:induction false} CloseAtBoundary(l: Ledger, ttl: int, closing: Closing, at: Time)
    requires LedgerValid(l, ttl) && l.presence.Some? && l.presence.value.leaseClosedAt.None?
    requires closing.endSequence == l.presence.value.snapshot.lastAcceptedSequence
    requires l.presence.value.lastReportReceivedAt <= closing.endedAt <= l.presence.value.leaseExpiresAt
    requires closing.endedAt <= at
    requires closing.endedAt == at || closing.endedAt == l.presence.value.leaseExpiresAt
    ensures CloseOpen(l.intervals, closing) == Some(CloseEvery(l.intervals, closing))
    ensures Ordered(CloseEvery(l.intervals, closing)) && AllEndBy(CloseEvery(l.intervals, closing), at)
    ensures forall t | t < at ::
              CoverAt(CloseEvery(l.intervals, closing), l.presence.value.leaseExpiresAt, t)
              == CoverAt(l.intervals, l.presence.value.leaseExpiresAt, t)
    ensures closing.endedAt == l.presence.value.leaseExpiresAt ==>
              forall t, lease :: CoverAt(CloseEvery(l.intervals, closing), lease, t)
                              == CoverAt(l.intervals, l.presence.value.leaseExpiresAt, t)
  {
    var lease := l.presence.value.leaseExpiresAt;
    CloseLast(l.intervals, closing);
    var closed := CloseEvery(l.intervals, closing);
    forall t, any ensures CoverAt(closed, any, t) == CoverAt(l.intervals, closing.endedAt, t) {
      CoverAfterClose(l.intervals, closing, any, t);
    }
    forall t | t < at
      ensures CoverAt(closed, lease, t) == CoverAt(l.intervals, lease, t)
    {
      if closing.endedAt != lease { CoverIgnoresLease(l.intervals, at, lease, t); }
    }
  }

  /** Rolling or fencing leaves nothing open that the new batch does not own. */
  lemma {:induction false} RollBootSound(l: Ledger, ttl: int, first: EdgeEvent, generation: nat, at: Time)
    requires LedgerValid(l, ttl) && ttl > 0
    requires ClockReached(l, at)
    ensures var rolled := RollBoot(l, first, generation, at);
      && rolled.Some?
      && Ordered(rolled.value.intervals)
      && (CanRoll(l.presence, first, at) ==>
            && rolled.value.presence == l.presence
            && LastOpen(rolled.value.intervals)
            && rolled.value.intervals[|rolled.value.intervals| - 1]
               == l.intervals[|l.intervals| - 1].(generation := generation, startSequence := 1))
      && (!CanRoll(l.presence, first, at) ==>
            rolled.value.presence.None? && AllEndBy(rolled.value.intervals, at))
      && (l.presence.Some? ==>
            forall t | t < at ::
              CoverAt(rolled.value.intervals, l.presence.value.leaseExpiresAt, t)
              == CoverAt(l.intervals, l.presence.value.leaseExpiresAt, t))
  {
    if l.presence.Some? {
      var p := l.presence.value;
      var lease := p.leaseExpiresAt;
      if CanRoll(l.presence, first, at) {
        MoveLast(l.intervals, generation);
        forall t | t < at ensures CoverAt(MoveEvery(l.intervals, generation), lease, t) == CoverAt(l.intervals, lease, t) {
          CoverAfterMove(l.intervals, generation, lease, t);
        }
      } else if p.leaseClosedAt.None? {
        var expired := lease <= at;
        var closing := Closing(if expired then lease else at, p.snapshot.lastAcceptedSequence,
                               if expired then LeaseExpired else BootReplaced);
        CloseAtBoundary(l, ttl, closing, at);
      }
    }
  }

  /** The loop state the batch starts from. */
  function StartProgress(rolled: Ledger, newBoot: bool, seamless: bool, closed: seq<Interval>, at: Time): Progress {
    Progress(if rolled.presence.None? then None else Some(rolled.presence.value.snapshot),
             (newBoot && !seamless) || LeaseWasExpired(rolled.presence, at), closed)
  }

  /** The boot and the sequence a report may extend. */
  predicate Extends(l: Ledger, newBoot: bool, generation: nat, events: seq<EdgeEvent>, first: nat) {
    && events != [] && first >= 1
    && (forall i :: 0 <= i < |events| ==> events[i].sequence == first + i)
    && (forall i :: 0 <= i < |events| && events[i].StateTransition? ==>
          PairAllowed(events[i].displayState, events[i].activityState))
    && (newBoot ==> events[0].StateTransition?)
    && (!newBoot ==>
          && l.presence.Some?
          && l.presence.value.generation == generation
          && l.presence.value.snapshot.lastAcceptedSequence < first)
  }

  lemma {:induction false} StartInBatch(l: Ledger, log: seq<Accepted>, ttl: int, newBoot: bool, generation: nat,
                     events: seq<EdgeEvent>, first: nat, at: Time)
    requires Refines(l, log, ttl) && ttl > 0
    requires ClockReached(l, at)
    requires Extends(l, newBoot, generation, events, first)
    ensures var rolled := if newBoot then RollBoot(l, events[0], generation, at) else Some(l);
      && rolled.Some?
      && CloseExpired(rolled.value, at).Some?
      && var start := StartProgress(rolled.value, newBoot, newBoot && CanRoll(l.presence, events[0], at),
                                    CloseExpired(rolled.value, at).value, at);
         && InBatch(start, generation, at, first)
         && (start.current.Some? ==> CurrentActivity(start) == LogActivity(log))
         && (start.current.None? ==> newBoot)
         && (!newBoot ==> start.current.value.lastStateSequence <= first)
         && (forall t | t < at :: CoverAt(start.intervals, at, t) == LogAt(log, ttl, t))
  {
    var rolled := if newBoot then RollBoot(l, events[0], generation, at) else Some(l);
    if newBoot { RollBootSound(l, ttl, events[0], generation, at); }
    if l.presence.Some? {
      var p := l.presence.value;
      var lease := p.leaseExpiresAt;
      if !newBoot && lease <= at && p.leaseClosedAt.None? {
        CloseAtBoundary(l, ttl, Closing(lease, p.snapshot.lastAcceptedSequence, LeaseExpired), at);
      }
      var closed := CloseExpired(rolled.value, at).value;
      forall t | t < at ensures CoverAt(closed, at, t) == LogAt(log, ttl, t) {
        assert CoverAt(closed, lease, t) == CoverAt(l.intervals, lease, t);
        CoverIgnoresLease(closed, lease, at, t);
      }
    }
  }

  /** The row a finished batch saves. */
  function Saved(done: Progress, generation: nat, bootId: Uuid, at: Time, ttl: int): Ledger
    requires done.current.Some?
  {
    Ledger(Some(Presence(generation, bootId, done.current.value, at, at + ttl, None)), done.intervals)
  }

  lemma {:induction false} FinishBatch(done: Progress, log: seq<Accepted>, ttl: int, generation: nat, bootId: Uuid,
                    events: seq<EdgeEvent>, last: nat, at: Time)
    requires InBatch(done, generation, at, last) && !done.needsOpenInterval && ttl > 0
    requires done.current.value.lastAcceptedSequence == last
    requires Chronological(log) && (log != [] ==> log[|log| - 1].at <= at)
    requires CurrentActivity(done) == ActivityAfter(LogActivity(log), events)
    requires forall t | t < at :: CoverAt(done.intervals, at, t) == LogAt(log, ttl, t)
    ensures Refines(Saved(done, generation, bootId, at, ttl), log + [Accepted(at, events)], ttl)
  {
    var log' := log + [Accepted(at, events)];
    assert log'[..|log'| - 1] == log;
    forall t ensures CoverAt(done.intervals, at + ttl, t) == LogAt(log', ttl, t) {
      if t < at { CoverIgnoresLease(done.intervals, at, at + ttl, t); }
    }
  }

  /** What a recorded report leaves behind: a live lease of that boot and sequence, and the longer log refined. */
  ghost predicate RecordedAs(l: Ledger, log: seq<Accepted>, ttl: int, generation: nat, bootId: Uuid, last: int) {
    && Refines(l, log, ttl)
    && l.presence.Some?
    && l.presence.value.generation == generation
    && l.presence.value.bootId == bootId
    && l.presence.value.snapshot.lastAcceptedSequence == last
    && l.presence.value.leaseClosedAt.None?
  }

  /**
   Accepting a report cannot roll back, and the new ledger refines the log with that report appended:
   no instant before the report changes, and from the report on its activity covers one whole lease.
   */
  lemma {:induction false} RecordRefines(l: Ledger, log: seq<Accepted>, ttl: int, newBoot: bool, generation: nat, bootId: Uuid,
                      events: seq<EdgeEvent>, first: nat, at: Time)
    requires Refines(l, log, ttl) && ttl > 0
    requires ClockReached(l, at)
    requires Extends(l, newBoot, generation, events, first)
    ensures var next := Record(l, newBoot, generation, bootId, events, at, at + ttl);
      next.Some? && RecordedAs(next.value, log + [Accepted(at, events)], ttl, generation, bootId, first + |events| - 1)
  {
    hide CoverAt, LogAt, Ordered, SameCover;
    StartInBatch(l, log, ttl, newBoot, generation, events, first, at);
    var seamless := newBoot && CanRoll(l.presence, events[0], at);
    var rolled := (if newBoot then RollBoot(l, events[0], generation, at) else Some(l)).value;
    var start := StartProgress(rolled, newBoot, seamless, CloseExpired(rolled, at).value, at);
    BatchInBatch(start, events, first, generation, start.needsOpenInterval, at);
    var done := ApplyEvents(start, events, generation, start.needsOpenInterval, at).value;
    if start.current.None? { ActivityFromTransition(events, LogActivity(log)); }
    FinishBatch(done, log, ttl, generation, bootId, events, first + |events| - 1, at);
    assert Record(l, newBoot, generation, bootId, events, at, at + ttl) == Some(Saved(done, generation, bootId, at, ttl));
  }

  /** A batch that begins with a state transition forgets what came before it. */
  lemma {:induction false} ActivityFromTransition(events: seq<EdgeEvent>, before: Option<ActivityState>)
    requires events != [] && events[0].StateTransition?
    ensures ActivityAfter(before, events) == ActivityAfter(None, events)
  {
    ActivityAfterSplit(before, events);
    ActivityAfterSplit(None, events);
    assert events[..1] == [events[0]];
    ActivityAfterOne(before, events[0]);
    ActivityAfterOne(None, events[0]);
  }

  /** The sweeper cannot roll back either, and is invisible: the ledger refines the same log as before. */
  lemma {:induction false} SweepRefines(l: Ledger, log: seq<Accepted>, ttl: int, now: Time)
    requires Refines(l, log, ttl) && ttl > 0
    requires ClockReached(l, now)
    ensures Sweep(l, now).Some? && Refines(Sweep(l, now).value, log, ttl)
    ensures l.presence.Some? && l.presence.value.leaseExpiresAt <= now ==>
              Sweep(l, now).value.presence.value.leaseClosedAt == Some(l.presence.value.leaseExpiresAt)
  {
    if l.presence.Some? && l.presence.value.leaseClosedAt.None? && l.presence.value.leaseExpiresAt <= now {
      var p := l.presence.value;
      CloseAtBoundary(l, ttl, Closing(p.leaseExpiresAt, p.snapshot.lastAcceptedSequence, LeaseExpired), now);
      CloseLast(l.intervals, Closing(p.leaseExpiresAt, p.snapshot.lastAcceptedSequence, LeaseExpired));
    }
  }

  // ---------------------------------------------------------------- what the invariant says

  predicate LedgerSays(l: Ledger, t: Time, a: ActivityState)
    requires l.presence.Some?
  {
    exists i :: 0 <= i < |l.intervals| && Covers(l.intervals[i], l.presence.value.leaseExpiresAt, t)
                && l.intervals[i].activity == a
  }

  /**
   The ledger and the log agree at every instant: an interval labelled a covers t exactly when t lies in
   the window of an accepted report after which the latest accepted activity is a; never two intervals do.
   */
  lemma {:induction false} LedgerIsTheLog(l: Ledger, log: seq<Accepted>, ttl: int, t: Time, a: ActivityState)
    requires Refines(l, log, ttl) && l.presence.Some?
    ensures LedgerSays(l, t, a) <==> LogSays(log, ttl, t, a)
    ensures forall i, j | 0 <= i < j < |l.intervals| ::
              !(Covers(l.intervals[i], l.presence.value.leaseExpiresAt, t)
                && Covers(l.intervals[j], l.presence.value.leaseExpiresAt, t))
  {
    CoverIsMembership(l.intervals, l.presence.value.leaseExpiresAt, t);
    assert CoverAt(l.intervals, l.presence.value.leaseExpiresAt, t) == LogAt(log, ttl, t);
    LogAtIsMembership(log, ttl, t, a);
  }

  /** The checks and exclusion constraints the database declares on the two tables. */
  predicate SchemaConstraints(l: Ledger) {
    && (forall i :: 0 <= i < |l.intervals| && l.intervals[i].closing.Some? ==>
          && l.intervals[i].closing.value.endedAt >= l.intervals[i].startedAt
          && l.intervals[i].closing.value.endSequence >= l.intervals[i].startSequence)
    && (forall i, j | 0 <= i < j < |l.intervals| ::
          l.intervals[i].closing.Some? || l.intervals[j].closing.Some?)
    && (l.presence.Some? ==>
          var p := l.presence.value;
          && PairAllowed(p.snapshot.displayState, p.snapshot.activityState)
          && (p.snapshot.activityState.EligibleIdle? <==> p.snapshot.eligibleSince.Some?)
          && p.snapshot.lastAcceptedSequence >= p.snapshot.lastStateSequence
          && p.leaseExpiresAt > p.lastReportReceivedAt
          && (p.leaseClosedAt.None? || p.leaseClosedAt == Some(p.leaseExpiresAt)))
  }

  /** Exactly one interval is open while a live lease is, none otherwise; an idle one starts at eligible_since;
      and no declared constraint can fire. */
  lemma {:induction false} OneOpenInterval(l: Ledger, ttl: int)
    requires LedgerValid(l, ttl) && ttl > 0
    ensures SchemaConstraints(l)
    ensures OpenCount(l.intervals) == if l.presence.Some? && l.presence.value.leaseClosedAt.None? then 1 else 0
    ensures l.presence.Some? && l.presence.value.leaseClosedAt.None?
              && l.presence.value.snapshot.activityState.EligibleIdle? ==>
              l.presence.value.snapshot.eligibleSince == Some(l.intervals[|l.intervals| - 1].startedAt)
  {
    OpenCountOrdered(l.intervals);
  }

  // ---------------------------------------------------------------- why one monotone clock is needed

  /** The lease was swept, yet the clock has not reached its end. */
  predicate ClockBehindSweep(l: Ledger, at: Time) {
    && l.presence.Some? && l.presence.value.leaseClosedAt.Some? && at < l.presence.value.leaseExpiresAt
    && OpenCount(l.intervals) == 0
  }

  predicate ChangesActivity(events: seq<EdgeEvent>, activity: ActivityState) {
    exists i :: 0 <= i < |events| && events[i].StateTransition? && events[i].activityState != activity
  }

  /** With nothing open and none to be opened, only a change of activity throws, and anything else opens nothing. */
  lemma {:induction false} NothingToClose(p: Progress, events: seq<EdgeEvent>, generation: nat, at: Time)
    requires p.current.Some? && !p.needsOpenInterval && OpenCount(p.intervals) == 0
    ensures var done := ApplyEvents(p, events, generation, false, at);
      && (done.None? <==> ChangesActivity(events, p.current.value.activityState))
      && (done.Some? ==> done.value.intervals == p.intervals && done.value.current.Some?)
    decreases |events|
  {
    hide CloseEvery, OpenCount;
    if events != [] {
      var next := ApplyEvent(p, events[0], generation, false, at);
      ChangesByOne(events[0], p.current.value.activityState);
      if next.Some? { NothingToClose(next.value, events[1..], generation, at); }
      ChangesSplit(events, p.current.value.activityState);
    }
  }

  lemma {:induction false} ChangesByOne(event: EdgeEvent, activity: ActivityState)
    ensures ChangesActivity([event], activity) <==> event.StateTransition? && event.activityState != activity
  {
    assert [event][0] == event;
  }

  lemma {:induction false} ChangesSplit(events: seq<EdgeEvent>, activity: ActivityState)
    requires events != []
    ensures ChangesActivity(events, activity) <==> ChangesActivity([events[0]], activity) || ChangesActivity(events[1..], activity)
  {
    var rest := events[1..];
    if i :| 0 <= i < |events| && events[i].StateTransition? && events[i].activityState != activity {
      if i > 0 { assert rest[i - 1] == events[i]; } else { assert [events[0]][0] == events[0]; }
    }
    if i :| 0 <= i < |rest| && rest[i].StateTransition? && rest[i].activityState != activity { assert events[i + 1] == rest[i]; }
  }

  /**
   Behind a swept lease a report is rolled back exactly when it begins a boot or changes the activity; any other is
   accepted and renews a lease under which no interval is open, so the time it covers is lost.
   */
  lemma {:induction false} BehindSweep(l: Ledger, newBoot: bool, generation: nat, bootId: Uuid, events: seq<EdgeEvent>,
                                       at: Time, leaseExpiresAt: Time)
    requires ClockBehindSweep(l, at) && events != []
    ensures var next := Record(l, newBoot, generation, bootId, events, at, leaseExpiresAt);
      && (next.None? <==> newBoot || ChangesActivity(events, l.presence.value.snapshot.activityState))
      && (next.Some? ==> next.value.presence.Some? && next.value.presence.value.leaseClosedAt.None?
                         && OpenCount(next.value.intervals) == 0)
  {
    hide CloseEvery, OpenCount, ChangesActivity, ApplyEvents;
    NothingToClose(Progress(Some(l.presence.value.snapshot), false, l.intervals), events, generation, at);
  }
}

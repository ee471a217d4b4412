/**
 The rows the leaderboard query reads from the activity ledger as of an instant, and why they are settled once the
 clock has reached it: no later report or sweep changes the part of the ledger that lies before.
 */
module Settlement {
  import opened Status
  import opened EdgeWire
  import opened PresenceLedger
  import opened LedgerRefinement
  import opened IngestTables
  import opened StoreInvariant
  import opened ReportingRuns
  import opened Scoring
  import opened IslandMerge

  // ---------------------------------------------------------------- what lies before an instant

  /** Equal as far as instants before `asOf` are concerned; an open interval runs to the end of the lease. */
  predicate Frozen(x: Interval, lease: Time, y: Interval, lease': Time, asOf: Time) {
    && x.activity == y.activity && x.startedAt == y.startedAt
    && (x.startedAt < asOf ==> Min(EndOr(x, lease), asOf) == Min(EndOr(y, lease'), asOf))
  }

  /** The later ledger only rewrites what is settled into what agrees with it, and only adds from `asOf` on. */
  predicate Kept(a: seq<Interval>, lease: Time, b: seq<Interval>, lease': Time, asOf: Time) {
    && |a| <= |b|
    && (forall i {:trigger b[i]} :: 0 <= i < |a| ==> Frozen(a[i], lease, b[i], lease', asOf))
    && (forall i {:trigger b[i]} :: |a| <= i < |b| ==> b[i].startedAt >= asOf)
  }

  lemma {:induction false} KeptTwice(a: seq<Interval>, la: Time, b: seq<Interval>, lb: Time, c: seq<Interval>, lc: Time, asOf: Time)
    requires Kept(a, la, b, lb, asOf) && Kept(b, lb, c, lc, asOf)
    ensures Kept(a, la, c, lc, asOf)
  {
    forall i | 0 <= i < |c|
      ensures if i < |a| then Frozen(a[i], la, c[i], lc, asOf) else c[i].startedAt >= asOf
    {
      if i < |b| {
        assert Frozen(b[i], lb, c[i], lc, asOf);
        if i < |a| { assert Frozen(a[i], la, b[i], lb, asOf); } else { assert b[i].startedAt >= asOf; }
      }
    }
  }

  predicate NoneOpen(intervals: seq<Interval>) {
    forall i :: 0 <= i < |intervals| ==> intervals[i].closing.Some?
  }

  lemma {:induction false} CloseKeeps(a: seq<Interval>, lease: Time, closing: Closing, lease': Time, asOf: Time)
    requires Min(lease, asOf) == Min(closing.endedAt, asOf)
    ensures Kept(a, lease, CloseEvery(a, closing), lease', asOf)
  {
  }

  lemma {:induction false} MoveKeeps(a: seq<Interval>, lease: Time, generation: nat, lease': Time, asOf: Time)
    requires Min(lease, asOf) == Min(lease', asOf)
    ensures Kept(a, lease, MoveEvery(a, generation), lease', asOf)
  {
  }

  lemma {:induction false} LeaseKeeps(a: seq<Interval>, lease: Time, lease': Time, asOf: Time)
    requires Min(lease, asOf) == Min(lease', asOf) || NoneOpen(a)
    ensures Kept(a, lease, a, lease', asOf)
  {
  }

  lemma {:induction false} EventKeeps(p: Progress, event: EdgeEvent, generation: nat, broken: bool, at: Time, asOf: Time)
    requires asOf <= at && ApplyEvent(p, event, generation, broken, at).Some?
    ensures Kept(p.intervals, asOf, ApplyEvent(p, event, generation, broken, at).value.intervals, asOf, asOf)
  {
    hide CloseEvery, OpenCount;
    var next := ApplyEvent(p, event, generation, broken, at).value.intervals;
    var closing := Closing(at, event.sequence, StateChanged);
    CloseKeeps(p.intervals, asOf, closing, asOf, asOf);
    LeaseKeeps(p.intervals, asOf, asOf, asOf);
    var closed := CloseEvery(p.intervals, closing);
    assert |next| == |p.intervals| || |next| == |p.intervals| + 1;
  }

  lemma {:induction false} EventsKeep(p: Progress, events: seq<EdgeEvent>, generation: nat, broken: bool, at: Time, asOf: Time)
    requires asOf <= at && ApplyEvents(p, events, generation, broken, at).Some?
    ensures Kept(p.intervals, asOf, ApplyEvents(p, events, generation, broken, at).value.intervals, asOf, asOf)
    decreases |events|
  {
    hide ApplyEvent, Kept;
    if events == [] {
      LeaseKeeps(p.intervals, asOf, asOf, asOf);
    } else {
      var next := ApplyEvent(p, events[0], generation, broken, at).value;
      EventKeeps(p, events[0], generation, broken, at, asOf);
      EventsKeep(next, events[1..], generation, broken, at, asOf);
      KeptTwice(p.intervals, asOf, next.intervals, asOf, ApplyEvents(p, events, generation, broken, at).value.intervals, asOf, asOf);
    }
  }

  function LeaseEnd(l: Ledger): Time {
    if l.presence.None? then 0 else l.presence.value.leaseExpiresAt
  }

  /** Rolling, fencing and expiring: what is open afterwards was to run beyond the instant. */
  lemma {:induction false} BoundaryKeeps(l: Ledger, ttl: int, newBoot: bool, generation: nat, first: EdgeEvent, at: Time, asOf: Time)
    requires LedgerValid(l, ttl) && ClockReached(l, at) && asOf <= at
    requires newBoot ==> RollBoot(l, first, generation, at).Some?
    ensures var rolled := if newBoot then RollBoot(l, first, generation, at).value else l;
      CloseExpired(rolled, at).Some? ==> Kept(l.intervals, LeaseEnd(l), CloseExpired(rolled, at).value, asOf, asOf)
  {
    hide CloseEvery, MoveEvery, OpenCount, Kept, Ordered;
    if l.presence.Some? {
      var p := l.presence.value;
      var lease := p.leaseExpiresAt;
      var sequence := p.snapshot.lastAcceptedSequence;
      CloseKeeps(l.intervals, lease, Closing(lease, sequence, LeaseExpired), asOf, asOf);
      if lease > at {
        LeaseKeeps(l.intervals, lease, asOf, asOf);
        MoveKeeps(l.intervals, lease, generation, asOf, asOf);
        CloseKeeps(l.intervals, lease, Closing(at, sequence, BootReplaced), asOf, asOf);
      } else if p.leaseClosedAt.Some? {
        LeaseKeeps(l.intervals, lease, asOf, asOf);
      }
    } else {
      LeaseKeeps(l.intervals, 0, asOf, asOf);
    }
  }

  lemma {:induction false} RecordKeeps(l: Ledger, ttl: int, newBoot: bool, generation: nat, bootId: Uuid, events: seq<EdgeEvent>,
                                       at: Time, asOf: Time)
    requires LedgerValid(l, ttl) && ttl > 0 && ClockReached(l, at) && asOf <= at && events != []
    requires Record(l, newBoot, generation, bootId, events, at, at + ttl).Some?
    ensures var next := Record(l, newBoot, generation, bootId, events, at, at + ttl).value;
            Kept(l.intervals, LeaseEnd(l), next.intervals, LeaseEnd(next), asOf)
  {
    hide LedgerValid, ClockReached, Kept, ApplyEvents, RollBoot, CloseExpired, CanRoll, LeaseWasExpired;
    BoundaryKeeps(l, ttl, newBoot, generation, events[0], at, asOf);
    var rolled := if newBoot then RollBoot(l, events[0], generation, at).value else l;
    var closed := CloseExpired(rolled, at).value;
    var broken := (newBoot && !(newBoot && CanRoll(l.presence, events[0], at))) || LeaseWasExpired(rolled.presence, at);
    var start := Progress(if rolled.presence.None? then None else Some(rolled.presence.value.snapshot), broken, closed);
    EventsKeep(start, events, generation, broken, at, asOf);
    var done := ApplyEvents(start, events, generation, broken, at).value.intervals;
    LeaseKeeps(done, asOf, at + ttl, asOf);
    KeptTwice(l.intervals, LeaseEnd(l), closed, asOf, done, asOf, asOf);
    KeptTwice(l.intervals, LeaseEnd(l), done, asOf, done, at + ttl, asOf);
  }

  lemma {:induction false} SweepKeeps(l: Ledger, now: Time, asOf: Time)
    requires Sweep(l, now).Some?
    ensures Kept(l.intervals, LeaseEnd(l), Sweep(l, now).value.intervals, LeaseEnd(Sweep(l, now).value), asOf)
  {
    hide CloseEvery, OpenCount, Kept;
    LeaseKeeps(l.intervals, LeaseEnd(l), LeaseEnd(l), asOf);
    if l.presence.Some? {
      var p := l.presence.value;
      CloseKeeps(l.intervals, p.leaseExpiresAt, Closing(p.leaseExpiresAt, p.snapshot.lastAcceptedSequence, LeaseExpired),
        p.leaseExpiresAt, asOf);
    }
  }

  predicate LedgerKept(w: World, w': World, asOf: Time) {
    Kept(w.tables.ledger.intervals, LeaseEnd(w.tables.ledger), w'.tables.ledger.intervals, LeaseEnd(w'.tables.ledger), asOf)
  }

  lemma {:induction false} CommitLedger(t: Tables, e: Envelope, newBoot: bool, generation: nat, at: Time, ttl: int)
    requires |e.events| > 0 && Commit(t, e, newBoot, generation, at, ttl).Some?
    ensures Record(t.ledger, newBoot, generation, e.bootId, e.events, at, at + ttl)
         == Some(Commit(t, e, newBoot, generation, at, ttl).value.ledger)
  {
    hide Record, StartBoot, StoreReceipt, HasTransition, AdvanceBoots;
  }

  lemma {:induction false} WorldLedger(w: World, ttl: int, at: Time)
    requires WorldValid(w, ttl) && w.clock <= at
    ensures LedgerValid(w.tables.ledger, ttl) && ttl > 0 && ClockReached(w.tables.ledger, at)
  {
    hide OnceEach, ReceiptsValid, FingerprintsValid, ChainValid, LedgerValid, SameCover;
  }

  lemma {:induction false} StepKeeps(w: World, a: Action, ttl: int, asOf: Time)
    requires WorldValid(w, ttl) && asOf <= w.clock <= a.at
    ensures LedgerKept(w, Step(w, a, ttl), asOf)
  {
    hide LedgerValid, ClockReached, Kept, Record, Sweep, Commit, Classify, WorldValid;
    WorldLedger(w, ttl, a.at);
    var l := w.tables.ledger;
    LeaseKeeps(l.intervals, LeaseEnd(l), LeaseEnd(l), asOf);
    if a.SweepAt? {
      if Sweep(l, a.at).Some? { SweepKeeps(l, a.at, asOf); }
    } else if Prepared(a.envelope, a.endpoint) {
      DeliveryKeeps(w, a.envelope, a.endpoint, a.at, ttl, asOf);
    }
  }

  lemma {:induction false} DeliveryKeeps(w: World, e: Envelope, endpoint: Endpoint, clock: Time, ttl: int, asOf: Time)
    requires WorldValid(w, ttl) && asOf <= w.clock <= clock && Prepared(e, endpoint)
    ensures var l, l' := w.tables.ledger, Ingest(w.tables, e, endpoint, clock, ttl).0.ledger;
            Kept(l.intervals, LeaseEnd(l), l'.intervals, LeaseEnd(l'), asOf)
  {
    hide LedgerValid, ClockReached, Kept, Record, Commit, Classify, WorldValid;
    var t := w.tables;
    var at := NextServerReceivedAt(clock, t.head);
    WorldLedger(w, ttl, at);
    LeaseKeeps(t.ledger.intervals, LeaseEnd(t.ledger), LeaseEnd(t.ledger), asOf);
    var v := Classify(t, e, endpoint);
    if v.Accept? && Commit(t, e, v.newBoot, v.generation, at, ttl).Some? {
      CommitLedger(t, e, v.newBoot, v.generation, at, ttl);
      RecordKeeps(t.ledger, ttl, v.newBoot, v.generation, e.bootId, e.events, at, asOf);
    }
  }

  /** Once the clock has reached an instant, no run changes anything the ledger says about earlier instants. */
  lemma {:induction false} RunKeeps(start: World, actions: seq<Action>, ttl: int, asOf: Time)
    requires WorldValid(start, ttl) && asOf <= start.clock && MonotoneFrom(start.clock, actions)
    ensures LedgerKept(start, Run(start, actions, ttl), asOf)
    ensures WorldValid(Run(start, actions, ttl), ttl)
  {
    hide Step, WorldValid, Kept;
    if actions == [] {
      var l := start.tables.ledger;
      LeaseKeeps(l.intervals, LeaseEnd(l), LeaseEnd(l), asOf);
    } else {
      var before, a := actions[..|actions| - 1], actions[|actions| - 1];
      RunKeeps(start, before, ttl, asOf);
      RunValid(start, before, ttl);
      var w := Run(start, before, ttl);
      StepKeeps(w, a, ttl, asOf);
      StepValid(w, a, ttl);
      var l, l', l'' := start.tables.ledger, w.tables.ledger, Step(w, a, ttl).tables.ledger;
      KeptTwice(l.intervals, LeaseEnd(l), l'.intervals, LeaseEnd(l'), l''.intervals, LeaseEnd(l''), asOf);
    }
  }

  // ---------------------------------------------------------------- the query's rows

  datatype Qualification = Qualification(startedAt: Time, endedAt: Option<Time>)

  datatype Occurrence = Occurrence(startsAt: Time, endsAt: Time)

  function Coalesce(o: Option<Time>, otherwise: Time): Time {
    if o.Some? then o.value else otherwise
  }

  /** The end the query gives an activity interval; only a presence row with an open lease joins an open interval. */
  function ActivityEnd(l: Ledger, i: Interval, asOf: Time): Time {
    if i.closing.Some? then i.closing.value.endedAt
    else if l.presence.None? || l.presence.value.leaseClosedAt.Some? then i.startedAt
    else Min(l.presence.value.leaseExpiresAt, asOf)
  }

  predicate Joined(i: Interval, q: Qualification, o: Occurrence, asOf: Time) {
    && i.activity.EligibleIdle?
    && i.startedAt < o.endsAt
    && (if i.closing.Some? then i.closing.value.endedAt else asOf) > o.startsAt
    && q.startedAt < o.endsAt
    && Coalesce(q.endedAt, asOf) > o.startsAt
  }

  function RawSegment(l: Ledger, i: Interval, q: Qualification, o: Occurrence, asOf: Time): EligibilityInterval {
    EligibilityInterval(
      Max(i.startedAt, Max(q.startedAt, o.startsAt)),
      Some(Min(ActivityEnd(l, i, asOf), Min(Coalesce(q.endedAt, asOf), Min(o.endsAt, asOf)))))
  }

  function Row(l: Ledger, i: Interval, q: Qualification, o: Occurrence, asOf: Time): (r: seq<EligibilityInterval>)
    ensures Segments(r)
  {
    var raw := RawSegment(l, i, q, o, asOf);
    if Joined(i, q, o, asOf) && raw.endedAt.value > raw.startedAt then [raw] else []
  }

  function OccurrenceRows(l: Ledger, i: Interval, q: Qualification, os: seq<Occurrence>, asOf: Time): (r: seq<EligibilityInterval>)
    ensures Segments(r)
  {
    if os == [] then [] else Row(l, i, q, os[0], asOf) + OccurrenceRows(l, i, q, os[1..], asOf)
  }

  function QualifiedRows(l: Ledger, i: Interval, qs: seq<Qualification>, os: seq<Occurrence>, asOf: Time): (r: seq<EligibilityInterval>)
    ensures Segments(r)
  {
    if qs == [] then [] else OccurrenceRows(l, i, qs[0], os, asOf) + QualifiedRows(l, i, qs[1..], os, asOf)
  }

  /** The filtered rows of the first n intervals of one instance. */
  function InstanceRows(l: Ledger, n: nat, qs: seq<Qualification>, os: seq<Occurrence>, asOf: Time): (r: seq<EligibilityInterval>)
    requires n <= |l.intervals|
    ensures Segments(r)
  {
    if n == 0 then [] else InstanceRows(l, n - 1, qs, os, asOf) + QualifiedRows(l, l.intervals[n - 1], qs, os, asOf)
  }

  /** The filtered rows of one mount: those of every instance of its agent. */
  function MountRows(ledgers: seq<Ledger>, qs: seq<Qualification>, os: seq<Occurrence>, asOf: Time): (r: seq<EligibilityInterval>)
    ensures Segments(r)
  {
    if ledgers == [] then []
    else InstanceRows(ledgers[0], |ledgers[0].intervals|, qs, os, asOf) + MountRows(ledgers[1..], qs, os, asOf)
  }

  // ---------------------------------------------------------------- the rows are clipped to the day

  predicate Started(os: seq<Occurrence>) {
    forall i :: 0 <= i < |os| ==> os[i].startsAt >= 0
  }

  lemma {:induction false} ClippedTogether(a: seq<EligibilityInterval>, b: seq<EligibilityInterval>, asOf: Time)
    ensures Clipped(a, asOf) && Clipped(b, asOf) ==> Clipped(a + b, asOf)
  {
  }

  lemma {:induction false} OccurrenceRowsAreClipped(l: Ledger, i: Interval, q: Qualification, os: seq<Occurrence>, asOf: Time)
    requires Started(os)
    ensures Clipped(OccurrenceRows(l, i, q, os, asOf), asOf)
  {
    if os != [] {
      OccurrenceRowsAreClipped(l, i, q, os[1..], asOf);
      ClippedTogether(Row(l, i, q, os[0], asOf), OccurrenceRows(l, i, q, os[1..], asOf), asOf);
    }
  }

  lemma {:induction false} QualifiedRowsAreClipped(l: Ledger, i: Interval, qs: seq<Qualification>, os: seq<Occurrence>, asOf: Time)
    requires Started(os)
    ensures Clipped(QualifiedRows(l, i, qs, os, asOf), asOf)
  {
    hide Clipped, Started;
    if qs != [] {
      OccurrenceRowsAreClipped(l, i, qs[0], os, asOf);
      QualifiedRowsAreClipped(l, i, qs[1..], os, asOf);
      ClippedTogether(OccurrenceRows(l, i, qs[0], os, asOf), QualifiedRows(l, i, qs[1..], os, asOf), asOf);
    } else {
      NothingIsClipped(asOf);
    }
  }

  lemma {:induction false} NothingIsClipped(asOf: Time)
    ensures Clipped([], asOf)
  {
  }

  lemma {:induction false} InstanceRowsAreClipped(l: Ledger, n: nat, qs: seq<Qualification>, os: seq<Occurrence>, asOf: Time)
    requires Started(os) && n <= |l.intervals|
    ensures Clipped(InstanceRows(l, n, qs, os, asOf), asOf)
  {
    hide Clipped, Started;
    if n > 0 {
      InstanceRowsAreClipped(l, n - 1, qs, os, asOf);
      QualifiedRowsAreClipped(l, l.intervals[n - 1], qs, os, asOf);
      ClippedTogether(InstanceRows(l, n - 1, qs, os, asOf), QualifiedRows(l, l.intervals[n - 1], qs, os, asOf), asOf);
    } else {
      NothingIsClipped(asOf);
    }
  }

  /** Every row the query keeps lies within an occurrence and before the instant it is asked about. */
  lemma {:induction false} MountRowsAreClipped(ledgers: seq<Ledger>, qs: seq<Qualification>, os: seq<Occurrence>, asOf: Time)
    requires Started(os)
    ensures Clipped(MountRows(ledgers, qs, os, asOf), asOf)
  {
    hide Clipped, Started;
    if ledgers != [] {
      InstanceRowsAreClipped(ledgers[0], |ledgers[0].intervals|, qs, os, asOf);
      MountRowsAreClipped(ledgers[1..], qs, os, asOf);
      ClippedTogether(InstanceRows(ledgers[0], |ledgers[0].intervals|, qs, os, asOf), MountRows(ledgers[1..], qs, os, asOf), asOf);
    } else {
      NothingIsClipped(asOf);
    }
  }

  /** An open interval has a live presence row. */
  predicate Sound(l: Ledger, i: Interval) {
    i.closing.Some? || (l.presence.Some? && l.presence.value.leaseClosedAt.None?)
  }

  /** The join's coarse filters never drop a row the final filter would keep. */
  lemma {:induction false} FiltersAreRedundant(l: Ledger, i: Interval, q: Qualification, o: Occurrence, asOf: Time)
    requires Sound(l, i)
    ensures Row(l, i, q, o, asOf) ==
      var raw := RawSegment(l, i, q, o, asOf);
      if i.activity.EligibleIdle? && raw.endedAt.value > raw.startedAt then [raw] else []
  {
  }

  lemma {:induction false} FrozenRow(l: Ledger, i: Interval, l': Ledger, i': Interval, q: Qualification, o: Occurrence, asOf: Time)
    requires Sound(l, i) && Sound(l', i') && Frozen(i, LeaseEnd(l), i', LeaseEnd(l'), asOf)
    ensures Row(l, i, q, o, asOf) == Row(l', i', q, o, asOf)
  {
    FiltersAreRedundant(l, i, q, o, asOf);
    FiltersAreRedundant(l', i', q, o, asOf);
  }

  lemma {:induction false} FrozenRows(l: Ledger, i: Interval, l': Ledger, i': Interval, qs: seq<Qualification>, os: seq<Occurrence>, asOf: Time)
    requires Sound(l, i) && Sound(l', i') && Frozen(i, LeaseEnd(l), i', LeaseEnd(l'), asOf)
    ensures QualifiedRows(l, i, qs, os, asOf) == QualifiedRows(l', i', qs, os, asOf)
  {
    hide Row, Frozen;
    if qs != [] {
      FrozenRows(l, i, l', i', qs[1..], os, asOf);
      FrozenOccurrences(l, i, l', i', qs[0], os, asOf);
    }
  }

  lemma {:induction false} FrozenOccurrences(l: Ledger, i: Interval, l': Ledger, i': Interval, q: Qualification, os: seq<Occurrence>, asOf: Time)
    requires Sound(l, i) && Sound(l', i') && Frozen(i, LeaseEnd(l), i', LeaseEnd(l'), asOf)
    ensures OccurrenceRows(l, i, q, os, asOf) == OccurrenceRows(l', i', q, os, asOf)
  {
    hide Row, Frozen;
    if os != [] {
      FrozenRow(l, i, l', i', q, os[0], asOf);
      FrozenOccurrences(l, i, l', i', q, os[1..], asOf);
    }
  }

  lemma {:induction false} LateRows(l: Ledger, i: Interval, qs: seq<Qualification>, os: seq<Occurrence>, asOf: Time)
    requires i.startedAt >= asOf
    ensures QualifiedRows(l, i, qs, os, asOf) == []
  {
    if qs != [] {
      LateRows(l, i, qs[1..], os, asOf);
      LateOccurrences(l, i, qs[0], os, asOf);
    }
  }

  lemma {:induction false} LateOccurrences(l: Ledger, i: Interval, q: Qualification, os: seq<Occurrence>, asOf: Time)
    requires i.startedAt >= asOf
    ensures OccurrenceRows(l, i, q, os, asOf) == []
  {
    if os != [] { LateOccurrences(l, i, q, os[1..], asOf); }
  }

  predicate AllSound(l: Ledger) {
    forall i :: 0 <= i < |l.intervals| ==> Sound(l, l.intervals[i])
  }

  lemma {:induction false} ValidIsSound(l: Ledger, ttl: int)
    requires LedgerValid(l, ttl)
    ensures AllSound(l)
  {
  }

  lemma {:induction false} KeptRows(l: Ledger, l': Ledger, n: nat, qs: seq<Qualification>, os: seq<Occurrence>, asOf: Time)
    requires AllSound(l) && AllSound(l') && n <= |l'.intervals|
    requires Kept(l.intervals, LeaseEnd(l), l'.intervals, LeaseEnd(l'), asOf)
    ensures InstanceRows(l', n, qs, os, asOf) == InstanceRows(l, if n < |l.intervals| then n else |l.intervals|, qs, os, asOf)
  {
    hide Sound, QualifiedRows, Frozen;
    if n > 0 {
      KeptRows(l, l', n - 1, qs, os, asOf);
      if n <= |l.intervals| {
        assert Frozen(l.intervals[n - 1], LeaseEnd(l), l'.intervals[n - 1], LeaseEnd(l'), asOf);
        FrozenRows(l, l.intervals[n - 1], l', l'.intervals[n - 1], qs, os, asOf);
      } else {
        assert l'.intervals[n - 1].startedAt >= asOf;
        LateRows(l', l'.intervals[n - 1], qs, os, asOf);
      }
    }
  }

  // ---------------------------------------------------------------- what the rows mean

  predicate Open(o: Occurrence, t: Time) {
    o.startsAt <= t < o.endsAt
  }

  predicate Consents(q: Qualification, t: Time) {
    q.startedAt <= t && (q.endedAt.Some? ==> t < q.endedAt.value)
  }

  ghost predicate SomeOpen(os: seq<Occurrence>, t: Time) {
    exists k :: 0 <= k < |os| && Open(os[k], t)
  }

  ghost predicate SomeConsents(qs: seq<Qualification>, t: Time) {
    exists k :: 0 <= k < |qs| && Consents(qs[k], t)
  }

  /** One of the first n intervals of the instance covers the instant and is idle. */
  ghost predicate IdleCovered(l: Ledger, n: nat, t: Time)
    requires n <= |l.intervals|
  {
    exists i :: 0 <= i < n && l.intervals[i].activity.EligibleIdle? && Covers(l.intervals[i], LeaseEnd(l), t)
  }

  ghost predicate SomeIdle(ledgers: seq<Ledger>, t: Time) {
    exists k :: 0 <= k < |ledgers| && IdleCovered(ledgers[k], |ledgers[k].intervals|, t)
  }

  lemma {:induction false} HoldsTogether(a: seq<EligibilityInterval>, b: seq<EligibilityInterval>, t: Time)
    ensures SomeHolds(a + b, t) <==> SomeHolds(a, t) || SomeHolds(b, t)
  {
    var c := a + b;
    if k :| 0 <= k < |a| && Holds(a[k], t) { assert Holds(c[k], t); }
    if k :| 0 <= k < |b| && Holds(b[k], t) { assert Holds(c[|a| + k], t); }
    if k :| 0 <= k < |c| && Holds(c[k], t) { assert if k < |a| then Holds(a[k], t) else Holds(b[k - |a|], t); }
  }

  lemma {:induction false} RowMeaning(l: Ledger, i: Interval, q: Qualification, o: Occurrence, asOf: Time, t: Time)
    requires Sound(l, i)
    ensures SomeHolds(Row(l, i, q, o, asOf), t) <==>
            i.activity.EligibleIdle? && Covers(i, LeaseEnd(l), t) && Consents(q, t) && Open(o, t) && t < asOf
  {
    FiltersAreRedundant(l, i, q, o, asOf);
    var raw := RawSegment(l, i, q, o, asOf);
    if Row(l, i, q, o, asOf) != [] { assert SomeHolds([raw], t) <==> Holds(raw, t) by { OneHolds(raw, t); } }
  }

  lemma {:induction false} OneHolds(x: EligibilityInterval, t: Time)
    ensures SomeHolds([x], t) <==> Holds(x, t)
  {
    if Holds(x, t) { assert Holds([x][0], t); }
  }

  lemma {:induction false} OccurrenceRowsMeaning(l: Ledger, i: Interval, q: Qualification, os: seq<Occurrence>, asOf: Time, t: Time)
    requires Sound(l, i)
    ensures SomeHolds(OccurrenceRows(l, i, q, os, asOf), t) <==>
            i.activity.EligibleIdle? && Covers(i, LeaseEnd(l), t) && Consents(q, t) && SomeOpen(os, t) && t < asOf
  {
    hide Row, Sound, Covers, Consents, Open;
    if os != [] {
      var rest := os[1..];
      OccurrenceRowsMeaning(l, i, q, rest, asOf, t);
      RowMeaning(l, i, q, os[0], asOf, t);
      HoldsTogether(Row(l, i, q, os[0], asOf), OccurrenceRows(l, i, q, rest, asOf), t);
      hide SomeHolds;
      if k :| 0 <= k < |rest| && Open(rest[k], t) { assert Open(os[k + 1], t); }
      if k :| 0 <= k < |os| && Open(os[k], t) { if k > 0 { assert Open(rest[k - 1], t); } }
    }
  }

  lemma {:induction false} QualifiedRowsMeaning(l: Ledger, i: Interval, qs: seq<Qualification>, os: seq<Occurrence>, asOf: Time, t: Time)
    requires Sound(l, i)
    ensures SomeHolds(QualifiedRows(l, i, qs, os, asOf), t) <==>
            i.activity.EligibleIdle? && Covers(i, LeaseEnd(l), t) && SomeConsents(qs, t) && SomeOpen(os, t) && t < asOf
  {
    hide Sound, Covers, Consents, SomeOpen;
    if qs != [] {
      var rest := qs[1..];
      QualifiedRowsMeaning(l, i, rest, os, asOf, t);
      OccurrenceRowsMeaning(l, i, qs[0], os, asOf, t);
      HoldsTogether(OccurrenceRows(l, i, qs[0], os, asOf), QualifiedRows(l, i, rest, os, asOf), t);
      hide SomeHolds;
      if k :| 0 <= k < |rest| && Consents(rest[k], t) { assert Consents(qs[k + 1], t); }
      if k :| 0 <= k < |qs| && Consents(qs[k], t) { if k > 0 { assert Consents(rest[k - 1], t); } }
    }
  }

  lemma {:induction false} InstanceRowsMeaning(l: Ledger, n: nat, qs: seq<Qualification>, os: seq<Occurrence>, asOf: Time, t: Time)
    requires AllSound(l) && n <= |l.intervals|
    ensures SomeHolds(InstanceRows(l, n, qs, os, asOf), t) <==> IdleCovered(l, n, t) && SomeConsents(qs, t) && SomeOpen(os, t) && t < asOf
  {
    hide Sound, Covers, SomeConsents, SomeOpen;
    if n > 0 {
      InstanceRowsMeaning(l, n - 1, qs, os, asOf, t);
      QualifiedRowsMeaning(l, l.intervals[n - 1], qs, os, asOf, t);
      HoldsTogether(InstanceRows(l, n - 1, qs, os, asOf), QualifiedRows(l, l.intervals[n - 1], qs, os, asOf), t);
      hide SomeHolds;
    }
  }

  /**
   An instant is in one of a mount's rows exactly when an idle interval of some instance of its agent covers it, a consent
   interval holds it, an occurrence is open at it, and it lies before the instant asked about.
   */
  lemma {:induction false} MountRowsMeaning(ledgers: seq<Ledger>, qs: seq<Qualification>, os: seq<Occurrence>, asOf: Time, t: Time)
    requires forall k :: 0 <= k < |ledgers| ==> AllSound(ledgers[k])
    ensures SomeHolds(MountRows(ledgers, qs, os, asOf), t) <==>
            SomeIdle(ledgers, t) && SomeConsents(qs, t) && SomeOpen(os, t) && t < asOf
  {
    hide AllSound, IdleCovered, SomeConsents, SomeOpen;
    if ledgers != [] {
      var l, rest := ledgers[0], ledgers[1..];
      MountRowsMeaning(rest, qs, os, asOf, t);
      InstanceRowsMeaning(l, |l.intervals|, qs, os, asOf, t);
      HoldsTogether(InstanceRows(l, |l.intervals|, qs, os, asOf), MountRows(rest, qs, os, asOf), t);
      hide SomeHolds;
      if k :| 0 <= k < |rest| && IdleCovered(rest[k], |rest[k].intervals|, t) {
        assert IdleCovered(ledgers[k + 1], |ledgers[k + 1].intervals|, t);
      }
      if k :| 0 <= k < |ledgers| && IdleCovered(ledgers[k], |ledgers[k].intervals|, t) {
        if k > 0 { assert IdleCovered(rest[k - 1], |rest[k - 1].intervals|, t); }
      }
    }
  }

  // ---------------------------------------------------------------- settlement

  function Ledgers(ws: seq<World>): (r: seq<Ledger>)
    ensures |r| == |ws|
  {
    seq(|ws|, i requires 0 <= i < |ws| => ws[i].tables.ledger)
  }

  /** The instance has gone on from the earlier state by some run of reports and sweeps. */
  ghost predicate LaterWorld(w: World, w': World, asOf: Time, ttl: int) {
    && WorldValid(w, ttl) && asOf <= w.clock
    && exists actions :: MonotoneFrom(w.clock, actions) && w' == Run(w, actions, ttl)
  }

  ghost predicate Later(ws: seq<World>, ws': seq<World>, asOf: Time, ttl: int) {
    |ws| == |ws'| && forall i :: 0 <= i < |ws| ==> LaterWorld(ws[i], ws'[i], asOf, ttl)
  }

  lemma {:induction false} LaterInstance(w: World, w': World, actions: seq<Action>, ttl: int,
                                         qs: seq<Qualification>, os: seq<Occurrence>, asOf: Time)
    requires WorldValid(w, ttl) && asOf <= w.clock
    requires MonotoneFrom(w.clock, actions) && w' == Run(w, actions, ttl)
    ensures InstanceRows(w'.tables.ledger, |w'.tables.ledger.intervals|, qs, os, asOf)
         == InstanceRows(w.tables.ledger, |w.tables.ledger.intervals|, qs, os, asOf)
  {
    hide WorldValid, Run, LedgerValid, InstanceRows, AllSound, ClockReached;
    RunKeeps(w, actions, ttl, asOf);
    WorldLedger(w, ttl, w.clock);
    WorldLedger(w', ttl, w'.clock);
    ValidIsSound(w.tables.ledger, ttl);
    ValidIsSound(w'.tables.ledger, ttl);
    KeptRows(w.tables.ledger, w'.tables.ledger, |w'.tables.ledger.intervals|, qs, os, asOf);
  }

  /** Once the clock has reached the instant, the rows as of it, and so the score, are the same in every later state. */
  lemma {:induction false} RowsAreSettled(ws: seq<World>, ws': seq<World>, qs: seq<Qualification>, os: seq<Occurrence>, asOf: Time, ttl: int)
    requires Later(ws, ws', asOf, ttl)
    ensures MountRows(Ledgers(ws'), qs, os, asOf) == MountRows(Ledgers(ws), qs, os, asOf)
    ensures QueryScore(MountRows(Ledgers(ws'), qs, os, asOf)) == QueryScore(MountRows(Ledgers(ws), qs, os, asOf))
  {
    hide WorldValid, Run, InstanceRows, QueryScore, MonotoneFrom;
    if ws != [] {
      assert LaterWorld(ws[0], ws'[0], asOf, ttl);
      var actions :| MonotoneFrom(ws[0].clock, actions) && ws'[0] == Run(ws[0], actions, ttl);
      LaterInstance(ws[0], ws'[0], actions, ttl, qs, os, asOf);
      hide LaterWorld;
      forall i | 0 <= i < |ws[1..]| ensures LaterWorld(ws[1..][i], ws'[1..][i], asOf, ttl) {
        assert LaterWorld(ws[i + 1], ws'[i + 1], asOf, ttl);
      }
      RowsAreSettled(ws[1..], ws'[1..], qs, os, asOf, ttl);
      assert Ledgers(ws)[1..] == Ledgers(ws[1..]) && Ledgers(ws')[1..] == Ledgers(ws'[1..]);
    }
  }
}

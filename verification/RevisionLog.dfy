/**
 The public revision log of one Office: recording a revision, invalidating the replay history, trimming it, and the
 byte-budgeted pages a stream reads from it.
 */
module RevisionLog {
  import opened Status

  const MAX_SAFE_REVISION: nat := 9_007_199_254_740_991
  const REPLAY_PAGE_MAX_BYTES: nat := 1_048_576

  /** What the Office shows to the public: its content, and the size of its canonical bytes. */
  datatype View = View(content: string, size: nat)

  datatype Payload = Payload(officeRevision: nat, view: View)

  /** Rows written before the projection format existed are kept but never replayed. */
  datatype LogRow = LogRow(payload: Payload, generatedAt: Time, replayable: bool)

  datatype Projection = Projection(revision: nat, payload: Payload, generatedAt: Time)

  datatype Office = Office(
    revision: nat,
    minimum: nat,
    log: map<nat, LogRow>,
    current: Option<Projection>,
    pending: set<nat>)

  // ---------------------------------------------------------------- recording

  /** The database clock, the caller's time and the previous projection's time, whichever is latest. */
  function ProjectionAt(o: Office, at: Time, clock: Time): Time {
    var base := Max(clock, at);
    if o.current.None? then base else Max(base, o.current.value.generatedAt)
  }

  function Keeping(log: map<nat, LogRow>, from: nat): map<nat, LogRow> {
    map k | k in log && k >= from :: log[k]
  }

  /** `view` is what the Office shows now, or None when building the snapshot throws; a failure changes nothing. */
  function Record(o: Office, at: Time, clock: Time, view: Option<View>, lowering: bool): Option<Office> {
    if o.revision >= MAX_SAFE_REVISION || view.None? then None
    else
      var r := o.revision + 1;
      var now := ProjectionAt(o, at, clock);
      if r in o.log then None
      else
        var log := o.log[r := LogRow(Payload(r, view.value), now, true)];
        Some(Office(
          r,
          if lowering then r - 1 else o.minimum,
          if lowering then Keeping(log, r) else log,
          Some(Projection(r, Payload(r, view.value), now)),
          o.pending - {r}))
  }

  // ---------------------------------------------------------------- trimming

  function FirstPending(pending: set<nat>, upTo: int): Option<nat> {
    if k :| k in pending && k <= upTo && forall j :: j in pending ==> k <= j then Some(k) else None
  }

  /** The oldest revisions beyond the allowance go, except from the first one still to be published. */
  function SafeCutoff(o: Office, maxReplay: nat): int {
    var desired := o.revision - maxReplay;
    var first := FirstPending(o.pending, desired);
    if first.None? then desired else Min(desired, first.value - 1)
  }

  function Retain(o: Office, maxReplay: nat): Office {
    var cutoff := SafeCutoff(o, maxReplay);
    if o.revision - maxReplay <= o.minimum || cutoff <= o.minimum then o
    else o.(log := Keeping(o.log, cutoff + 1), minimum := cutoff)
  }

  // ---------------------------------------------------------------- pages

  datatype ReplayEvent = ReplayEvent(revision: nat, payload: Payload)

  datatype Page =
    | NotFound
    | RevisionGap(currentRevision: nat, minimumRevision: nat)
    | Events(currentRevision: nat, minimumRevision: nat, events: seq<ReplayEvent>)

  /** The first `limit` replayable rows from revision k on, in order; the log ends at the Office revision. */
  function Candidates(o: Office, k: nat, limit: nat): seq<ReplayEvent>
    decreases o.revision + 1 - k
  {
    if k > o.revision || limit == 0 then []
    else if k in o.log && o.log[k].replayable then
      [ReplayEvent(k, o.log[k].payload)] + Candidates(o, k + 1, limit - 1)
    else Candidates(o, k + 1, limit)
  }

  /** The running byte sum up to and including row i. */
  function CumulativeBytes(rows: seq<ReplayEvent>, i: nat): nat
    requires i < |rows|
  {
    (if i == 0 then 0 else CumulativeBytes(rows, i - 1)) + rows[i].payload.view.size
  }

  /** WHERE ordinal = 1 OR cumulative_bytes <= budget, over the first n rows. */
  function WithinBudget(rows: seq<ReplayEvent>, n: nat): seq<ReplayEvent>
    requires n <= |rows|
  {
    if n == 0 then []
    else
      var before := WithinBudget(rows, n - 1);
      if n == 1 || CumulativeBytes(rows, n - 1) <= REPLAY_PAGE_MAX_BYTES then before + [rows[n - 1]] else before
  }

  function PageOf(o: Office, cursor: nat, limit: nat): Page {
    if o.current.None? || o.current.value.revision != o.revision then NotFound
    else if cursor < o.minimum then RevisionGap(o.revision, o.minimum)
    else
      var rows := Candidates(o, cursor + 1, limit);
      Events(o.revision, o.minimum, WithinBudget(rows, |rows|))
  }

  // ---------------------------------------------------------------- the invariant

  predicate RowFits(o: Office, k: nat) {
    k in o.log && o.log[k].replayable && o.log[k].payload.officeRevision == k
  }

  /** The replayable rows are exactly those of the revisions in (minimum, revision], in time order. */
  ghost predicate OfficeValid(o: Office) {
    && o.minimum <= o.revision
    && (forall k {:trigger RowFits(o, k)} :: o.minimum < k <= o.revision ==> RowFits(o, k))
    && (forall k :: k in o.log ==> k <= o.revision && (k <= o.minimum ==> !o.log[k].replayable))
    && (forall j, k {:trigger o.log[j], o.log[k]} :: o.minimum < j <= k <= o.revision && j in o.log && k in o.log ==>
          o.log[j].generatedAt <= o.log[k].generatedAt)
    && (o.current.None? ==> o.minimum == o.revision)
    && (o.current.Some? ==>
          && o.current.value.revision == o.revision > o.minimum
          && o.revision in o.log
          && o.log[o.revision] == LogRow(o.current.value.payload, o.current.value.generatedAt, true))
  }

  /** The projection an Office starts with, or the state the migration leaves: nothing to replay. */
  predicate NothingToReplay(o: Office) {
    o.minimum == o.revision && o.current.None? && forall k :: k in o.log ==> k <= o.revision && !o.log[k].replayable
  }

  lemma {:induction false} NothingIsValid(o: Office)
    requires NothingToReplay(o)
    ensures OfficeValid(o)
  {
  }

  lemma {:induction false} RecordValid(o: Office, at: Time, clock: Time, view: Option<View>, lowering: bool)
    requires OfficeValid(o)
    ensures var next := Record(o, at, clock, view, lowering);
      && (next.Some? <==> o.revision < MAX_SAFE_REVISION && view.Some?)
      && (next.Some? ==>
            && OfficeValid(next.value) && next.value.revision == o.revision + 1 && next.value.current.Some?
            && next.value.minimum == (if lowering then o.revision else o.minimum)
            && next.value.current.value.payload.view == view.value
            && next.value.current.value.generatedAt >= Max(clock, at))
  {
    var next := Record(o, at, clock, view, lowering);
    if next.Some? {
      var n := next.value;
      forall k | n.minimum < k <= n.revision ensures RowFits(n, k) {
        if k <= o.revision { assert RowFits(o, k); }
      }
      forall j | n.minimum < j <= n.revision && j in n.log ensures n.log[j].generatedAt <= n.log[n.revision].generatedAt {
        if j <= o.revision { assert o.log[j].generatedAt <= o.log[o.revision].generatedAt; }
      }
    }
  }

  /** Trimming only raises the minimum, never to the current revision: the current projection keeps its log row. */
  lemma {:induction false} RetainValid(o: Office, maxReplay: nat)
    requires OfficeValid(o) && maxReplay >= 1
    ensures OfficeValid(Retain(o, maxReplay))
    ensures Retain(o, maxReplay).minimum >= o.minimum && Retain(o, maxReplay).revision == o.revision
    ensures Retain(o, maxReplay).current == o.current
  {
    var n := Retain(o, maxReplay);
    forall k | n.minimum < k <= n.revision ensures RowFits(n, k) { assert RowFits(o, k); }
  }

  /** With nothing left to publish, exactly the allowed number of revisions stays replayable. */
  lemma {:induction false} RetainKeepsTheAllowance(o: Office, maxReplay: nat)
    requires OfficeValid(o) && maxReplay >= 1 && o.pending == {}
    ensures var n := Retain(o, maxReplay);
      n.revision - n.minimum == Min(o.revision - o.minimum, maxReplay)
  {
  }

  /**
   Trimming goes no further than the allowance asks and never up to a revision still to be published; it stops short of
   the allowance only at such a revision.
   */
  lemma {:induction false} RetainStopsAtPending(o: Office, maxReplay: nat)
    requires OfficeValid(o) && maxReplay >= 1
    ensures var n := Retain(o, maxReplay);
      && n.minimum <= Max(o.minimum, o.revision - maxReplay)
      && (forall k :: k in o.pending && k > o.minimum ==> k > n.minimum)
      && (forall k :: k in o.log && k > n.minimum ==> k in n.log && n.log[k] == o.log[k])
      && (n.minimum < o.revision - maxReplay ==> exists k :: k in o.pending && k <= n.minimum + 1)
  {
    FirstOfPending(o.pending, o.revision - maxReplay);
  }

  lemma {:induction false} FirstOfPending(pending: set<nat>, upTo: int)
    ensures var first := FirstPending(pending, upTo);
      && (first.Some? ==> first.value in pending && first.value <= upTo && forall j :: j in pending ==> first.value <= j)
      && (first.None? ==> forall j :: j in pending ==> j > upTo)
  {
    if pending != {} {
      var least := LeastOf(pending);
      assert FirstPending(pending, upTo).None? ==> least > upTo;
    }
  }

  lemma {:induction false} LeastOf(s: set<nat>) returns (m: nat)
    requires s != {}
    ensures m in s && forall j :: j in s ==> m <= j
    decreases |s|
  {
    m :| m in s;
    if s != {m} {
      var n := LeastOf(s - {m});
      assert forall j :: j in s ==> j == m || j in s - {m};
      if n < m { m := n; }
    }
  }

  // ---------------------------------------------------------------- what a page holds

  predicate Contiguous(events: seq<ReplayEvent>, first: nat) {
    forall i :: 0 <= i < |events| ==> events[i].revision == first + i && events[i].payload.officeRevision == first + i
  }

  lemma {:induction false} CandidatesAreNext(o: Office, k: nat, limit: nat)
    requires OfficeValid(o) && k > o.minimum
    ensures var rows := Candidates(o, k, limit);
      && |rows| == (if k > o.revision then 0 else if o.revision + 1 - k < limit then o.revision + 1 - k else limit)
      && Contiguous(rows, k)
      && (forall i :: 0 <= i < |rows| ==> RowFits(o, rows[i].revision) && rows[i].payload == o.log[rows[i].revision].payload)
    decreases o.revision + 1 - k
  {
    if k <= o.revision && limit > 0 {
      assert RowFits(o, k);
      CandidatesAreNext(o, k + 1, limit - 1);
      var rest := Candidates(o, k + 1, limit - 1);
      var rows := Candidates(o, k, limit);
      forall i | 0 <= i < |rows|
        ensures rows[i].revision == k + i && rows[i].payload.officeRevision == k + i
        ensures RowFits(o, rows[i].revision) && rows[i].payload == o.log[rows[i].revision].payload
      {
        if i > 0 { assert rows[i] == rest[i - 1]; }
      }
    }
  }

  lemma {:induction false} BytesGrow(rows: seq<ReplayEvent>, i: nat, j: nat)
    requires i <= j < |rows|
    ensures CumulativeBytes(rows, i) <= CumulativeBytes(rows, j)
  {
    if i < j { BytesGrow(rows, i, j - 1); }
  }

  /** The budget keeps a prefix: the longest one that fits, but always the first row. */
  lemma {:induction false} BudgetKeepsAPrefix(rows: seq<ReplayEvent>, n: nat)
    requires n <= |rows|
    ensures var kept := WithinBudget(rows, n);
      && |kept| <= n && kept == rows[..|kept|]
      && (n > 0 ==> |kept| > 0)
      && (|kept| > 1 ==> CumulativeBytes(rows, |kept| - 1) <= REPLAY_PAGE_MAX_BYTES)
      && (|kept| < n ==> CumulativeBytes(rows, |kept|) > REPLAY_PAGE_MAX_BYTES)
  {
    if n > 0 {
      BudgetKeepsAPrefix(rows, n - 1);
      var before := WithinBudget(rows, n - 1);
      if |before| < n - 1 {
        BytesGrow(rows, |before|, n - 1);
      }
    }
  }

  /** The revisions right after the cursor, each as logged. */
  ghost predicate NextRevisions(o: Office, cursor: nat, events: seq<ReplayEvent>) {
    && Contiguous(events, cursor + 1)
    && forall i :: 0 <= i < |events| ==>
         && o.minimum < events[i].revision <= o.revision
         && events[i].revision in o.log && events[i].payload == o.log[events[i].revision].payload
  }

  /** Within the limit and the budget, which only the first event may exceed. */
  predicate Affordable(events: seq<ReplayEvent>, limit: nat) {
    |events| <= limit && (|events| > 1 ==> CumulativeBytes(events, |events| - 1) <= REPLAY_PAGE_MAX_BYTES)
  }

  /** One more event would not fit. */
  predicate Full(o: Office, cursor: nat, events: seq<ReplayEvent>, limit: nat) {
    || |events| == limit
    || cursor + |events| >= o.revision
    || (&& events != [] && cursor + |events| + 1 in o.log
        && CumulativeBytes(events, |events| - 1) + o.log[cursor + |events| + 1].payload.view.size > REPLAY_PAGE_MAX_BYTES)
  }

  lemma {:induction false} KeptRows(o: Office, cursor: nat, limit: nat)
    requires OfficeValid(o) && cursor >= o.minimum && limit >= 1
    ensures var rows := Candidates(o, cursor + 1, limit);
            var kept := WithinBudget(rows, |rows|);
      && NextRevisions(o, cursor, kept) && Affordable(kept, limit) && Full(o, cursor, kept, limit)
      && (kept == [] <==> cursor >= o.revision)
  {
    hide OfficeValid, Candidates, WithinBudget, CumulativeBytes;
    var rows := Candidates(o, cursor + 1, limit);
    CandidatesAreNext(o, cursor + 1, limit);
    BudgetKeepsAPrefix(rows, |rows|);
    var kept := WithinBudget(rows, |rows|);
    forall i | 0 <= i < |kept| ensures RowFits(o, kept[i].revision) && kept[i] == rows[i] {}
    if kept != [] { BytesOfPrefix(rows, |kept|, |kept| - 1); }
    if |kept| < |rows| {
      assert RowFits(o, rows[|kept|].revision);
      OneMoreRow(rows, |kept|);
    }
  }

  lemma {:induction false} OneMoreRow(rows: seq<ReplayEvent>, n: nat)
    requires 0 < n < |rows|
    ensures CumulativeBytes(rows, n) == CumulativeBytes(rows, n - 1) + rows[n].payload.view.size
  {
  }

  /**
   A page is the contiguous run of revisions right after the cursor, within limit and budget, and as long as they
   allow; it is empty only for a cursor that is not behind. A cursor below the minimum gets a gap instead.
   */
  lemma {:induction false} PageIsNext(o: Office, cursor: nat, limit: nat)
    requires OfficeValid(o) && limit >= 1 && o.current.Some?
    ensures var page := PageOf(o, cursor, limit);
      && (page.RevisionGap? <==> cursor < o.minimum)
      && (!page.RevisionGap? ==>
            && page.Events? && page.currentRevision == o.revision
            && NextRevisions(o, cursor, page.events)
            && Affordable(page.events, limit) && Full(o, cursor, page.events, limit)
            && (page.events == [] <==> cursor >= o.revision))
  {
    hide Candidates, WithinBudget, NextRevisions, Affordable, Full;
    if cursor >= o.minimum { KeptRows(o, cursor, limit); }
  }

  /** Without a projection there is nothing to stream; a cursor below the minimum is told both ends of what is left. */
  lemma {:induction false} RefusedPages(o: Office, cursor: nat, limit: nat)
    requires OfficeValid(o)
    ensures var page := PageOf(o, cursor, limit);
      && (page.NotFound? <==> o.current.None?)
      && (page.RevisionGap? <==> o.current.Some? && cursor < o.minimum)
      && (page.RevisionGap? ==> page.currentRevision == o.revision && page.minimumRevision == o.minimum)
  {
    hide Candidates, WithinBudget;
  }

  function TotalBytes(events: seq<ReplayEvent>): nat {
    if events == [] then 0 else events[0].payload.view.size + TotalBytes(events[1..])
  }

  lemma {:induction false} BytesAreTotal(events: seq<ReplayEvent>, n: nat)
    requires n < |events|
    ensures CumulativeBytes(events, n) == TotalBytes(events[..n + 1])
  {
    if n == 0 {
      assert events[..1][1..] == [];
    } else {
      BytesAreTotal(events, n - 1);
      TotalGrows(events[..n], events[n]);
      assert events[..n + 1] == events[..n] + [events[n]];
    }
  }

  lemma {:induction false} TotalGrows(events: seq<ReplayEvent>, e: ReplayEvent)
    ensures TotalBytes(events + [e]) == TotalBytes(events) + e.payload.view.size
  {
    if events == [] {
      assert (events + [e])[1..] == [];
    } else {
      assert (events + [e])[1..] == events[1..] + [e];
      TotalGrows(events[1..], e);
    }
  }

  /** A page of more than one event holds at most a mebibyte; when it ends early, one more event would have been too much. */
  lemma {:induction false} PageFitsTheBudget(o: Office, cursor: nat, limit: nat)
    requires OfficeValid(o) && o.current.Some? && cursor >= o.minimum
    ensures var page := PageOf(o, cursor, limit);
      && page.Events? && |page.events| <= limit
      && (|page.events| > 1 ==> TotalBytes(page.events) <= 1_048_576)
      && (|page.events| < limit && cursor + |page.events| < o.revision ==>
            var next := cursor + |page.events| + 1;
            next in o.log && TotalBytes(page.events) + o.log[next].payload.view.size > 1_048_576)
  {
    CandidatesAreNext(o, cursor + 1, limit);
    var rows := Candidates(o, cursor + 1, limit);
    BudgetKeepsAPrefix(rows, |rows|);
    var kept := WithinBudget(rows, |rows|);
    hide Candidates, WithinBudget, CumulativeBytes, TotalBytes, OfficeValid;
    if |kept| > 0 {
      BytesAreTotal(rows, |kept| - 1);
      assert rows[..|kept| - 1 + 1] == kept;
    }
    if |kept| < |rows| {
      BytesAreTotal(rows, |kept|);
      TotalGrows(kept, rows[|kept|]);
      assert rows[..|kept| + 1] == kept + [rows[|kept|]];
    }
  }

  lemma {:induction false} BytesOfPrefix(rows: seq<ReplayEvent>, n: nat, i: nat)
    requires i < n <= |rows|
    ensures CumulativeBytes(rows[..n], i) == CumulativeBytes(rows, i)
  {
    if i > 0 { BytesOfPrefix(rows, n, i - 1); }
  }

  // ---------------------------------------------------------------- every run

  datatype Action =
    | RecordAction(at: Time, clock: Time, view: Option<View>, lowering: bool)
    | RetainAction(maxReplay: nat)

  function Step(o: Office, a: Action): Office {
    match a
    case RecordAction(at, clock, view, lowering) =>
      var next := Record(o, at, clock, view, lowering);
      if next.None? then o else next.value
    case RetainAction(maxReplay) => if maxReplay < 1 then o else Retain(o, maxReplay)
  }

  function Run(o: Office, actions: seq<Action>): Office {
    if actions == [] then o else Step(Run(o, actions[..|actions| - 1]), actions[|actions| - 1])
  }

  lemma {:induction false} StepValid(o: Office, a: Action)
    requires OfficeValid(o)
    ensures OfficeValid(Step(o, a)) && Step(o, a).minimum >= o.minimum && Step(o, a).revision >= o.revision
    ensures o.current.Some? ==> Step(o, a).current.Some?
  {
    hide OfficeValid, Record, Retain;
    match a
    case RecordAction(at, clock, view, lowering) => RecordValid(o, at, clock, view, lowering); MinimumBelow(o);
    case RetainAction(maxReplay) => if maxReplay >= 1 { RetainValid(o, maxReplay); }
  }

  lemma {:induction false} MinimumBelow(o: Office)
    requires OfficeValid(o)
    ensures o.minimum <= o.revision
  {
  }

  /** In every run the log stays exact, and neither the revision nor the minimum ever falls. */
  lemma {:induction false} RunValid(o: Office, actions: seq<Action>)
    requires OfficeValid(o)
    ensures OfficeValid(Run(o, actions)) && Run(o, actions).minimum >= o.minimum && Run(o, actions).revision >= o.revision
    ensures o.current.Some? ==> Run(o, actions).current.Some?
  {
    hide OfficeValid, Step;
    if actions != [] {
      RunValid(o, actions[..|actions| - 1]);
      StepValid(Run(o, actions[..|actions| - 1]), actions[|actions| - 1]);
    }
  }

  /** From an Office with nothing to replay, every run keeps exactly the revisions in (minimum, revision] replayable. */
  lemma {:induction false} EveryRunIsExact(o: Office, actions: seq<Action>)
    requires NothingToReplay(o)
    ensures var end := Run(o, actions);
      && end.minimum <= end.revision
      && forall k :: k in end.log && end.log[k].replayable <==> end.minimum < k <= end.revision
  {
    hide Run;
    NothingIsValid(o);
    RunValid(o, actions);
    var end := Run(o, actions);
    forall k ensures k in end.log && end.log[k].replayable <==> end.minimum < k <= end.revision {
      if end.minimum < k <= end.revision { assert RowFits(end, k); }
    }
  }

  /**
   After a privacy-lowering revision r, in whatever way the Office goes on, no page served to any cursor holds a
   revision below r, and a cursor that would need one is told about the gap.
   */
  lemma {:induction false} LoweredHistoryIsGone(o: Office, at: Time, clock: Time, view: View, actions: seq<Action>, cursor: nat, limit: nat)
    requires OfficeValid(o) && o.revision < MAX_SAFE_REVISION && limit >= 1
    ensures var r := o.revision + 1;
            var page := PageOf(Run(Record(o, at, clock, Some(view), true).value, actions), cursor, limit);
      && (page.Events? ==> forall i :: 0 <= i < |page.events| ==> page.events[i].revision >= r)
      && (cursor < r - 1 ==> page.RevisionGap?)
  {
    hide OfficeValid, Record, PageOf, Run;
    RecordValid(o, at, clock, Some(view), true);
    var lowered := Record(o, at, clock, Some(view), true).value;
    RunValid(lowered, actions);
    PageIsNext(Run(lowered, actions), cursor, limit);
  }

  /** Reading the snapshot and streaming on from it never starts with a gap. */
  lemma {:induction false} SnapshotIsACursor(o: Office, limit: nat)
    requires OfficeValid(o) && o.current.Some? && limit >= 1
    ensures PageOf(o, o.current.value.revision, limit) == Events(o.revision, o.minimum, [])
  {
    PageIsNext(o, o.current.value.revision, limit);
  }

  /** Following pages from any cursor that is not refused reaches the current revision, each page getting closer. */
  lemma {:induction false} PagesCatchUp(o: Office, cursor: nat, limit: nat)
    requires OfficeValid(o) && o.current.Some? && limit >= 1 && o.minimum <= cursor < o.revision
    ensures var page := PageOf(o, cursor, limit);
      page.Events? && page.events != [] && cursor < page.events[|page.events| - 1].revision <= o.revision
  {
    PageIsNext(o, cursor, limit);
  }

  // ---------------------------------------------------------------- the office's rows

  class OfficeRevisions {
    var revision: nat
    var minimum: nat
    var log: map<nat, LogRow>
    var current: Option<Projection>
    var pending: set<nat>

    function State(): Office
      reads this
    {
      Office(revision, minimum, log, current, pending)
    }

    constructor (o: Office)
      ensures State() == o
    {
      revision, minimum, log, current, pending := o.revision, o.minimum, o.log, o.current, o.pending;
    }

    method RecordRevision(at: Time, clock: Time, view: Option<View>, lowering: bool) returns (ok: bool)
      modifies this
      ensures var next := Record(old(State()), at, clock, view, lowering);
        ok == next.Some? && State() == if next.Some? then next.value else old(State())
    {
      var before := State();
      if revision >= MAX_SAFE_REVISION { return false; }
      var projectionAt := ProjectionAt(before, at, clock);
      revision := revision + 1;
      if view.None? || revision in log {
        revision := before.revision;
        return false;
      }
      var payload := Payload(revision, view.value);
      log := log[revision := LogRow(payload, projectionAt, true)];
      current := Some(Projection(revision, payload, projectionAt));
      pending := pending + {revision};
      pending := pending - {revision};
      assert pending == before.pending - {revision};
      if lowering {
        log := Keeping(log, revision);
        minimum := revision - 1;
      }
      return true;
    }

    method RetainOne(maxReplay: nat) returns (trimmed: bool)
      modifies this
      ensures State() == Retain(old(State()), maxReplay)
      ensures trimmed <==> State().minimum > old(minimum)
    {
      var desiredCutoff := revision - maxReplay;
      if desiredCutoff <= minimum { return false; }
      var safeCutoff := SafeCutoff(State(), maxReplay);
      if safeCutoff <= minimum { return false; }
      log := Keeping(log, safeCutoff + 1);
      minimum := safeCutoff;
      return true;
    }
  }
}

/** The daily leaderboard of one office and the settlement of its finished days. */
module OfficeDays {
  import opened Status
  import opened PresenceLedger
  import opened ReportingRuns
  import opened Scoring
  import opened IslandMerge
  import opened Settlement

  /** A mount that is active and opted in to statistics, with its agent's public columns. */
  datatype Mount = Mount(mountId: nat, agentId: nat, alias: string, petId: string, qualifications: seq<Qualification>)

  datatype Standing = Standing(mount: Mount, seconds: int, reachedAt: int)

  // ---------------------------------------------------------------- leaderboard

  /** ORDER BY slacking_seconds DESC, score_reached_at ASC, logical_agent_id ASC. */
  predicate Ahead(a: Standing, b: Standing) {
    a.seconds > b.seconds
    || (a.seconds == b.seconds
        && (a.reachedAt < b.reachedAt || (a.reachedAt == b.reachedAt && a.mount.agentId <= b.mount.agentId)))
  }

  lemma {:induction false} PositiveScoreIsReached(islands: seq<EligibilityInterval>)
    requires Segments(islands)
    ensures SumOfContributions(islands) >= 0
    ensures SumOfContributions(islands) > 0 <==> MaxOfReaches(islands).Some?
  {
    if islands != [] { PositiveScoreIsReached(islands[1..]); }
  }

  /** One mount's row, if the HAVING clause keeps it. */
  function StandingOf(m: Mount, ledgers: seq<Ledger>, os: seq<Occurrence>, asOf: Time): Option<Standing> {
    var rows := MountRows(ledgers, m.qualifications, os, asOf);
    SortKeepsSegments(rows);
    PositiveScoreIsReached(Islands(Sort(rows)));
    var score := QueryScore(rows);
    if score.seconds > 0 then Some(Standing(m, score.seconds, score.reachedAt.value)) else None
  }

  function InsertStanding(x: Standing, s: seq<Standing>): seq<Standing> {
    if s == [] then [x] else if Ahead(x, s[0]) then [x] + s else [s[0]] + InsertStanding(x, s[1..])
  }

  /** The ranked rows; the rank of a row is one more than its index. `ledgers[i]` are those of mount i's agent. */
  function Ranking(mounts: seq<Mount>, ledgers: seq<seq<Ledger>>, os: seq<Occurrence>, asOf: Time): seq<Standing>
    requires |mounts| == |ledgers|
  {
    if mounts == [] then []
    else
      var rest := Ranking(mounts[1..], ledgers[1..], os, asOf);
      var first := StandingOf(mounts[0], ledgers[0], os, asOf);
      if first.None? then rest else InsertStanding(first.value, rest)
  }

  predicate Ranked(s: seq<Standing>) {
    forall i, j {:trigger s[i], s[j]} :: 0 <= i < j < |s| ==> Ahead(s[i], s[j])
  }

  lemma {:induction false} InsertRanks(x: Standing, s: seq<Standing>)
    requires Ranked(s)
    ensures Ranked(InsertStanding(x, s))
    ensures forall y :: y in InsertStanding(x, s) <==> y == x || y in s
    ensures |InsertStanding(x, s)| == |s| + 1
  {
    if s != [] && !Ahead(x, s[0]) {
      InsertRanks(x, s[1..]);
      var rest := InsertStanding(x, s[1..]);
      forall j | 0 <= j < |rest| ensures Ahead(s[0], rest[j]) {
        assert rest[j] in rest;
        if rest[j] != x { var k :| 0 <= k < |s[1..]| && s[1..][k] == rest[j]; assert s[k + 1] == rest[j]; }
      }
    } else if s != [] {
      forall j | 0 <= j < |s| ensures Ahead(x, s[j]) {
        if j > 0 { assert Ahead(s[0], s[j]); }
      }
    }
  }

  predicate Stands(mounts: seq<Mount>, ledgers: seq<seq<Ledger>>, os: seq<Occurrence>, asOf: Time, i: int, s: Standing)
    requires |mounts| == |ledgers|
  {
    0 <= i < |mounts| && StandingOf(mounts[i], ledgers[i], os, asOf) == Some(s)
  }

  /** The ranking holds exactly the mounts with a positive score, each ahead of all that follow. */
  lemma {:induction false} RankingIsComplete(mounts: seq<Mount>, ledgers: seq<seq<Ledger>>, os: seq<Occurrence>, asOf: Time)
    requires |mounts| == |ledgers|
    ensures Ranked(Ranking(mounts, ledgers, os, asOf))
    ensures forall s :: s in Ranking(mounts, ledgers, os, asOf) <==> exists i :: Stands(mounts, ledgers, os, asOf, i, s)
  {
    hide StandingOf;
    if mounts != [] {
      var rest := Ranking(mounts[1..], ledgers[1..], os, asOf);
      RankingIsComplete(mounts[1..], ledgers[1..], os, asOf);
      var first := StandingOf(mounts[0], ledgers[0], os, asOf);
      if first.Some? { InsertRanks(first.value, rest); }
      forall s ensures s in Ranking(mounts, ledgers, os, asOf) <==> exists i :: Stands(mounts, ledgers, os, asOf, i, s) {
        if first == Some(s) { assert Stands(mounts, ledgers, os, asOf, 0, s); }
        if i :| Stands(mounts[1..], ledgers[1..], os, asOf, i, s) { assert Stands(mounts, ledgers, os, asOf, i + 1, s); }
        if i :| Stands(mounts, ledgers, os, asOf, i, s) {
          if i > 0 { assert Stands(mounts[1..], ledgers[1..], os, asOf, i - 1, s); }
        }
      }
    }
  }

  /** More seconds first, then the earlier time at which they were reached, then the smaller agent id. */
  lemma {:induction false} RankingOrder(mounts: seq<Mount>, ledgers: seq<seq<Ledger>>, os: seq<Occurrence>, asOf: Time, i: nat, j: nat)
    requires |mounts| == |ledgers| && i < j < |Ranking(mounts, ledgers, os, asOf)|
    ensures var a, b := Ranking(mounts, ledgers, os, asOf)[i], Ranking(mounts, ledgers, os, asOf)[j];
      && a.seconds >= b.seconds
      && (a.seconds == b.seconds ==> a.reachedAt <= b.reachedAt)
      && (a.seconds == b.seconds && a.reachedAt == b.reachedAt ==> a.mount.agentId <= b.mount.agentId)
  {
    hide Ranking;
    RankingIsComplete(mounts, ledgers, os, asOf);
    assert Ahead(Ranking(mounts, ledgers, os, asOf)[i], Ranking(mounts, ledgers, os, asOf)[j]);
  }

  function WinnerOf(mounts: seq<Mount>, ledgers: seq<seq<Ledger>>, os: seq<Occurrence>, asOf: Time): Option<Standing>
    requires |mounts| == |ledgers|
  {
    var ranking := Ranking(mounts, ledgers, os, asOf);
    if ranking == [] then None else Some(ranking[0])
  }

  lemma {:induction false} StandingIsRanked(mounts: seq<Mount>, ledgers: seq<seq<Ledger>>, os: seq<Occurrence>, asOf: Time, i: nat)
    requires |mounts| == |ledgers| && i < |mounts|
    ensures var o := StandingOf(mounts[i], ledgers[i], os, asOf);
      o.Some? ==> o.value in Ranking(mounts, ledgers, os, asOf)
  {
    hide StandingOf, Ranking;
    RankingIsComplete(mounts, ledgers, os, asOf);
    var o := StandingOf(mounts[i], ledgers[i], os, asOf);
    if o.Some? { assert Stands(mounts, ledgers, os, asOf, i, o.value); }
  }

  /** The winner has a positive score and is ahead of every other; there is none only when nobody scored. */
  lemma {:induction false} WinnerIsBest(mounts: seq<Mount>, ledgers: seq<seq<Ledger>>, os: seq<Occurrence>, asOf: Time)
    requires |mounts| == |ledgers|
    ensures var w := WinnerOf(mounts, ledgers, os, asOf);
      && (w.None? <==> forall i :: 0 <= i < |mounts| ==> StandingOf(mounts[i], ledgers[i], os, asOf).None?)
      && (w.Some? ==> (exists i :: Stands(mounts, ledgers, os, asOf, i, w.value))
                      && forall i, s :: Stands(mounts, ledgers, os, asOf, i, s) ==> Ahead(w.value, s))
  {
    hide StandingOf;
    RankingIsComplete(mounts, ledgers, os, asOf);
    var ranking := Ranking(mounts, ledgers, os, asOf);
    if ranking != [] {
      assert ranking[0] in ranking;
      forall i, s | Stands(mounts, ledgers, os, asOf, i, s) ensures Ahead(ranking[0], s) {
        assert s in ranking;
      }
    } else {
      forall i | 0 <= i < |mounts| ensures StandingOf(mounts[i], ledgers[i], os, asOf).None? {
        StandingIsRanked(mounts, ledgers, os, asOf, i);
      }
    }
  }

  // ---------------------------------------------------------------- standings are scores

  /** The score the rules give a mount: that of its islands. */
  predicate ScoredAs(m: Mount, ledgers: seq<Ledger>, os: seq<Occurrence>, asOf: Time, seconds: int, reachedAt: Option<int>) {
    var rows := MountRows(ledgers, m.qualifications, os, asOf);
    SortKeepsSegments(rows);
    var islands := Islands(Sort(rows));
    AllChecked(islands) && AllApart(islands) && seconds == TotalSeconds(islands, asOf) && reachedAt == LatestReach(islands, asOf)
  }

  predicate Timestamps(os: seq<Occurrence>) {
    forall i :: 0 <= i < |os| ==> Timestamp(os[i].startsAt) && Timestamp(os[i].endsAt)
  }

  /** A mount's place in the ranking is what the scoring rules say of the rows the ledger gives it. */
  lemma {:induction false} StandingIsScored(m: Mount, ledgers: seq<Ledger>, os: seq<Occurrence>, asOf: Time)
    requires Timestamps(os) && Timestamp(asOf)
    ensures match StandingOf(m, ledgers, os, asOf)
            case Some(s) => s.mount == m && s.seconds > 0 && s.seconds * 1000 <= asOf && ScoredAs(m, ledgers, os, asOf, s.seconds, Some(s.reachedAt))
            case None => ScoredAs(m, ledgers, os, asOf, 0, None)
  {
    hide Islands, Sort, TotalSeconds, LatestReach, MountRows, Clipped, AllChecked, AllApart;
    var rows := MountRows(ledgers, m.qualifications, os, asOf);
    MountRowsAreClipped(ledgers, m.qualifications, os, asOf);
    QueryAgreesWithScoring(rows, asOf);
    PositiveScoreIsReached(Islands(Sort(rows)));
  }

  // ---------------------------------------------------------------- finished days

  datatype ScheduleRow = ScheduleRow(localDate: nat, versionId: nat, occurrence: Occurrence)

  datatype Outcome = NoAward | Winner(standing: Standing)

  datatype DayResult = DayResult(versionId: nat, outcome: Outcome, settledAt: Time)

  function OccurrencesOn(schedule: seq<ScheduleRow>, date: nat): seq<Occurrence> {
    if schedule == [] then []
    else (if schedule[0].localDate == date then [schedule[0].occurrence] else []) + OccurrencesOn(schedule[1..], date)
  }

  predicate OnDate(schedule: seq<ScheduleRow>, k: int, date: nat) {
    0 <= k < |schedule| && schedule[k].localDate == date
  }

  /** Every occurrence of the date has ended and all were made by one schedule version. */
  predicate Finished(schedule: seq<ScheduleRow>, date: nat, asOf: Time) {
    && (exists k :: 0 <= k < |schedule| && OnDate(schedule, k, date))
    && (forall k :: 0 <= k < |schedule| && OnDate(schedule, k, date) ==> schedule[k].occurrence.endsAt <= asOf)
    && (forall j, k :: 0 <= j < |schedule| && 0 <= k < |schedule| && OnDate(schedule, j, date) && OnDate(schedule, k, date) ==>
          schedule[j].versionId == schedule[k].versionId)
  }

  /** The version of the date's first row and the latest end among its rows. */
  function VersionOn(schedule: seq<ScheduleRow>, date: nat): nat {
    if schedule == [] then 0
    else if schedule[0].localDate == date then schedule[0].versionId else VersionOn(schedule[1..], date)
  }

  function ClosesAt(schedule: seq<ScheduleRow>, date: nat): Option<Time> {
    if schedule == [] then None
    else
      var rest := ClosesAt(schedule[1..], date);
      if schedule[0].localDate != date then rest
      else if rest.None? then Some(schedule[0].occurrence.endsAt)
      else Some(Max(schedule[0].occurrence.endsAt, rest.value))
  }

  /** A finished day's close is the end of one of its occurrences, and no later than the settlement. */
  lemma {:induction false} ClosesInTime(schedule: seq<ScheduleRow>, date: nat, asOf: Time)
    requires forall k :: 0 <= k < |schedule| && OnDate(schedule, k, date) ==> schedule[k].occurrence.endsAt <= asOf
    ensures ClosesAt(schedule, date).Some? <==> exists k :: 0 <= k < |schedule| && OnDate(schedule, k, date)
    ensures ClosesAt(schedule, date).Some? ==> ClosesAt(schedule, date).value <= asOf
    ensures forall k :: 0 <= k < |schedule| && OnDate(schedule, k, date) ==>
              ClosesAt(schedule, date).Some? && schedule[k].occurrence.endsAt <= ClosesAt(schedule, date).value
  {
    if schedule != [] {
      var rest := schedule[1..];
      forall k | 0 <= k < |rest| && OnDate(rest, k, date) ensures rest[k].occurrence.endsAt <= asOf {
        assert OnDate(schedule, k + 1, date);
      }
      ClosesInTime(rest, date, asOf);
      if k :| 0 <= k < |rest| && OnDate(rest, k, date) { assert OnDate(schedule, k + 1, date); }
      if schedule[0].localDate == date { assert OnDate(schedule, 0, date); }
      forall k | 0 <= k < |schedule| && OnDate(schedule, k, date)
        ensures ClosesAt(schedule, date).Some? && schedule[k].occurrence.endsAt <= ClosesAt(schedule, date).value
      {
        if k > 0 { assert OnDate(rest, k - 1, date); }
      }
    }
  }

  function OutcomeOn(schedule: seq<ScheduleRow>, mounts: seq<Mount>, ledgers: seq<seq<Ledger>>, date: nat): Outcome
    requires |mounts| == |ledgers|
  {
    var closes := ClosesAt(schedule, date);
    if closes.None? then NoAward
    else
      var winner := WinnerOf(mounts, ledgers, OccurrencesOn(schedule, date), closes.value);
      if winner.None? then NoAward else Winner(winner.value)
  }

  /** A settled winner's seconds and time are the score of its islands as of the close, and nobody scored without one. */
  lemma {:induction false} OutcomeIsScored(schedule: seq<ScheduleRow>, mounts: seq<Mount>, ledgers: seq<seq<Ledger>>, date: nat)
    requires |mounts| == |ledgers| && ClosesAt(schedule, date).Some?
    requires forall k :: 0 <= k < |schedule| ==> Timestamps([schedule[k].occurrence])
    ensures var closes, os := ClosesAt(schedule, date).value, OccurrencesOn(schedule, date);
      match OutcomeOn(schedule, mounts, ledgers, date)
      case Winner(s) => exists i :: 0 <= i < |mounts| && mounts[i] == s.mount && ScoredAs(mounts[i], ledgers[i], os, closes, s.seconds, Some(s.reachedAt))
      case NoAward => forall i :: 0 <= i < |mounts| ==> ScoredAs(mounts[i], ledgers[i], os, closes, 0, None)
  {
    hide StandingOf, WinnerOf, ScoredAs;
    var closes, os := ClosesAt(schedule, date).value, OccurrencesOn(schedule, date);
    DayHasTimestamps(schedule, date);
    WinnerIsBest(mounts, ledgers, os, closes);
    forall i | 0 <= i < |mounts|
      ensures match StandingOf(mounts[i], ledgers[i], os, closes)
              case Some(s) => s.mount == mounts[i] && ScoredAs(mounts[i], ledgers[i], os, closes, s.seconds, Some(s.reachedAt))
              case None => ScoredAs(mounts[i], ledgers[i], os, closes, 0, None)
    {
      StandingIsScored(mounts[i], ledgers[i], os, closes);
    }
    var w := WinnerOf(mounts, ledgers, os, closes);
    if w.Some? {
      var i :| Stands(mounts, ledgers, os, closes, i, w.value);
      assert mounts[i] == w.value.mount;
    }
  }

  lemma {:induction false} DayHasTimestamps(schedule: seq<ScheduleRow>, date: nat)
    requires forall k :: 0 <= k < |schedule| ==> Timestamps([schedule[k].occurrence])
    ensures Timestamps(OccurrencesOn(schedule, date))
    ensures ClosesAt(schedule, date).Some? ==> Timestamp(ClosesAt(schedule, date).value)
  {
    if schedule != [] {
      var rest := schedule[1..];
      forall k | 0 <= k < |rest| ensures Timestamps([rest[k].occurrence]) { assert rest[k] == schedule[k + 1]; }
      DayHasTimestamps(rest, date);
      var o := schedule[0].occurrence;
      assert Timestamps([o]) && [o][0] == o;
    }
  }

  /** The days due: not settled yet, all of their rows over and made by one schedule version. */
  lemma {:induction false} DueMeans(schedule: seq<ScheduleRow>, results: map<nat, DayResult>, date: nat, asOf: Time)
    ensures date in DueDates(schedule, results, asOf) <==>
            && date !in results
            && (exists k :: 0 <= k < |schedule| && schedule[k].localDate == date)
            && (forall k :: 0 <= k < |schedule| && schedule[k].localDate == date ==>
                  schedule[k].occurrence.endsAt <= asOf && schedule[k].versionId == VersionOn(schedule, date))
  {
    if k :| 0 <= k < |schedule| && schedule[k].localDate == date {
      assert OnDate(schedule, k, date) && schedule[k] in schedule;
      var v := SomeRowHasVersion(schedule, date, k);
      assert forall j :: 0 <= j < |schedule| ==> (OnDate(schedule, j, date) <==> schedule[j].localDate == date);
    }
  }

  predicate HasOccurrence(schedule: seq<ScheduleRow>, date: nat, o: Occurrence) {
    exists k :: 0 <= k < |schedule| && schedule[k].localDate == date && schedule[k].occurrence == o
  }

  /** A day's occurrences are those of the schedule rows of that date. */
  lemma {:induction false} OccurrencesAreOfTheDate(schedule: seq<ScheduleRow>, date: nat, o: Occurrence)
    ensures o in OccurrencesOn(schedule, date) <==> HasOccurrence(schedule, date, o)
  {
    if schedule != [] {
      var rest := schedule[1..];
      OccurrencesAreOfTheDate(rest, date, o);
      if k :| 0 <= k < |rest| && rest[k].localDate == date && rest[k].occurrence == o { assert schedule[k + 1] == rest[k]; }
      if k :| 0 <= k < |schedule| && schedule[k].localDate == date && schedule[k].occurrence == o {
        if k > 0 { assert rest[k - 1] == schedule[k]; }
      }
    }
  }

  /** A finished day closes with the last of its occurrences, and carries the version that all its rows have. */
  lemma {:induction false} DayClosesLast(schedule: seq<ScheduleRow>, date: nat, asOf: Time)
    requires Finished(schedule, date, asOf)
    ensures ClosesAt(schedule, date).Some?
    ensures exists k :: 0 <= k < |schedule| && schedule[k].localDate == date && schedule[k].occurrence.endsAt == ClosesAt(schedule, date).value
    ensures forall k :: 0 <= k < |schedule| && schedule[k].localDate == date ==>
              && schedule[k].occurrence.endsAt <= ClosesAt(schedule, date).value
              && schedule[k].versionId == VersionOn(schedule, date)
  {
    ClosesInTime(schedule, date, asOf);
    var k :| 0 <= k < |schedule| && OnDate(schedule, k, date);
    SomeRowClosesLast(schedule, date, k);
    var v := SomeRowHasVersion(schedule, date, k);
    forall j | 0 <= j < |schedule| && schedule[j].localDate == date
      ensures schedule[j].occurrence.endsAt <= ClosesAt(schedule, date).value && schedule[j].versionId == VersionOn(schedule, date)
    {
      assert OnDate(schedule, j, date) && OnDate(schedule, v, date);
    }
  }

  lemma {:induction false} SomeRowHasVersion(schedule: seq<ScheduleRow>, date: nat, k: nat) returns (v: nat)
    requires OnDate(schedule, k, date)
    ensures v < |schedule| && OnDate(schedule, v, date) && schedule[v].versionId == VersionOn(schedule, date)
  {
    if schedule[0].localDate == date {
      v := 0;
    } else {
      v := SomeRowHasVersion(schedule[1..], date, k - 1);
      v := v + 1;
    }
  }

  lemma {:induction false} SomeRowClosesLast(schedule: seq<ScheduleRow>, date: nat, k: nat)
    requires OnDate(schedule, k, date)
    ensures ClosesAt(schedule, date).Some?
    ensures exists j :: 0 <= j < |schedule| && schedule[j].localDate == date && schedule[j].occurrence.endsAt == ClosesAt(schedule, date).value
  {
    var rest := schedule[1..];
    if ClosesAt(rest, date).Some? {
      var j := RowOnDate(rest, date);
      SomeRowClosesLast(rest, date, j);
      var i :| 0 <= i < |rest| && rest[i].localDate == date && rest[i].occurrence.endsAt == ClosesAt(rest, date).value;
      assert schedule[i + 1] == rest[i];
    } else if k > 0 {
      SomeRowClosesLast(rest, date, k - 1);
    }
    assert schedule[0].localDate == schedule[0].localDate;
  }

  lemma {:induction false} RowOnDate(schedule: seq<ScheduleRow>, date: nat) returns (k: nat)
    requires ClosesAt(schedule, date).Some?
    ensures OnDate(schedule, k, date)
  {
    if schedule[0].localDate == date {
      k := 0;
    } else {
      k := RowOnDate(schedule[1..], date);
      k := k + 1;
    }
  }

  predicate OpenOn(schedule: seq<ScheduleRow>, date: nat, t: Time) {
    exists k :: 0 <= k < |schedule| && schedule[k].localDate == date && Open(schedule[k].occurrence, t)
  }

  /**
   The instants a day's standings are made of: those at which some instance of the agent is idle, the mount consents, and
   one of that date's occurrences is open.
   */
  lemma {:induction false} DayCounts(schedule: seq<ScheduleRow>, m: Mount, ledgers: seq<Ledger>, date: nat, asOf: Time, t: Time)
    requires Finished(schedule, date, asOf) && forall k :: 0 <= k < |ledgers| ==> AllSound(ledgers[k])
    ensures ClosesAt(schedule, date).Some?
    ensures SomeHolds(MountRows(ledgers, m.qualifications, OccurrencesOn(schedule, date), ClosesAt(schedule, date).value), t) <==>
            SomeIdle(ledgers, t) && SomeConsents(m.qualifications, t) && OpenOn(schedule, date, t)
  {
    hide AllSound, MountRows, SomeHolds, SomeIdle, SomeConsents, ClosesAt, VersionOn, Finished;
    DayClosesLast(schedule, date, asOf);
    var os, closes := OccurrencesOn(schedule, date), ClosesAt(schedule, date).value;
    MountRowsMeaning(ledgers, m.qualifications, os, closes, t);
    if k :| 0 <= k < |os| && Open(os[k], t) {
      OccurrencesAreOfTheDate(schedule, date, os[k]);
      assert HasOccurrence(schedule, date, os[k]);
    }
    if k :| 0 <= k < |schedule| && schedule[k].localDate == date && Open(schedule[k].occurrence, t) {
      var o := schedule[k].occurrence;
      OccurrencesAreOfTheDate(schedule, date, o);
      var j :| 0 <= j < |os| && os[j] == o;
    }
  }

  predicate Due(schedule: seq<ScheduleRow>, results: map<nat, DayResult>, date: nat, asOf: Time) {
    date !in results && Finished(schedule, date, asOf)
  }

  function DueDates(schedule: seq<ScheduleRow>, results: map<nat, DayResult>, asOf: Time): set<nat> {
    set r | r in schedule && Due(schedule, results, r.localDate, asOf) :: r.localDate
  }

  predicate Ascending(s: seq<nat>) {
    forall i, j {:trigger s[i], s[j]} :: 0 <= i < j < |s| ==> s[i] < s[j]
  }

  /** The first dates of the set in order: as many as the limit allows. */
  predicate FirstOf(dates: seq<nat>, all: set<nat>, limit: nat) {
    && Ascending(dates) && |dates| == (if |all| < limit then |all| else limit)
    && (forall i :: 0 <= i < |dates| ==> dates[i] in all)
    && (forall d :: d in all && d !in dates ==> forall i :: 0 <= i < |dates| ==> dates[i] < d)
  }

  method Earliest(dates: set<nat>) returns (m: nat)
    requires dates != {}
    ensures m in dates && forall d :: d in dates ==> m <= d
  {
    m :| m in dates;
    var rest := dates - {m};
    while rest != {}
      invariant m in dates && rest <= dates && forall d :: d in dates && d !in rest ==> m <= d
    {
      var d :| d in rest;
      if d < m { m := d; }
      rest := rest - {d};
    }
  }

  /** ORDER BY office_local_date LIMIT. */
  method SelectFirst(all: set<nat>, limit: nat) returns (dates: seq<nat>)
    ensures FirstOf(dates, all, limit)
  {
    dates := [];
    var rest := all;
    while rest != {} && |dates| < limit
      invariant Ascending(dates) && |dates| <= limit && |dates| + |rest| == |all| && rest <= all
      invariant forall i :: 0 <= i < |dates| ==> dates[i] in all && dates[i] !in rest
      invariant forall d :: d in all && d !in dates ==> d in rest
      invariant forall d, i :: d in rest && 0 <= i < |dates| ==> dates[i] < d
      decreases |rest|
    {
      var d := Earliest(rest);
      dates := dates + [d];
      rest := rest - {d};
    }
    if rest == {} { assert |all| == |dates|; }
  }

  class OfficeDayResults {
    var results: map<nat, DayResult>

    constructor ()
      ensures results == map[]
    {
      results := map[];
    }

    /**
     Settles the earliest due days, each once, with the winner as of its close; no settled day is ever rewritten.
     A limit out of range is an error that changes nothing.
     */
    method SettleDue(schedule: seq<ScheduleRow>, mounts: seq<Mount>, ledgers: seq<seq<Ledger>>, asOf: Time, limit: int)
      returns (settled: Option<seq<nat>>)
      requires |mounts| == |ledgers|
      modifies this
      ensures settled.Some? <==> 1 <= limit <= 366
      ensures settled.None? ==> results == old(results)
      ensures settled.Some? ==>
                && FirstOf(settled.value, DueDates(schedule, old(results), asOf), limit)
                && results.Keys == old(results).Keys + (set d | d in settled.value)
                && (forall d :: d in old(results) ==> results[d] == old(results)[d])
                && (forall d :: d in settled.value ==>
                      results[d] == DayResult(VersionOn(schedule, d), OutcomeOn(schedule, mounts, ledgers, d), asOf))
    {
      hide OutcomeOn, VersionOn, Finished;
      if !(1 <= limit <= 366) { return None; }
      var due := SelectFirst(DueDates(schedule, results, asOf), limit);
      SettleEach(schedule, mounts, ledgers, asOf, due);
      return Some(due);
    }

    method SettleEach(schedule: seq<ScheduleRow>, mounts: seq<Mount>, ledgers: seq<seq<Ledger>>, asOf: Time, due: seq<nat>)
      requires |mounts| == |ledgers| && Ascending(due) && forall d :: d in due ==> d !in results
      modifies this
      ensures results.Keys == old(results).Keys + (set d | d in due)
      ensures forall d :: d in old(results) ==> results[d] == old(results)[d]
      ensures forall d :: d in due ==>
                results[d] == DayResult(VersionOn(schedule, d), OutcomeOn(schedule, mounts, ledgers, d), asOf)
    {
      hide OutcomeOn, VersionOn;
      for k := 0 to |due|
        invariant results.Keys == old(results).Keys + (set d | d in due[..k])
        invariant forall d :: d in old(results) ==> results[d] == old(results)[d]
        invariant forall d :: d in due[..k] ==>
                    results[d] == DayResult(VersionOn(schedule, d), OutcomeOn(schedule, mounts, ledgers, d), asOf)
      {
        var date := due[k];
        assert forall j :: 0 <= j < k ==> due[j] < due[k];
        assert date in due && date !in results;
        var outcome := OutcomeOn(schedule, mounts, ledgers, date);
        if date !in results {
          results := results[date := DayResult(VersionOn(schedule, date), outcome, asOf)];
        }
        assert due[..k + 1] == due[..k] + [date];
      }
      assert due[..|due|] == due;
    }
  }

  // ---------------------------------------------------------------- a settled day is never contradicted

  function AllLedgers(worlds: seq<seq<World>>): (r: seq<seq<Ledger>>)
    ensures |r| == |worlds|
  {
    seq(|worlds|, i requires 0 <= i < |worlds| => Ledgers(worlds[i]))
  }

  ghost predicate AllLater(worlds: seq<seq<World>>, worlds': seq<seq<World>>, asOf: Time, ttl: int) {
    |worlds| == |worlds'| && forall i :: 0 <= i < |worlds| ==> Later(worlds[i], worlds'[i], asOf, ttl)
  }

  lemma {:induction false} RankingIsSettled(mounts: seq<Mount>, worlds: seq<seq<World>>, worlds': seq<seq<World>>, os: seq<Occurrence>, asOf: Time, ttl: int)
    requires |mounts| == |worlds| && AllLater(worlds, worlds', asOf, ttl)
    ensures Ranking(mounts, AllLedgers(worlds'), os, asOf) == Ranking(mounts, AllLedgers(worlds), os, asOf)
  {
    hide Later, QueryScore, MountRows;
    if mounts != [] {
      RankingIsSettled(mounts[1..], worlds[1..], worlds'[1..], os, asOf, ttl);
      RowsAreSettled(worlds[0], worlds'[0], mounts[0].qualifications, os, asOf, ttl);
      assert AllLedgers(worlds)[1..] == AllLedgers(worlds[1..]) && AllLedgers(worlds')[1..] == AllLedgers(worlds'[1..]);
    }
  }

  /**
   With consent and schedule fixed, a day computed once the clock has reached its close is computed the same in every
   later state of every instance: a settled day never disagrees with a recomputation.
   */
  lemma {:induction false} SettledDayStands(schedule: seq<ScheduleRow>, mounts: seq<Mount>, worlds: seq<seq<World>>, worlds': seq<seq<World>>,
                                            date: nat, asOf: Time, ttl: int)
    requires |mounts| == |worlds| && AllLater(worlds, worlds', asOf, ttl) && Finished(schedule, date, asOf)
    ensures OutcomeOn(schedule, mounts, AllLedgers(worlds'), date) == OutcomeOn(schedule, mounts, AllLedgers(worlds), date)
  {
    hide WinnerOf, Ranking;
    ClosesInTime(schedule, date, asOf);
    var closes := ClosesAt(schedule, date).value;
    forall i | 0 <= i < |worlds| ensures Later(worlds[i], worlds'[i], closes, ttl) {
      var ws, ws' := worlds[i], worlds'[i];
      assert Later(ws, ws', asOf, ttl);
    }
    WinnerIsSettled(mounts, worlds, worlds', OccurrencesOn(schedule, date), closes, ttl);
  }

  lemma {:induction false} WinnerIsSettled(mounts: seq<Mount>, worlds: seq<seq<World>>, worlds': seq<seq<World>>, os: seq<Occurrence>, asOf: Time, ttl: int)
    requires |mounts| == |worlds| && AllLater(worlds, worlds', asOf, ttl)
    ensures WinnerOf(mounts, AllLedgers(worlds'), os, asOf) == WinnerOf(mounts, AllLedgers(worlds), os, asOf)
  {
    hide Ranking, Later;
    RankingIsSettled(mounts, worlds, worlds', os, asOf, ttl);
  }
}

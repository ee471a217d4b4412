/** The periodic tick of one public Office: settle the due days and record one revision, both or neither. */
module OfficeTick {
  import opened Status
  import PresenceLedger
  import opened RevisionLog
  import opened OfficeDays

  /** The locked re-check: somebody may watch, and the projection is old enough. */
  predicate TickDue(o: Office, tokenActive: bool, asOf: Time, intervalMs: int) {
    tokenActive && (o.current.None? || o.current.value.generatedAt <= asOf - intervalMs)
  }

  /** With somebody able to watch, a tick is due from one interval after the projection on, and never before. */
  lemma {:induction false} DueAfterTheInterval(o: Office, tokenActive: bool, asOf: Time, intervalMs: int)
    requires o.current.Some?
    ensures TickDue(o, true, asOf, intervalMs) <==> asOf >= o.current.value.generatedAt + intervalMs
    ensures !TickDue(o, false, asOf, intervalMs)
    ensures TickDue(o.(current := None), tokenActive, asOf, intervalMs) <==> tokenActive
  {
  }

  datatype EventType = ProjectionTicked | OfficeDaySettled

  datatype TickResult = Skipped | RolledBack | Advanced(event: EventType, settled: seq<nat>)

  const SETTLEMENT_LIMIT := 31

  /**
   Two ticks that advance lie at least one interval apart: the projection of the first is not older than its own time.
   */
  lemma {:induction false} TicksAreSpaced(o: Office, at: Time, clock: Time, view: Option<View>, actions: seq<Action>,
                                          tokenActive: bool, later: Time, intervalMs: int)
    requires OfficeValid(o) && Record(o, at, clock, view, false).Some?
    ensures var after := RevisionLog.Run(Record(o, at, clock, view, false).value, actions);
      TickDue(after, tokenActive, later, intervalMs) ==> later >= at + intervalMs
  {
    hide OfficeValid, Record;
    RecordValid(o, at, clock, view, false);
    ProjectionNeverAges(Record(o, at, clock, view, false).value, actions);
  }

  lemma {:induction false} ProjectionNeverAges(o: Office, actions: seq<Action>)
    requires OfficeValid(o) && o.current.Some?
    ensures var after := RevisionLog.Run(o, actions);
      after.current.Some? && after.current.value.generatedAt >= o.current.value.generatedAt
  {
    if actions != [] {
      var front := actions[..|actions| - 1];
      ProjectionNeverAges(o, front);
      RunValid(o, front);
    }
  }

  class PublicOffice {
    const revisions: OfficeRevisions
    const days: OfficeDayResults

    constructor (revisions: OfficeRevisions, days: OfficeDayResults)
      ensures this.revisions == revisions && this.days == days
    {
      this.revisions, this.days := revisions, days;
    }

    /** One transaction: when the revision cannot be recorded, the settlements are rolled back with it. */
    method TickOne(tokenActive: bool, asOf: Time, clock: Time, intervalMs: int, schedule: seq<ScheduleRow>, mounts: seq<Mount>,
                   ledgers: seq<seq<PresenceLedger.Ledger>>, view: Option<View>) returns (r: TickResult)
      requires |mounts| == |ledgers|
      modifies revisions, days
      ensures var before := old(revisions.State());
              var recorded := Record(before, asOf, clock, view, false);
        && (r.Skipped? <==> !TickDue(before, tokenActive, asOf, intervalMs))
        && (r.Advanced? <==> TickDue(before, tokenActive, asOf, intervalMs) && recorded.Some?)
        && (!r.Advanced? ==> revisions.State() == before && days.results == old(days.results))
        && (r.Advanced? ==>
              && revisions.State() == recorded.value
              && FirstOf(r.settled, DueDates(schedule, old(days.results), asOf), SETTLEMENT_LIMIT)
              && (r.event.OfficeDaySettled? <==> r.settled != [])
              && days.results.Keys == old(days.results).Keys + (set d | d in r.settled)
              && (forall d :: d in old(days.results) ==> days.results[d] == old(days.results)[d])
              && (forall d :: d in r.settled ==>
                    days.results[d] == DayResult(VersionOn(schedule, d), OutcomeOn(schedule, mounts, ledgers, d), asOf)))
    {
      hide Record, DueDates, OutcomeOn, VersionOn, FirstOf;
      if !TickDue(revisions.State(), tokenActive, asOf, intervalMs) { return Skipped; }
      var results := days.results;
      var settled := days.SettleDue(schedule, mounts, ledgers, asOf, SETTLEMENT_LIMIT);
      var ok := revisions.RecordRevision(asOf, clock, view, false);
      if !ok {
        days.results := results;
        return RolledBack;
      }
      return Advanced(if settled.value != [] then OfficeDaySettled else ProjectionTicked, settled.value);
    }
  }
}

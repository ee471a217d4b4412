/** Changing what one mount consents to: its flags, its statistics intervals and the public revision it records. */
module MountConsent {
  import opened Status
  import opened RevisionLog
  import Settlement

  type Stay = Settlement.Qualification

  datatype Consent = Consent(presenceVisible: bool, statsOptIn: bool, posterOptIn: bool)

  datatype MountRow = MountRow(active: bool, consent: Consent, stays: seq<Stay>)

  datatype Request = Request(presenceVisible: Option<bool>, statsOptIn: Option<bool>, posterOptIn: Option<bool>)

  /** `Rejected` is a request without any value, `RolledBack` any failure inside the transaction. */
  datatype Answer = Rejected | Unchanged | Changed(revision: nat) | RolledBack

  function Choose(o: Option<bool>, otherwise: bool): bool {
    if o.Some? then o.value else otherwise
  }

  function Requested(c: Consent, r: Request): Consent {
    Consent(Choose(r.presenceVisible, c.presenceVisible), Choose(r.statsOptIn, c.statsOptIn), Choose(r.posterOptIn, c.posterOptIn))
  }

  predicate Lowers(from: Consent, to: Consent) {
    || (from.presenceVisible && !to.presenceVisible)
    || (from.statsOptIn && !to.statsOptIn)
    || (from.posterOptIn && !to.posterOptIn)
  }

  // ---------------------------------------------------------------- statistics intervals

  function CloseStays(stays: seq<Stay>, at: Time): (r: seq<Stay>)
    ensures |r| == |stays|
  {
    seq(|stays|, i requires 0 <= i < |stays| =>
      if stays[i].endedAt.None? then stays[i].(endedAt := Some(at)) else stays[i])
  }

  /** The table's check refuses a row that ends before it starts. */
  predicate MayClose(stays: seq<Stay>, at: Time) {
    forall i :: 0 <= i < |stays| && stays[i].endedAt.None? ==> stays[i].startedAt <= at
  }

  predicate EndsBefore(s: Stay, at: Time) {
    s.endedAt.Some? && (s.endedAt.value <= at || s.endedAt.value <= s.startedAt)
  }

  /** The unique index and the exclusion constraint refuse a row that shares an instant with another. */
  predicate MayOpen(stays: seq<Stay>, at: Time) {
    forall i :: 0 <= i < |stays| ==> EndsBefore(stays[i], at)
  }

  function NextStays(stays: seq<Stay>, from: bool, to: bool, at: Time): Option<seq<Stay>> {
    if from && !to then (if MayClose(stays, at) then Some(CloseStays(stays, at)) else None)
    else if !from && to then (if MayOpen(stays, at) then Some(stays + [Settlement.Qualification(at, None)]) else None)
    else Some(stays)
  }

  /** One transaction over the mount and its Office. */
  function Change(m: MountRow, o: Office, r: Request, at: Time, clock: Time, view: Option<View>): (MountRow, Office, Answer) {
    if r.presenceVisible.None? && r.statsOptIn.None? && r.posterOptIn.None? then (m, o, Rejected)
    else if !m.active || Requested(m.consent, r) == m.consent then (m, o, Unchanged)
    else
      var next := Requested(m.consent, r);
      var stays := NextStays(m.stays, m.consent.statsOptIn, next.statsOptIn, at);
      var recorded := Record(o, at, clock, view, Lowers(m.consent, next));
      if stays.None? || recorded.None? then (m, o, RolledBack)
      else (m.(consent := next, stays := stays.value), recorded.value, Changed(recorded.value.revision))
  }

  // ---------------------------------------------------------------- invariant

  predicate HeldAt(s: Stay, t: Time) {
    s.startedAt <= t && (s.endedAt.Some? ==> t < s.endedAt.value)
  }

  predicate QualifiedAt(stays: seq<Stay>, t: Time) {
    exists i :: 0 <= i < |stays| && HeldAt(stays[i], t)
  }

  predicate Earlier(a: Stay, b: Stay) {
    EndsBefore(a, b.startedAt)
  }

  /** Intervals in order and disjoint, and one is open, the last, exactly while statistics are opted in. */
  predicate StaysValid(stays: seq<Stay>, statsOptIn: bool) {
    && (forall i, j {:trigger stays[i], stays[j]} :: 0 <= i < j < |stays| ==> Earlier(stays[i], stays[j]))
    && (forall i :: 0 <= i < |stays| - 1 ==> stays[i].endedAt.Some?)
    && (statsOptIn <==> stays != [] && stays[|stays| - 1].endedAt.None?)
  }

  /**
   Flipping the statistics consent keeps the intervals well formed, changes nothing before the change, and from then
   on the mount qualifies exactly while it is opted in; a flip the table refuses changes nothing at all.
   */
  lemma {:induction false} StatisticsFollowConsent(stays: seq<Stay>, from: bool, to: bool, at: Time)
    requires StaysValid(stays, from)
    ensures var next := NextStays(stays, from, to, at);
      && (next.Some? ==> StaysValid(next.value, to))
      && (next.Some? && from != to ==>
            && (forall t :: t < at ==> (QualifiedAt(next.value, t) <==> QualifiedAt(stays, t)))
            && (forall t :: t >= at ==> (QualifiedAt(next.value, t) <==> to)))
  {
    var next := NextStays(stays, from, to, at);
    if next.Some? && from != to {
      if from {
        ClosingEndsIt(stays, at);
      } else {
        OpeningStartsIt(stays, at);
      }
    }
  }

  lemma {:induction false} ClosingEndsIt(stays: seq<Stay>, at: Time)
    requires StaysValid(stays, true) && MayClose(stays, at)
    ensures StaysValid(CloseStays(stays, at), false)
    ensures forall t :: t < at ==> (QualifiedAt(CloseStays(stays, at), t) <==> QualifiedAt(stays, t))
    ensures forall t :: t >= at ==> !QualifiedAt(CloseStays(stays, at), t)
  {
    var next, n := CloseStays(stays, at), |stays| - 1;
    assert forall i :: 0 <= i < n ==> next[i] == stays[i];
    forall t ensures t < at ==> (QualifiedAt(next, t) <==> QualifiedAt(stays, t)) {
      if t < at {
        forall i | 0 <= i < |stays| ensures HeldAt(next[i], t) <==> HeldAt(stays[i], t) {}
        if QualifiedAt(stays, t) { var i :| 0 <= i < |stays| && HeldAt(stays[i], t); assert HeldAt(next[i], t); }
      }
    }
    forall t, i | t >= at && 0 <= i < |next| ensures !HeldAt(next[i], t) {
      if i < n { assert Earlier(stays[i], stays[n]); }
    }
  }

  lemma {:induction false} OpeningStartsIt(stays: seq<Stay>, at: Time)
    requires StaysValid(stays, false) && MayOpen(stays, at)
    ensures var next := stays + [Settlement.Qualification(at, None)];
      && StaysValid(next, true)
      && (forall t :: t < at ==> (QualifiedAt(next, t) <==> QualifiedAt(stays, t)))
      && (forall t :: t >= at ==> QualifiedAt(next, t))
  {
    var next := stays + [Settlement.Qualification(at, None)];
    forall t ensures t < at ==> (QualifiedAt(next, t) <==> QualifiedAt(stays, t)) {
      if QualifiedAt(stays, t) { var i :| 0 <= i < |stays| && HeldAt(stays[i], t); assert HeldAt(next[i], t); }
    }
    forall t | t >= at ensures QualifiedAt(next, t) { assert HeldAt(next[|stays|], t); }
  }

  // ---------------------------------------------------------------- withdrawal reaches the public log

  /**
   A change that turns any one of the three consents off, whatever else it grants, leaves a log that no stream can read back past it: in
   every later state no page holds a revision from before the withdrawal, and the current projection is from after it.
   */
  lemma {:induction false} WithdrawalIsNotReplayed(m: MountRow, o: Office, r: Request, at: Time, clock: Time, view: Option<View>,
                                                   actions: seq<Action>, cursor: nat, limit: nat)
    requires OfficeValid(o) && limit >= 1
    requires Change(m, o, r, at, clock, view).2.Changed?
    requires var was, next := m.consent, Change(m, o, r, at, clock, view).0.consent;
      || (was.presenceVisible && !next.presenceVisible)
      || (was.statsOptIn && !next.statsOptIn)
      || (was.posterOptIn && !next.posterOptIn)
    ensures var (_, o', answer) := Change(m, o, r, at, clock, view);
            var later := Run(o', actions);
            var page := PageOf(later, cursor, limit);
      && answer.revision == o.revision + 1
      && (page.Events? ==> forall i :: 0 <= i < |page.events| ==> page.events[i].revision >= answer.revision)
      && (cursor < o.revision ==> page.RevisionGap?)
      && later.current.Some? && later.current.value.revision >= answer.revision
  {
    hide OfficeValid, PageOf, Run, Record;
    RecordValid(o, at, clock, view, true);
    LoweredHistoryIsGone(o, at, clock, view.value, actions, cursor, limit);
    var lowered := Record(o, at, clock, view, true).value;
    RunValid(lowered, actions);
    CurrentIsLatest(Run(lowered, actions));
  }

  lemma {:induction false} CurrentIsLatest(o: Office)
    requires OfficeValid(o) && o.current.Some?
    ensures o.current.value.revision == o.revision
  {
  }

  /** A change that only grants keeps every retained revision readable, and a change of nothing records nothing. */
  lemma {:induction false} GrantingKeepsTheLog(m: MountRow, o: Office, r: Request, at: Time, clock: Time, view: Option<View>)
    requires OfficeValid(o)
    ensures var (m', o', answer) := Change(m, o, r, at, clock, view);
      && (answer.Changed? <==> m'.consent != m.consent)
      && (!answer.Changed? ==> m' == m && o' == o)
      && (answer.Changed? && (m.consent.presenceVisible ==> m'.consent.presenceVisible)
            && (m.consent.statsOptIn ==> m'.consent.statsOptIn) && (m.consent.posterOptIn ==> m'.consent.posterOptIn) ==>
            o'.minimum == o.minimum && forall k :: k in o.log ==> k in o'.log && o'.log[k] == o.log[k])
  {
  }

  /** Each flag becomes what the request says of it, and stays when the request says nothing. */
  lemma {:induction false} FlagsAreAsRequested(m: MountRow, o: Office, r: Request, at: Time, clock: Time, view: Option<View>)
    requires Change(m, o, r, at, clock, view).2.Changed?
    ensures var was, next := m.consent, Change(m, o, r, at, clock, view).0.consent;
      && next.presenceVisible == (match r.presenceVisible case Some(b) => b case None => was.presenceVisible)
      && next.statsOptIn == (match r.statsOptIn case Some(b) => b case None => was.statsOptIn)
      && next.posterOptIn == (match r.posterOptIn case Some(b) => b case None => was.posterOptIn)
      && m.active && next != was
  {
    hide Record, NextStays;
  }

  /** Which answer a request gets; nothing but an answer of `Changed` changes anything. */
  lemma {:induction false} RequestIsAnswered(m: MountRow, o: Office, r: Request, at: Time, clock: Time, view: Option<View>)
    requires OfficeValid(o)
    ensures var (m', o', answer) := Change(m, o, r, at, clock, view);
            var asks := (r.presenceVisible.Some? && r.presenceVisible.value != m.consent.presenceVisible)
                        || (r.statsOptIn.Some? && r.statsOptIn.value != m.consent.statsOptIn)
                        || (r.posterOptIn.Some? && r.posterOptIn.value != m.consent.posterOptIn);
      && (answer.Rejected? <==> r == Request(None, None, None))
      && (answer.Unchanged? <==> r != Request(None, None, None) && (!m.active || !asks))
      && (answer.RolledBack? <==>
            && m.active && asks
            && (o.revision >= MAX_SAFE_REVISION || view.None?
                || NextStays(m.stays, m.consent.statsOptIn, Choose(r.statsOptIn, m.consent.statsOptIn), at).None?))
      && (!answer.Changed? ==> m' == m && o' == o)
  {
    hide Record, NextStays;
    RecordValid(o, at, clock, view, true);
    RecordValid(o, at, clock, view, false);
  }

  /**
   The table refuses a flip exactly when it would end an interval before its start, or start one while an interval still
   holds some later instant.
   */
  lemma {:induction false} RefusedFlips(stays: seq<Stay>, from: bool, to: bool, at: Time)
    requires StaysValid(stays, from) && from != to
    ensures from ==> (NextStays(stays, from, to, at).None? <==> at < stays[|stays| - 1].startedAt)
    ensures to ==> (NextStays(stays, from, to, at).None? <==> exists t :: t >= at && QualifiedAt(stays, t))
  {
    if to {
      if MayOpen(stays, at) {
        forall t | t >= at ensures !QualifiedAt(stays, t) {}
      } else {
        var i :| 0 <= i < |stays| && !EndsBefore(stays[i], at);
        assert stays[i].endedAt.Some?;
        var t := Max(at, stays[i].startedAt);
        assert HeldAt(stays[i], t);
        assert QualifiedAt(stays, t);
      }
    }
  }

  // ---------------------------------------------------------------- the transaction

  class Mount {
    var active: bool
    var consent: Consent
    var stays: seq<Stay>

    function Row(): MountRow
      reads this
    {
      MountRow(active, consent, stays)
    }

    constructor (m: MountRow)
      ensures Row() == m
    {
      active, consent, stays := m.active, m.consent, m.stays;
    }

    method ChangeConsent(office: OfficeRevisions, r: Request, at: Time, clock: Time, view: Option<View>) returns (answer: Answer)
      modifies this, office
      ensures (Row(), office.State(), answer) == Change(old(Row()), old(office.State()), r, at, clock, view)
    {
      if r.presenceVisible.None? && r.statsOptIn.None? && r.posterOptIn.None? { return Rejected; }
      if !active { return Unchanged; }
      var next := Requested(consent, r);
      if next == consent { return Unchanged; }
      var before := Row();
      if consent.statsOptIn && !next.statsOptIn {
        if !MayClose(stays, at) { return RolledBack; }
        stays := CloseStays(stays, at);
      } else if !consent.statsOptIn && next.statsOptIn {
        if !MayOpen(stays, at) { return RolledBack; }
        stays := stays + [Settlement.Qualification(at, None)];
      }
      var lowering := Lowers(consent, next);
      consent := next;
      var recorded := office.RecordRevision(at, clock, view, lowering);
      if !recorded {
        stays, consent := before.stays, before.consent;
        return RolledBack;
      }
      return Changed(office.revision);
    }
  }
}

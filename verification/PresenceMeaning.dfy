/** What the presence row says, told from the accepted reports alone. */
module PresenceMeaning {
  import opened Status
  import opened EdgeWire
  import opened PresenceLedger
  import opened LedgerRefinement
  import opened IngestTables
  import opened StoreInvariant
  import opened ReportingRuns

  /** An accepted state transition; `anew` when its report found no presence row to go on from. */
  datatype Mark = Mark(at: Time, sequence: nat, display: DisplayState, activity: ActivityState, petId: string, anew: bool)

  /** The transitions of one report, of which only the first can be anew. */
  function MarksOf(at: Time, events: seq<EdgeEvent>, anew: bool): seq<Mark>
    decreases |events|
  {
    if events == [] then []
    else if events[0].Heartbeat? then MarksOf(at, events[1..], anew)
    else
      var e := events[0];
      [Mark(at, e.sequence, e.displayState, e.activityState, e.petId, anew)] + MarksOf(at, events[1..], false)
  }

  /** From mark k on every mark has the display of the last, none but k starts anew, and k begins that run. */
  predicate DisplayRun(marks: seq<Mark>, k: int) {
    && 0 <= k < |marks|
    && (forall j :: k <= j < |marks| ==> marks[j].display == marks[|marks| - 1].display)
    && (forall j :: k < j < |marks| ==> !marks[j].anew)
    && (k == 0 || marks[k].anew || marks[k - 1].display != marks[k].display)
  }

  predicate ActivityRun(marks: seq<Mark>, k: int) {
    && 0 <= k < |marks|
    && (forall j :: k <= j < |marks| ==> marks[j].activity == marks[|marks| - 1].activity)
    && (forall j :: k < j < |marks| ==> !marks[j].anew)
    && (k == 0 || marks[k].anew || marks[k - 1].activity != marks[k].activity)
  }

  predicate DisplayedSince(marks: seq<Mark>, since: Time) {
    exists k :: 0 <= k < |marks| && DisplayRun(marks, k) && marks[k].at == since
  }

  predicate ActiveSince(marks: seq<Mark>, since: Time) {
    exists k :: 0 <= k < |marks| && ActivityRun(marks, k) && marks[k].at == since
  }

  predicate ShowsMark(m: Mark, s: Snapshot) {
    s.lastStateSequence == m.sequence && s.displayState == m.display && s.activityState == m.activity && s.petId == m.petId
  }

  /** The row shows the last accepted transition, since the reports that began its display and its activity. */
  predicate Says(marks: seq<Mark>, s: Snapshot) {
    && marks != [] && ShowsMark(marks[|marks| - 1], s)
    && DisplayedSince(marks, s.displaySince) && ActiveSince(marks, s.activitySince)
  }

  // ---------------------------------------------------------------- one report

  lemma {:induction false} TransitionSays(marks: seq<Mark>, current: Option<Snapshot>, event: EdgeEvent, at: Time, reset: bool)
    requires event.StateTransition? && (current.Some? ==> Says(marks, current.value))
    ensures Says(marks + MarksOf(at, [event], current.None?), ApplyStateTransition(current, event, at, reset))
  {
    var mark := Mark(at, event.sequence, event.displayState, event.activityState, event.petId, current.None?);
    assert MarksOf(at, [event], current.None?) == [mark] + MarksOf(at, [event][1..], false) == [mark];
    var next, n := marks + [mark], |marks|;
    assert next[n] == mark;
    if current.None? || current.value.displayState != event.displayState {
      assert DisplayRun(next, n);
    } else {
      var k :| 0 <= k < n && DisplayRun(marks, k) && marks[k].at == current.value.displaySince;
      assert DisplayRun(next, k);
    }
    if current.None? || current.value.activityState != event.activityState {
      assert ActivityRun(next, n);
    } else {
      var k :| 0 <= k < n && ActivityRun(marks, k) && marks[k].at == current.value.activitySince;
      assert ActivityRun(next, k);
    }
  }

  lemma {:induction false} EventSays(p: Progress, event: EdgeEvent, generation: nat, broken: bool, at: Time, marks: seq<Mark>)
    requires p.current.Some? ==> Says(marks, p.current.value)
    ensures var next := ApplyEvent(p, event, generation, broken, at);
      next.Some? ==> next.value.current.Some? && Says(marks + MarksOf(at, [event], p.current.None?), next.value.current.value)
  {
    hide DisplayedSince, ActiveSince, ApplyStateTransition, CloseOpen;
    if event.StateTransition? {
      TransitionSays(marks, p.current, event, at, broken || p.current.None? || p.current.value.activityState != event.activityState);
    } else {
      assert MarksOf(at, [event], p.current.None?) == MarksOf(at, [event][1..], p.current.None?) == [];
      assert marks + [] == marks;
    }
  }

  lemma {:induction false} MarksSplit(at: Time, events: seq<EdgeEvent>, anew: bool)
    requires events != [] && (anew ==> events[0].StateTransition?)
    ensures MarksOf(at, events, anew) == MarksOf(at, [events[0]], anew) + MarksOf(at, events[1..], false)
  {
    assert [events[0]][1..] == [];
    assert MarksOf(at, [], anew) == [] && MarksOf(at, [], false) == [];
  }

  lemma {:induction false} BatchSays(p: Progress, events: seq<EdgeEvent>, generation: nat, broken: bool, at: Time, marks: seq<Mark>)
    requires p.current.Some? ==> Says(marks, p.current.value)
    ensures var done := ApplyEvents(p, events, generation, broken, at);
      done.Some? && done.value.current.Some? ==> Says(marks + MarksOf(at, events, p.current.None?), done.value.current.value)
    decreases |events|
  {
    hide Says, ApplyEvent;
    if events == [] {
      assert marks + MarksOf(at, events, p.current.None?) == marks;
    } else {
      var next := ApplyEvent(p, events[0], generation, broken, at);
      EventSays(p, events[0], generation, broken, at, marks);
      if next.Some? {
        NoneNeedsTransition(p, events[0], generation, broken, at);
        var more := marks + MarksOf(at, [events[0]], p.current.None?);
        BatchSays(next.value, events[1..], generation, broken, at, more);
        MarksSplit(at, events, p.current.None?);
        assert more + MarksOf(at, events[1..], false) == marks + MarksOf(at, events, p.current.None?);
      }
    }
  }

  lemma {:induction false} NoneNeedsTransition(p: Progress, event: EdgeEvent, generation: nat, broken: bool, at: Time)
    requires ApplyEvent(p, event, generation, broken, at).Some?
    ensures p.current.None? ==> event.StateTransition?
  {
    hide ApplyStateTransition, CloseOpen;
  }

  /** Whether a report finds no presence row to go on from: it begins a boot that cannot take the live one over. */
  predicate FindsNothing(l: Ledger, newBoot: bool, first: EdgeEvent, at: Time) {
    if newBoot then !CanRoll(l.presence, first, at) else l.presence.None?
  }

  lemma {:induction false} RecordSays(l: Ledger, newBoot: bool, generation: nat, bootId: Uuid, events: seq<EdgeEvent>, at: Time,
                                      leaseExpiresAt: Time, marks: seq<Mark>)
    requires events != [] && (l.presence.Some? ==> Says(marks, l.presence.value.snapshot))
    ensures var next := Record(l, newBoot, generation, bootId, events, at, leaseExpiresAt);
      next.Some? ==> next.value.presence.Some?
                     && Says(marks + MarksOf(at, events, FindsNothing(l, newBoot, events[0], at)), next.value.presence.value.snapshot)
  {
    hide Says, ApplyEvents, CloseOpen, MoveOpen, MarksOf;
    var rolled := if newBoot then RollBoot(l, events[0], generation, at) else Some(l);
    if rolled.Some? && CloseExpired(rolled.value, at).Some? {
      var broken := (newBoot && !CanRoll(l.presence, events[0], at)) || LeaseWasExpired(rolled.value.presence, at);
      var current := if rolled.value.presence.None? then None else Some(rolled.value.presence.value.snapshot);
      BatchSays(Progress(current, broken, CloseExpired(rolled.value, at).value), events, generation, broken, at, marks);
    }
  }

  // ---------------------------------------------------------------- whole runs

  /**
   The last report of the history starts over: it is the first, or it begins a boot after the lease of the report before
   it, or with another activity than the last accepted one.
   */
  predicate StartsOver(history: seq<Entry>, ttl: int)
    requires history != []
  {
    var n := |history| - 1;
    var e := history[n].envelope;
    n == 0
    || (e.bootId != history[n - 1].envelope.bootId
        && (history[n].at >= history[n - 1].at + ttl
            || e.events == [] || e.events[0].Heartbeat?
            || Some(e.events[0].activityState) != LogActivity(Reports(history[..n]))))
  }

  /** All accepted transitions in order. */
  function Marks(history: seq<Entry>, ttl: int): seq<Mark> {
    if history == [] then []
    else
      var n := |history| - 1;
      Marks(history[..n], ttl) + MarksOf(history[n].at, history[n].envelope.events, StartsOver(history, ttl))
  }

  function PetOf(marks: seq<Mark>): Option<string> {
    if marks == [] then None else Some(marks[|marks| - 1].petId)
  }

  ghost predicate RowsSay(w: World, ttl: int) {
    && (w.tables.ledger.presence.Some? ==> Says(Marks(w.history, ttl), w.tables.ledger.presence.value.snapshot))
    && w.tables.agentPet == PetOf(Marks(w.history, ttl))
  }

  /** On a valid store, finding nothing is what the history says it is. */
  lemma {:induction false} StartsOverIsFindsNothing(w: World, e: Envelope, endpoint: Endpoint, at: Time, ttl: int)
    requires WorldValid(w, ttl) && w.clock <= at && Prepared(e, endpoint) && Accepts(w.tables, e, endpoint)
    ensures FindsNothing(w.tables.ledger, Classify(w.tables, e, endpoint).newBoot, e.events[0], at)
       <==> StartsOver(w.history + [StoreInvariant.Entry(e, at)], ttl)
  {
    var history, n := w.history + [StoreInvariant.Entry(e, at)], |w.history|;
    assert history[..n] == w.history;
    AcceptedBoot(w.tables, e, endpoint);
    if n > 0 { TipBoot(w, ttl); }
  }

  lemma {:induction false} TipBoot(w: World, ttl: int)
    requires WorldValid(w, ttl) && w.history != []
    ensures w.tables.boots != [] && w.tables.head.currentBootId == Some(w.history[|w.history| - 1].envelope.bootId)
    ensures InChain(w.tables.boots, w.history[|w.history| - 1].envelope.bootId)
  {
    var t, n := w.tables, |w.tables.receipts|;
    assert InChain(t.boots, w.history[|w.history| - 1].envelope.bootId);
    assert t.receipts[n - 1].payload == w.history[|w.history| - n + (n - 1)].envelope;
    assert ReceiptFits(t.receipts[n - 1], t.boots[|t.boots| - 1]);
  }

  lemma {:induction false} CommitSays(t: Tables, e: Envelope, newBoot: bool, generation: nat, at: Time, ttl: int)
    requires |e.events| > 0 && Commit(t, e, newBoot, generation, at, ttl).Some?
    ensures var next := Commit(t, e, newBoot, generation, at, ttl).value;
      && Record(t.ledger, newBoot, generation, e.bootId, e.events, at, at + ttl) == Some(next.ledger)
      && next.agentPet == (if HasTransition(e.events) && next.ledger.presence.Some?
                           then Some(next.ledger.presence.value.snapshot.petId) else t.agentPet)
  {
    hide Record, AdvanceBoots, FindReceipt, AnyFingerprint, NewFingerprints, CascadeFingerprints, ReceiptsOfOthers, FenceBoots, HasTransition;
  }

  lemma {:induction false} NoTransitionNoMark(at: Time, events: seq<EdgeEvent>, anew: bool)
    ensures HasTransition(events) <==> MarksOf(at, events, anew) != []
    decreases |events|
  {
    if events != [] {
      NoTransitionNoMark(at, events[1..], if events[0].Heartbeat? then anew else false);
      if i :| 0 <= i < |events[1..]| && events[1..][i].StateTransition? { assert events[i + 1].StateTransition?; }
      if i :| 0 <= i < |events| && events[i].StateTransition? { assert i > 0 ==> events[1..][i - 1].StateTransition?; }
    }
  }

  lemma {:induction false} MarksGrow(history: seq<Entry>, entry: Entry, ttl: int)
    ensures Marks(history + [entry], ttl)
         == Marks(history, ttl) + MarksOf(entry.at, entry.envelope.events, StartsOver(history + [entry], ttl))
  {
    assert (history + [entry])[..|history|] == history;
  }

  lemma {:induction false} CommitRowsSay(t: Tables, e: Envelope, newBoot: bool, generation: nat, at: Time, ttl: int, marks: seq<Mark>)
    requires |e.events| > 0 && Commit(t, e, newBoot, generation, at, ttl).Some?
    requires (t.ledger.presence.Some? ==> Says(marks, t.ledger.presence.value.snapshot)) && t.agentPet == PetOf(marks)
    ensures var next := Commit(t, e, newBoot, generation, at, ttl).value;
            var more := marks + MarksOf(at, e.events, FindsNothing(t.ledger, newBoot, e.events[0], at));
      next.ledger.presence.Some? && Says(more, next.ledger.presence.value.snapshot) && next.agentPet == PetOf(more)
  {
    hide Commit, Record, Says, MarksOf, HasTransition, FindsNothing;
    CommitSays(t, e, newBoot, generation, at, ttl);
    RecordSays(t.ledger, newBoot, generation, e.bootId, e.events, at, at + ttl, marks);
    var anew := FindsNothing(t.ledger, newBoot, e.events[0], at);
    NoTransitionNoMark(at, e.events, anew);
    LastSays(marks + MarksOf(at, e.events, anew), Commit(t, e, newBoot, generation, at, ttl).value.ledger.presence.value.snapshot);
    if MarksOf(at, e.events, anew) == [] { assert marks + [] == marks; }
  }

  lemma {:induction false} DeliverySays(w: World, e: Envelope, endpoint: Endpoint, at: Time, ttl: int)
    requires WorldValid(w, ttl) && w.clock <= at && Prepared(e, endpoint) && Accepts(w.tables, e, endpoint) && RowsSay(w, ttl)
    ensures RowsSay(Step(w, Deliver(e, endpoint, at), ttl), ttl)
  {
    var v := Classify(w.tables, e, endpoint);
    assert v.Accept?;
    hide WorldValid, Ingest, Commit, Classify, Says, Accepts, MarksOf, StartsOver, FindsNothing, Marks;
    ReceivedNow(w, ttl, at);
    StoreOf(w, ttl, at);
    IngestIsCommit(w.tables, w.history, ttl, e, endpoint, at);
    hide StoreValid;
    StartsOverIsFindsNothing(w, e, endpoint, at, ttl);
    CommitRowsSay(w.tables, e, v.newBoot, v.generation, at, ttl, Marks(w.history, ttl));
    MarksGrow(w.history, StoreInvariant.Entry(e, at), ttl);
  }

  lemma {:induction false} LastSays(marks: seq<Mark>, s: Snapshot)
    requires Says(marks, s)
    ensures marks != [] && s.petId == marks[|marks| - 1].petId
  {
  }

  lemma {:induction false} StoreOf(w: World, ttl: int, at: Time)
    requires WorldValid(w, ttl) && w.clock <= at
    ensures StoreValid(w.tables, w.history, ttl) && ClockPast(w.tables, at)
  {
  }

  lemma {:induction false} StepSays(w: World, a: Action, ttl: int)
    requires WorldValid(w, ttl) && w.clock <= a.at && RowsSay(w, ttl)
    ensures RowsSay(Step(w, a, ttl), ttl)
  {
    hide WorldValid, Says, Marks, Accepts, Commit, Classify;
    match a
    case SweepAt(at) =>
    case Deliver(e, endpoint, at) =>
      if Prepared(e, endpoint) {
        if Accepts(w.tables, e, endpoint) {
          DeliverySays(w, e, endpoint, at, ttl);
        } else {
          StoreOf(w, ttl, at);
          IngestRefuses(w.tables, w.history, ttl, e, endpoint, at);
        }
      }
  }

  /**
   In every run the presence row and the agent's pet are those of the last accepted transition, and its display and its
   activity are dated from the reports that began them; a boot that finds no live presence to take over starts both over.
   */
  lemma {:induction false} PresenceIsTheLog(instanceId: Uuid, clock: Time, actions: seq<Action>, ttl: int)
    requires ttl > 0 && MonotoneFrom(clock, actions)
    ensures RowsSay(Run(Fresh(instanceId, clock), actions, ttl), ttl)
  {
    hide WorldValid, Step, RowsSay;
    FreshValid(instanceId, clock, ttl);
    if actions == [] {
      FreshSays(instanceId, clock, ttl);
    } else {
      var front := actions[..|actions| - 1];
      PresenceIsTheLog(instanceId, clock, front, ttl);
      RunValid(Fresh(instanceId, clock), front, ttl);
      StepSays(Run(Fresh(instanceId, clock), front, ttl), actions[|actions| - 1], ttl);
    }
  }

  lemma {:induction false} FreshSays(instanceId: Uuid, clock: Time, ttl: int)
    ensures RowsSay(Fresh(instanceId, clock), ttl)
  {
  }
}

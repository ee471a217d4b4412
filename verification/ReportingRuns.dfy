/** Whole runs of one instance: any client's deliveries and any sweeps, on one monotone clock. */
module ReportingRuns {
  import opened Status
  import opened EdgeWire
  import opened PresenceLedger
  import opened LedgerRefinement
  import opened IngestTables
  import opened StoreInvariant

  datatype Action = Deliver(envelope: Envelope, endpoint: Endpoint, at: Time) | SweepAt(at: Time)

  /** The tables, the accepted reports in order, and the latest clock reading. */
  datatype World = World(tables: Tables, history: seq<Entry>, clock: Time)

  function Step(w: World, a: Action, ttl: int): World {
    match a
    case SweepAt(at) => World(ExpireLease(w.tables, at), w.history, at)
    case Deliver(e, endpoint, at) =>
      if !Prepared(e, endpoint) then w.(clock := at)
      else World(
        Ingest(w.tables, e, endpoint, at, ttl).0,
        if Accepts(w.tables, e, endpoint) then w.history + [Entry(e, NextServerReceivedAt(at, w.tables.head))] else w.history,
        at)
  }

  function Run(start: World, actions: seq<Action>, ttl: int): World {
    if actions == [] then start
    else Step(Run(start, actions[..|actions| - 1], ttl), actions[|actions| - 1], ttl)
  }

  predicate MonotoneFrom(clock: Time, actions: seq<Action>) {
    && (forall i :: 0 <= i < |actions| ==> clock <= actions[i].at)
    && (forall i, j :: 0 <= i < j < |actions| ==> actions[i].at <= actions[j].at)
  }

  function Fresh(instanceId: Uuid, clock: Time): World {
    World(EmptyTables(instanceId), [], clock)
  }

  // ---------------------------------------------------------------- the invariant of every run

  predicate InChain(boots: seq<Boot>, id: Uuid) {
    exists i :: 0 <= i < |boots| && boots[i].bootId == id
  }

  /** Reports of one boot never overlap, and reports before the receipts belong to fenced boots. */
  ghost predicate OnceEach(t: Tables, history: seq<Entry>) {
    && (forall i :: 0 <= i < |history| ==> InChain(t.boots, history[i].envelope.bootId))
    && (forall i :: 0 <= i < |history| - |t.receipts| ==> t.head.currentBootId != Some(history[i].envelope.bootId))
    && (forall i, j {:trigger history[i], history[j]} :: 0 <= i < j < |history| ==> Apart(history[i].envelope, history[j].envelope))
  }

  /** Two accepted reports of the same boot: the earlier one ends before the later one begins. */
  predicate Apart(earlier: Envelope, later: Envelope) {
    earlier.bootId == later.bootId ==> LastSequence(earlier) < later.firstSequence
  }

  ghost predicate WorldValid(w: World, ttl: int) {
    && StoreValid(w.tables, w.history, ttl)
    && ClockPast(w.tables, w.clock)
    && (w.tables.ledger.presence.Some? ==> w.tables.ledger.presence.value.lastReportReceivedAt <= w.clock)
    && OnceEach(w.tables, w.history)
  }

  lemma {:induction false} TailIsCurrent(t: Tables, history: seq<Entry>, ttl: int, i: nat)
    requires StoreValid(t, history, ttl) && |history| - |t.receipts| <= i < |history|
    ensures t.boots != [] && t.head.currentBootId == Some(history[i].envelope.bootId)
    ensures LastSequence(history[i].envelope) < t.boots[|t.boots| - 1].nextSequence
    ensures history[i].envelope.previousBootId == t.boots[|t.boots| - 1].previousBootId
  {
    var k := i - (|history| - |t.receipts|);
    assert t.receipts[k].payload == history[|history| - |t.receipts| + k].envelope;
    assert ReceiptFits(t.receipts[k], t.boots[|t.boots| - 1]);
    TileBelow(t.receipts, t.boots[|t.boots| - 1].nextSequence, k);
  }

  /** A newly accepted report lies apart from every earlier one. */
  lemma {:induction false} AcceptedIsApart(t: Tables, history: seq<Entry>, ttl: int, e: Envelope, endpoint: Endpoint, i: nat)
    requires StoreValid(t, history, ttl) && OnceEach(t, history) && Prepared(e, endpoint) && Accepts(t, e, endpoint)
    requires i < |history|
    ensures Apart(history[i].envelope, e)
  {
    assert InChain(t.boots, history[i].envelope.bootId);
    FindBootCorrect(t.boots, e.bootId);
    if Classify(t, e, endpoint).newBoot {
      assert FindBoot(t.boots, e.bootId).None?;
    } else {
      FindCurrent(t);
      if i >= |history| - |t.receipts| { TailIsCurrent(t, history, ttl, i); }
    }
  }

  /** Committing never drops or renames a boot. */
  lemma {:induction false} CommitBootIds(t: Tables, e: Envelope, newBoot: bool, generation: nat, at: Time, ttl: int)
    requires |e.events| > 0 && Commit(t, e, newBoot, generation, at, ttl).Some?
    ensures var next := Commit(t, e, newBoot, generation, at, ttl).value;
      && |next.boots| == |t.boots| + (if newBoot then 1 else 0)
      && (forall i :: 0 <= i < |t.boots| ==> next.boots[i].bootId == t.boots[i].bootId)
      && (newBoot ==> next.boots[|t.boots|].bootId == e.bootId)
  {
    hide Record, ReceiptsOfOthers, CascadeFingerprints, NewFingerprints, FindBoot, FindReceipt, AnyFingerprint, HasTransition;
  }

  /** A new boot was never seen; any other accepted report is the current boot's. */
  lemma {:induction false} AcceptedBoot(t: Tables, e: Envelope, endpoint: Endpoint)
    requires |e.events| > 0 && Accepts(t, e, endpoint)
    ensures Classify(t, e, endpoint).newBoot ==> !InChain(t.boots, e.bootId)
    ensures !Classify(t, e, endpoint).newBoot ==> t.head.currentBootId == Some(e.bootId)
  {
    FindBootCorrect(t.boots, e.bootId);
  }

  /** What an accepting ingest leaves, as a commit. */
  lemma {:induction false} IngestIsCommit(t: Tables, history: seq<Entry>, ttl: int, e: Envelope, endpoint: Endpoint, clock: Time)
    requires StoreValid(t, history, ttl) && Prepared(e, endpoint) && ClockPast(t, clock) && Accepts(t, e, endpoint)
    ensures var v := Classify(t, e, endpoint);
      Commit(t, e, v.newBoot, v.generation, NextServerReceivedAt(clock, t.head), ttl)
        == Some(Ingest(t, e, endpoint, clock, ttl).0)
  {
    hide Commit, StoreValid, CommittedAs;
    var v := Classify(t, e, endpoint);
    CommitValid(t, history, ttl, e, endpoint, v.newBoot, v.generation, clock);
  }

  lemma {:induction false} CommitKeepsBoots(t: Tables, history: seq<Entry>, ttl: int, e: Envelope, endpoint: Endpoint, clock: Time, id: Uuid)
    requires StoreValid(t, history, ttl) && Prepared(e, endpoint) && ClockPast(t, clock) && Accepts(t, e, endpoint)
    requires id == e.bootId || InChain(t.boots, id)
    ensures InChain(Ingest(t, e, endpoint, clock, ttl).0.boots, id)
  {
    hide Commit, Ingest, StoreValid, Refines, ReceiptsValid, FingerprintsValid;
    var v := Classify(t, e, endpoint);
    IngestIsCommit(t, history, ttl, e, endpoint, clock);
    CommitBootIds(t, e, v.newBoot, v.generation, NextServerReceivedAt(clock, t.head), ttl);
    AcceptedBoot(t, e, endpoint);
    var next := Ingest(t, e, endpoint, clock, ttl).0;
    if id == e.bootId && v.newBoot {
      assert next.boots[|t.boots|].bootId == id;
    } else {
      if id == e.bootId { CurrentInChain(t, history, ttl); }
      var i :| 0 <= i < |t.boots| && t.boots[i].bootId == id;
      assert next.boots[i].bootId == id;
    }
  }

  lemma {:induction false} CurrentInChain(t: Tables, history: seq<Entry>, ttl: int)
    requires StoreValid(t, history, ttl) && t.head.currentBootId.Some?
    ensures InChain(t.boots, t.head.currentBootId.value)
  {
    assert t.boots[|t.boots| - 1].bootId == t.head.currentBootId.value;
  }

  lemma {:induction false} StepValid(w: World, a: Action, ttl: int)
    requires WorldValid(w, ttl) && w.clock <= a.at
    ensures WorldValid(Step(w, a, ttl), ttl) && Step(w, a, ttl).clock == a.at
  {
    match a
    case SweepAt(at) =>
      ExpireValid(w.tables, w.history, ttl, at);
    case Deliver(e, endpoint, at) =>
      if Prepared(e, endpoint) {
        IngestValid(w.tables, w.history, ttl, e, endpoint, at);
        if Accepts(w.tables, e, endpoint) { AcceptKeepsOnce(w, e, endpoint, at, ttl); }
      }
  }

  /** The bookkeeping of a growing history, on the few rows it depends on. */
  lemma {:induction false} OnceGrows(t: Tables, next: Tables, history: seq<Entry>, e: Envelope, at: Time, newBoot: bool)
    requires OnceEach(t, history)
    requires next.head.currentBootId == Some(e.bootId)
    requires |next.receipts| == (if newBoot then 0 else |t.receipts|) + 1
    requires if newBoot then !InChain(t.boots, e.bootId) else t.head.currentBootId == Some(e.bootId)
    requires forall i :: 0 <= i < |history| ==> Apart(history[i].envelope, e)
    requires forall id :: id == e.bootId || InChain(t.boots, id) ==> InChain(next.boots, id)
    ensures OnceEach(next, history + [Entry(e, at)])
  {
    var history' := history + [Entry(e, at)];
    forall i, j | 0 <= i < j < |history'| ensures Apart(history'[i].envelope, history'[j].envelope) {
      if j < |history| { assert Apart(history[i].envelope, history[j].envelope); }
    }
    forall i | 0 <= i < |history'| ensures InChain(next.boots, history'[i].envelope.bootId) {
      if i < |history| { assert InChain(t.boots, history[i].envelope.bootId); }
    }
    forall i | 0 <= i < |history'| - |next.receipts| ensures next.head.currentBootId != Some(history'[i].envelope.bootId) {
      assert InChain(t.boots, history[i].envelope.bootId);
      assert !newBoot ==> i < |history| - |t.receipts|;
    }
  }

  lemma {:induction false} ReceivedNow(w: World, ttl: int, clock: Time)
    requires WorldValid(w, ttl) && w.clock <= clock
    ensures NextServerReceivedAt(clock, w.tables.head) == clock
  {
  }

  lemma {:induction false} AcceptKeepsOnce(w: World, e: Envelope, endpoint: Endpoint, clock: Time, ttl: int)
    requires WorldValid(w, ttl) && Prepared(e, endpoint) && w.clock <= clock && Accepts(w.tables, e, endpoint)
    ensures var next := Ingest(w.tables, e, endpoint, clock, ttl).0;
            var history' := w.history + [Entry(e, NextServerReceivedAt(clock, w.tables.head))];
      && OnceEach(next, history')
      && ClockPast(next, clock)
      && next.ledger.presence.Some? && next.ledger.presence.value.lastReportReceivedAt <= clock
  {
    hide Ingest, Commit, StoreValid, Classify, OnceEach;
    var t := w.tables;
    ReceivedNow(w, ttl, clock);
    IngestAccepts(t, w.history, ttl, e, endpoint, clock);
    AcceptedBoot(t, e, endpoint);
    var next := Ingest(t, e, endpoint, clock, ttl).0;
    forall i | 0 <= i < |w.history| ensures Apart(w.history[i].envelope, e) {
      AcceptedIsApart(t, w.history, ttl, e, endpoint, i);
    }
    forall id | id == e.bootId || InChain(t.boots, id) ensures InChain(next.boots, id) {
      CommitKeepsBoots(t, w.history, ttl, e, endpoint, clock, id);
    }
    OnceGrows(t, next, w.history, e, clock, Classify(t, e, endpoint).newBoot);
  }

  /** Every run on a monotone clock keeps the store valid and every accepted sequence unique. */
  lemma {:induction false} RunValid(start: World, actions: seq<Action>, ttl: int)
    requires WorldValid(start, ttl) && MonotoneFrom(start.clock, actions)
    ensures WorldValid(Run(start, actions, ttl), ttl)
    ensures Run(start, actions, ttl).clock == if actions == [] then start.clock else actions[|actions| - 1].at
  {
    if actions != [] {
      var before := actions[..|actions| - 1];
      RunValid(start, before, ttl);
      StepValid(Run(start, before, ttl), actions[|actions| - 1], ttl);
    }
  }

  lemma {:induction false} FreshValid(instanceId: Uuid, clock: Time, ttl: int)
    requires ttl > 0
    ensures WorldValid(Fresh(instanceId, clock), ttl)
  {
    EmptyIsValid(instanceId, ttl);
  }

  // ---------------------------------------------------------------- at most once

  predicate Carries(e: Envelope, bootId: Uuid, s: nat) {
    e.bootId == bootId && e.firstSequence <= s <= LastSequence(e)
  }

  /** In any run of any client, a sequence number of a boot takes effect at most once. */
  lemma {:induction false} AtMostOnce(instanceId: Uuid, clock: Time, actions: seq<Action>, ttl: int, bootId: Uuid, s: nat, i: nat, j: nat)
    requires ttl > 0 && MonotoneFrom(clock, actions)
    requires i < j < |Run(Fresh(instanceId, clock), actions, ttl).history|
    ensures var history := Run(Fresh(instanceId, clock), actions, ttl).history;
            !(Carries(history[i].envelope, bootId, s) && Carries(history[j].envelope, bootId, s))
  {
    FreshValid(instanceId, clock, ttl);
    RunValid(Fresh(instanceId, clock), actions, ttl);
    var history := Run(Fresh(instanceId, clock), actions, ttl).history;
    assert Apart(history[i].envelope, history[j].envelope);
  }

  /**
   Delivering an accepted report again never changes the tables: while its boot is current the answer is the
   original acknowledgement, and once the boot is fenced it is stale.
   */
  lemma {:induction false} Redelivery(w: World, ttl: int, i: nat, endpoint: Endpoint, clock: Time)
    requires WorldValid(w, ttl) && i < |w.history|
    requires Prepared(w.history[i].envelope, endpoint) && w.history[i].envelope.instanceId == w.tables.instanceId
    ensures var e := w.history[i].envelope;
            Ingest(w.tables, e, endpoint, clock, ttl) ==
              (w.tables,
               if w.tables.head.currentBootId == Some(e.bootId)
               then Acked(AckOf(w.tables.instanceId, e.bootId, LastSequence(e), w.history[i].at, w.history[i].at + ttl))
               else Refused(Problem(StaleBoot, None)))
  {
    var t := w.tables;
    var e := w.history[i].envelope;
    if t.head.currentBootId == Some(e.bootId) {
      RedeliveryToCurrent(w, ttl, i, endpoint);
      hide Classify, StoreValid, OnceEach, Commit;
    } else {
      FindBootCorrect(t.boots, e.bootId);
      assert InChain(t.boots, e.bootId);
      hide StoreValid, OnceEach, Commit;
    }
  }

  lemma {:induction false} RedeliveryToCurrent(w: World, ttl: int, i: nat, endpoint: Endpoint)
    requires WorldValid(w, ttl) && i < |w.history| && Prepared(w.history[i].envelope, endpoint)
    requires w.tables.head.currentBootId == Some(w.history[i].envelope.bootId)
    ensures var e := w.history[i].envelope;
            Classify(w.tables, e, endpoint)
              == Replay(AckOf(w.tables.instanceId, e.bootId, LastSequence(e), w.history[i].at, w.history[i].at + ttl))
  {
    hide Refines, FingerprintsValid, PresenceLinked;
    var t := w.tables;
    var e := w.history[i].envelope;
    assert i >= |w.history| - |t.receipts|;
    TailIsCurrent(t, w.history, ttl, i);
    var k := i - (|w.history| - |t.receipts|);
    var r := t.receipts[k];
    assert r.payload == w.history[|w.history| - |t.receipts| + k].envelope;
    assert ReceiptFits(r, t.boots[|t.boots| - 1]);
    LateBatch(t, w.history, ttl, e, endpoint);
    hide Classify, OnceEach, ChainValid;
    var ack := Classify(t, e, endpoint).ack;
    var j :| 0 <= j < |t.receipts| && t.receipts[j].payload == e && t.receipts[j].lastSequence >= 0
             && ack == AckFromReceipt(t.instanceId, t.receipts[j]);
    OnlyReceipt(t, j, k);
  }

  lemma {:induction false} OnlyReceipt(t: Tables, j: nat, k: nat)
    requires ReceiptsValid(t) && t.boots != [] && j < |t.receipts| && k < |t.receipts|
    requires t.receipts[j].payload == t.receipts[k].payload
    ensures j == k
  {
    var boot := t.boots[|t.boots| - 1];
    assert ReceiptFits(t.receipts[j], boot) && ReceiptFits(t.receipts[k], boot);
    assert forall i :: 0 <= i < |t.receipts| ==> ReceiptFits(t.receipts[i], boot);
    if j < k { TileApart(t.receipts, boot.nextSequence, j, k); }
    if k < j { TileApart(t.receipts, boot.nextSequence, k, j); }
  }

  /** Even when the database clock runs backwards, receive times do not: a report is dated no earlier than the last one. */
  lemma {:induction false} ReceiveTimesNeverFall(t: Tables, e: Envelope, endpoint: Endpoint, clock: Time, ttl: int)
    requires |e.events| > 0
    ensures var (next, outcome) := Ingest(t, e, endpoint, clock, ttl);
      next != t ==>
        && outcome.Acked? && next.head.lastServerReceivedAt == Some(outcome.ack.serverReceivedAt)
        && outcome.ack.serverReceivedAt >= clock
        && (t.head.lastServerReceivedAt.Some? ==> outcome.ack.serverReceivedAt >= t.head.lastServerReceivedAt.value)
        && (outcome.ack.serverReceivedAt == clock || Some(outcome.ack.serverReceivedAt) == t.head.lastServerReceivedAt)
        && outcome.ack.leaseExpiresAt == outcome.ack.serverReceivedAt + ttl
        && outcome.ack.instanceId == t.instanceId && outcome.ack.bootId == e.bootId && outcome.ack.acceptedThrough == LastSequence(e)
  {
    hide Classify, Record, StartBoot, StoreReceipt, AdvanceBoots, HasTransition;
  }

  /** The sequence that the current boot has to send next. */
  function NextFrom(history: seq<Entry>): nat
    requires history != [] && LastSequence(history[|history| - 1].envelope) >= -1
  {
    LastSequence(history[|history| - 1].envelope) + 1
  }

  /**
   A gap is reported exactly to a batch of the current boot that starts after the sequence following the last accepted
   one, which the answer names, or to a successor that does not start at 1.
   */
  lemma {:induction false} GapNamesTheNext(w: World, ttl: int, e: Envelope, endpoint: Endpoint)
    requires WorldValid(w, ttl) && Prepared(e, endpoint) && w.tables.head.currentBootId == Some(e.bootId)
    requires e.previousBootId == w.tables.boots[|w.tables.boots| - 1].previousBootId
    ensures w.history != [] && LastSequence(w.history[|w.history| - 1].envelope) >= 0
    ensures var next, v := NextFrom(w.history), Classify(w.tables, e, endpoint);
      && (v.Refuse? && v.problem.code.SequenceGap? <==> e.firstSequence > next)
      && (e.firstSequence > next ==> v.problem.expectedSequence == Some(next))
      && (v.Accept? <==> e.firstSequence == next)
      && (e.firstSequence < next ==> v.Replay? || (v.Refuse? && v.problem.code in {SequenceConflict, SequenceOverlap}
                                                   && (next <= MAX_SAFE_SEQUENCE ==> v.problem.expectedSequence == Some(next))))
  {
    TipIsLast(w, ttl);
    FindCurrent(w.tables);
    if IsLate(w.tables, e) { LateBatch(w.tables, w.history, ttl, e, endpoint); }
  }

  lemma {:induction false} TipIsLast(w: World, ttl: int)
    requires WorldValid(w, ttl) && w.tables.head.currentBootId.Some?
    ensures w.tables.boots != [] && w.history != []
    ensures w.tables.boots[|w.tables.boots| - 1].nextSequence == LastSequence(w.history[|w.history| - 1].envelope) + 1
    ensures LastSequence(w.history[|w.history| - 1].envelope) >= 0
  {
    var t, n := w.tables, |w.tables.receipts|;
    assert t.receipts[n - 1].payload == w.history[|w.history| - n + (n - 1)].envelope;
    assert ReceiptFits(t.receipts[n - 1], t.boots[|t.boots| - 1]);
  }

  // ---------------------------------------------------------------- sweeps are invisible

  function Deliveries(actions: seq<Action>): seq<Action> {
    if actions == [] then []
    else
      var rest := Deliveries(actions[..|actions| - 1]);
      if actions[|actions| - 1].Deliver? then rest + [actions[|actions| - 1]] else rest
  }

  /** Equal in everything that classification and the receive time read. */
  predicate SameRows(a: Tables, b: Tables) {
    && a.instanceId == b.instanceId && a.head == b.head && a.boots == b.boots && a.receipts == b.receipts
    && a.fingerprints == b.fingerprints && a.nextReceiptId == b.nextReceiptId
  }

  lemma {:induction false} DeliveriesMonotone(clock: Time, actions: seq<Action>)
    requires MonotoneFrom(clock, actions)
    ensures MonotoneFrom(clock, Deliveries(actions))
    ensures forall i :: 0 <= i < |Deliveries(actions)| ==> Deliveries(actions)[i] in actions
  {
    if actions != [] {
      DeliveriesMonotone(clock, actions[..|actions| - 1]);
    }
  }

  lemma {:induction false} CommitSameRows(a: Tables, b: Tables, e: Envelope, newBoot: bool, generation: nat, at: Time, ttl: int)
    requires |e.events| > 0 && SameRows(a, b)
    requires Commit(a, e, newBoot, generation, at, ttl).Some? && Commit(b, e, newBoot, generation, at, ttl).Some?
    ensures SameRows(Commit(a, e, newBoot, generation, at, ttl).value, Commit(b, e, newBoot, generation, at, ttl).value)
  {
    hide Record, ReceiptsOfOthers, CascadeFingerprints, NewFingerprints, FindBoot, FindReceipt, AnyFingerprint, HasTransition,
      FenceBoots, AdvanceBoots;
  }

  lemma {:induction false} SameVerdict(a: Tables, b: Tables, e: Envelope, endpoint: Endpoint)
    requires |e.events| > 0 && SameRows(a, b)
    ensures Classify(a, e, endpoint) == Classify(b, e, endpoint)
  {
    hide FindBoot, FindReceipt, AnyFingerprint, AnyDifference;
  }

  lemma {:induction false} SameRowsStep(a: World, b: World, d: Action, ttl: int)
    requires WorldValid(a, ttl) && WorldValid(b, ttl) && a.clock <= d.at && b.clock <= d.at
    requires SameRows(a.tables, b.tables) && a.history == b.history && d.Deliver?
    ensures SameRows(Step(a, d, ttl).tables, Step(b, d, ttl).tables)
    ensures Step(a, d, ttl).history == Step(b, d, ttl).history
  {
    if Prepared(d.envelope, d.endpoint) {
      hide Commit, Classify, StoreValid, OnceEach;
      var e := d.envelope;
      SameVerdict(a.tables, b.tables, e, d.endpoint);
      if Accepts(a.tables, e, d.endpoint) {
        var v := Classify(a.tables, e, d.endpoint);
        IngestIsCommit(a.tables, a.history, ttl, e, d.endpoint, d.at);
        IngestIsCommit(b.tables, b.history, ttl, e, d.endpoint, d.at);
        CommitSameRows(a.tables, b.tables, e, v.newBoot, v.generation, NextServerReceivedAt(d.at, a.tables.head), ttl);
      }
    }
  }

  lemma {:induction false} SweepKeepsRows(w: World, a: Action, ttl: int)
    requires a.SweepAt?
    ensures SameRows(Step(w, a, ttl).tables, w.tables) && Step(w, a, ttl).history == w.history
  {
  }

  lemma {:induction false} RunSnoc(start: World, actions: seq<Action>, a: Action, ttl: int)
    ensures Run(start, actions + [a], ttl) == Step(Run(start, actions, ttl), a, ttl)
    ensures Deliveries(actions + [a]) == if a.Deliver? then Deliveries(actions) + [a] else Deliveries(actions)
  {
    assert (actions + [a])[..|actions|] == actions;
  }

  lemma {:induction false} ErasedStep(w: World, u: World, a: Action, ttl: int)
    requires WorldValid(w, ttl) && WorldValid(u, ttl) && w.clock <= a.at && u.clock <= a.at
    requires SameRows(w.tables, u.tables) && w.history == u.history
    ensures var u' := if a.Deliver? then Step(u, a, ttl) else u;
            SameRows(Step(w, a, ttl).tables, u'.tables) && Step(w, a, ttl).history == u'.history
  {
    if a.Deliver? { SameRowsStep(w, u, a, ttl); } else { SweepKeepsRows(w, a, ttl); }
  }

  /** Leaving every sweep out of a run changes no accepted report and no row but the ledger's. */
  lemma {:induction false} SweepsErasable(start: World, actions: seq<Action>, ttl: int)
    requires WorldValid(start, ttl) && MonotoneFrom(start.clock, actions)
    ensures SameRows(Run(start, actions, ttl).tables, Run(start, Deliveries(actions), ttl).tables)
    ensures Run(start, actions, ttl).history == Run(start, Deliveries(actions), ttl).history
  {
    if actions != [] {
      hide *;
      var before, last := actions[..|actions| - 1], actions[|actions| - 1];
      LastIsLatest(start.clock, actions);
      SweepsErasable(start, before, ttl);
      ErasedRun(start, before, last, ttl);
      assert actions == before + [last];
    }
  }

  lemma {:induction false} ErasedRun(start: World, before: seq<Action>, last: Action, ttl: int)
    requires WorldValid(start, ttl) && MonotoneFrom(start.clock, before) && start.clock <= last.at
    requires before != [] ==> before[|before| - 1].at <= last.at
    requires Deliveries(before) != [] ==> Deliveries(before)[|Deliveries(before)| - 1].at <= last.at
    requires SameRows(Run(start, before, ttl).tables, Run(start, Deliveries(before), ttl).tables)
    requires Run(start, before, ttl).history == Run(start, Deliveries(before), ttl).history
    ensures SameRows(Run(start, before + [last], ttl).tables, Run(start, Deliveries(before + [last]), ttl).tables)
    ensures Run(start, before + [last], ttl).history == Run(start, Deliveries(before + [last]), ttl).history
  {
    hide *;
    DeliveriesMonotone(start.clock, before);
    RunValid(start, before, ttl);
    RunValid(start, Deliveries(before), ttl);
    ErasedStep(Run(start, before, ttl), Run(start, Deliveries(before), ttl), last, ttl);
    RunSnoc(start, before, last, ttl);
    RunSnoc(start, Deliveries(before), last, ttl);
  }

  lemma {:induction false} LastIsLatest(clock: Time, actions: seq<Action>)
    requires MonotoneFrom(clock, actions) && actions != []
    ensures var before := actions[..|actions| - 1];
            var last := actions[|actions| - 1];
      && MonotoneFrom(clock, before)
      && clock <= last.at
      && (before != [] ==> before[|before| - 1].at <= last.at)
      && (Deliveries(before) != [] ==> Deliveries(before)[|Deliveries(before)| - 1].at <= last.at)
  {
    var before := actions[..|actions| - 1];
    DeliveriesMonotone(clock, before);
    if Deliveries(before) != [] {
      var d := Deliveries(before)[|Deliveries(before)| - 1];
      assert d in before;
    }
  }

  /**
   The sweeper's timing is invisible in the ledger: a run and the same run without any sweep give every
   instant the same activity.
   */
  lemma {:induction false} SweeperTimingInvisible(start: World, actions: seq<Action>, ttl: int, t: Time, a: ActivityState)
    requires WorldValid(start, ttl) && MonotoneFrom(start.clock, actions)
    requires Run(start, actions, ttl).history != []
    ensures var swept := Run(start, actions, ttl).tables.ledger;
            var unswept := Run(start, Deliveries(actions), ttl).tables.ledger;
            swept.presence.Some? && unswept.presence.Some? && (LedgerSays(swept, t, a) <==> LedgerSays(unswept, t, a))
  {
    SweepsErasable(start, actions, ttl);
    DeliveriesMonotone(start.clock, actions);
    RunValid(start, actions, ttl);
    RunValid(start, Deliveries(actions), ttl);
    var w, u := Run(start, actions, ttl), Run(start, Deliveries(actions), ttl);
    LedgerIsTheLog(w.tables.ledger, Reports(w.history), ttl, t, a);
    LedgerIsTheLog(u.tables.ledger, Reports(u.history), ttl, t, a);
  }
}

/**
 One enrolled desktop, a network that loses, duplicates, delays and reorders, and the server. The desktop can
 crash between any two durable writes; every run starts from a completed enrollment.
 */
module Protocol {
  import opened Status
  import opened EdgeWire
  import opened IngestTables
  import opened StoreInvariant
  import opened ReportingRuns
  import opened ReporterSteps

  /** `created` and `used` record the past; no step reads them except to call an id fresh. */
  datatype System = System(
    disk: Disk,
    reporter: Option<Reporter>,
    requests: set<Envelope>,
    replies: set<(Envelope, Outcome)>,
    server: World,
    created: seq<Envelope>,
    used: set<Uuid>)

  datatype Move =
    | Start(freshBootId: Uuid)
    | Crash
    | CreateState(display: DisplayState, activity: ActivityState, petId: string, stamp: Stamp, writeOk: bool)
    | CreateHeartbeat(stamp: Stamp, writeOk: bool)
    | Send
    | LoseRequest(request: Envelope)
    | Serve(served: Envelope, at: Time)
    | TurnAway(turnedAway: Envelope, code: ProblemCode)
    | SweepLease(now: Time)
    | LoseReply(reply: (Envelope, Outcome))
    | Receive(ack: Ack, newBootId: Uuid, fault: Fault)

  /** Refusals that say the client and the server disagree about boots or sequences. */
  predicate Disagreement(code: ProblemCode) {
    code in {StaleBoot, SequenceGap, SequenceOverlap, SequenceConflict}
  }

  predicate Enabled(s: System, m: Move) {
    match m
    case Start(freshBootId) => s.reporter.None? && freshBootId !in s.used
    case Crash => s.reporter.Some?
    case CreateState(_, _, petId, _, _) => s.reporter.Some? && s.reporter.value.pending.None? && petId in SUPPORTED_PETS
    case CreateHeartbeat(_, _) => s.reporter.Some? && s.reporter.value.pending.None? && s.reporter.value.established
    case Send => s.reporter.Some? && s.reporter.value.pending.Some?
    case LoseRequest(_) => true
    case Serve(e, at) => e in s.requests && s.server.clock <= at
    case TurnAway(e, code) => e in s.requests && !Disagreement(code)
    case SweepLease(now) => s.server.clock <= now
    case LoseReply(_) => true
    case Receive(ack, newBootId, _) =>
      && s.reporter.Some? && s.reporter.value.pending.Some? && |s.reporter.value.pending.value.events| > 0
      && (s.reporter.value.pending.value, Acked(ack)) in s.replies && newBootId !in s.used
  }

  /** What the server answers: the schema and intrinsic checks first, then the ingest transaction. */
  function Answer(t: Tables, e: Envelope, at: Time, ttl: int): Outcome {
    if !Prepared(e, EndpointOf(e)) then Refused(Problem(InvalidRequest, None))
    else Ingest(t, e, EndpointOf(e), at, ttl).1
  }

  function Create(s: System, event: EdgeEvent, stamp: Stamp, writeOk: bool): System
    requires s.reporter.Some?
  {
    var (r, disk, created) := CreateStep(s.reporter.value, s.disk, event, stamp, writeOk);
    s.(reporter := Some(r), disk := disk, created := if created && r.pending.Some? then s.created + [r.pending.value] else s.created)
  }

  function Apply(s: System, m: Move, ttl: int): System
    requires Enabled(s, m)
  {
    match m
    case Start(freshBootId) => s.(reporter := LoadStep(s.disk, freshBootId), used := s.used + {freshBootId})
    case Crash => s.(reporter := None)
    case CreateState(display, activity, petId, stamp, writeOk) =>
      Create(s, StateEvent(s.reporter.value.nextSequence, display, activity, petId, stamp), stamp, writeOk)
    case CreateHeartbeat(stamp, writeOk) =>
      Create(s, Heartbeat(s.reporter.value.nextSequence, stamp.observedAt), stamp, writeOk)
    case Send => s.(requests := s.requests + {s.reporter.value.pending.value})
    case LoseRequest(e) => s.(requests := s.requests - {e})
    case Serve(e, at) =>
      s.(server := Step(s.server, Deliver(e, EndpointOf(e), at), ttl),
         replies := s.replies + {(e, Answer(s.server.tables, e, at, ttl))})
    case TurnAway(e, code) => s.(replies := s.replies + {(e, Refused(Problem(code, None)))})
    case SweepLease(now) => s.(server := Step(s.server, SweepAt(now), ttl))
    case LoseReply(reply) => s.(replies := s.replies - {reply})
    case Receive(ack, newBootId, fault) =>
      var (r, disk, _) := AckStep(s.reporter.value, s.disk, s.reporter.value.pending.value, ack, newBootId, fault);
      s.(reporter := Some(r), disk := disk, used := s.used + {newBootId})
  }

  // ---------------------------------------------------------------- the invariant

  function Envelopes(history: seq<Entry>): (r: seq<Envelope>)
    ensures |r| == |history|
  {
    seq(|history|, i requires 0 <= i < |history| => history[i].envelope)
  }

  /** The shape of everything the reporter creates. */
  predicate Shaped(e: Envelope, instanceId: Uuid) {
    && |e.events| == 1
    && e.events[0].sequence == e.firstSequence
    && 1 <= e.firstSequence <= MAX_EVENTS_PER_BOOT
    && e.instanceId == instanceId
    && PetsSupported(e)
  }

  /** The server awaits exactly this envelope: the next of its boot, or the first of its successor. */
  predicate FitsNext(t: Tables, e: Envelope) {
    || (t.boots != [] && t.head.currentBootId == Some(e.bootId)
        && e.previousBootId == t.boots[|t.boots| - 1].previousBootId
        && e.firstSequence == t.boots[|t.boots| - 1].nextSequence)
    || (!InChain(t.boots, e.bootId) && e.previousBootId == t.head.currentBootId
        && e.firstSequence == 1 && e.events != [] && e.events[0].StateTransition?)
  }

  /** A reporter with nothing pending stands where the server does. */
  predicate InStep(t: Tables, r: Reporter) {
    && (r.established ==>
          && t.boots != [] && t.head.currentBootId == Some(r.bootId)
          && r.previousBootId == t.boots[|t.boots| - 1].previousBootId
          && r.nextSequence == t.boots[|t.boots| - 1].nextSequence
          && 1 <= r.nextSequence <= MAX_EVENTS_PER_BOOT)
    && (!r.established ==>
          !InChain(t.boots, r.bootId) && r.previousBootId == t.head.currentBootId && r.nextSequence == 1)
  }

  predicate Enrolled(s: System) {
    && s.disk.config.Some?
    && s.disk.config.value.instanceId == s.server.tables.instanceId
    && (s.reporter.Some? ==>
          && SameConnection(s.reporter.value.config, s.disk.config.value)
          && s.reporter.value.pending == s.disk.outbox
          && s.reporter.value.bootId in s.used)
  }

  /** Everything created took effect in order, except possibly the envelope in the outbox. */
  predicate InOrder(s: System) {
    && (s.disk.outbox.None? ==> Envelopes(s.server.history) == s.created)
    && (s.disk.outbox.Some? ==>
          && s.created != [] && s.created[|s.created| - 1] == s.disk.outbox.value
          && (Envelopes(s.server.history) == s.created
              || (Envelopes(s.server.history) == s.created[..|s.created| - 1]
                  && FitsNext(s.server.tables, s.disk.outbox.value))))
  }

  predicate Standing(s: System) {
    && (s.disk.outbox.None? ==>
          && s.disk.config.Some? && s.disk.config.value.lastAcceptedBootId == s.server.tables.head.currentBootId
          && (s.reporter.Some? ==> InStep(s.server.tables, s.reporter.value)))
    && (s.disk.outbox.Some? && s.reporter.Some? ==>
          && s.reporter.value.bootId == s.disk.outbox.value.bootId
          && s.reporter.value.previousBootId == s.disk.outbox.value.previousBootId)
  }

  predicate Traffic(s: System) {
    && (forall i :: 0 <= i < |s.created| ==> Shaped(s.created[i], s.server.tables.instanceId) && s.created[i].bootId in s.used)
    && (forall i :: 0 <= i < |s.server.tables.boots| ==> s.server.tables.boots[i].bootId in s.used)
    && (forall e :: e in s.requests ==> e in s.created)
  }

  /** The acknowledgement the server gave when history entry i took effect. */
  predicate OriginalAck(w: World, e: Envelope, ack: Ack, ttl: int) {
    exists i :: 0 <= i < |w.history| && w.history[i].envelope == e && LastSequence(e) >= 0
      && ack == AckOf(w.tables.instanceId, e.bootId, LastSequence(e), w.history[i].at, w.history[i].at + ttl)
  }

  ghost predicate RepliesSound(s: System, ttl: int) {
    forall e, o :: (e, o) in s.replies ==>
      && e in s.created
      && (o.Acked? ==> OriginalAck(s.server, e, o.ack, ttl))
      && (o.Refused? && Disagreement(o.problem.code) ==> s.disk.outbox != Some(e))
  }

  ghost predicate SystemValid(s: System, ttl: int) {
    WorldValid(s.server, ttl) && Enrolled(s) && InOrder(s) && Standing(s) && Traffic(s) && RepliesSound(s, ttl)
  }

  // ---------------------------------------------------------------- facts about the tip

  /** The last accepted report is the tip of the current boot. */
  lemma {:induction false} LastIsTip(w: World, ttl: int)
    requires WorldValid(w, ttl) && w.history != []
    ensures var e := w.history[|w.history| - 1].envelope;
            var t := w.tables;
      && t.boots != [] && t.head.currentBootId == Some(e.bootId)
      && e.previousBootId == t.boots[|t.boots| - 1].previousBootId
      && LastSequence(e) + 1 == t.boots[|t.boots| - 1].nextSequence
  {
    var t := w.tables;
    assert t.boots != [] by { assert InChain(t.boots, w.history[|w.history| - 1].envelope.bootId); }
    var n := |t.receipts|;
    assert t.receipts[n - 1].payload == w.history[|w.history| - n + (n - 1)].envelope;
    assert ReceiptFits(t.receipts[n - 1], t.boots[|t.boots| - 1]);
  }

  /** What the server awaits was never accepted. */
  lemma {:induction false} FitsIsNew(w: World, ttl: int, e: Envelope, i: nat)
    requires WorldValid(w, ttl) && FitsNext(w.tables, e) && |e.events| > 0 && i < |w.history|
    ensures w.history[i].envelope != e
  {
    var t := w.tables;
    assert InChain(t.boots, w.history[i].envelope.bootId);
    if i >= |w.history| - |t.receipts| { TailIsCurrent(t, w.history, ttl, i); }
  }

  /** An awaited envelope is accepted, or refused for a reason that is not a disagreement. */
  lemma {:induction false} FitsIsAccepted(t: Tables, history: seq<Entry>, ttl: int, e: Envelope)
    requires StoreValid(t, history, ttl) && FitsNext(t, e) && Prepared(e, EndpointOf(e)) && e.instanceId == t.instanceId
    ensures Accepts(t, e, EndpointOf(e)) || Classify(t, e, EndpointOf(e)) == Refuse(Problem(ReportSemanticsInvalid, None))
  {
    FindBootCorrect(t.boots, e.bootId);
    if t.head.currentBootId == Some(e.bootId) {
      CurrentInChain(t, history, ttl);
      FindCurrent(t);
    } else if FindBoot(t.boots, e.bootId).Some? {
      assert InChain(t.boots, e.bootId);
    }
  }

  // ---------------------------------------------------------------- each move keeps the invariant

  lemma {:induction false} CreateValid(s: System, event: EdgeEvent, stamp: Stamp, writeOk: bool, ttl: int)
    requires SystemValid(s, ttl) && s.reporter.Some? && s.reporter.value.pending.None?
    requires event.sequence == s.reporter.value.nextSequence
    requires event.StateTransition? ==> event.petId in SUPPORTED_PETS
    requires event.Heartbeat? ==> s.reporter.value.established
    ensures SystemValid(Create(s, event, stamp, writeOk), ttl)
  {
    hide WorldValid;
    if writeOk {
      var e := Sign(s.reporter.value, event, stamp);
      var s' := Create(s, event, stamp, writeOk);
      assert s'.created == s.created + [e];
      assert FitsNext(s.server.tables, e);
      if e in s.created {
        var i :| 0 <= i < |s.created| && s.created[i] == e;
        assert Envelopes(s.server.history)[i] == s.server.history[i].envelope;
        FitsIsNew(s.server, ttl, e, i);
      }
      assert s'.created[..|s'.created| - 1] == s.created;
    }
  }

  lemma {:induction false} StartValid(s: System, freshBootId: Uuid, ttl: int)
    requires SystemValid(s, ttl) && Enabled(s, Start(freshBootId))
    ensures SystemValid(Apply(s, Start(freshBootId), ttl), ttl)
  {
    hide WorldValid;
    assert !InChain(s.server.tables.boots, freshBootId);
    if s.disk.outbox.Some? { assert s.created[|s.created| - 1] == s.disk.outbox.value; }
  }

  /** An answer that changes no row. */
  lemma {:induction false} AnswerKeeps(s: System, e: Envelope, o: Outcome, at: Time, ttl: int)
    requires SystemValid(s, ttl) && e in s.created && WorldValid(s.server.(clock := at), ttl)
    requires o.Acked? ==> OriginalAck(s.server, e, o.ack, ttl)
    requires o.Refused? && Disagreement(o.problem.code) ==> s.disk.outbox != Some(e)
    ensures SystemValid(s.(server := s.server.(clock := at), replies := s.replies + {(e, o)}), ttl)
  {
    hide WorldValid;
    var s' := s.(server := s.server.(clock := at), replies := s.replies + {(e, o)});
    forall e', o' | (e', o') in s'.replies
      ensures e' in s'.created
      ensures o'.Acked? ==> OriginalAck(s'.server, e', o'.ack, ttl)
      ensures o'.Refused? && Disagreement(o'.problem.code) ==> s'.disk.outbox != Some(e')
    {
      if (e', o') in s.replies {
        if o'.Acked? { assert OriginalAck(s.server, e', o'.ack, ttl); }
      }
      assert o'.Acked? ==> OriginalAck(s.server, e', o'.ack, ttl);
    }
  }

  /** What a server that is not about to accept e does with it: nothing but answer. */
  lemma {:induction false} ServeIsAnswer(s: System, e: Envelope, at: Time, ttl: int)
    requires SystemValid(s, ttl) && Enabled(s, Serve(e, at))
    requires Prepared(e, EndpointOf(e)) ==> !Accepts(s.server.tables, e, EndpointOf(e))
    ensures Apply(s, Serve(e, at), ttl)
      == s.(server := s.server.(clock := at), replies := s.replies + {(e, Answer(s.server.tables, e, at, ttl))})
    ensures WorldValid(s.server.(clock := at), ttl)
  {
    if Prepared(e, EndpointOf(e)) { IngestRefuses(s.server.tables, s.server.history, ttl, e, EndpointOf(e), at); }
    StepValid(s.server, SweepAt(at), ttl);
    hide Ingest, StoreValid, Classify, Accepts;
  }

  /** Serving an envelope that already took effect answers with the original acknowledgement or a stale boot. */
  lemma {:induction false} ServeAccepted(s: System, e: Envelope, at: Time, ttl: int)
    requires SystemValid(s, ttl) && Enabled(s, Serve(e, at))
    requires e in Envelopes(s.server.history)
    ensures SystemValid(Apply(s, Serve(e, at), ttl), ttl)
  {
    hide WorldValid, Ingest, Accepts, InOrder, Standing, RepliesSound;
    var history := s.server.history;
    var i :| 0 <= i < |history| && history[i].envelope == e;
    var k :| 0 <= k < |s.created| && s.created[k] == e;
    assert Shaped(e, s.server.tables.instanceId);
    if Prepared(e, EndpointOf(e)) {
      Redelivery(s.server, ttl, i, EndpointOf(e), at);
      RedeliveredIsNotAccepted(s.server, ttl, i, EndpointOf(e));
      if s.disk.outbox == Some(e) { LiveIsTip(s, i, ttl); }
    }
    ServeIsAnswer(s, e, at, ttl);
    AnswerKeeps(s, e, Answer(s.server.tables, e, at, ttl), at, ttl);
  }

  lemma {:induction false} RedeliveredIsNotAccepted(w: World, ttl: int, i: nat, endpoint: Endpoint)
    requires WorldValid(w, ttl) && i < |w.history| && Prepared(w.history[i].envelope, endpoint)
    ensures !Accepts(w.tables, w.history[i].envelope, endpoint)
  {
    var e := w.history[i].envelope;
    if Accepts(w.tables, e, endpoint) { AcceptedIsApart(w.tables, w.history, ttl, e, endpoint, i); }
  }

  /** If the live envelope took effect, it is the last that did, and its boot is current. */
  lemma {:induction false} LiveIsTip(s: System, i: nat, ttl: int)
    requires SystemValid(s, ttl) && s.disk.outbox.Some? && i < |s.server.history|
    requires s.server.history[i].envelope == s.disk.outbox.value
    ensures Envelopes(s.server.history) == s.created
    ensures var e := s.disk.outbox.value;
            var t := s.server.tables;
      && t.boots != [] && t.head.currentBootId == Some(e.bootId)
      && e.previousBootId == t.boots[|t.boots| - 1].previousBootId
      && LastSequence(e) + 1 == t.boots[|t.boots| - 1].nextSequence
  {
    hide WorldValid;
    assert s.created[|s.created| - 1] == s.disk.outbox.value;
    assert Shaped(s.disk.outbox.value, s.server.tables.instanceId);
    if Envelopes(s.server.history) != s.created { FitsIsNew(s.server, ttl, s.disk.outbox.value, i); }
    assert Envelopes(s.server.history)[|s.created| - 1] == s.created[|s.created| - 1];
    LastIsTip(s.server, ttl);
  }

  /** Serving the awaited envelope makes it take effect, or refuses it without a disagreement. */
  lemma {:induction false} ServeLive(s: System, e: Envelope, at: Time, ttl: int)
    requires SystemValid(s, ttl) && Enabled(s, Serve(e, at))
    requires e !in Envelopes(s.server.history)
    ensures SystemValid(Apply(s, Serve(e, at), ttl), ttl)
  {
    var k :| 0 <= k < |s.created| && s.created[k] == e;
    assert Shaped(e, s.server.tables.instanceId);
    UnservedIsLive(s, k);
    if Prepared(e, EndpointOf(e)) && Accepts(s.server.tables, e, EndpointOf(e)) {
      ServeAccepts(s, e, at, ttl);
      EffectKeeps(s, e, at, ttl);
    } else {
      if Prepared(e, EndpointOf(e)) {
        FitsIsAccepted(s.server.tables, s.server.history, ttl, e);
        RefusalAnswer(s.server.tables, e, at, ttl);
      }
      hide WorldValid, Ingest, Accepts, Classify, InOrder, Standing, RepliesSound;
      ServeIsAnswer(s, e, at, ttl);
      AnswerKeeps(s, e, Answer(s.server.tables, e, at, ttl), at, ttl);
    }
  }

  lemma {:induction false} RefusalAnswer(t: Tables, e: Envelope, at: Time, ttl: int)
    requires Prepared(e, EndpointOf(e)) && e.instanceId == t.instanceId
    requires Classify(t, e, EndpointOf(e)) == Refuse(Problem(ReportSemanticsInvalid, None))
    ensures Answer(t, e, at, ttl) == Refused(Problem(ReportSemanticsInvalid, None))
  {
    hide Classify, Commit;
  }

  lemma {:induction false} UnservedIsLive(s: System, k: nat)
    requires InOrder(s) && k < |s.created| && s.created[k] !in Envelopes(s.server.history)
    ensures s.disk.outbox == Some(s.created[k]) && FitsNext(s.server.tables, s.created[k])
    ensures Envelopes(s.server.history) == s.created[..|s.created| - 1]
  {
    assert s.created[k] in s.created;
    var before := s.created[..|s.created| - 1];
    assert forall j :: 0 <= j < |before| ==> before[j] == s.created[j];
  }

  /** What taking effect leaves: the history is exactly what was created, and the answer is its acknowledgement. */
  ghost predicate TookEffect(s: System, w: World, e: Envelope, o: Outcome, ttl: int) {
    && Envelopes(w.history) == s.created
    && w.tables.instanceId == s.server.tables.instanceId
    && (forall i :: 0 <= i < |w.tables.boots| ==> w.tables.boots[i].bootId in s.used)
    && o.Acked? && OriginalAck(w, e, o.ack, ttl)
    && (forall i :: 0 <= i < |s.server.history| ==> i < |w.history| && w.history[i] == s.server.history[i])
  }

  lemma {:induction false} ServeAccepts(s: System, e: Envelope, at: Time, ttl: int)
    requires SystemValid(s, ttl) && Enabled(s, Serve(e, at)) && s.disk.outbox == Some(e)
    requires Envelopes(s.server.history) == s.created[..|s.created| - 1]
    requires Prepared(e, EndpointOf(e)) && Accepts(s.server.tables, e, EndpointOf(e))
    ensures WorldValid(Step(s.server, Deliver(e, EndpointOf(e), at), ttl), ttl)
    ensures TookEffect(s, Step(s.server, Deliver(e, EndpointOf(e), at), ttl), e, Answer(s.server.tables, e, at, ttl), ttl)
  {
    hide Ingest, Commit, Classify, StoreValid, OnceEach, Standing, RepliesSound;
    var t := s.server.tables;
    var endpoint := EndpointOf(e);
    StepValid(s.server, Deliver(e, endpoint, at), ttl);
    IngestAccepts(t, s.server.history, ttl, e, endpoint, at);
    IngestIsCommit(t, s.server.history, ttl, e, endpoint, at);
    var v := Classify(t, e, endpoint);
    CommitBootIds(t, e, v.newBoot, v.generation, NextServerReceivedAt(at, t.head), ttl);
    hide WorldValid;
    var w := Step(s.server, Deliver(e, endpoint, at), ttl);
    AcceptedBoot(t, e, endpoint);
    assert Envelopes(w.history) == Envelopes(s.server.history) + [e];
    assert w.history[|s.server.history|].envelope == e;
    assert s.created[|s.created| - 1] == e;
    BootsUsed(s, w.tables, e, v.newBoot);
  }

  lemma {:induction false} BootsUsed(s: System, next: Tables, e: Envelope, newBoot: bool)
    requires Traffic(s) && e.bootId in s.used
    requires |next.boots| == |s.server.tables.boots| + (if newBoot then 1 else 0)
    requires forall i :: 0 <= i < |s.server.tables.boots| ==> next.boots[i].bootId == s.server.tables.boots[i].bootId
    requires newBoot ==> next.boots[|s.server.tables.boots|].bootId == e.bootId
    ensures forall i :: 0 <= i < |next.boots| ==> next.boots[i].bootId in s.used
  {
  }

  lemma {:induction false} EffectKeeps(s: System, e: Envelope, at: Time, ttl: int)
    requires SystemValid(s, ttl) && Enabled(s, Serve(e, at)) && s.disk.outbox == Some(e)
    requires WorldValid(Step(s.server, Deliver(e, EndpointOf(e), at), ttl), ttl)
    requires TookEffect(s, Step(s.server, Deliver(e, EndpointOf(e), at), ttl), e, Answer(s.server.tables, e, at, ttl), ttl)
    ensures SystemValid(Apply(s, Serve(e, at), ttl), ttl)
  {
    hide Step, Answer, WorldValid;
    var s' := Apply(s, Serve(e, at), ttl);
    forall e', o' | (e', o') in s'.replies
      ensures e' in s'.created
      ensures o'.Acked? ==> OriginalAck(s'.server, e', o'.ack, ttl)
      ensures o'.Refused? && Disagreement(o'.problem.code) ==> s'.disk.outbox != Some(e')
    {
      if (e', o') in s.replies && o'.Acked? {
        assert OriginalAck(s.server, e', o'.ack, ttl);
        var i :| 0 <= i < |s.server.history| && s.server.history[i].envelope == e' && LastSequence(e') >= 0
          && o'.ack == AckOf(s.server.tables.instanceId, e'.bootId, LastSequence(e'), s.server.history[i].at, s.server.history[i].at + ttl);
        assert s'.server.history[i] == s.server.history[i];
      }
    }
  }

  /** A received acknowledgement is that of the live envelope, always matches, and leaves the reporter in step. */
  lemma {:induction false} ReceiveValid(s: System, ack: Ack, newBootId: Uuid, fault: Fault, ttl: int)
    requires SystemValid(s, ttl) && Enabled(s, Receive(ack, newBootId, fault))
    ensures AckMatches(s.reporter.value, s.reporter.value.pending.value, ack)
    ensures SystemValid(Apply(s, Receive(ack, newBootId, fault), ttl), ttl)
  {
    hide WorldValid, Answer, Step, Create;
    var r := s.reporter.value;
    var e := r.pending.value;
    assert OriginalAck(s.server, e, ack, ttl);
    var i :| 0 <= i < |s.server.history| && s.server.history[i].envelope == e && LastSequence(e) >= 0
      && ack == AckOf(s.server.tables.instanceId, e.bootId, LastSequence(e), s.server.history[i].at, s.server.history[i].at + ttl);
    LiveIsTip(s, i, ttl);
    assert s.created[|s.created| - 1] == e;
    assert Shaped(e, s.server.tables.instanceId);
    assert AckMatches(r, e, ack);
    assert !InChain(s.server.tables.boots, newBootId);
  }

  lemma {:induction false} MoveValid(s: System, m: Move, ttl: int)
    requires SystemValid(s, ttl) && Enabled(s, m)
    ensures SystemValid(Apply(s, m, ttl), ttl)
  {
    match m
    case Start(freshBootId) => StartValid(s, freshBootId, ttl);
    case CreateState(display, activity, petId, stamp, writeOk) =>
      CreateValid(s, StateEvent(s.reporter.value.nextSequence, display, activity, petId, stamp), stamp, writeOk, ttl);
    case CreateHeartbeat(stamp, writeOk) =>
      CreateValid(s, Heartbeat(s.reporter.value.nextSequence, stamp.observedAt), stamp, writeOk, ttl);
    case Serve(e, at) =>
      if e in Envelopes(s.server.history) { ServeAccepted(s, e, at, ttl); } else { ServeLive(s, e, at, ttl); }
    case Receive(ack, newBootId, fault) => ReceiveValid(s, ack, newBootId, fault, ttl);
    case SweepLease(now) =>
      SweepSystem(s, now, ttl);
    case TurnAway(e, code) =>
      AnswerKeeps(s, e, Refused(Problem(code, None)), s.server.clock, ttl);
    case Crash => hide WorldValid;
    case Send => SendValid(s, ttl);
    case LoseRequest(_) => hide WorldValid;
    case LoseReply(_) => hide WorldValid;
  }

  lemma {:induction false} SendValid(s: System, ttl: int)
    requires SystemValid(s, ttl) && Enabled(s, Send)
    ensures SystemValid(Apply(s, Send, ttl), ttl)
  {
    hide WorldValid;
    assert s.created[|s.created| - 1] == s.reporter.value.pending.value;
  }

  lemma {:induction false} SweepSystem(s: System, now: Time, ttl: int)
    requires SystemValid(s, ttl) && Enabled(s, SweepLease(now))
    ensures SystemValid(Apply(s, SweepLease(now), ttl), ttl)
  {
    hide Step, WorldValid, SameRows, Enrolled, InOrder, Standing, Traffic, RepliesSound;
    StepValid(s.server, SweepAt(now), ttl);
    SweepKeepsRows(s.server, SweepAt(now), ttl);
    SameRowsKeep(s, Apply(s, SweepLease(now), ttl), ttl);
  }

  /** Whatever leaves the rows, the history and the client alone leaves the client's standing alone. */
  lemma {:induction false} SameRowsKeep(s: System, s': System, ttl: int)
    requires Enrolled(s) && InOrder(s) && Standing(s) && Traffic(s) && RepliesSound(s, ttl)
    requires SameRows(s'.server.tables, s.server.tables) && s'.server.history == s.server.history
    requires s' == s.(server := s'.server)
    ensures Enrolled(s') && InOrder(s') && Standing(s') && Traffic(s') && RepliesSound(s', ttl)
  {
    forall e, o | (e, o) in s'.replies && o.Acked? ensures OriginalAck(s'.server, e, o.ack, ttl) {
      assert OriginalAck(s.server, e, o.ack, ttl);
    }
  }

  // ---------------------------------------------------------------- every run

  predicate Legal(s: System, moves: seq<Move>, ttl: int)
    decreases |moves|
  {
    moves == [] || (Enabled(s, moves[0]) && Legal(Apply(s, moves[0], ttl), moves[1..], ttl))
  }

  function Execute(s: System, moves: seq<Move>, ttl: int): System
    requires Legal(s, moves, ttl)
    decreases |moves|
  {
    if moves == [] then s else Execute(Apply(s, moves[0], ttl), moves[1..], ttl)
  }

  /** Right after enrollment: nothing accepted, nothing pending, nothing in flight. */
  predicate JustEnrolled(s: System) {
    && s.disk.config.Some? && s.disk.config.value.lastAcceptedBootId.None? && s.disk.outbox.None?
    && s.reporter.None? && s.requests == {} && s.replies == {} && s.created == [] && s.used == {}
    && s.server == Fresh(s.disk.config.value.instanceId, s.server.clock)
  }

  lemma {:induction false} RunFrom(s: System, moves: seq<Move>, ttl: int)
    requires SystemValid(s, ttl) && Legal(s, moves, ttl)
    ensures SystemValid(Execute(s, moves, ttl), ttl)
    decreases |moves|
  {
    hide SystemValid, Apply, Enabled;
    if moves != [] {
      MoveValid(s, moves[0], ttl);
      RunFrom(Apply(s, moves[0], ttl), moves[1..], ttl);
    }
  }

  lemma {:induction false} EveryRun(s: System, moves: seq<Move>, ttl: int)
    requires JustEnrolled(s) && Legal(s, moves, ttl) && ttl > 0
    ensures SystemValid(Execute(s, moves, ttl), ttl)
  {
    FreshValid(s.disk.config.value.instanceId, s.server.clock, ttl);
    RunFrom(s, moves, ttl);
  }

  /**
   In every run each created envelope takes effect on the server at most once and in creation order: what took
   effect is everything created, or everything but the one still in the outbox.
   */
  lemma {:induction false} EffectsInCreationOrder(s: System, moves: seq<Move>, ttl: int)
    requires JustEnrolled(s) && Legal(s, moves, ttl) && ttl > 0
    ensures var end := Execute(s, moves, ttl);
            var effects := Envelopes(end.server.history);
      && (effects == end.created
          || (end.disk.outbox.Some? && effects + [end.disk.outbox.value] == end.created))
      && (forall i, j | 0 <= i < j < |effects| :: effects[i] != effects[j])
      && (forall i | 0 <= i < |end.created| :: 1 <= end.created[i].firstSequence <= MAX_EVENTS_PER_BOOT)
  {
    EveryRun(s, moves, ttl);
    hide Execute, Legal, StoreValid, RepliesSound, Standing;
    var end := Execute(s, moves, ttl);
    var effects := Envelopes(end.server.history);
    forall i, j | 0 <= i < j < |effects| ensures effects[i] != effects[j] {
      assert Apart(end.server.history[i].envelope, end.server.history[j].envelope);
      assert effects[i] == end.created[i];
      assert Shaped(end.created[i], end.server.tables.instanceId);
    }
    forall i | 0 <= i < |end.created| ensures 1 <= end.created[i].firstSequence <= MAX_EVENTS_PER_BOOT {
      assert Shaped(end.created[i], end.server.tables.instanceId);
    }
  }

  /** The only ways the live envelope can fail to be acknowledged when the server gets it. */
  predicate CannotBeAccepted(t: Tables, e: Envelope) {
    !Prepared(e, EndpointOf(e)) || t.head.currentGeneration >= MAX_SAFE_SEQUENCE
  }

  /**
   In every run, whenever the live envelope reaches the server, however late and however often, it is acknowledged
   unless the schema or the generation range forbids it; no answer in flight about it is ever a disagreement.
   */
  lemma {:induction false} LiveEnvelopeIsNeverRefused(s: System, moves: seq<Move>, ttl: int, e: Envelope, at: Time)
    requires JustEnrolled(s) && Legal(s, moves, ttl) && ttl > 0
    requires Execute(s, moves, ttl).disk.outbox == Some(e) && Execute(s, moves, ttl).server.clock <= at
    ensures var end := Execute(s, moves, ttl);
      && (Answer(end.server.tables, e, at, ttl).Refused? ==>
            CannotBeAccepted(end.server.tables, e) && !Disagreement(Answer(end.server.tables, e, at, ttl).problem.code))
      && (forall o :: (e, o) in end.replies && o.Refused? ==> !Disagreement(o.problem.code))
  {
    EveryRun(s, moves, ttl);
    hide Execute, Legal;
    LiveAnswer(Execute(s, moves, ttl), e, at, ttl);
  }

  lemma {:induction false} LiveAnswer(s: System, e: Envelope, at: Time, ttl: int)
    requires SystemValid(s, ttl) && s.disk.outbox == Some(e) && s.server.clock <= at
    ensures Answer(s.server.tables, e, at, ttl).Refused? ==>
              CannotBeAccepted(s.server.tables, e) && !Disagreement(Answer(s.server.tables, e, at, ttl).problem.code)
  {
    var t := s.server.tables;
    assert s.created[|s.created| - 1] == e;
    assert Shaped(e, t.instanceId);
    if Prepared(e, EndpointOf(e)) {
      if e in Envelopes(s.server.history) {
        var i :| 0 <= i < |s.server.history| && s.server.history[i].envelope == e;
        LiveIsTip(s, i, ttl);
        Redelivery(s.server, ttl, i, EndpointOf(e), at);
      } else {
        UnservedIsLive(s, |s.created| - 1);
        LiveVerdict(s.server, e, at, ttl);
      }
    }
  }

  lemma {:induction false} LiveVerdict(w: World, e: Envelope, at: Time, ttl: int)
    requires WorldValid(w, ttl) && FitsNext(w.tables, e) && Prepared(e, EndpointOf(e)) && e.instanceId == w.tables.instanceId
    requires w.clock <= at
    ensures Answer(w.tables, e, at, ttl).Refused? ==>
              CannotBeAccepted(w.tables, e) && !Disagreement(Answer(w.tables, e, at, ttl).problem.code)
  {
    var t := w.tables;
    FitsIsAccepted(t, w.history, ttl, e);
    if Accepts(t, e, EndpointOf(e)) {
      AcceptedAnswer(w, e, at, ttl);
    } else {
      RefusalAnswer(t, e, at, ttl);
      SemanticRefusal(w, e, ttl);
    }
  }

  lemma {:induction false} AcceptedAnswer(w: World, e: Envelope, at: Time, ttl: int)
    requires WorldValid(w, ttl) && Prepared(e, EndpointOf(e)) && Accepts(w.tables, e, EndpointOf(e))
    requires w.clock <= at
    ensures Answer(w.tables, e, at, ttl).Acked?
  {
    hide Ingest, Commit, Classify, StoreValid, Accepts, CommittedAs;
    IngestAccepts(w.tables, w.history, ttl, e, EndpointOf(e), at);
  }

  lemma {:induction false} SemanticRefusal(w: World, e: Envelope, ttl: int)
    requires WorldValid(w, ttl) && FitsNext(w.tables, e) && Prepared(e, EndpointOf(e))
    requires Classify(w.tables, e, EndpointOf(e)) == Refuse(Problem(ReportSemanticsInvalid, None))
    ensures w.tables.head.currentGeneration >= MAX_SAFE_SEQUENCE
  {
    if w.tables.head.currentBootId == Some(e.bootId) {
      CurrentInChain(w.tables, w.history, ttl);
      FindCurrent(w.tables);
    }
  }

  /** In every run an acknowledgement that reaches the reporter matches its pending envelope and its connection. */
  lemma {:induction false} AcknowledgementsMatch(s: System, moves: seq<Move>, ttl: int, ack: Ack, newBootId: Uuid, fault: Fault)
    requires JustEnrolled(s) && Legal(s, moves, ttl) && ttl > 0
    requires Enabled(Execute(s, moves, ttl), Receive(ack, newBootId, fault))
    ensures var end := Execute(s, moves, ttl);
            var (_, _, result) := AckStep(end.reporter.value, end.disk, end.reporter.value.pending.value, ack, newBootId, fault);
            !result.AckInvalid? && !result.ConnectionSuperseded?
  {
    hide Execute, Legal, SystemValid, JustEnrolled, Rotate;
    EveryRun(s, moves, ttl);
    var end := Execute(s, moves, ttl);
    ClientFacts(end, ttl);
    ReceiveValid(end, ack, newBootId, fault, ttl);
    hide Apply, AckMatches;
  }

  // ---------------------------------------------------------------- states the server's schema does not list

  predicate HistoryAllowed(w: World) {
    forall i :: 0 <= i < |w.history| ==> PairsAllowed(w.history[i].envelope)
  }

  lemma {:induction false} MoveAllowed(s: System, m: Move, ttl: int)
    requires HistoryAllowed(s.server) && Enabled(s, m)
    ensures HistoryAllowed(Apply(s, m, ttl).server)
  {
    hide Ingest, Accepts;
  }

  lemma {:induction false} RunAllowed(s: System, moves: seq<Move>, ttl: int)
    requires HistoryAllowed(s.server) && Legal(s, moves, ttl)
    ensures HistoryAllowed(Execute(s, moves, ttl).server)
    decreases |moves|
  {
    hide Apply, Enabled, HistoryAllowed;
    if moves != [] {
      MoveAllowed(s, moves[0], ttl);
      RunAllowed(Apply(s, moves[0], ttl), moves[1..], ttl);
    }
  }

  /** Neither the outbox nor what was created nor what took effect has changed. */
  predicate Unmoved(s: System, s': System) {
    s'.disk.outbox == s.disk.outbox && s'.created == s.created && s'.server.history == s.server.history
  }

  ghost predicate Stuck(s: System, ttl: int) {
    SystemValid(s, ttl) && HistoryAllowed(s.server) && s.disk.outbox.Some? && !PairsAllowed(s.disk.outbox.value)
  }

  lemma {:induction false} StuckMove(s: System, m: Move, ttl: int)
    requires Stuck(s, ttl) && Enabled(s, m)
    ensures Stuck(Apply(s, m, ttl), ttl) && Unmoved(s, Apply(s, m, ttl))
  {
    hide WorldValid, SystemValid;
    MoveAllowed(s, m, ttl);
    MoveValid(s, m, ttl);
    StuckUnmoved(s, m, ttl);
  }

  lemma {:induction false} OnlyAllowedAcked(s: System, e: Envelope, ttl: int)
    requires RepliesSound(s, ttl) && HistoryAllowed(s.server)
    ensures forall o :: (e, o) in s.replies && o.Acked? ==> PairsAllowed(e)
  {
    hide PairsAllowed;
    forall o | (e, o) in s.replies && o.Acked? ensures PairsAllowed(e) {
      assert OriginalAck(s.server, e, o.ack, ttl);
    }
  }

  lemma {:induction false} StuckUnmoved(s: System, m: Move, ttl: int)
    requires Stuck(s, ttl) && Enabled(s, m)
    ensures Unmoved(s, Apply(s, m, ttl))
  {
    hide WorldValid, Ingest, Accepts, Standing;
    var e := s.disk.outbox.value;
    OnlyAllowedAcked(s, e, ttl);
    if m.Serve? {
      if m.served != e && m.served !in Envelopes(s.server.history) {
        var k :| 0 <= k < |s.created| && s.created[k] == m.served;
        UnservedIsLive(s, k);
      } else if m.served in Envelopes(s.server.history) {
        var i :| 0 <= i < |s.server.history| && s.server.history[i].envelope == m.served;
        if Prepared(m.served, EndpointOf(m.served)) {
          RedeliveredIsNotAccepted(s.server, ttl, i, EndpointOf(m.served));
        }
      }
    }
  }

  /** Whatever happens, an envelope whose display and activity the schema does not list stays in the outbox. */
  lemma {:induction false} StuckForever(s: System, moves: seq<Move>, ttl: int)
    requires Stuck(s, ttl) && Legal(s, moves, ttl)
    ensures Unmoved(s, Execute(s, moves, ttl))
    decreases |moves|
  {
    hide Stuck, Apply, Enabled;
    if moves != [] {
      StuckMove(s, moves[0], ttl);
      StuckForever(Apply(s, moves[0], ttl), moves[1..], ttl);
    }
  }

  /** The server acknowledges what is in the outbox exactly when its pairs are listed and a boot may still begin. */
  lemma {:induction false} ListedIsAcknowledged(s: System, e: Envelope, at: Time, ttl: int)
    requires SystemValid(s, ttl) && s.disk.outbox == Some(e) && s.server.clock <= at
    requires s.server.tables.head.currentGeneration < MAX_SAFE_SEQUENCE
    ensures Answer(s.server.tables, e, at, ttl).Acked? <==> PairsAllowed(e)
  {
    LiveAnswer(s, e, at, ttl);
    assert s.created[|s.created| - 1] == e;
    assert Shaped(e, s.server.tables.instanceId);
    hide SystemValid, Ingest;
  }

  // ---------------------------------------------------------------- recovery

  lemma {:induction false} FirstMove(s: System, m: Move, rest: seq<Move>, ttl: int)
    requires Enabled(s, m) && Legal(Apply(s, m, ttl), rest, ttl)
    ensures Legal(s, [m] + rest, ttl) && Execute(s, [m] + rest, ttl) == Execute(Apply(s, m, ttl), rest, ttl)
  {
    assert ([m] + rest)[1..] == rest;
  }

  /** What the client's own state tells, without the server's. */
  lemma {:induction false} ClientFacts(s: System, ttl: int)
    requires SystemValid(s, ttl)
    ensures s.disk.config.Some?
    ensures s.reporter.Some? ==>
      SameConnection(s.reporter.value.config, s.disk.config.value) && s.reporter.value.pending == s.disk.outbox
    ensures s.disk.outbox.Some? ==>
      s.created != [] && s.created[|s.created| - 1] == s.disk.outbox.value && |s.disk.outbox.value.events| == 1
    ensures s.disk.outbox.None? ==> Envelopes(s.server.history) == s.created
  {
    hide WorldValid;
    if s.disk.outbox.Some? { assert Shaped(s.created[|s.created| - 1], s.server.tables.instanceId); }
  }

  /** The desktop stops and starts again while both messages about e are lost. */
  function Loses(s: System, e: Envelope, o: Outcome, freshBootId: Uuid): seq<Move> {
    (if s.reporter.Some? then [Crash] else []) + [Start(freshBootId)] + [LoseRequest(e)] + [LoseReply((e, o))]
  }

  lemma {:induction false} LosesAll(s: System, e: Envelope, o: Outcome, freshBootId: Uuid, ttl: int)
    requires SystemValid(s, ttl) && s.disk.outbox == Some(e) && freshBootId !in s.used
    ensures Legal(s, Loses(s, e, o, freshBootId), ttl)
    ensures var lost := Execute(s, Loses(s, e, o, freshBootId), ttl);
      && SystemValid(lost, ttl)
      && e !in lost.requests && (e, o) !in lost.replies
      && lost.reporter.Some? && lost.reporter.value.pending == Some(e)
      && lost.disk == s.disk && lost.server == s.server && lost.created == s.created
      && lost.used == s.used + {freshBootId}
  {
    hide SystemValid;
    ClientFacts(s, ttl);
    var stopped := if s.reporter.Some? then Apply(s, Crash, ttl) else s;
    var started := Apply(stopped, Start(freshBootId), ttl);
    var unsent := Apply(started, LoseRequest(e), ttl);
    var lost := Apply(unsent, LoseReply((e, o)), ttl);
    assert Legal(lost, [], ttl);
    FirstMove(unsent, LoseReply((e, o)), [], ttl);
    FirstMove(started, LoseRequest(e), [LoseReply((e, o))], ttl);
    FirstMove(stopped, Start(freshBootId), [LoseRequest(e), LoseReply((e, o))], ttl);
    var moves := [Start(freshBootId), LoseRequest(e), LoseReply((e, o))];
    if s.reporter.Some? {
      FirstMove(s, Crash, moves, ttl);
      assert Loses(s, e, o, freshBootId) == [Crash] + moves;
    } else {
      assert Loses(s, e, o, freshBootId) == moves;
    }
    RunFrom(s, Loses(s, e, o, freshBootId), ttl);
  }

  /** One undisturbed exchange. */
  function Exchanged(e: Envelope, at: Time, o: Outcome, newBootId: Uuid): seq<Move>
    requires o.Acked?
  {
    [Send] + [Serve(e, at)] + [Receive(o.ack, newBootId, NoFault)]
  }

  lemma {:induction false} NoMoves(s: System, ttl: int)
    ensures Legal(s, [], ttl) && Execute(s, [], ttl) == s
  {
  }

  lemma {:induction false} Sent(s: System, e: Envelope, at: Time, ttl: int)
    requires s.reporter.Some? && s.reporter.value.pending == Some(e) && s.server.clock <= at
    ensures Enabled(s, Send)
    ensures var sent := Apply(s, Send, ttl);
      && Enabled(sent, Serve(e, at))
      && var served := Apply(sent, Serve(e, at), ttl);
         && served.reporter == s.reporter && served.disk == s.disk && served.created == s.created && served.used == s.used
         && (e, Answer(s.server.tables, e, at, ttl)) in served.replies
  {
    hide Answer, Step;
  }

  /** The acknowledgement empties the outbox for good. */
  lemma {:induction false} Received(s: System, ack: Ack, newBootId: Uuid, ttl: int)
    requires SystemValid(s, ttl) && Enabled(s, Receive(ack, newBootId, NoFault))
    ensures var done := Apply(s, Receive(ack, newBootId, NoFault), ttl);
      && done.disk.outbox.None? && done.created == s.created
      && done.reporter.Some? && done.reporter.value.pending.None?
  {
    hide SystemValid, Answer, Step, Create;
    ClientFacts(s, ttl);
    ReceiveValid(s, ack, newBootId, NoFault, ttl);
  }

  lemma {:induction false} OneExchangeDelivers(s: System, e: Envelope, at: Time, newBootId: Uuid, ttl: int)
    requires SystemValid(s, ttl) && s.disk.outbox == Some(e) && s.reporter.Some? && s.server.clock <= at
    requires Answer(s.server.tables, e, at, ttl).Acked? && newBootId !in s.used
    ensures var moves := Exchanged(e, at, Answer(s.server.tables, e, at, ttl), newBootId);
      && Legal(s, moves, ttl)
      && var done := Execute(s, moves, ttl);
         && SystemValid(done, ttl)
         && done.disk.outbox.None? && done.reporter.Some? && done.reporter.value.pending.None?
         && done.created == s.created
  {
    hide SystemValid, Legal, Execute, Apply, Answer, WorldValid;
    ClientFacts(s, ttl);
    var o := Answer(s.server.tables, e, at, ttl);
    Sent(s, e, at, ttl);
    var sent := Apply(s, Send, ttl);
    var served := Apply(sent, Serve(e, at), ttl);
    var receive := Receive(o.ack, newBootId, NoFault);
    MoveValid(s, Send, ttl);
    MoveValid(sent, Serve(e, at), ttl);
    MoveValid(served, receive, ttl);
    Received(served, o.ack, newBootId, ttl);
    var done := Apply(served, receive, ttl);
    NoMoves(done, ttl);
    FirstMove(served, receive, [], ttl);
    assert [receive] + [] == [receive];
    FirstMove(sent, Serve(e, at), [receive], ttl);
    assert [Serve(e, at)] + [receive] == [Serve(e, at), receive];
    FirstMove(s, Send, [Serve(e, at), receive], ttl);
    assert Exchanged(e, at, o, newBootId) == [Send] + [Serve(e, at), receive];
  }

  /**
   In every run, whatever was lost: let the desktop stop, and every message about its outbox be lost. Started again, it
   needs one undisturbed exchange, and then everything ever created has taken effect, in order and once each.
   */
  lemma {:induction false} RecoversFromLoss(s: System, moves: seq<Move>, ttl: int, e: Envelope, freshBootId: Uuid,
                                            newBootId: Uuid, at: Time)
    requires JustEnrolled(s) && Legal(s, moves, ttl) && ttl > 0
    requires Execute(s, moves, ttl).disk.outbox == Some(e) && PairsAllowed(e) && Execute(s, moves, ttl).server.clock <= at
    requires Execute(s, moves, ttl).server.tables.head.currentGeneration < MAX_SAFE_SEQUENCE
    requires {freshBootId, newBootId} !! Execute(s, moves, ttl).used && freshBootId != newBootId
    ensures var end := Execute(s, moves, ttl);
            var o := Answer(end.server.tables, e, at, ttl);
      && o.Acked?
      && Legal(end, Loses(end, e, o, freshBootId), ttl)
      && var lost := Execute(end, Loses(end, e, o, freshBootId), ttl);
         && e !in lost.requests && (e, o) !in lost.replies
         && Legal(lost, Exchanged(e, at, o, newBootId), ttl)
         && var done := Execute(lost, Exchanged(e, at, o, newBootId), ttl);
            && done.disk.outbox.None?
            && done.reporter.Some? && done.reporter.value.pending.None?
            && Envelopes(done.server.history) == done.created == end.created
  {
    EveryRun(s, moves, ttl);
    var end := Execute(s, moves, ttl);
    hide Execute, Legal, Answer, WorldValid, SystemValid, Loses, Exchanged;
    ListedIsAcknowledged(end, e, at, ttl);
    var o := Answer(end.server.tables, e, at, ttl);
    LosesAll(end, e, o, freshBootId, ttl);
    var lost := Execute(end, Loses(end, e, o, freshBootId), ttl);
    OneExchangeDelivers(lost, e, at, newBootId, ttl);
    ClientFacts(Execute(lost, Exchanged(e, at, o, newBootId), ttl), ttl);
  }

  /**
   In every run, a state that the desktop writes to its outbox can be acknowledged exactly when the schema lists its
   display with its activity; when it does not, nothing is ever created, acknowledged or accepted again.
   */
  lemma {:induction false} UnlistedStateBlocks(s: System, moves: seq<Move>, create: Move, more: seq<Move>, at: Time, ttl: int)
    requires JustEnrolled(s) && Legal(s, moves, ttl) && ttl > 0
    requires create.CreateState? && create.writeOk && Enabled(Execute(s, moves, ttl), create)
    requires Legal(Apply(Execute(s, moves, ttl), create, ttl), more, ttl)
    requires Execute(s, moves, ttl).server.clock <= at
    requires Execute(s, moves, ttl).server.tables.head.currentGeneration < MAX_SAFE_SEQUENCE
    ensures var written := Apply(Execute(s, moves, ttl), create, ttl);
      && written.disk.outbox.Some?
      && (Answer(written.server.tables, written.disk.outbox.value, at, ttl).Acked? <==> PairAllowed(create.display, create.activity))
      && (!PairAllowed(create.display, create.activity) ==> Unmoved(written, Execute(written, more, ttl)))
  {
    EveryRun(s, moves, ttl);
    RunAllowed(s, moves, ttl);
    var before := Execute(s, moves, ttl);
    hide Execute, Legal, WorldValid, SystemValid, Answer;
    MoveValid(before, create, ttl);
    MoveAllowed(before, create, ttl);
    var written := Apply(before, create, ttl);
    var e := written.disk.outbox.value;
    assert PairsAllowed(e) <==> PairAllowed(create.display, create.activity) by {
      assert e.events[0].displayState == create.display && e.events[0].activityState == create.activity;
    }
    ListedIsAcknowledged(written, e, at, ttl);
    if !PairAllowed(create.display, create.activity) { StuckForever(written, more, ttl); }
  }

  const SampleEnrolled := System(Disk(Some(Config("server", "instance", "key", None)), None), None, {}, {}, Fresh("instance", 0), [], {})

  const PromptSent := CreateState(Thinking, Active, "sora-shiba", Stamp("t", "t", "1", "s"), true)

  /** The first prompt after enrollment is such a state. */
  lemma {:induction false} PromptBlocks(more: seq<Move>, ttl: int)
    requires ttl > 0
    ensures JustEnrolled(SampleEnrolled) && Legal(SampleEnrolled, [Start("boot"), PromptSent], ttl)
    ensures var written := Execute(SampleEnrolled, [Start("boot"), PromptSent], ttl);
      && written.disk.outbox.Some? && written.server.history == []
      && (Legal(written, more, ttl) ==> Unmoved(written, Execute(written, more, ttl)))
  {
    var start := [Start("boot"), PromptSent];
    assert start[1..] == [PromptSent] && start[1..][1..] == [];
    var first := [Start("boot")];
    assert first[1..] == [];
    var started := Apply(SampleEnrolled, Start("boot"), ttl);
    var written := Apply(started, PromptSent, ttl);
    assert Legal(written, [], ttl) && Legal(started, [PromptSent], ttl);
    assert Execute(SampleEnrolled, first, ttl) == Execute(started, [], ttl) == started;
    assert Execute(SampleEnrolled, start, ttl) == Execute(started, [PromptSent], ttl) == Execute(written, [], ttl) == written;
    if Legal(Execute(SampleEnrolled, start, ttl), more, ttl) {
      UnlistedStateBlocks(SampleEnrolled, first, PromptSent, more, 0, ttl);
    }
  }
}

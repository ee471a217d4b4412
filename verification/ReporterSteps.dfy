/**
 The desktop reporter: a durable one-envelope outbox, a per-boot sequence, and rotation to a successor
 boot after 256 events. Network answers, storage faults, clock stamps and fresh boot ids are inputs.
 */
module ReporterSteps {
  import opened Status
  import opened EdgeWire

  const MAX_EVENTS_PER_BOOT: nat := 256

  datatype Config = Config(serverId: Uuid, instanceId: Uuid, keyId: Uuid, lastAcceptedBootId: Option<Uuid>)

  /** What survives a crash; each file is written and deleted atomically. */
  datatype Disk = Disk(config: Option<Config>, outbox: Option<Envelope>)

  datatype Reporter = Reporter(
    config: Config,
    bootId: Uuid,
    previousBootId: Option<Uuid>,
    nextSequence: nat,
    established: bool,
    pending: Option<Envelope>)

  /** The parts of an envelope the clock and the signer supply. */
  datatype Stamp = Stamp(observedAt: string, sentAt: string, clientVersion: string, signature: string)

  datatype Fault = NoFault | ConfigReadFails | ConfigWriteFails | OutboxDeleteFails

  datatype AckResult = AckAccepted | AckInvalid | ConnectionSuperseded | StorageFailed

  // ---------------------------------------------------------------- the operations on values

  function LoadStep(disk: Disk, freshBootId: Uuid): Option<Reporter> {
    match disk.config
    case None => None
    case Some(config) =>
      match disk.outbox
      case Some(e) => Some(Reporter(config, e.bootId, e.previousBootId, e.firstSequence + |e.events|, false, Some(e)))
      case None => Some(Reporter(config, freshBootId, config.lastAcceptedBootId, 1, false, None))
  }

  function Sign(r: Reporter, event: EdgeEvent, stamp: Stamp): Envelope {
    Envelope(r.config.instanceId, r.config.keyId, r.bootId, r.previousBootId, event.sequence, [event],
             stamp.sentAt, stamp.clientVersion, stamp.signature)
  }

  /** The outbox is written before the envelope becomes pending, hence before it can be sent. */
  function CreateStep(r: Reporter, disk: Disk, event: EdgeEvent, stamp: Stamp, writeOk: bool): (Reporter, Disk, bool) {
    if r.pending.Some? || !writeOk then (r, disk, false)
    else
      var e := Sign(r, event, stamp);
      (r.(pending := Some(e)), disk.(outbox := Some(e)), true)
  }

  predicate AckMatches(r: Reporter, e: Envelope, ack: Ack) {
    && ack.instanceId == r.config.instanceId
    && ack.bootId == r.bootId
    && ack.acceptedThrough == LastSequence(e)
    && ack.currentProtocol >= PROTOCOL_VERSION
    && ack.minSupportedProtocol <= PROTOCOL_VERSION
  }

  predicate SameConnection(a: Config, b: Config) {
    a.serverId == b.serverId && a.instanceId == b.instanceId && a.keyId == b.keyId
  }

  function Rotate(r: Reporter, freshBootId: Uuid): Reporter {
    if r.nextSequence > MAX_EVENTS_PER_BOOT
    then r.(previousBootId := Some(r.bootId), bootId := freshBootId, nextSequence := 1, established := false)
    else r
  }

  function AckStep(r: Reporter, disk: Disk, e: Envelope, ack: Ack, freshBootId: Uuid, fault: Fault): (Reporter, Disk, AckResult)
    requires |e.events| > 0
  {
    if !AckMatches(r, e, ack) then (r, disk, AckInvalid)
    else
      var config := r.config.(lastAcceptedBootId := Some(r.bootId));
      var noted := r.(nextSequence := LastSequence(e) + 1, established := true, config := config);
      if fault.ConfigReadFails? then (noted, disk, StorageFailed)
      else if disk.config.None? || !SameConnection(disk.config.value, config) then
        if fault.OutboxDeleteFails? then (noted, disk, StorageFailed)
        else (noted.(pending := None), disk.(outbox := None), ConnectionSuperseded)
      else if fault.ConfigWriteFails? then (noted, disk, StorageFailed)
      else if fault.OutboxDeleteFails? then (noted, disk.(config := Some(config)), StorageFailed)
      else (Rotate(noted.(pending := None), freshBootId), Disk(Some(config), None), AckAccepted)
  }

  function StateEvent(sequence: nat, display: DisplayState, activity: ActivityState, petId: string, stamp: Stamp): EdgeEvent {
    StateTransition(sequence, stamp.observedAt, display, activity, petId)
  }

  predicate RequiresStateSnapshot(r: Reporter) {
    !r.established && r.pending.None?
  }

  function EndpointOf(e: Envelope): Endpoint {
    if |e.events| == 1 && e.events[0].Heartbeat? then HeartbeatEndpoint else BatchEndpoint
  }

  /** A report goes to the heartbeat endpoint exactly when that endpoint's own check lets it pass. */
  lemma {:induction false} EndpointFits(e: Envelope)
    requires IntrinsicallyValid(e, BatchEndpoint)
    ensures IntrinsicallyValid(e, EndpointOf(e))
    ensures EndpointOf(e).HeartbeatEndpoint? <==> IntrinsicallyValid(e, HeartbeatEndpoint)
  {
  }

  datatype FlushResult = NothingPending | Acknowledged | FlushFailed

  /** One network answer and the faults met while handling it; no answer is any network or HTTP failure. */
  datatype Exchange = Exchange(answer: Option<Ack>, freshBootId: Uuid, fault: Fault)

  function FlushStep(r: Reporter, disk: Disk, x: Exchange): (Reporter, Disk, FlushResult) {
    if r.pending.None? then (r, disk, NothingPending)
    else if x.answer.None? || |r.pending.value.events| == 0 then (r, disk, FlushFailed)
    else
      var (r', disk', result) := AckStep(r, disk, r.pending.value, x.answer.value, x.freshBootId, x.fault);
      (r', disk', if result.AckAccepted? then Acknowledged else FlushFailed)
  }

  predicate CarriesState(e: Envelope, display: DisplayState, activity: ActivityState, petId: string) {
    && e.events != []
    && var last := e.events[|e.events| - 1];
       last.StateTransition? && last.displayState == display && last.activityState == activity && last.petId == petId
  }

  predicate PendingMatches(r: Reporter, display: DisplayState, activity: ActivityState, petId: string) {
    r.pending.Some? && CarriesState(r.pending.value, display, activity, petId)
  }

  /** Flush what is pending, then report the state unless that very state was what got flushed. */
  function PublishStep(r: Reporter, disk: Disk, display: DisplayState, activity: ActivityState, petId: string,
                       stamp: Stamp, first: Exchange, writeOk: bool, second: Exchange): (Reporter, Disk, bool) {
    if petId !in SUPPORTED_PETS then (r, disk, false)
    else
      var matches := PendingMatches(r, display, activity, petId);
      var (r1, disk1, flushed) := FlushStep(r, disk, first);
      if flushed.FlushFailed? then (r1, disk1, false)
      else if flushed.Acknowledged? && matches then (r1, disk1, true)
      else
        var event := StateEvent(r1.nextSequence, display, activity, petId, stamp);
        var (r2, disk2, created) := CreateStep(r1, disk1, event, stamp, writeOk);
        if !created then (r2, disk2, false)
        else
          var (r3, disk3, sent) := FlushStep(r2, disk2, second);
          (r3, disk3, sent.Acknowledged?)
  }

  function HeartbeatStep(r: Reporter, disk: Disk, stamp: Stamp, first: Exchange, writeOk: bool, second: Exchange): (Reporter, Disk, bool) {
    if !r.established && r.pending.None? then (r, disk, true)
    else
      var (r1, disk1, flushed) := FlushStep(r, disk, first);
      if !flushed.NothingPending? then (r1, disk1, flushed.Acknowledged?)
      else if !r1.established then (r1, disk1, true)
      else
        var (r2, disk2, created) := CreateStep(r1, disk1, Heartbeat(r1.nextSequence, stamp.observedAt), stamp, writeOk);
        if !created then (r2, disk2, false)
        else
          var (r3, disk3, sent) := FlushStep(r2, disk2, second);
          (r3, disk3, sent.Acknowledged?)
  }

  /**
   A publish that reports success left nothing pending, and an envelope carrying exactly that state was
   acknowledged: either the one already pending or the one it created. The next heartbeat may need a new
   snapshot only because the boot rotated.
   */
  lemma {:induction false} PublishedStateWasAcknowledged(r: Reporter, disk: Disk, display: DisplayState, activity: ActivityState,
      petId: string, stamp: Stamp, first: Exchange, writeOk: bool, second: Exchange)
    requires PublishStep(r, disk, display, activity, petId, stamp, first, writeOk, second).2
    ensures var (r', disk', _) := PublishStep(r, disk, display, activity, petId, stamp, first, writeOk, second);
      && r'.pending.None? && disk'.outbox.None?
      && (RequiresStateSnapshot(r') ==> r'.nextSequence == 1 && r'.previousBootId == r'.config.lastAcceptedBootId)
      && disk'.config == Some(r'.config)
      && exists last: Envelope, x: Exchange ::
           CarriesState(last, display, activity, petId) && x.answer.Some? && (x == first || x == second)
           && x.answer.value.acceptedThrough == LastSequence(last)
           && r'.config.lastAcceptedBootId == Some(x.answer.value.bootId)
  {
    var matches := PendingMatches(r, display, activity, petId);
    var (r1, disk1, flushed) := FlushStep(r, disk, first);
    if flushed.Acknowledged? && matches {
      assert CarriesState(r.pending.value, display, activity, petId) && first.answer.Some?;
    } else {
      var event := StateEvent(r1.nextSequence, display, activity, petId, stamp);
      var e := Sign(r1, event, stamp);
      assert CarriesState(e, display, activity, petId) && second.answer.Some?;
    }
  }
}

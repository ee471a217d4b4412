/** Report envelopes as they cross the network, and the validator every report passes before ingest. */
module EdgeWire {
  import opened Status

  type Uuid = string

  const MAX_SAFE_SEQUENCE: nat := 9_007_199_254_740_991
  const MAX_EVENTS_PER_REPORT: nat := 64

  datatype EdgeEvent =
    | StateTransition(sequence: nat, observedAt: string, displayState: DisplayState,
                      activityState: ActivityState, petId: string)
    | Heartbeat(sequence: nat, observedAt: string)

  datatype Envelope = Envelope(
    instanceId: Uuid,
    keyId: Uuid,
    bootId: Uuid,
    previousBootId: Option<Uuid>,
    firstSequence: nat,
    events: seq<EdgeEvent>,
    sentAt: string,
    clientVersion: string,
    signature: string)

  datatype Endpoint = BatchEndpoint | HeartbeatEndpoint

  const PROTOCOL_VERSION: nat := 1

  datatype Ack = Ack(
    currentProtocol: nat,
    minSupportedProtocol: nat,
    instanceId: Uuid,
    bootId: Uuid,
    acceptedThrough: nat,
    serverReceivedAt: Time,
    leaseExpiresAt: Time)

  /** The acknowledgement of a report accepted at an instant. */
  function AckOf(instanceId: Uuid, bootId: Uuid, acceptedThrough: nat, at: Time, leaseExpiresAt: Time): Ack {
    Ack(PROTOCOL_VERSION, PROTOCOL_VERSION, instanceId, bootId, acceptedThrough, at, leaseExpiresAt)
  }

  datatype ProblemCode =
    | InvalidRequest
    | InvalidSignature
    | ReportSemanticsInvalid
    | StaleBoot
    | SequenceGap
    | SequenceOverlap
    | SequenceConflict
    | InternalError

  datatype Problem = Problem(code: ProblemCode, expectedSequence: Option<nat>)

  datatype Outcome = Acked(ack: Ack) | Refused(problem: Problem)

  /** Display/activity pairs the wire schema and the database both list. */
  predicate PairAllowed(display: DisplayState, activity: ActivityState) {
    match display
    case Idle => activity.Unknown? || activity.EligibleIdle?
    case Working => activity.Active?
    case Waiting => activity.Waiting? || activity.Active? || activity.EligibleIdle?
    case Done => activity.EligibleIdle?
    case Failed => activity.Failed?
    case Thinking => false
    case Review => false
  }

  const LISTED_PAIRS: set<(DisplayState, ActivityState)> := {
    (DisplayState.Idle, ActivityState.Unknown), (DisplayState.Idle, ActivityState.EligibleIdle),
    (DisplayState.Working, ActivityState.Active),
    (DisplayState.Waiting, ActivityState.Waiting), (DisplayState.Waiting, ActivityState.Active),
    (DisplayState.Waiting, ActivityState.EligibleIdle),
    (DisplayState.Done, ActivityState.EligibleIdle), (DisplayState.Failed, ActivityState.Failed)}

  const SUPPORTED_PETS: set<string> := {
    "bloop", "buzz-bit", "comet-lop", "gizmo-kernel", "kiki-koala", "momo-mug", "moss-shell", "nimbus-noodle",
    "nori-nibble", "olli-orbit", "pico-patch", "pogo-ping", "rumi-relay", "sora-shiba", "taro-tinker"}

  predicate PetsSupported(e: Envelope) {
    forall i :: 0 <= i < |e.events| && e.events[i].StateTransition? ==> e.events[i].petId in SUPPORTED_PETS
  }

  predicate PairsAllowed(e: Envelope) {
    forall i :: 0 <= i < |e.events| && e.events[i].StateTransition? ==>
      PairAllowed(e.events[i].displayState, e.events[i].activityState)
  }

  predicate SchemaValid(e: Envelope) {
    && 1 <= |e.events| <= MAX_EVENTS_PER_REPORT
    && 1 <= e.firstSequence <= MAX_SAFE_SEQUENCE
    && PairsAllowed(e)
    && PetsSupported(e)
  }

  /** A report is schema-valid exactly when its counts are in range and each transition is listed, pet and pair. */
  lemma {:induction false} SchemaMeaning(e: Envelope)
    ensures SchemaValid(e) <==>
      0 < |e.events| < 65 && 0 < e.firstSequence < 0x20_0000_0000_0000
      && forall event :: event in e.events && event.StateTransition? ==>
           (event.displayState, event.activityState) in LISTED_PAIRS && event.petId in SUPPORTED_PETS
  {
    assert forall d, a :: PairAllowed(d, a) <==> (d, a) in LISTED_PAIRS;
    assert forall i :: 0 <= i < |e.events| ==> e.events[i] in e.events;
  }

  predicate Contiguous(e: Envelope) {
    forall i :: 0 <= i < |e.events| ==> e.events[i].sequence == e.firstSequence + i
  }

  function LastSequence(e: Envelope): int {
    e.firstSequence + |e.events| - 1
  }

  /** The event a contiguous envelope gives sequence s. */
  function EventAt(e: Envelope, s: nat): EdgeEvent
    requires e.firstSequence <= s <= LastSequence(e)
  {
    e.events[s - e.firstSequence]
  }

  /** What the intrinsic check accepts. */
  predicate IntrinsicallyValid(e: Envelope, endpoint: Endpoint) {
    && |e.events| > 0
    && Contiguous(e)
    && LastSequence(e) <= MAX_SAFE_SEQUENCE
    && (endpoint.HeartbeatEndpoint? ==> |e.events| == 1 && e.events[0].Heartbeat?)
  }

  /** A report that reached the ingestor: schema-valid and intrinsically valid. */
  predicate Prepared(e: Envelope, endpoint: Endpoint) {
    SchemaValid(e) && IntrinsicallyValid(e, endpoint)
  }

  /** The intrinsic check, in the order the validator runs it: the first failing index decides the problem. */
  method AssertIntrinsicSemantics(e: Envelope, endpoint: Endpoint) returns (problem: Option<Problem>)
    ensures problem.None? <==> IntrinsicallyValid(e, endpoint)
    ensures problem.Some? && problem.value.code.SequenceGap? ==>
      exists i :: 0 < i < |e.events| && problem.value.expectedSequence == Some(e.firstSequence + i)
        && e.events[i].sequence > e.firstSequence + i
        && forall j :: 0 <= j < i ==> e.events[j].sequence == e.firstSequence + j
    ensures problem.Some? && problem.value.code.SequenceOverlap? ==>
      exists i :: 0 < i < |e.events| && problem.value.expectedSequence == Some(e.firstSequence + i)
        && e.events[i].sequence < e.firstSequence + i
        && forall j :: 0 <= j < i ==> e.events[j].sequence == e.firstSequence + j
    ensures problem.Some? ==> problem.value.code in {ReportSemanticsInvalid, SequenceGap, SequenceOverlap}
  {
    if |e.events| == 0 || e.events[0].sequence != e.firstSequence {
      return Some(Problem(ReportSemanticsInvalid, None));
    }
    for index := 0 to |e.events|
      invariant forall j :: 0 <= j < index ==> e.events[j].sequence == e.firstSequence + j
      invariant index > 0 ==> e.firstSequence + index - 1 <= MAX_SAFE_SEQUENCE
    {
      var expected := e.firstSequence + index;
      if expected > MAX_SAFE_SEQUENCE {
        return Some(Problem(ReportSemanticsInvalid, None));
      }
      if e.events[index].sequence > expected {
        return Some(Problem(SequenceGap, Some(expected)));
      }
      if e.events[index].sequence < expected {
        return Some(Problem(SequenceOverlap, Some(expected)));
      }
    }
    if endpoint.HeartbeatEndpoint? && (|e.events| != 1 || !e.events[0].Heartbeat?) {
      return Some(Problem(ReportSemanticsInvalid, None));
    }
    return None;
  }
}

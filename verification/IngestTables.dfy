/**
 The ingestion tables of one instance and the transaction one report runs on them: boot fencing by
 compare-and-swap, classification as new, replay, overlap, conflict or gap, receipts and fingerprints.
 A transaction holds the instance's row locks throughout, so it is one atomic step.
 */
module IngestTables {
  import opened Status
  import opened EdgeWire
  import opened PresenceLedger

  datatype Head = Head(currentBootId: Option<Uuid>, currentGeneration: nat, lastServerReceivedAt: Option<Time>)

  datatype Boot = Boot(
    bootId: Uuid,
    previousBootId: Option<Uuid>,
    generation: nat,
    nextSequence: nat,
    firstAcceptedAt: Time,
    lastAcceptedAt: Time,
    fencedAt: Option<Time>)

  datatype Receipt = Receipt(
    id: nat,
    generation: nat,
    bootId: Uuid,
    firstSequence: nat,
    lastSequence: int,
    payload: Envelope,
    serverReceivedAt: Time,
    leaseExpiresAt: Time)

  datatype Fingerprint = Fingerprint(receiptId: nat, event: EdgeEvent)

  datatype Tables = Tables(
    instanceId: Uuid,
    head: Head,
    boots: seq<Boot>,
    receipts: seq<Receipt>,
    fingerprints: map<(nat, nat), Fingerprint>,
    ledger: Ledger,
    agentPet: Option<string>,
    nextReceiptId: nat)

  function EmptyTables(instanceId: Uuid): Tables {
    Tables(instanceId, Head(None, 0, None), [], [], map[], Ledger(None, []), None, 0)
  }

  // ---------------------------------------------------------------- lookups

  function FindBoot(boots: seq<Boot>, id: Uuid): Option<Boot> {
    if boots == [] then None
    else if boots[|boots| - 1].bootId == id then Some(boots[|boots| - 1])
    else FindBoot(boots[..|boots| - 1], id)
  }

  function FindReceipt(receipts: seq<Receipt>, generation: nat, first: nat, last: int): Option<Receipt> {
    if receipts == [] then None
    else
      var r := receipts[|receipts| - 1];
      if r.generation == generation && r.firstSequence == first && r.lastSequence == last then Some(r)
      else FindReceipt(receipts[..|receipts| - 1], generation, first, last)
  }

  predicate AnyFingerprint(fingerprints: map<(nat, nat), Fingerprint>, generation: nat, first: nat, last: int) {
    exists s: nat :: first <= s <= last && (generation, s) in fingerprints
  }

  /** Some stored event in the batch's range differs from the submitted one. */
  predicate AnyDifference(fingerprints: map<(nat, nat), Fingerprint>, generation: nat, e: Envelope) {
    exists s: nat :: e.firstSequence <= s <= LastSequence(e) && (generation, s) in fingerprints
                     && fingerprints[(generation, s)].event != EventAt(e, s)
  }

  // ---------------------------------------------------------------- classification

  datatype Verdict = Refuse(problem: Problem) | Replay(ack: Ack) | Accept(newBoot: bool, generation: nat)

  function AckFromReceipt(instanceId: Uuid, r: Receipt): Ack
    requires r.lastSequence >= 0
  {
    AckOf(instanceId, r.bootId, r.lastSequence, r.serverReceivedAt, r.leaseExpiresAt)
  }

  function SequenceProblem(code: ProblemCode, expected: nat): Problem {
    Problem(code, if expected <= MAX_SAFE_SEQUENCE then Some(expected) else None)
  }

  /** A batch that starts below the next expected sequence of the current boot. */
  function ClassifyLate(t: Tables, e: Envelope, generation: nat, expected: nat): Verdict
    requires |e.events| > 0
  {
    match FindReceipt(t.receipts, generation, e.firstSequence, LastSequence(e))
    case Some(replay) =>
      if replay.payload == e && replay.lastSequence >= 0 then Replay(AckFromReceipt(t.instanceId, replay))
      else Refuse(SequenceProblem(SequenceConflict, expected))
    case None =>
      if !AnyFingerprint(t.fingerprints, generation, e.firstSequence, LastSequence(e)) then
        Refuse(Problem(InternalError, None))
      else if AnyDifference(t.fingerprints, generation, e) then
        Refuse(SequenceProblem(SequenceConflict, expected))
      else
        Refuse(SequenceProblem(SequenceOverlap, expected))
  }

  function Classify(t: Tables, e: Envelope, endpoint: Endpoint): Verdict
    requires |e.events| > 0
  {
    var requested := FindBoot(t.boots, e.bootId);
    if t.head.currentBootId != Some(e.bootId) then
      if requested.Some? then Refuse(Problem(StaleBoot, None))
      else if e.previousBootId != t.head.currentBootId then Refuse(Problem(StaleBoot, None))
      else if endpoint.HeartbeatEndpoint? then Refuse(Problem(ReportSemanticsInvalid, None))
      else if e.firstSequence != 1 then Refuse(Problem(SequenceGap, Some(1)))
      else if !e.events[0].StateTransition? then Refuse(Problem(ReportSemanticsInvalid, None))
      else if t.head.currentGeneration >= MAX_SAFE_SEQUENCE then Refuse(Problem(ReportSemanticsInvalid, None))
      else Accept(true, t.head.currentGeneration + 1)
    else
      match requested
      case None => Refuse(Problem(InternalError, None))
      case Some(boot) =>
        if e.previousBootId != boot.previousBootId then Refuse(Problem(StaleBoot, None))
        else if e.firstSequence < boot.nextSequence then ClassifyLate(t, e, boot.generation, boot.nextSequence)
        else if e.firstSequence > boot.nextSequence then Refuse(SequenceProblem(SequenceGap, boot.nextSequence))
        else Accept(false, boot.generation)
  }

  // ---------------------------------------------------------------- row updates

  function NextServerReceivedAt(clock: Time, head: Head): Time {
    if head.lastServerReceivedAt.None? then clock else Max(clock, head.lastServerReceivedAt.value)
  }

  function FenceBoots(boots: seq<Boot>, id: Uuid, at: Time): (r: seq<Boot>)
    ensures |r| == |boots|
  {
    seq(|boots|, i requires 0 <= i < |boots| =>
      if boots[i].bootId == id && boots[i].fencedAt.None? then boots[i].(fencedAt := Some(at)) else boots[i])
  }

  function AdvanceBoots(boots: seq<Boot>, generation: nat, next: nat, at: Time): (r: seq<Boot>)
    ensures |r| == |boots|
  {
    seq(|boots|, i requires 0 <= i < |boots| =>
      if boots[i].generation == generation then boots[i].(nextSequence := next, lastAcceptedAt := at) else boots[i])
  }

  function ReceiptsOfOthers(receipts: seq<Receipt>, bootId: Uuid): seq<Receipt> {
    if receipts == [] then []
    else
      var rest := ReceiptsOfOthers(receipts[..|receipts| - 1], bootId);
      if receipts[|receipts| - 1].bootId == bootId then rest else rest + [receipts[|receipts| - 1]]
  }

  /** Deleting a receipt deletes its fingerprints with it. */
  function CascadeFingerprints(fingerprints: map<(nat, nat), Fingerprint>, receipts: seq<Receipt>): map<(nat, nat), Fingerprint> {
    map k | k in fingerprints && (exists i :: 0 <= i < |receipts| && receipts[i].id == fingerprints[k].receiptId)
      :: fingerprints[k]
  }

  /** Fence the predecessor, scrub its replay material, insert the successor and swing the head to it. */
  function StartBoot(t: Tables, e: Envelope, generation: nat, at: Time): Option<Tables> {
    var fenced := if t.head.currentBootId.Some? then FenceBoots(t.boots, t.head.currentBootId.value, at) else t.boots;
    var kept := if t.head.currentBootId.Some? then ReceiptsOfOthers(t.receipts, t.head.currentBootId.value) else t.receipts;
    if FindBoot(t.boots, e.bootId).Some? then None
    else if t.head.currentBootId != e.previousBootId || t.head.currentGeneration + 1 != generation then None
    else Some(t.(
      head := t.head.(currentBootId := Some(e.bootId), currentGeneration := generation),
      boots := fenced + [Boot(e.bootId, e.previousBootId, generation, 1, at, at, None)],
      receipts := kept,
      fingerprints := if t.head.currentBootId.Some? then CascadeFingerprints(t.fingerprints, kept) else t.fingerprints))
  }

  function NewFingerprints(e: Envelope, generation: nat, receiptId: nat): map<(nat, nat), Fingerprint> {
    map s: nat | e.firstSequence <= s <= LastSequence(e)
      :: (generation, s) := Fingerprint(receiptId, EventAt(e, s))
  }

  /** Store the receipt and one fingerprint per event; the unique keys make a duplicate roll back. */
  function StoreReceipt(t: Tables, e: Envelope, generation: nat, at: Time, leaseExpiresAt: Time): Option<Tables>
    requires |e.events| > 0
  {
    if FindReceipt(t.receipts, generation, e.firstSequence, LastSequence(e)).Some?
       || AnyFingerprint(t.fingerprints, generation, e.firstSequence, LastSequence(e))
    then None
    else Some(t.(
      receipts := t.receipts + [Receipt(t.nextReceiptId, generation, e.bootId, e.firstSequence, LastSequence(e), e, at, leaseExpiresAt)],
      fingerprints := t.fingerprints + NewFingerprints(e, generation, t.nextReceiptId),
      nextReceiptId := t.nextReceiptId + 1))
  }

  predicate HasTransition(events: seq<EdgeEvent>) {
    exists i :: 0 <= i < |events| && events[i].StateTransition?
  }

  /** The whole write phase of an accepted report; None stands for any throw, hence a rollback. */
  function Commit(t: Tables, e: Envelope, newBoot: bool, generation: nat, at: Time, ttl: int): Option<Tables>
    requires |e.events| > 0
  {
    var started := if newBoot then StartBoot(t, e, generation, at) else Some(t);
    var recorded := Record(t.ledger, newBoot, generation, e.bootId, e.events, at, at + ttl);
    if started.None? || recorded.None? then None
    else
      match StoreReceipt(started.value, e, generation, at, at + ttl)
      case None => None
      case Some(stored) => Some(stored.(
        head := stored.head.(lastServerReceivedAt := Some(at)),
        boots := AdvanceBoots(stored.boots, generation, LastSequence(e) + 1, at),
        ledger := recorded.value,
        agentPet := if HasTransition(e.events) && recorded.value.presence.Some?
                    then Some(recorded.value.presence.value.snapshot.petId) else stored.agentPet))
  }

  /** One ingest transaction. */
  function Ingest(t: Tables, e: Envelope, endpoint: Endpoint, clock: Time, ttl: int): (Tables, Outcome)
    requires |e.events| > 0
  {
    if e.instanceId != t.instanceId then (t, Refused(Problem(InvalidSignature, None)))
    else if !PetsSupported(e) then (t, Refused(Problem(ReportSemanticsInvalid, None)))
    else
      match Classify(t, e, endpoint)
      case Refuse(problem) => (t, Refused(problem))
      case Replay(ack) => (t, Acked(ack))
      case Accept(newBoot, generation) =>
        var at := NextServerReceivedAt(clock, t.head);
        match Commit(t, e, newBoot, generation, at, ttl)
        case None => (t, Refused(Problem(InternalError, None)))
        case Some(next) => (next, Acked(AckOf(t.instanceId, e.bootId, LastSequence(e), at, at + ttl)))
  }

  /** One sweeper transaction. */
  function ExpireLease(t: Tables, now: Time): Tables {
    match Sweep(t.ledger, now)
    case None => t
    case Some(swept) => t.(ledger := swept)
  }
}

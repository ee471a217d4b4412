/**
 The ingest and sweep transactions as they update rows in place, each proved to be the corresponding
 step on the tables. A throw restores the rows saved at BEGIN.
 */
module IngestStore {
  import opened Status
  import opened EdgeWire
  import opened PresenceLedger
  import opened IngestTables

  class Store {
    const instanceId: Uuid
    const leaseTtl: int
    var head: Head
    var boots: seq<Boot>
    var receipts: seq<Receipt>
    var fingerprints: map<(nat, nat), Fingerprint>
    var presence: Option<Presence>
    var intervals: seq<Interval>
    var agentPet: Option<string>
    var nextReceiptId: nat

    constructor (instanceId: Uuid, leaseTtl: int)
      ensures Rows() == EmptyTables(instanceId) && this.leaseTtl == leaseTtl
    {
      this.instanceId, this.leaseTtl := instanceId, leaseTtl;
      head, boots, receipts, fingerprints := Head(None, 0, None), [], [], map[];
      presence, intervals, agentPet, nextReceiptId := None, [], None, 0;
    }

    function Rows(): Tables
      reads this
    {
      Tables(instanceId, head, boots, receipts, fingerprints, Ledger(presence, intervals), agentPet, nextReceiptId)
    }

    // -------------------------------------------------------------- row helpers

    method CloseOpenActivityInterval(endedAt: Time, endSequence: nat, reason: CloseReason) returns (ok: bool)
      modifies this`intervals
      ensures intervals == CloseEvery(old(intervals), Closing(endedAt, endSequence, reason))
      ensures ok == CloseOpen(old(intervals), Closing(endedAt, endSequence, reason)).Some?
    {
      ok := OpenCount(intervals) == 1;
      intervals := CloseEvery(intervals, Closing(endedAt, endSequence, reason));
    }

    method OpenActivityInterval(generation: nat, activity: ActivityState, startSequence: nat, startedAt: Time)
      modifies this`intervals
      ensures intervals == old(intervals) + [Interval(generation, activity, startedAt, startSequence, None)]
    {
      intervals := intervals + [Interval(generation, activity, startedAt, startSequence, None)];
    }

    method FencePreviousBootAndPresence(previousBootId: Option<Uuid>, at: Time, preserveLivePresence: bool) returns (ok: bool)
      modifies this`boots, this`receipts, this`fingerprints, this`presence, this`intervals
      ensures boots == if previousBootId.Some? then FenceBoots(old(boots), previousBootId.value, at) else old(boots)
      ensures receipts == if previousBootId.Some? then ReceiptsOfOthers(old(receipts), previousBootId.value) else old(receipts)
      ensures fingerprints == if previousBootId.Some? then CascadeFingerprints(old(fingerprints), receipts) else old(fingerprints)
      ensures preserveLivePresence ==> ok && presence == old(presence) && intervals == old(intervals)
      ensures !preserveLivePresence ==> ok == Fence(Ledger(old(presence), old(intervals)), at).Some?
      ensures !preserveLivePresence && ok ==> Ledger(presence, intervals) == Fence(Ledger(old(presence), old(intervals)), at).value
    {
      ok := true;
      if previousBootId.Some? {
        boots := FenceBoots(boots, previousBootId.value, at);
        receipts := ReceiptsOfOthers(receipts, previousBootId.value);
        fingerprints := CascadeFingerprints(fingerprints, receipts);
      }
      if preserveLivePresence { return; }
      if presence.Some? {
        var leaseExpired := presence.value.leaseExpiresAt <= at;
        if !leaseExpired || presence.value.leaseClosedAt.None? {
          ok := CloseOpenActivityInterval(if leaseExpired then presence.value.leaseExpiresAt else at,
                                          presence.value.snapshot.lastAcceptedSequence,
                                          if leaseExpired then LeaseExpired else BootReplaced);
        }
        presence := None;
      }
    }

    method CreateBootAndAdvanceHead(bootId: Uuid, previousBootId: Option<Uuid>, previousGeneration: nat, generation: nat, at: Time)
      returns (ok: bool)
      modifies this`boots, this`head
      ensures boots == old(boots) + [Boot(bootId, previousBootId, generation, 1, at, at, None)]
      ensures ok == (FindBoot(old(boots), bootId).None?
                     && old(head).currentGeneration == previousGeneration && old(head).currentBootId == previousBootId)
      ensures ok ==> head == old(head).(currentBootId := Some(bootId), currentGeneration := generation)
    {
      ok := FindBoot(boots, bootId).None? && head.currentGeneration == previousGeneration && head.currentBootId == previousBootId;
      boots := boots + [Boot(bootId, previousBootId, generation, 1, at, at, None)];
      if ok { head := head.(currentBootId := Some(bootId), currentGeneration := generation); }
    }

    method InsertReceipt(e: Envelope, generation: nat, at: Time, leaseExpiresAt: Time) returns (ok: bool)
      requires |e.events| > 0
      modifies this`receipts, this`fingerprints, this`nextReceiptId
      ensures ok == StoreReceipt(old(Rows()), e, generation, at, leaseExpiresAt).Some?
      ensures ok ==> Rows() == StoreReceipt(old(Rows()), e, generation, at, leaseExpiresAt).value
    {
      ok := FindReceipt(receipts, generation, e.firstSequence, LastSequence(e)).None?
            && !AnyFingerprint(fingerprints, generation, e.firstSequence, LastSequence(e));
      if ok {
        receipts := receipts
          + [Receipt(nextReceiptId, generation, e.bootId, e.firstSequence, LastSequence(e), e, at, leaseExpiresAt)];
        fingerprints := fingerprints + NewFingerprints(e, generation, nextReceiptId);
        nextReceiptId := nextReceiptId + 1;
      }
    }

    // -------------------------------------------------------------- the batch loop

    /** The loop over a report's events; None is a throw. */
    method ApplyBatch(generation: nat, events: seq<EdgeEvent>, prior: Option<Snapshot>, boundaryBroken: bool, at: Time)
      returns (result: Option<Snapshot>)
      modifies this`intervals
      ensures var done := ApplyEvents(Progress(prior, boundaryBroken, old(intervals)), events, generation, boundaryBroken, at);
        && result == (if done.None? then None else done.value.current)
        && (result.Some? ==> intervals == done.value.intervals)
    {
      var current, needsOpenInterval := prior, boundaryBroken;
      ghost var start := Progress(prior, boundaryBroken, intervals);
      var index := 0;
      while index < |events|
        invariant 0 <= index <= |events|
        invariant ApplyEvents(Progress(current, needsOpenInterval, intervals), events[index..], generation, boundaryBroken, at)
               == ApplyEvents(start, events, generation, boundaryBroken, at)
      {
        var event := events[index];
        ghost var here := Progress(current, needsOpenInterval, intervals);
        assert events[index..][0] == event && events[index..][1..] == events[index + 1..];
        if event.Heartbeat? {
          if current.None? { return None; }
          var snapshot := current.value;
          if needsOpenInterval {
            OpenActivityInterval(generation, snapshot.activityState, event.sequence, at);
            if snapshot.activityState.EligibleIdle? { snapshot := snapshot.(eligibleSince := Some(at)); }
            needsOpenInterval := false;
          }
          current := Some(snapshot.(lastAcceptedSequence := event.sequence));
        } else {
          var activityChanged := current.None? || current.value.activityState != event.activityState;
          if activityChanged && !needsOpenInterval && current.Some? {
            var ok := CloseOpenActivityInterval(at, event.sequence, StateChanged);
            if !ok { return None; }
          }
          if activityChanged || needsOpenInterval {
            OpenActivityInterval(generation, event.activityState, event.sequence, at);
            needsOpenInterval := false;
          }
          current := Some(ApplyStateTransition(current, event, at, boundaryBroken || activityChanged));
        }
        assert ApplyEvent(here, event, generation, boundaryBroken, at) == Some(Progress(current, needsOpenInterval, intervals));
        index := index + 1;
      }
      assert events[index..] == [];
      result := current;
    }

    // -------------------------------------------------------------- classification

    /** The sequences in the range that were accepted before, in order. */
    method FindFingerprints(generation: nat, first: nat, last: int) returns (stored: seq<nat>)
      requires first <= last + 1
      ensures forall s :: s in stored <==> first <= s <= last && (generation, s) in fingerprints
    {
      stored := [];
      for s := first to last + 1
        invariant forall q :: q in stored <==> first <= q < s && (generation, q) in fingerprints
      {
        if (generation, s) in fingerprints { stored := stored + [s]; }
      }
    }

    /** Does a stored event in the batch's range differ from the submitted one? */
    method SomeStoredDiffers(e: Envelope, generation: nat, stored: seq<nat>) returns (differs: bool)
      requires |e.events| > 0
      requires forall s :: s in stored <==> e.firstSequence <= s <= LastSequence(e) && (generation, s) in fingerprints
      ensures differs == AnyDifference(fingerprints, generation, e)
    {
      for k := 0 to |stored|
        invariant forall j :: 0 <= j < k ==> fingerprints[(generation, stored[j])].event == EventAt(e, stored[j])
      {
        if fingerprints[(generation, stored[k])].event != EventAt(e, stored[k]) { return true; }
      }
      return false;
    }

    /** A batch that starts below the next sequence of its boot: a replay, a conflict, or an overlap. */
    method ClassifyLateReport(e: Envelope, generation: nat, expected: nat) returns (verdict: Verdict)
      requires |e.events| > 0
      ensures verdict == ClassifyLate(Rows(), e, generation, expected)
    {
      var replay := FindReceipt(receipts, generation, e.firstSequence, LastSequence(e));
      if replay.Some? {
        if replay.value.payload == e && replay.value.lastSequence >= 0 {
          return Replay(AckFromReceipt(instanceId, replay.value));
        }
        return Refuse(SequenceProblem(SequenceConflict, expected));
      }
      var stored := FindFingerprints(generation, e.firstSequence, LastSequence(e));
      if stored == [] {
        return Refuse(Problem(InternalError, None));
      }
      assert stored[0] in stored;
      var differs := SomeStoredDiffers(e, generation, stored);
      return Refuse(SequenceProblem(if differs then SequenceConflict else SequenceOverlap, expected));
    }

    /** The checks on the head and the boot rows, in the order the transaction makes them. */
    method ClassifyReport(e: Envelope, endpoint: Endpoint) returns (verdict: Verdict)
      requires |e.events| > 0
      ensures verdict == Classify(Rows(), e, endpoint)
    {
      var requestedBoot := FindBoot(boots, e.bootId);
      if head.currentBootId != Some(e.bootId) {
        if requestedBoot.Some? || e.previousBootId != head.currentBootId {
          return Refuse(Problem(StaleBoot, None));
        }
        if endpoint.HeartbeatEndpoint? {
          return Refuse(Problem(ReportSemanticsInvalid, None));
        }
        if e.firstSequence != 1 {
          return Refuse(Problem(SequenceGap, Some(1)));
        }
        if !e.events[0].StateTransition? || head.currentGeneration >= MAX_SAFE_SEQUENCE {
          return Refuse(Problem(ReportSemanticsInvalid, None));
        }
        return Accept(true, head.currentGeneration + 1);
      }
      if requestedBoot.None? {
        return Refuse(Problem(InternalError, None));
      }
      var boot := requestedBoot.value;
      if e.previousBootId != boot.previousBootId {
        return Refuse(Problem(StaleBoot, None));
      }
      if e.firstSequence < boot.nextSequence {
        verdict := ClassifyLateReport(e, boot.generation, boot.nextSequence);
        return;
      }
      if e.firstSequence > boot.nextSequence {
        return Refuse(SequenceProblem(SequenceGap, boot.nextSequence));
      }
      return Accept(false, boot.generation);
    }

    // -------------------------------------------------------------- the transactions

    /** Fence the old boot, create the new one, and carry over or drop the live presence; false is a throw. */
    method RollToNewBoot(e: Envelope, generation: nat, at: Time) returns (ok: bool, seamless: bool)
      requires |e.events| > 0
      modifies this
      ensures seamless == CanRoll(old(presence), e.events[0], at)
      ensures ok == (StartBoot(old(Rows()), e, generation, at).Some?
                     && RollBoot(Ledger(old(presence), old(intervals)), e.events[0], generation, at).Some?)
      ensures ok ==> Rows() == StartBoot(old(Rows()), e, generation, at).value.(
                       ledger := RollBoot(Ledger(old(presence), old(intervals)), e.events[0], generation, at).value)
    {
      seamless := CanRoll(presence, e.events[0], at);
      FenceKeepsIds(boots, head.currentBootId, at, e.bootId);
      ok := FencePreviousBootAndPresence(head.currentBootId, at, seamless);
      if !ok { return; }
      if generation == 0 { return false, seamless; }
      ok := CreateBootAndAdvanceHead(e.bootId, e.previousBootId, generation - 1, generation, at);
      if !ok { return; }
      if seamless { ok := MoveOpenActivityIntervalToBoot(generation); }
    }

    /** The write phase, in the order the transaction runs it; false is a throw. */
    method CommitReport(e: Envelope, newBoot: bool, generation: nat, at: Time) returns (ok: bool)
      requires |e.events| > 0
      modifies this
      ensures ok == Commit(old(Rows()), e, newBoot, generation, at, leaseTtl).Some?
      ensures ok ==> Rows() == Commit(old(Rows()), e, newBoot, generation, at, leaseTtl).value
    {
      hide StartBoot, RollBoot, CloseExpired, CanRoll, ApplyEvents, AdvanceBoots, FindReceipt, AnyFingerprint, NewFingerprints, HasTransition;
      var seamlessBootRollover := false;
      if newBoot {
        ok, seamlessBootRollover := RollToNewBoot(e, generation, at);
        if !ok { return; }
      }
      var prior := presence;
      var leaseWasExpired;
      ok, leaseWasExpired := CloseExpiredLease(at);
      if !ok { return; }
      ok := InsertReceipt(e, generation, at, at + leaseTtl);
      if !ok { return; }
      var snapshot := ApplyBatch(generation, e.events, if prior.None? then None else Some(prior.value.snapshot),
                                 (newBoot && !seamlessBootRollover) || leaseWasExpired, at);
      if snapshot.None? { return false; }
      SavePresence(e, generation, snapshot.value, at);
      ok := true;
    }

    method CloseExpiredLease(at: Time) returns (ok: bool, leaseWasExpired: bool)
      modifies this`intervals
      ensures leaseWasExpired == LeaseWasExpired(presence, at)
      ensures ok == CloseExpired(Ledger(presence, old(intervals)), at).Some?
      ensures ok ==> intervals == CloseExpired(Ledger(presence, old(intervals)), at).value
    {
      ok, leaseWasExpired := true, LeaseWasExpired(presence, at);
      if leaseWasExpired && presence.value.leaseClosedAt.None? {
        ok := CloseOpenActivityInterval(presence.value.leaseExpiresAt, presence.value.snapshot.lastAcceptedSequence, LeaseExpired);
      }
    }

    method SavePresence(e: Envelope, generation: nat, snapshot: Snapshot, at: Time)
      requires |e.events| > 0
      modifies this`presence, this`agentPet, this`boots, this`head
      ensures presence == Some(Presence(generation, e.bootId, snapshot, at, at + leaseTtl, None))
      ensures agentPet == if HasTransition(e.events) then Some(snapshot.petId) else old(agentPet)
      ensures boots == AdvanceBoots(old(boots), generation, LastSequence(e) + 1, at)
      ensures head == old(head).(lastServerReceivedAt := Some(at))
    {
      presence := Some(Presence(generation, e.bootId, snapshot, at, at + leaseTtl, None));
      if HasTransition(e.events) { agentPet := Some(snapshot.petId); }
      boots := AdvanceBoots(boots, generation, LastSequence(e) + 1, at);
      head := head.(lastServerReceivedAt := Some(at));
    }

    method MoveOpenActivityIntervalToBoot(generation: nat) returns (ok: bool)
      modifies this`intervals
      ensures intervals == MoveEvery(old(intervals), generation)
      ensures ok == MoveOpen(old(intervals), generation).Some?
    {
      ok := OpenCount(intervals) == 1;
      intervals := MoveEvery(intervals, generation);
    }

    lemma {:induction false} FenceKeepsIds(boots: seq<Boot>, fenced: Option<Uuid>, at: Time, id: Uuid)
      ensures fenced.Some? ==> FindBoot(FenceBoots(boots, fenced.value, at), id).None? == FindBoot(boots, id).None?
      decreases |boots|
    {
      if boots != [] && fenced.Some? {
        var n := |boots| - 1;
        assert FenceBoots(boots, fenced.value, at)[..n] == FenceBoots(boots[..n], fenced.value, at);
        FenceKeepsIds(boots[..n], fenced, at, id);
      }
    }

    /** BEGIN, classify, write, COMMIT; any throw rolls every row back. */
    method IngestReport(e: Envelope, endpoint: Endpoint, clock: Time) returns (outcome: Outcome)
      requires |e.events| > 0
      modifies this
      ensures (Rows(), outcome) == Ingest(old(Rows()), e, endpoint, clock, leaseTtl)
    {
      hide Commit, Classify;
      if e.instanceId != instanceId { return Refused(Problem(InvalidSignature, None)); }
      if !PetsSupported(e) { return Refused(Problem(ReportSemanticsInvalid, None)); }
      var verdict := ClassifyReport(e, endpoint);
      match verdict
      case Refuse(problem) => return Refused(problem);
      case Replay(ack) => return Acked(ack);
      case Accept(newBoot, generation) =>
        var saved := Rows();
        var at := NextServerReceivedAt(clock, head);
        var ok := CommitReport(e, newBoot, generation, at);
        if !ok {
          Rollback(saved);
          return Refused(Problem(InternalError, None));
        }
        return Acked(AckOf(instanceId, e.bootId, LastSequence(e), at, at + leaseTtl));
    }

    method Rollback(saved: Tables)
      requires saved.instanceId == instanceId
      modifies this
      ensures Rows() == saved
    {
      head, boots, receipts, fingerprints := saved.head, saved.boots, saved.receipts, saved.fingerprints;
      presence, intervals := saved.ledger.presence, saved.ledger.intervals;
      agentPet, nextReceiptId := saved.agentPet, saved.nextReceiptId;
    }

    /** One sweeper transaction; true when it closed a lease. */
    method ExpireOneLease(now: Time) returns (expired: bool)
      modifies this
      ensures Rows() == ExpireLease(old(Rows()), now)
      ensures expired ==> old(presence).Some? && old(presence).value.leaseClosedAt.None?
                          && presence == Some(old(presence).value.(leaseClosedAt := Some(old(presence).value.leaseExpiresAt)))
    {
      if presence.None? || presence.value.leaseClosedAt.Some? || presence.value.leaseExpiresAt > now { return false; }
      var saved := Rows();
      var ok := CloseOpenActivityInterval(presence.value.leaseExpiresAt, presence.value.snapshot.lastAcceptedSequence, LeaseExpired);
      if !ok {
        Rollback(saved);
        return false;
      }
      presence := Some(presence.value.(leaseClosedAt := Some(presence.value.leaseExpiresAt)));
      return true;
    }
  }
}

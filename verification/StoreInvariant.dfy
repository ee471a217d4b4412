/** What every ingest and every sweep keeps, for any client: one fenced boot chain, receipts that tile it, no dead end. */
module StoreInvariant {
  import opened Status
  import opened EdgeWire
  import opened PresenceLedger
  import opened LedgerRefinement
  import opened IngestTables

  /** The accepted reports in order. */
  datatype Entry = Entry(envelope: Envelope, at: Time)

  function Reports(history: seq<Entry>): (log: seq<Accepted>)
    ensures |log| == |history|
  {
    seq(|history|, i requires 0 <= i < |history| => Accepted(history[i].at, history[i].envelope.events))
  }

  // ---------------------------------------------------------------- the invariant

  predicate BootLinks(boots: seq<Boot>, i: nat)
    requires i < |boots|
  {
    && boots[i].generation == i + 1
    && boots[i].previousBootId == (if i == 0 then None else Some(boots[i - 1].bootId))
    && (boots[i].fencedAt.None? <==> i == |boots| - 1)
    && 1 <= boots[i].nextSequence <= MAX_SAFE_SEQUENCE + 1
  }

  predicate DistinctBoots(boots: seq<Boot>) {
    forall i, j {:trigger boots[i], boots[j]} :: 0 <= i < j < |boots| ==> boots[i].bootId != boots[j].bootId
  }

  /** One linear chain with generations 1..n; the head names its end; only the end is not fenced. */
  predicate ChainValid(t: Tables) {
    && t.head.currentGeneration == |t.boots| <= MAX_SAFE_SEQUENCE
    && t.head.currentBootId == (if t.boots == [] then None else Some(t.boots[|t.boots| - 1].bootId))
    && (forall i :: 0 <= i < |t.boots| ==> BootLinks(t.boots, i))
    && DistinctBoots(t.boots)
  }

  predicate ReceiptFits(r: Receipt, boot: Boot) {
    && r.generation == boot.generation
    && r.bootId == boot.bootId == r.payload.bootId
    && r.payload.previousBootId == boot.previousBootId
    && r.firstSequence == r.payload.firstSequence
    && r.lastSequence == LastSequence(r.payload)
    && 1 <= r.firstSequence <= r.lastSequence <= MAX_SAFE_SEQUENCE
    && Contiguous(r.payload)
  }

  /** Receipts are contiguous from `first` up to but excluding `next`. */
  predicate Tile(receipts: seq<Receipt>, next: int) {
    if receipts == [] then next == 1
    else
      var r := receipts[|receipts| - 1];
      r.lastSequence + 1 == next && Tile(receipts[..|receipts| - 1], r.firstSequence)
  }

  /** The stored receipts all belong to the current boot and tile exactly [1, next). */
  predicate ReceiptsValid(t: Tables) {
    && (t.boots == [] ==> t.receipts == [])
    && (t.boots != [] ==>
          var boot := t.boots[|t.boots| - 1];
          && t.receipts != []
          && (forall i :: 0 <= i < |t.receipts| ==> ReceiptFits(t.receipts[i], boot))
          && Tile(t.receipts, boot.nextSequence))
    && (forall i :: 0 <= i < |t.receipts| ==> t.receipts[i].id < t.nextReceiptId)
  }

  predicate RangeOfPayload(r: Receipt) {
    r.firstSequence == r.payload.firstSequence && r.lastSequence == LastSequence(r.payload)
  }

  predicate Fingerprinted(fingerprints: map<(nat, nat), Fingerprint>, r: Receipt)
    requires RangeOfPayload(r)
  {
    forall s: nat :: r.firstSequence <= s <= r.lastSequence ==>
      && (r.generation, s) in fingerprints
      && fingerprints[(r.generation, s)] == Fingerprint(r.id, EventAt(r.payload, s))
  }

  ghost predicate FingerprintsFor(fingerprints: map<(nat, nat), Fingerprint>, receipts: seq<Receipt>, generation: nat, next: int) {
    && (forall k :: k in fingerprints ==> k.0 == generation && 1 <= k.1 < next)
    && (forall i :: 0 <= i < |receipts| ==> RangeOfPayload(receipts[i]) && Fingerprinted(fingerprints, receipts[i]))
  }

  function NextOf(boots: seq<Boot>): nat {
    if boots == [] then 1 else boots[|boots| - 1].nextSequence
  }

  /** There is a fingerprint for exactly the accepted sequences of the current boot, each from its receipt. */
  ghost predicate FingerprintsValid(t: Tables) {
    FingerprintsFor(t.fingerprints, t.receipts, |t.boots|, NextOf(t.boots))
  }

  predicate PresenceLinked(t: Tables) {
    && (t.ledger.presence.None? <==> t.boots == [])
    && (t.boots != [] ==>
          var boot := t.boots[|t.boots| - 1];
          && t.ledger.presence.value.generation == boot.generation
          && t.ledger.presence.value.bootId == boot.bootId
          && t.ledger.presence.value.snapshot.lastAcceptedSequence + 1 == boot.nextSequence
          && t.head.lastServerReceivedAt == Some(t.ledger.presence.value.lastReportReceivedAt))
    && (t.boots == [] ==> t.head.lastServerReceivedAt.None?)
  }

  /** The receipts are the accepted reports of the current boot: the tail of the history. */
  predicate ReceiptsAreTail(receipts: seq<Receipt>, history: seq<Entry>, ttl: int) {
    && |receipts| <= |history|
    && forall i :: 0 <= i < |receipts| ==>
         && receipts[i].payload == history[|history| - |receipts| + i].envelope
         && receipts[i].serverReceivedAt == history[|history| - |receipts| + i].at
         && receipts[i].leaseExpiresAt == receipts[i].serverReceivedAt + ttl
  }

  ghost predicate StoreValid(t: Tables, history: seq<Entry>, ttl: int) {
    && ttl > 0
    && ChainValid(t)
    && ReceiptsValid(t)
    && FingerprintsValid(t)
    && PresenceLinked(t)
    && ReceiptsAreTail(t.receipts, history, ttl)
    && Refines(t.ledger, Reports(history), ttl)
  }

  /** The clock the database reads is not behind a lease expiry it has already acted on. */
  predicate ClockPast(t: Tables, clock: Time) {
    t.ledger.presence.Some? && t.ledger.presence.value.leaseClosedAt.Some? ==>
      t.ledger.presence.value.leaseExpiresAt <= clock
  }

  lemma {:induction false} EmptyIsValid(instanceId: Uuid, ttl: int)
    requires ttl > 0
    ensures StoreValid(EmptyTables(instanceId), [], ttl)
  {
  }

  // ---------------------------------------------------------------- lookups

  lemma {:induction false} FindBootCorrect(boots: seq<Boot>, id: Uuid)
    ensures FindBoot(boots, id).None? ==> forall i :: 0 <= i < |boots| ==> boots[i].bootId != id
    ensures FindBoot(boots, id).Some? ==>
              exists i :: 0 <= i < |boots| && boots[i] == FindBoot(boots, id).value && boots[i].bootId == id
  {
    if boots != [] && boots[|boots| - 1].bootId != id {
      var rest := boots[..|boots| - 1];
      FindBootCorrect(rest, id);
      if FindBoot(boots, id).Some? {
        var i :| 0 <= i < |rest| && rest[i] == FindBoot(rest, id).value && rest[i].bootId == id;
        assert boots[i] == rest[i];
      } else {
        forall i | 0 <= i < |boots| ensures boots[i].bootId != id {
          if i < |rest| { assert boots[i] == rest[i]; }
        }
      }
    }
  }

  /** The head always resolves to the end of the chain. */
  lemma {:induction false} FindCurrent(t: Tables)
    requires ChainValid(t) && t.boots != []
    ensures FindBoot(t.boots, t.head.currentBootId.value) == Some(t.boots[|t.boots| - 1])
  {
  }

  lemma {:induction false} FindReceiptCorrect(receipts: seq<Receipt>, generation: nat, first: nat, last: int)
    ensures var r := FindReceipt(receipts, generation, first, last);
      && (r.Some? ==> exists i :: 0 <= i < |receipts| && receipts[i] == r.value
                        && receipts[i].generation == generation && receipts[i].firstSequence == first && receipts[i].lastSequence == last)
      && (r.None? ==> forall i :: 0 <= i < |receipts| ==>
            !(receipts[i].generation == generation && receipts[i].firstSequence == first && receipts[i].lastSequence == last))
  {
    if receipts != [] {
      var n := |receipts| - 1;
      var rest := receipts[..n];
      FindReceiptCorrect(rest, generation, first, last);
      if !(receipts[n].generation == generation && receipts[n].firstSequence == first && receipts[n].lastSequence == last) {
        if FindReceipt(rest, generation, first, last).Some? {
          var i :| 0 <= i < |rest| && rest[i] == FindReceipt(rest, generation, first, last).value
                   && rest[i].generation == generation && rest[i].firstSequence == first && rest[i].lastSequence == last;
          assert receipts[i] == rest[i];
        } else {
          forall i | 0 <= i < |receipts|
            ensures !(receipts[i].generation == generation && receipts[i].firstSequence == first && receipts[i].lastSequence == last)
          {
            if i < n { assert receipts[i] == rest[i]; }
          }
        }
      }
    }
  }

  /** Tiling means every sequence below `next` lies in exactly one receipt. */
  lemma {:induction false} TileCovers(receipts: seq<Receipt>, next: int, s: int)
    requires Tile(receipts, next)
    requires forall i :: 0 <= i < |receipts| ==> 1 <= receipts[i].firstSequence <= receipts[i].lastSequence
    requires 1 <= s < next
    ensures exists i :: 0 <= i < |receipts| && receipts[i].firstSequence <= s <= receipts[i].lastSequence
  {
    var n := |receipts| - 1;
    if s >= receipts[n].firstSequence {
      assert receipts[n].firstSequence <= s <= receipts[n].lastSequence;
    } else {
      TileCovers(receipts[..n], receipts[n].firstSequence, s);
      var i :| 0 <= i < |receipts[..n]| && receipts[..n][i].firstSequence <= s <= receipts[..n][i].lastSequence;
      assert receipts[i] == receipts[..n][i];
    }
  }

  lemma {:induction false} TileBelow(receipts: seq<Receipt>, next: int, i: nat)
    requires Tile(receipts, next) && i < |receipts|
    requires forall k :: 0 <= k < |receipts| ==> 1 <= receipts[k].firstSequence <= receipts[k].lastSequence
    ensures receipts[i].lastSequence < next
  {
    var n := |receipts| - 1;
    if i < n {
      assert receipts[i] == receipts[..n][i];
      TileBelow(receipts[..n], receipts[n].firstSequence, i);
    }
  }

  lemma {:induction false} TileApart(receipts: seq<Receipt>, next: int, i: nat, j: nat)
    requires Tile(receipts, next) && i < j < |receipts|
    requires forall k :: 0 <= k < |receipts| ==> 1 <= receipts[k].firstSequence <= receipts[k].lastSequence
    ensures receipts[i].lastSequence < receipts[j].firstSequence
  {
    var n := |receipts| - 1;
    var rest := receipts[..n];
    assert receipts[i] == rest[i];
    if j < n {
      assert receipts[j] == rest[j];
      TileApart(rest, receipts[n].firstSequence, i, j);
    } else {
      TileBelow(rest, receipts[n].firstSequence, i);
    }
  }

  // ---------------------------------------------------------------- late batches

  /** An accepted event of the current boot differs from the one the batch gives the same sequence. */
  predicate ContradictsReceipt(r: Receipt, e: Envelope) {
    exists s: nat :: && r.payload.firstSequence <= s <= LastSequence(r.payload)
                     && e.firstSequence <= s <= LastSequence(e)
                     && EventAt(r.payload, s) != EventAt(e, s)
  }

  predicate SameRange(r: Receipt, e: Envelope) {
    r.firstSequence == e.firstSequence && r.lastSequence == LastSequence(e)
  }

  predicate Contradicts(receipts: seq<Receipt>, e: Envelope) {
    exists i :: 0 <= i < |receipts| && ContradictsReceipt(receipts[i], e)
  }

  predicate Repeats(receipts: seq<Receipt>, e: Envelope) {
    exists i :: 0 <= i < |receipts| && receipts[i].payload == e
  }

  predicate RangeTaken(receipts: seq<Receipt>, e: Envelope) {
    exists i :: 0 <= i < |receipts| && SameRange(receipts[i], e)
  }

  predicate IsLate(t: Tables, e: Envelope) {
    && t.boots != []
    && t.head.currentBootId == Some(e.bootId)
    && e.previousBootId == t.boots[|t.boots| - 1].previousBootId
    && e.firstSequence < t.boots[|t.boots| - 1].nextSequence
  }

  lemma {:induction false} DifferenceIsContradiction(t: Tables, e: Envelope)
    requires ChainValid(t) && ReceiptsValid(t) && FingerprintsValid(t) && t.boots != []
    ensures AnyDifference(t.fingerprints, |t.boots|, e) <==> Contradicts(t.receipts, e)
  {
    if AnyDifference(t.fingerprints, |t.boots|, e) {
      var s: nat :| e.firstSequence <= s <= LastSequence(e) && (|t.boots|, s) in t.fingerprints
                    && t.fingerprints[(|t.boots|, s)].event != EventAt(e, s);
      var i := AcceptedIn(t, s);
      assert ContradictsReceipt(t.receipts[i], e);
    }
    if Contradicts(t.receipts, e) {
      var i :| 0 <= i < |t.receipts| && ContradictsReceipt(t.receipts[i], e);
      var r := t.receipts[i];
      assert ReceiptFits(r, t.boots[|t.boots| - 1]) && Fingerprinted(t.fingerprints, r);
      assert BootLinks(t.boots, |t.boots| - 1);
      var s: nat :| r.payload.firstSequence <= s <= LastSequence(r.payload) && e.firstSequence <= s <= LastSequence(e)
                    && EventAt(r.payload, s) != EventAt(e, s);
      assert (|t.boots|, s) in t.fingerprints;
    }
  }

  /** The receipt that accepted sequence s of the current boot; its fingerprint is that receipt's event. */
  lemma {:induction false} AcceptedIn(t: Tables, s: nat) returns (i: nat)
    requires ChainValid(t) && ReceiptsValid(t) && FingerprintsValid(t) && t.boots != []
    requires 1 <= s < t.boots[|t.boots| - 1].nextSequence
    ensures i < |t.receipts| && RangeOfPayload(t.receipts[i])
    ensures t.receipts[i].firstSequence <= s <= t.receipts[i].lastSequence
    ensures (|t.boots|, s) in t.fingerprints
      && t.fingerprints[(|t.boots|, s)] == Fingerprint(t.receipts[i].id, EventAt(t.receipts[i].payload, s))
  {
    var boot := t.boots[|t.boots| - 1];
    assert BootLinks(t.boots, |t.boots| - 1);
    assert forall i :: 0 <= i < |t.receipts| ==> ReceiptFits(t.receipts[i], boot);
    TileCovers(t.receipts, boot.nextSequence, s);
    i :| 0 <= i < |t.receipts| && t.receipts[i].firstSequence <= s <= t.receipts[i].lastSequence;
    assert ReceiptFits(t.receipts[i], boot) && Fingerprinted(t.fingerprints, t.receipts[i]);
  }

  /**
   A batch below the next sequence of the current boot is an exact replay answered with the original
   acknowledgement, a conflict, or an overlap; each exactly when the accepted reports say so, and the
   "internally inconsistent" answer never comes.
   */
  lemma {:induction false} LateBatch(t: Tables, history: seq<Entry>, ttl: int, e: Envelope, endpoint: Endpoint)
    requires StoreValid(t, history, ttl) && Prepared(e, endpoint) && IsLate(t, e)
    ensures var v := Classify(t, e, endpoint);
      && (v.Replay? <==> Repeats(t.receipts, e))
      && (v.Replay? ==> AcknowledgedBy(t, e, v.ack))
      && (!v.Replay? ==>
            v == Refuse(SequenceProblem(
              if RangeTaken(t.receipts, e) || Contradicts(t.receipts, e) then SequenceConflict else SequenceOverlap,
              t.boots[|t.boots| - 1].nextSequence)))
  {
    FindCurrent(t);
    var boot := t.boots[|t.boots| - 1];
    assert BootLinks(t.boots, |t.boots| - 1);
    FoundInRange(t, e);
    if Repeats(t.receipts, e) {
      RepeatIsFound(t, e);
    } else {
      var _ := AcceptedIn(t, e.firstSequence);
      DifferenceIsContradiction(t, e);
    }
  }

  predicate AcknowledgedBy(t: Tables, e: Envelope, ack: Ack) {
    exists i :: 0 <= i < |t.receipts| && t.receipts[i].payload == e
      && t.receipts[i].lastSequence >= 0 && ack == AckFromReceipt(t.instanceId, t.receipts[i])
  }

  lemma {:induction false} FoundInRange(t: Tables, e: Envelope)
    requires ChainValid(t) && ReceiptsValid(t) && t.boots != []
    ensures var found := FindReceipt(t.receipts, |t.boots|, e.firstSequence, LastSequence(e));
      && (found.Some? <==> RangeTaken(t.receipts, e))
      && (found.Some? ==> exists i :: 0 <= i < |t.receipts| && t.receipts[i] == found.value && SameRange(t.receipts[i], e)
                                      && ReceiptFits(t.receipts[i], t.boots[|t.boots| - 1]))
  {
    var found := FindReceipt(t.receipts, |t.boots|, e.firstSequence, LastSequence(e));
    FindReceiptCorrect(t.receipts, |t.boots|, e.firstSequence, LastSequence(e));
    assert BootLinks(t.boots, |t.boots| - 1);
    if RangeTaken(t.receipts, e) {
      var i :| 0 <= i < |t.receipts| && SameRange(t.receipts[i], e);
      assert ReceiptFits(t.receipts[i], t.boots[|t.boots| - 1]);
    }
    if found.Some? {
      var i :| 0 <= i < |t.receipts| && t.receipts[i] == found.value && SameRange(t.receipts[i], e);
      assert ReceiptFits(t.receipts[i], t.boots[|t.boots| - 1]);
    }
  }

  /** Two receipts never share a range, so the one looked up is the repeated one. */
  lemma {:induction false} RepeatIsFound(t: Tables, e: Envelope)
    requires ChainValid(t) && ReceiptsValid(t) && t.boots != [] && Repeats(t.receipts, e)
    ensures var found := FindReceipt(t.receipts, |t.boots|, e.firstSequence, LastSequence(e));
            found.Some? && found.value.payload == e
  {
    FoundInRange(t, e);
    var boot := t.boots[|t.boots| - 1];
    var i :| 0 <= i < |t.receipts| && t.receipts[i].payload == e;
    assert ReceiptFits(t.receipts[i], boot);
    assert SameRange(t.receipts[i], e);
    var found := FindReceipt(t.receipts, |t.boots|, e.firstSequence, LastSequence(e)).value;
    var j :| 0 <= j < |t.receipts| && t.receipts[j] == found && SameRange(t.receipts[j], e) && ReceiptFits(t.receipts[j], boot);
    if i < j { TileApart(t.receipts, boot.nextSequence, i, j); }
    if j < i { TileApart(t.receipts, boot.nextSequence, j, i); }
  }

  // ---------------------------------------------------------------- accepting

  /** The tables just before a receipt is stored: the current boot is the envelope's and awaits its first sequence. */
  ghost predicate Ready(t: Tables, e: Envelope, generation: nat) {
    && ChainValid(t)
    && t.boots != []
    && generation == |t.boots|
    && FingerprintsValid(t)
    && (forall i :: 0 <= i < |t.receipts| ==> t.receipts[i].id < t.nextReceiptId)
    && var boot := t.boots[|t.boots| - 1];
       && boot.bootId == e.bootId
       && boot.previousBootId == e.previousBootId
       && boot.nextSequence == e.firstSequence
       && Tile(t.receipts, boot.nextSequence)
       && (forall i :: 0 <= i < |t.receipts| ==> ReceiptFits(t.receipts[i], boot))
  }

  lemma {:induction false} OthersOfOwn(receipts: seq<Receipt>, bootId: Uuid)
    requires forall i :: 0 <= i < |receipts| ==> receipts[i].bootId == bootId
    ensures ReceiptsOfOthers(receipts, bootId) == []
  {
    if receipts != [] { OthersOfOwn(receipts[..|receipts| - 1], bootId); }
  }

  /** Everything stored belongs to the current boot, so fencing it leaves no replay material behind. */
  lemma {:induction false} ScrubEmpties(t: Tables)
    requires ChainValid(t) && ReceiptsValid(t) && t.boots != []
    ensures ReceiptsOfOthers(t.receipts, t.head.currentBootId.value) == []
    ensures CascadeFingerprints(t.fingerprints, []) == map[]
  {
    assert forall i :: 0 <= i < |t.receipts| ==> ReceiptFits(t.receipts[i], t.boots[|t.boots| - 1]);
    OthersOfOwn(t.receipts, t.head.currentBootId.value);
  }

  function ExtendedChain(t: Tables, e: Envelope, at: Time): seq<Boot> {
    (if t.head.currentBootId.Some? then FenceBoots(t.boots, t.head.currentBootId.value, at) else t.boots)
    + [Boot(e.bootId, e.previousBootId, |t.boots| + 1, 1, at, at, None)]
  }

  lemma {:induction false} ChainGrows(t: Tables, e: Envelope, at: Time)
    requires ChainValid(t) && |t.boots| < MAX_SAFE_SEQUENCE
    requires FindBoot(t.boots, e.bootId).None? && e.previousBootId == t.head.currentBootId
    ensures var boots := ExtendedChain(t, e, at);
      && DistinctBoots(boots)
      && (forall i :: 0 <= i < |boots| ==> BootLinks(boots, i))
  {
    FindBootCorrect(t.boots, e.bootId);
    var boots := ExtendedChain(t, e, at);
    forall i | 0 <= i < |boots| ensures BootLinks(boots, i) {
      if i < |t.boots| {
        assert BootLinks(t.boots, i);
        assert boots[i].bootId == t.boots[i].bootId;
        if i > 0 { assert boots[i - 1].bootId == t.boots[i - 1].bootId; }
        if i < |t.boots| - 1 { assert t.boots[i].bootId != t.boots[|t.boots| - 1].bootId; }
      } else if i > 0 {
        assert boots[i - 1].bootId == t.boots[i - 1].bootId;
      }
    }
  }

  lemma {:induction false} StartBootReady(t: Tables, history: seq<Entry>, ttl: int, e: Envelope, endpoint: Endpoint, generation: nat, at: Time)
    requires StoreValid(t, history, ttl) && Prepared(e, endpoint)
    requires Classify(t, e, endpoint) == Accept(true, generation)
    ensures var started := StartBoot(t, e, generation, at);
      && started.Some?
      && Ready(started.value, e, generation)
      && started.value.receipts == []
      && started.value.ledger == t.ledger
      && started.value.instanceId == t.instanceId
      && started.value.nextReceiptId == t.nextReceiptId
    ensures e.events[0].StateTransition? && e.firstSequence == 1
    ensures t.head.currentBootId != Some(e.bootId) && e.previousBootId == t.head.currentBootId
  {
    if t.boots != [] {
      FindCurrent(t);
      ScrubEmpties(t);
    }
    ChainGrows(t, e, at);
    var started := StartBoot(t, e, generation, at).value;
    assert started.receipts == [] && started.fingerprints == map[];
    assert started.boots == ExtendedChain(t, e, at);
  }

  /**
   A rollover fences the boot that was current, at the receive time, and nothing else: every other boot row stays as it
   was, its own fence included. The successor's row is the newest one, unfenced, and expects its first report.
   */
  lemma {:induction false} OnlyTheCurrentIsFenced(t: Tables, history: seq<Entry>, ttl: int, e: Envelope, endpoint: Endpoint,
                                                  generation: nat, at: Time)
    requires StoreValid(t, history, ttl) && Prepared(e, endpoint)
    requires Classify(t, e, endpoint) == Accept(true, generation)
    ensures var started := StartBoot(t, e, generation, at);
      && started.Some?
      && started.value.boots ==
           (if t.boots == [] then [] else
              t.boots[..|t.boots| - 1] + [t.boots[|t.boots| - 1].(fencedAt := Some(at))])
           + [Boot(e.bootId, e.previousBootId, |t.boots| + 1, 1, at, at, None)]
  {
    StartBootReady(t, history, ttl, e, endpoint, generation, at);
    var last := |t.boots| - 1;
    if t.boots != [] {
      assert BootLinks(t.boots, last);
      forall i | 0 <= i < last
        ensures FenceBoots(t.boots, t.boots[last].bootId, at)[i] == t.boots[i]
      {
        assert t.boots[i].bootId != t.boots[last].bootId;
      }
      assert FenceBoots(t.boots, t.boots[last].bootId, at)
          == t.boots[..last] + [t.boots[last].(fencedAt := Some(at))];
    }
  }

  lemma {:induction false} NextIsReady(t: Tables, history: seq<Entry>, ttl: int, e: Envelope, endpoint: Endpoint, generation: nat)
    requires StoreValid(t, history, ttl) && Prepared(e, endpoint)
    requires Classify(t, e, endpoint) == Accept(false, generation)
    ensures Ready(t, e, generation) && t.head.currentBootId == Some(e.bootId)
  {
    FindCurrent(t);
    assert BootLinks(t.boots, |t.boots| - 1);
    if e.firstSequence < t.boots[|t.boots| - 1].nextSequence { LateBatch(t, history, ttl, e, endpoint); }
  }

  /** Storing the receipt of a ready report cannot collide, and extends tiling and fingerprints. */
  lemma {:induction false} StoreReady(t: Tables, e: Envelope, endpoint: Endpoint, generation: nat, at: Time, ttl: int)
    requires Ready(t, e, generation) && Prepared(e, endpoint)
    ensures StoreReceipt(t, e, generation, at, at + ttl).Some?
    ensures StoredWell(Stored(t, e, generation, at, ttl), e, generation)
  {
    NoCollision(t, e, generation);
    AdvanceKeepsChain(t, generation, LastSequence(e) + 1, at);
    assert BootLinks(t.boots, |t.boots| - 1);
    StoredReceipts(t, e, endpoint, generation, at, ttl);
    StoredFingerprints(t, e, endpoint, generation, at, ttl);
    hide ReceiptsValid, FingerprintsValid, Ready;
  }

  lemma {:induction false} StoredReceipts(t: Tables, e: Envelope, endpoint: Endpoint, generation: nat, at: Time, ttl: int)
    requires Ready(t, e, generation) && Prepared(e, endpoint)
    requires StoreReceipt(t, e, generation, at, at + ttl).Some?
    ensures ReceiptsValid(Stored(t, e, generation, at, ttl))
  {
    hide FingerprintsValid, NewFingerprints;
    AdvanceKeepsChain(t, generation, LastSequence(e) + 1, at);
    var done := Stored(t, e, generation, at, ttl);
    var boot := done.boots[|done.boots| - 1];
    assert BootLinks(t.boots, |t.boots| - 1);
    assert done.receipts[..|done.receipts| - 1] == t.receipts;
    forall i | 0 <= i < |done.receipts| ensures ReceiptFits(done.receipts[i], boot) {
      if i < |t.receipts| { assert ReceiptFits(t.receipts[i], t.boots[|t.boots| - 1]); }
    }
  }

  lemma {:induction false} StoredFingerprints(t: Tables, e: Envelope, endpoint: Endpoint, generation: nat, at: Time, ttl: int)
    requires Ready(t, e, generation) && Prepared(e, endpoint)
    requires StoreReceipt(t, e, generation, at, at + ttl).Some?
    ensures FingerprintsValid(Stored(t, e, generation, at, ttl))
  {
    var boot := t.boots[|t.boots| - 1];
    assert BootLinks(t.boots, |t.boots| - 1);
    AdvanceKeepsChain(t, generation, LastSequence(e) + 1, at);
    forall i | 0 <= i < |t.receipts|
      ensures t.receipts[i].generation == generation && 1 <= t.receipts[i].firstSequence
      ensures t.receipts[i].lastSequence < boot.nextSequence
    {
      assert ReceiptFits(t.receipts[i], boot);
      TileBelow(t.receipts, boot.nextSequence, i);
    }
    var r := Receipt(t.nextReceiptId, generation, e.bootId, e.firstSequence, LastSequence(e), e, at, at + ttl);
    FingerprintsGrow(t.fingerprints, t.receipts, r, boot.nextSequence);
    hide FingerprintsFor, ChainValid, Tile, ReceiptFits;
  }

  ghost predicate StoredWell(done: Tables, e: Envelope, generation: nat) {
    && ChainValid(done) && ReceiptsValid(done) && FingerprintsValid(done)
    && |done.boots| == generation >= 1
    && done.boots[generation - 1].nextSequence == LastSequence(e) + 1
    && done.boots[generation - 1].bootId == e.bootId
    && done.boots[generation - 1].generation == generation
  }

  /** The tables once the receipt is stored and its boot advanced. */
  function Stored(t: Tables, e: Envelope, generation: nat, at: Time, ttl: int): Tables
    requires |e.events| > 0 && StoreReceipt(t, e, generation, at, at + ttl).Some?
  {
    var stored := StoreReceipt(t, e, generation, at, at + ttl).value;
    stored.(boots := AdvanceBoots(stored.boots, generation, LastSequence(e) + 1, at))
  }

  lemma {:induction false} NoCollision(t: Tables, e: Envelope, generation: nat)
    requires Ready(t, e, generation) && |e.events| > 0
    ensures !AnyFingerprint(t.fingerprints, generation, e.firstSequence, LastSequence(e))
    ensures FindReceipt(t.receipts, generation, e.firstSequence, LastSequence(e)).None?
  {
    FindReceiptCorrect(t.receipts, generation, e.firstSequence, LastSequence(e));
    if FindReceipt(t.receipts, generation, e.firstSequence, LastSequence(e)).Some? {
      var i :| 0 <= i < |t.receipts| && t.receipts[i].firstSequence == e.firstSequence && t.receipts[i].lastSequence == LastSequence(e);
      TileBelow(t.receipts, t.boots[|t.boots| - 1].nextSequence, i);
    }
  }

  lemma {:induction false} AdvanceKeepsChain(t: Tables, generation: nat, next: nat, at: Time)
    requires ChainValid(t) && t.boots != [] && generation == |t.boots| && 1 <= next <= MAX_SAFE_SEQUENCE + 1
    ensures ChainValid(t.(boots := AdvanceBoots(t.boots, generation, next, at)))
    ensures AdvanceBoots(t.boots, generation, next, at)
      == t.boots[..|t.boots| - 1] + [t.boots[|t.boots| - 1].(nextSequence := next, lastAcceptedAt := at)]
  {
    var advanced := AdvanceBoots(t.boots, generation, next, at);
    forall i | 0 <= i < |t.boots|
      ensures advanced[i] == if i == |t.boots| - 1 then t.boots[i].(nextSequence := next, lastAcceptedAt := at) else t.boots[i]
    {
      assert BootLinks(t.boots, i);
    }
    forall i | 0 <= i < |advanced| ensures BootLinks(advanced, i) {
      assert BootLinks(t.boots, i);
    }
  }

  lemma {:induction false} FingerprintsGrow(fingerprints: map<(nat, nat), Fingerprint>, receipts: seq<Receipt>, r: Receipt, next: nat)
    requires FingerprintsFor(fingerprints, receipts, r.generation, next)
    requires forall i :: 0 <= i < |receipts| ==>
               receipts[i].generation == r.generation && 1 <= receipts[i].firstSequence && receipts[i].lastSequence < next
    requires RangeOfPayload(r) && 1 <= next == r.firstSequence <= r.lastSequence
    ensures FingerprintsFor(fingerprints + NewFingerprints(r.payload, r.generation, r.id), receipts + [r], r.generation, r.lastSequence + 1)
  {
    var added := NewFingerprints(r.payload, r.generation, r.id);
    var grown := fingerprints + added;
    var all := receipts + [r];
    forall i | 0 <= i < |all| ensures RangeOfPayload(all[i]) && Fingerprinted(grown, all[i]) {
      if i < |receipts| {
        var earlier := receipts[i];
        forall s: nat | earlier.firstSequence <= s <= earlier.lastSequence
          ensures (r.generation, s) in grown && grown[(r.generation, s)] == Fingerprint(earlier.id, EventAt(earlier.payload, s))
        {
          assert (r.generation, s) in fingerprints && (r.generation, s) !in added;
        }
      } else {
        forall s: nat | r.firstSequence <= s <= r.lastSequence
          ensures (r.generation, s) in grown && grown[(r.generation, s)] == Fingerprint(r.id, EventAt(r.payload, s))
        {
          assert (r.generation, s) in added;
        }
      }
    }
  }

  /** Which report the tables accept next: the next of the current boot, or the first of a successor. */
  lemma {:induction false} AcceptIsReady(t: Tables, history: seq<Entry>, ttl: int, e: Envelope, endpoint: Endpoint,
                                         newBoot: bool, generation: nat, at: Time)
    requires StoreValid(t, history, ttl) && Prepared(e, endpoint)
    requires Classify(t, e, endpoint) == Accept(newBoot, generation)
    ensures var started := if newBoot then StartBoot(t, e, generation, at) else Some(t);
      && started.Some?
      && Ready(started.value, e, generation)
      && started.value.receipts == (if newBoot then [] else t.receipts)
      && started.value.instanceId == t.instanceId
      && started.value.nextReceiptId == t.nextReceiptId
    ensures Extends(t.ledger, newBoot, generation, e.events, e.firstSequence)
  {
    if newBoot {
      StartBootReady(t, history, ttl, e, endpoint, generation, at);
    } else {
      NextIsReady(t, history, ttl, e, endpoint, generation);
      assert BootLinks(t.boots, |t.boots| - 1);
    }
  }

  /** The committed tables, part by part. */
  ghost predicate CommittedAs(next: Tables, t: Tables, e: Envelope, newBoot: bool, generation: nat, at: Time, ttl: int) {
    && next.head.currentBootId == Some(e.bootId)
    && next.instanceId == t.instanceId
    && |next.boots| == generation >= 1
    && next.boots[generation - 1].nextSequence == LastSequence(e) + 1
    && next.boots[generation - 1].previousBootId == e.previousBootId
    && next.receipts == (if newBoot then [] else t.receipts)
         + [Receipt(t.nextReceiptId, generation, e.bootId, e.firstSequence, LastSequence(e), e, at, at + ttl)]
    && next.ledger.presence.Some?
    && next.ledger.presence.value.leaseClosedAt.None?
    && next.ledger.presence.value.lastReportReceivedAt == at
  }

  /**
   An accepted report commits: it cannot collide with stored rows or roll back, the boot chain stays linear,
   the receipts tile the current boot, and the ledger refines the longer history.
   */
  lemma {:induction false} CommitValid(t: Tables, history: seq<Entry>, ttl: int, e: Envelope, endpoint: Endpoint,
                                       newBoot: bool, generation: nat, clock: Time)
    requires StoreValid(t, history, ttl) && Prepared(e, endpoint) && ClockPast(t, clock)
    requires Classify(t, e, endpoint) == Accept(newBoot, generation)
    ensures var at := NextServerReceivedAt(clock, t.head);
            var next := Commit(t, e, newBoot, generation, at, ttl);
      && next.Some?
      && StoreValid(next.value, history + [Entry(e, at)], ttl)
      && CommittedAs(next.value, t, e, newBoot, generation, at, ttl)
  {
    hide Record, StartBoot, StoreReceipt, Stored, Commit, Classify, Ready, StoredWell, Refines, ChainValid, ReceiptsValid,
      FingerprintsValid, CommittedAs, Extends;
    var at := NextServerReceivedAt(clock, t.head);
    AcceptIsReady(t, history, ttl, e, endpoint, newBoot, generation, at);
    var started := (if newBoot then StartBoot(t, e, generation, at) else Some(t)).value;
    StoreReady(started, e, endpoint, generation, at, ttl);
    ReceivedAtReached(t, history, ttl, clock);
    RecordRefines(t.ledger, Reports(history), ttl, newBoot, generation, e.bootId, e.events, e.firstSequence, at);
    var done := Stored(started, e, generation, at, ttl);
    CommitUnfolds(t, started, e, newBoot, generation, at, ttl);
    var next := Commit(t, e, newBoot, generation, at, ttl).value;
    PartsAreValid(next, done, t, started, history, ttl, e, newBoot, generation, at);
  }

  /** The server time given to a report is past the last report and past any expiry already acted on. */
  lemma {:induction false} ReceivedAtReached(t: Tables, history: seq<Entry>, ttl: int, clock: Time)
    requires StoreValid(t, history, ttl) && ClockPast(t, clock)
    ensures ClockReached(t.ledger, NextServerReceivedAt(clock, t.head))
  {
  }

  lemma {:induction false} CommitUnfolds(t: Tables, started: Tables, e: Envelope, newBoot: bool, generation: nat, at: Time, ttl: int)
    requires |e.events| > 0
    requires (if newBoot then StartBoot(t, e, generation, at) else Some(t)) == Some(started)
    requires StoreReceipt(started, e, generation, at, at + ttl).Some?
    requires Record(t.ledger, newBoot, generation, e.bootId, e.events, at, at + ttl).Some?
    ensures Commit(t, e, newBoot, generation, at, ttl).Some?
    ensures var next := Commit(t, e, newBoot, generation, at, ttl).value;
            var done := Stored(started, e, generation, at, ttl);
      && next == done.(head := done.head.(lastServerReceivedAt := Some(at)), ledger := next.ledger, agentPet := next.agentPet)
      && next.ledger == Record(t.ledger, newBoot, generation, e.bootId, e.events, at, at + ttl).value
  {
  }

  lemma {:induction false} TailGrows(receipts: seq<Receipt>, history: seq<Entry>, ttl: int, keep: bool, r: Receipt)
    requires ReceiptsAreTail(receipts, history, ttl)
    requires r.leaseExpiresAt == r.serverReceivedAt + ttl
    ensures ReceiptsAreTail((if keep then receipts else []) + [r], history + [Entry(r.payload, r.serverReceivedAt)], ttl)
  {
  }

  lemma {:induction false} PartsAreValid(next: Tables, done: Tables, t: Tables, started: Tables, history: seq<Entry>, ttl: int,
                                         e: Envelope, newBoot: bool, generation: nat, at: Time)
    requires ttl > 0 && generation >= 1 && |e.events| > 0
    requires ReceiptsAreTail(t.receipts, history, ttl)
    requires Ready(started, e, generation)
    requires started.receipts == (if newBoot then [] else t.receipts)
    requires started.instanceId == t.instanceId && started.nextReceiptId == t.nextReceiptId
    requires StoreReceipt(started, e, generation, at, at + ttl).Some? && done == Stored(started, e, generation, at, ttl)
    requires StoredWell(done, e, generation)
    requires next == done.(head := done.head.(lastServerReceivedAt := Some(at)), ledger := next.ledger, agentPet := next.agentPet)
    requires RecordedAs(next.ledger, Reports(history) + [Accepted(at, e.events)], ttl, generation, e.bootId, LastSequence(e))
    ensures StoreValid(next, history + [Entry(e, at)], ttl)
    ensures CommittedAs(next, t, e, newBoot, generation, at, ttl)
  {
    assert Reports(history + [Entry(e, at)]) == Reports(history) + [Accepted(at, e.events)];
    var r := Receipt(t.nextReceiptId, generation, e.bootId, e.firstSequence, LastSequence(e), e, at, at + ttl);
    assert next.receipts == (if newBoot then [] else t.receipts) + [r];
    TailGrows(t.receipts, history, ttl, !newBoot, r);
    AdvanceKeepsChain(started, generation, LastSequence(e) + 1, at);
    assert next.boots == done.boots && next.receipts == done.receipts && next.fingerprints == done.fingerprints;
    assert forall i :: 0 <= i < |next.boots| ==> BootLinks(done.boots, i);
  }

  predicate Accepts(t: Tables, e: Envelope, endpoint: Endpoint)
    requires |e.events| > 0
  {
    e.instanceId == t.instanceId && PetsSupported(e) && Classify(t, e, endpoint).Accept?
  }

  /** Refusals and replays change nothing, and are never the internal error. */
  lemma {:induction false} IngestRefuses(t: Tables, history: seq<Entry>, ttl: int, e: Envelope, endpoint: Endpoint, clock: Time)
    requires StoreValid(t, history, ttl) && Prepared(e, endpoint)
    requires !Accepts(t, e, endpoint)
    ensures Ingest(t, e, endpoint, clock, ttl).0 == t
    ensures Ingest(t, e, endpoint, clock, ttl).1 != Refused(Problem(InternalError, None))
  {
    if t.boots != [] { FindCurrent(t); }
    if IsLate(t, e) { LateBatch(t, history, ttl, e, endpoint); }
  }

  lemma {:induction false} IngestAccepts(t: Tables, history: seq<Entry>, ttl: int, e: Envelope, endpoint: Endpoint, clock: Time)
    requires StoreValid(t, history, ttl) && Prepared(e, endpoint) && ClockPast(t, clock)
    requires Accepts(t, e, endpoint)
    ensures var (next, outcome) := Ingest(t, e, endpoint, clock, ttl);
            var at := NextServerReceivedAt(clock, t.head);
      && StoreValid(next, history + [Entry(e, at)], ttl)
      && CommittedAs(next, t, e, Classify(t, e, endpoint).newBoot, Classify(t, e, endpoint).generation, at, ttl)
      && outcome == Acked(AckOf(t.instanceId, e.bootId, LastSequence(e), at, at + ttl))
  {
    hide Commit, StoreValid, CommittedAs;
    var v := Classify(t, e, endpoint);
    CommitValid(t, history, ttl, e, endpoint, v.newBoot, v.generation, clock);
  }

  /**
   For any client and any prepared report: the store stays valid, a refusal or a replay changes nothing,
   and the internal error is unreachable.
   */
  lemma {:induction false} IngestValid(t: Tables, history: seq<Entry>, ttl: int, e: Envelope, endpoint: Endpoint, clock: Time)
    requires StoreValid(t, history, ttl) && Prepared(e, endpoint) && ClockPast(t, clock)
    ensures var (next, outcome) := Ingest(t, e, endpoint, clock, ttl);
            var at := NextServerReceivedAt(clock, t.head);
      && outcome != Refused(Problem(InternalError, None))
      && (Accepts(t, e, endpoint) ==>
            && StoreValid(next, history + [Entry(e, at)], ttl)
            && next.receipts != [] && next.receipts[|next.receipts| - 1].lastSequence >= 0
            && outcome == Acked(AckFromReceipt(next.instanceId, next.receipts[|next.receipts| - 1])))
      && (!Accepts(t, e, endpoint) ==> next == t)
  {
    if Accepts(t, e, endpoint) {
      IngestAccepts(t, history, ttl, e, endpoint, clock);
    } else {
      IngestRefuses(t, history, ttl, e, endpoint, clock);
    }
  }

  /** The sweeper touches the ledger only, and never past what the history implies. */
  lemma {:induction false} ExpireValid(t: Tables, history: seq<Entry>, ttl: int, now: Time)
    requires StoreValid(t, history, ttl) && ClockPast(t, now)
    requires t.ledger.presence.Some? ==> t.ledger.presence.value.lastReportReceivedAt <= now
    ensures StoreValid(ExpireLease(t, now), history, ttl)
    ensures ExpireLease(t, now) == t.(ledger := ExpireLease(t, now).ledger)
    ensures Sweep(t.ledger, now).Some? && ClockPast(ExpireLease(t, now), now)
  {
    SweepRefines(t.ledger, Reports(history), ttl, now);
  }
}

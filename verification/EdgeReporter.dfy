/** The reporter as the object it is: fields updated in place, files written between them. */
module EdgeReporter {
  import opened Status
  import opened EdgeWire
  import opened ReporterSteps

  class DataDirectory {
    var config: Option<Config>
    var outbox: Option<Envelope>

    constructor (config: Option<Config>, outbox: Option<Envelope>)
      ensures Contents() == Disk(config, outbox)
    {
      this.config, this.outbox := config, outbox;
    }

    function Contents(): Disk
      reads this
    {
      Disk(config, outbox)
    }
  }

  class EdgeReporter {
    const files: DataDirectory
    var config: Config
    var bootId: Uuid
    var previousBootId: Option<Uuid>
    var nextSequence: nat
    var established: bool
    var pending: Option<Envelope>

    function View(): Reporter
      reads this
    {
      Reporter(config, bootId, previousBootId, nextSequence, established, pending)
    }

    constructor Load(files: DataDirectory, freshBootId: Uuid)
      requires files.config.Some?
      ensures this.files == files
      ensures Some(View()) == LoadStep(files.Contents(), freshBootId)
    {
      this.files := files;
      config := files.config.value;
      established := false;
      pending := files.outbox;
      if files.outbox.Some? {
        var e := files.outbox.value;
        bootId, previousBootId, nextSequence := e.bootId, e.previousBootId, e.firstSequence + |e.events|;
      } else {
        bootId, previousBootId, nextSequence := freshBootId, files.config.value.lastAcceptedBootId, 1;
      }
    }

    method CreatePending(event: EdgeEvent, stamp: Stamp, writeOk: bool) returns (ok: bool)
      modifies this`pending, files`outbox
      ensures (View(), files.Contents(), ok) == CreateStep(old(View()), old(files.Contents()), event, stamp, writeOk)
    {
      if pending.Some? { return false; }
      var e := Envelope(config.instanceId, config.keyId, bootId, previousBootId, event.sequence, [event],
                        stamp.sentAt, stamp.clientVersion, stamp.signature);
      if !writeOk { return false; }
      files.outbox := Some(e);
      pending := Some(e);
      return true;
    }

    method AcceptAck(e: Envelope, ack: Ack, freshBootId: Uuid, fault: Fault) returns (result: AckResult)
      requires |e.events| > 0
      modifies this, files
      ensures (View(), files.Contents(), result)
           == AckStep(old(View()), old(files.Contents()), e, ack, freshBootId, fault)
    {
      var acceptedThrough := e.firstSequence + |e.events| - 1;
      if ack.instanceId != config.instanceId || ack.bootId != bootId || ack.acceptedThrough != acceptedThrough
         || ack.currentProtocol < PROTOCOL_VERSION || ack.minSupportedProtocol > PROTOCOL_VERSION
      {
        return AckInvalid;
      }
      nextSequence := acceptedThrough + 1;
      established := true;
      config := config.(lastAcceptedBootId := Some(bootId));
      if fault.ConfigReadFails? { return StorageFailed; }
      if files.config.None? || !SameConnection(files.config.value, config) {
        if fault.OutboxDeleteFails? { return StorageFailed; }
        files.outbox := None;
        pending := None;
        return ConnectionSuperseded;
      }
      if fault.ConfigWriteFails? { return StorageFailed; }
      files.config := Some(config);
      if fault.OutboxDeleteFails? { return StorageFailed; }
      files.outbox := None;
      pending := None;
      if nextSequence > MAX_EVENTS_PER_BOOT {
        previousBootId := Some(bootId);
        bootId := freshBootId;
        nextSequence := 1;
        established := false;
      }
      return AckAccepted;
    }

    method FlushPending(x: Exchange) returns (result: FlushResult)
      modifies this, files
      ensures (View(), files.Contents(), result) == FlushStep(old(View()), old(files.Contents()), x)
    {
      if pending.None? { return NothingPending; }
      if x.answer.None? || |pending.value.events| == 0 { return FlushFailed; }
      var outcome := AcceptAck(pending.value, x.answer.value, x.freshBootId, x.fault);
      return if outcome.AckAccepted? then Acknowledged else FlushFailed;
    }

    method PublishState(display: DisplayState, activity: ActivityState, petId: string, stamp: Stamp,
                        first: Exchange, writeOk: bool, second: Exchange) returns (ok: bool)
      modifies this, files
      ensures (View(), files.Contents(), ok)
           == PublishStep(old(View()), old(files.Contents()), display, activity, petId, stamp, first, writeOk, second)
    {
      hide AckStep;
      if petId !in SUPPORTED_PETS { return false; }
      var pendingMatches := PendingMatches(View(), display, activity, petId);
      var flushed := FlushPending(first);
      if flushed.FlushFailed? { return false; }
      if flushed.Acknowledged? && pendingMatches { return true; }
      var created := CreatePending(StateEvent(nextSequence, display, activity, petId, stamp), stamp, writeOk);
      if !created { return false; }
      var sent := FlushPending(second);
      return sent.Acknowledged?;
    }

    method SendHeartbeat(stamp: Stamp, first: Exchange, writeOk: bool, second: Exchange) returns (ok: bool)
      modifies this, files
      ensures (View(), files.Contents(), ok)
           == HeartbeatStep(old(View()), old(files.Contents()), stamp, first, writeOk, second)
    {
      hide AckStep;
      if !established && pending.None? { return true; }
      var flushed := FlushPending(first);
      if !flushed.NothingPending? { return flushed.Acknowledged?; }
      if !established { return true; }
      var created := CreatePending(Heartbeat(nextSequence, stamp.observedAt), stamp, writeOk);
      if !created { return false; }
      var sent := FlushPending(second);
      return sent.Acknowledged?;
    }
  }
}

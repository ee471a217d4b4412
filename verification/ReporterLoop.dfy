/**
 The desktop's reporting loop around one reporter: when it thinks the latest state still has to be sent, and when that
 flag can be wrong. Network answers, storage faults and loading are inputs of each turn.
 */
module ReporterLoop {
  import opened Status
  import opened EdgeWire
  import opened ReporterSteps
  import EdgeReporter

  /** A state as the server is told it. */
  datatype Sent = Sent(display: DisplayState, activity: ActivityState, petId: string)

  datatype Snapshot = Snapshot(display: DisplayState, activity: ActivityState)

  /** `delivered` is the state of the last acknowledged envelope that carried one. */
  datatype Loop = Loop(
    reporter: Option<Reporter>,
    disk: Disk,
    latest: Option<Snapshot>,
    petId: string,
    needsSend: bool,
    delivered: Option<Sent>)

  /** What the network, the clock and the disk do during one publish or heartbeat. */
  datatype Net = Net(stamp: Stamp, first: Exchange, writeOk: bool, second: Exchange)

  /** What loading the connection finds: nothing, or a reporter with this fresh boot id. */
  datatype Loading = LoadFails | Loads(freshBootId: Uuid)

  datatype Command =
    | SnapshotChanged(snapshot: Snapshot, net: Net)
    | PetSelected(petId: string, net: Net)
    | ReloadConnection(disk: Disk, loading: Loading, net: Net)
    | Timeout(loading: Loading, net: Net, heartbeat: Net)

  // ---------------------------------------------------------------- what gets acknowledged

  function StateIn(e: Envelope): Option<Sent> {
    if e.events == [] || e.events[|e.events| - 1].Heartbeat? then None
    else
      var last := e.events[|e.events| - 1];
      Some(Sent(last.displayState, last.activityState, last.petId))
  }

  function AfterFlush(d: Option<Sent>, r: Reporter, disk: Disk, x: Exchange): Option<Sent> {
    if FlushStep(r, disk, x).2.Acknowledged? && r.pending.Some? && StateIn(r.pending.value).Some?
    then StateIn(r.pending.value) else d
  }

  function AfterPublish(d: Option<Sent>, r: Reporter, disk: Disk, s: Sent, n: Net): Option<Sent> {
    if s.petId !in SUPPORTED_PETS then d
    else
      var d1 := AfterFlush(d, r, disk, n.first);
      var (r1, disk1, flushed) := FlushStep(r, disk, n.first);
      if flushed.FlushFailed? || (flushed.Acknowledged? && PendingMatches(r, s.display, s.activity, s.petId)) then d1
      else
        var event := StateEvent(r1.nextSequence, s.display, s.activity, s.petId, n.stamp);
        var (r2, disk2, created) := CreateStep(r1, disk1, event, n.stamp, n.writeOk);
        if created then AfterFlush(d1, r2, disk2, n.second) else d1
  }

  function AfterHeartbeat(d: Option<Sent>, r: Reporter, disk: Disk, n: Net): Option<Sent> {
    if !r.established && r.pending.None? then d
    else if r.pending.Some? then AfterFlush(d, r, disk, n.first)
    else d
  }

  // ---------------------------------------------------------------- turns of the loop

  function Target(l: Loop): Sent
    requires l.latest.Some?
  {
    Sent(l.latest.value.display, l.latest.value.activity, l.petId)
  }

  function TryPublish(l: Loop, n: Net): (Loop, bool)
    requires l.reporter.Some? && l.latest.Some?
  {
    var s := Target(l);
    var (r, disk, ok) := PublishStep(l.reporter.value, l.disk, s.display, s.activity, s.petId, n.stamp, n.first, n.writeOk, n.second);
    (l.(reporter := Some(r), disk := disk,
        delivered := AfterPublish(l.delivered, l.reporter.value, l.disk, s, n),
        needsSend := if ok then RequiresStateSnapshot(r) else l.needsSend),
     ok)
  }

  function PublishIfPossible(l: Loop, n: Net): Loop {
    if l.reporter.Some? && l.latest.Some? then TryPublish(l, n).0 else l
  }

  function TryHeartbeat(l: Loop, n: Net): (Loop, bool)
    requires l.reporter.Some?
  {
    var (r, disk, ok) := HeartbeatStep(l.reporter.value, l.disk, n.stamp, n.first, n.writeOk, n.second);
    (l.(reporter := Some(r), disk := disk,
        delivered := AfterHeartbeat(l.delivered, l.reporter.value, l.disk, n),
        needsSend := if ok then RequiresStateSnapshot(r) else l.needsSend),
     ok)
  }

  function Load(l: Loop, loading: Loading): Option<Reporter> {
    if loading.LoadFails? then None else LoadStep(l.disk, loading.freshBootId)
  }

  /** The loop as the timeout turn finds it after trying to load a missing reporter. */
  function Reloaded(l: Loop, loading: Loading): Loop {
    if l.reporter.Some? then l else l.(reporter := Load(l, loading), needsSend := l.latest.Some?)
  }

  /** The timeout turn up to its heartbeat, and whether it published. */
  function TimeoutPublish(l: Loop, loading: Loading, n: Net): (Loop, bool) {
    var loaded := Reloaded(l, loading);
    if loaded.reporter.Some? && loaded.needsSend && loaded.latest.Some? then TryPublish(loaded, n) else (loaded, false)
  }

  function Turn(l: Loop, c: Command): Loop {
    match c
    case SnapshotChanged(snapshot, n) => PublishIfPossible(l.(latest := Some(snapshot), needsSend := true), n)
    case PetSelected(petId, n) => PublishIfPossible(l.(petId := petId, needsSend := true), n)
    case ReloadConnection(disk, loading, n) =>
      var moved := l.(disk := disk);
      PublishIfPossible(moved.(reporter := Load(moved, loading), needsSend := l.latest.Some?), n)
    case Timeout(loading, n, heartbeat) =>
      var (tried, sent) := TimeoutPublish(l, loading, n);
      if sent || tried.reporter.None? then tried else TryHeartbeat(tried, heartbeat).0
  }

  // ---------------------------------------------------------------- is the latest state delivered?

  predicate NoStatePending(r: Reporter) {
    r.pending.Some? ==> StateIn(r.pending.value).None?
  }

  /** With nothing left to send, the last delivered state is the latest one and no other is on its way. */
  predicate Delivered(l: Loop) {
    l.reporter.Some? && l.latest.Some? && !l.needsSend ==>
      l.delivered == Some(Target(l)) && NoStatePending(l.reporter.value)
  }

  /** The exchange brings the acknowledgement of this boot up to `last`, and both files can be written. */
  predicate Confirms(r: Reporter, disk: Disk, last: int, x: Exchange) {
    && x.answer.Some? && x.fault.NoFault?
    && disk.config.Some? && SameConnection(disk.config.value, r.config)
    && var ack := x.answer.value;
       && ack.instanceId == r.config.instanceId && ack.bootId == r.bootId && ack.acceptedThrough == last
       && ack.minSupportedProtocol <= PROTOCOL_VERSION <= ack.currentProtocol
  }

  /** What the server was told last once the envelope is acknowledged. */
  function Told(before: Option<Sent>, e: Envelope): Option<Sent> {
    if StateIn(e).Some? then StateIn(e) else before
  }

  /**
   With envelope e in the outbox: either it is acknowledged by the heartbeat only, or it is acknowledged at once, the
   envelope of the latest state cannot be written, and a heartbeat after it is acknowledged.
   */
  predicate OvertakenByHeartbeat(l: Loop, r: Reporter, e: Envelope, n: Net, heartbeat: Net)
    requires l.latest.Some?
  {
    var last := LastSequence(e);
    var flushed := l.petId in SUPPORTED_PETS && Confirms(r, l.disk, last, n.first);
    && e.events != [] && Told(l.delivered, e) != Some(Target(l))
    && if !flushed then last < MAX_EVENTS_PER_BOOT && Confirms(r, l.disk, last, heartbeat.first)
       else !n.writeOk && HeartbeatAlone(r, l.disk, last + 1, heartbeat)
  }

  /** A heartbeat with this sequence is written and acknowledged, and does not end the boot. */
  predicate HeartbeatAlone(r: Reporter, disk: Disk, sequence: int, heartbeat: Net) {
    sequence < MAX_EVENTS_PER_BOOT && heartbeat.writeOk && Confirms(r, disk, sequence, heartbeat.second)
  }

  /**
   The timeout turns that lose the mark, told from the turn's inputs alone: the latest state is not what the server was
   told, no envelope of it reaches the outbox, and the heartbeat's own acknowledgement arrives within the boot.
   */
  predicate Forgets(l: Loop, c: Command) {
    && c.Timeout? && l.latest.Some? && (l.reporter.Some? ==> l.needsSend)
    && var loaded := if l.reporter.Some? then l.reporter else Load(l, c.loading);
       && loaded.Some?
       && var r := loaded.value;
          match r.pending
          case Some(e) => OvertakenByHeartbeat(l, r, e, c.net, c.heartbeat)
          case None =>
            && r.established && l.delivered != Some(Target(l))
            && (l.petId !in SUPPORTED_PETS || !c.net.writeOk)
            && HeartbeatAlone(r, l.disk, r.nextSequence, c.heartbeat)
  }

  lemma {:induction false} FlushedIsGone(r: Reporter, disk: Disk, x: Exchange)
    ensures var (r', disk', result) := FlushStep(r, disk, x);
      && (!result.FlushFailed? ==> r'.pending.None?)
      && (result.NothingPending? <==> r.pending.None?)
      && (result.NothingPending? ==> r' == r && disk' == disk)
      && (r'.pending.Some? ==> r'.pending == r.pending)
  {
  }

  lemma {:induction false} MatchingIsState(r: Reporter, s: Sent)
    ensures PendingMatches(r, s.display, s.activity, s.petId) <==> r.pending.Some? && StateIn(r.pending.value) == Some(s)
  {
  }

  /** A successful publish delivers exactly the latest state and leaves nothing pending. */
  lemma {:induction false} PublishDelivers(l: Loop, n: Net)
    requires l.reporter.Some? && l.latest.Some? && TryPublish(l, n).1
    ensures var l' := TryPublish(l, n).0;
      l'.delivered == Some(Target(l)) && l'.reporter.Some? && l'.reporter.value.pending.None? && Target(l') == Target(l)
  {
    hide FlushStep;
    var r, s := l.reporter.value, Target(l);
    FlushedIsGone(r, l.disk, n.first);
    MatchingIsState(r, s);
    var (r1, disk1, flushed) := FlushStep(r, l.disk, n.first);
    if !(flushed.Acknowledged? && PendingMatches(r, s.display, s.activity, s.petId)) {
      var event := StateEvent(r1.nextSequence, s.display, s.activity, s.petId, n.stamp);
      var (r2, disk2, created) := CreateStep(r1, disk1, event, n.stamp, n.writeOk);
      FlushedIsGone(r2, disk2, n.second);
      assert StateIn(r2.pending.value) == Some(s);
    }
  }

  /** A heartbeat delivers a state only by flushing one that was pending, and creates none. */
  lemma {:induction false} HeartbeatDelivers(l: Loop, n: Net)
    requires l.reporter.Some?
    ensures var (l', ok) := TryHeartbeat(l, n);
      && l'.reporter.Some? && l'.latest == l.latest && l'.petId == l.petId
      && (ok ==> l'.reporter.value.pending.None?)
      && (NoStatePending(l.reporter.value) ==> l'.delivered == l.delivered && NoStatePending(l'.reporter.value))
      && (ok && !NoStatePending(l.reporter.value) ==> l'.delivered == StateIn(l.reporter.value.pending.value))
      && (!ok ==> l'.needsSend == l.needsSend)
  {
    hide FlushStep;
    var r := l.reporter.value;
    FlushedIsGone(r, l.disk, n.first);
    var (r1, disk1, flushed) := FlushStep(r, l.disk, n.first);
    var (r2, disk2, created) := CreateStep(r1, disk1, Heartbeat(r1.nextSequence, n.stamp.observedAt), n.stamp, n.writeOk);
    FlushedIsGone(r2, disk2, n.second);
  }

  lemma {:induction false} PublishIfPossibleDelivers(l: Loop, n: Net)
    requires l.needsSend || l.latest.None?
    ensures Delivered(PublishIfPossible(l, n))
  {
    hide PublishStep, AfterPublish;
    if l.reporter.Some? && l.latest.Some? && TryPublish(l, n).1 { PublishDelivers(l, n); }
  }

  /** When a flush succeeds, and what it leaves. */
  lemma {:induction false} FlushConfirms(r: Reporter, disk: Disk, x: Exchange)
    requires r.pending.Some?
    ensures var (r', disk', result) := FlushStep(r, disk, x);
            var e := r.pending.value;
      && (result.Acknowledged? <==> e.events != [] && Confirms(r, disk, LastSequence(e), x))
      && (result.Acknowledged? ==>
            && r'.config == r.config.(lastAcceptedBootId := Some(r.bootId)) && disk'.config == Some(r'.config)
            && r'.established == (LastSequence(e) < MAX_EVENTS_PER_BOOT)
            && (r'.established ==> r'.bootId == r.bootId && r'.nextSequence == LastSequence(e) + 1))
  {
  }

  /** A flush that fails leaves the envelope for the next one, unless the connection was superseded. */
  lemma {:induction false} FlushRetries(r: Reporter, disk: Disk, x: Exchange)
    requires r.pending.Some? && !FlushStep(r, disk, x).2.Acknowledged?
    ensures var (r', disk', _) := FlushStep(r, disk, x);
      && (forall last, y :: Confirms(r', disk', last, y) <==> Confirms(r, disk, last, y))
      && (r'.pending == r.pending
          || (r'.pending.None? && r'.established && forall last, y :: !Confirms(r', disk', last, y)))
  {
  }

  /** The heartbeat of a reporter with nothing pending succeeds when it is written and acknowledged, or not due. */
  lemma {:induction false} HeartbeatConfirms(r: Reporter, disk: Disk, n: Net)
    ensures var (r', _, ok) := HeartbeatStep(r, disk, n.stamp, n.first, n.writeOk, n.second);
      && (r.pending.None? && !r.established ==> ok && RequiresStateSnapshot(r'))
      && (r.pending.None? && r.established ==>
            (ok && !RequiresStateSnapshot(r') <==> HeartbeatAlone(r, disk, r.nextSequence, n)))
      && (r.pending.Some? ==>
            (ok && !RequiresStateSnapshot(r')
             <==> r.pending.value.events != [] && Confirms(r, disk, LastSequence(r.pending.value), n.first)
                  && LastSequence(r.pending.value) < MAX_EVENTS_PER_BOOT))
  {
    hide FlushStep, Confirms;
    FlushedIsGone(r, disk, n.first);
    if r.pending.Some? {
      FlushConfirms(r, disk, n.first);
    } else if r.established {
      var (r2, disk2, created) := CreateStep(r, disk, Heartbeat(r.nextSequence, n.stamp.observedAt), n.stamp, n.writeOk);
      if created {
        FlushConfirms(r2, disk2, n.second);
        FlushedIsGone(r2, disk2, n.second);
        SameConfirms(r, disk, r2, disk2, r.nextSequence, n.second);
      }
    }
  }

  lemma {:induction false} SameConfirms(r: Reporter, disk: Disk, r': Reporter, disk': Disk, last: int, x: Exchange)
    requires r'.bootId == r.bootId && r'.config.(lastAcceptedBootId := None) == r.config.(lastAcceptedBootId := None)
    requires disk.config == disk'.config || (disk.config.Some? && SameConnection(disk.config.value, r.config) && disk'.config == Some(r'.config))
    ensures Confirms(r', disk', last, x) <==> Confirms(r, disk, last, x)
  {
  }

  /** What a failed publish leaves for the heartbeat, by case. */
  lemma {:induction false} FailedPublish(l: Loop, n: Net)
    requires l.reporter.Some? && l.latest.Some? && !TryPublish(l, n).1
    ensures var r, r' := l.reporter.value, TryPublish(l, n).0.reporter.value;
            var disk' := TryPublish(l, n).0.disk;
            var delivered' := TryPublish(l, n).0.delivered;
            var s, write := Target(l), l.petId in SUPPORTED_PETS && n.writeOk;
      match r.pending
      case None =>
        if !write then r' == r && disk' == l.disk && delivered' == l.delivered
        else PendingIs(r', s) || Stranded(r', disk')
      case Some(e) =>
        if !(l.petId in SUPPORTED_PETS && e.events != [] && Confirms(r, l.disk, LastSequence(e), n.first)) then
          delivered' == l.delivered
          && ((r'.pending == r.pending && forall last, y :: Confirms(r', disk', last, y) <==> Confirms(r, l.disk, last, y))
              || (Stranded(r', disk') && forall last, y :: !Confirms(r, l.disk, last, y)))
        else if n.writeOk then PendingIs(r', s) || Stranded(r', disk')
        else
          && r'.pending.None? && delivered' == Told(l.delivered, e) && StateIn(e) != Some(s)
          && (r'.established <==> LastSequence(e) < MAX_EVENTS_PER_BOOT)
          && (r'.established ==> r'.nextSequence == LastSequence(e) + 1)
          && (r'.established ==> forall last, y :: Confirms(r', disk', last, y) <==> Confirms(r, l.disk, last, y))
  {
    hide FlushStep, Confirms;
    var r, s := l.reporter.value, Target(l);
    if s.petId in SUPPORTED_PETS {
      FlushedIsGone(r, l.disk, n.first);
      MatchingIsState(r, s);
      var (r1, disk1, flushed) := FlushStep(r, l.disk, n.first);
      if r.pending.Some? {
        FlushConfirms(r, l.disk, n.first);
        if !flushed.Acknowledged? { FlushRetries(r, l.disk, n.first); }
        else if r1.established {
          ConfirmedConnection(r, l.disk, LastSequence(r.pending.value), n.first);
          forall last, y ensures Confirms(r1, disk1, last, y) <==> Confirms(r, l.disk, last, y) {
            SameConfirms(r, l.disk, r1, disk1, last, y);
          }
        }
      }
      if !flushed.FlushFailed? && n.writeOk {
        var event := StateEvent(r1.nextSequence, s.display, s.activity, s.petId, n.stamp);
        var (r2, disk2, created) := CreateStep(r1, disk1, event, n.stamp, n.writeOk);
        assert StateIn(r2.pending.value) == Some(s);
        if !FlushStep(r2, disk2, n.second).2.Acknowledged? { FlushRetries(r2, disk2, n.second); }
      }
    }
  }

  lemma {:induction false} ConfirmedConnection(r: Reporter, disk: Disk, last: int, x: Exchange)
    requires Confirms(r, disk, last, x)
    ensures disk.config.Some? && SameConnection(disk.config.value, r.config)
  {
  }

  predicate PendingIs(r: Reporter, s: Sent) {
    r.pending.Some? && StateIn(r.pending.value) == Some(s)
  }

  /** The connection was superseded: no acknowledgement can be accepted any more. */
  ghost predicate Stranded(r: Reporter, disk: Disk) {
    r.pending.None? && r.established && forall last, y :: !Confirms(r, disk, last, y)
  }

  /** Whether the heartbeat that follows a failed publish loses the mark. */
  predicate HeartbeatForgets(tried: Loop, heartbeat: Net)
    requires tried.reporter.Some? && tried.latest.Some?
  {
    var r, s := tried.reporter.value, Target(tried);
    match r.pending
    case Some(e) =>
      && e.events != [] && Confirms(r, tried.disk, LastSequence(e), heartbeat.first)
      && LastSequence(e) < MAX_EVENTS_PER_BOOT && Told(tried.delivered, e) != Some(s)
    case None => r.established && HeartbeatAlone(r, tried.disk, r.nextSequence, heartbeat) && tried.delivered != Some(s)
  }

  lemma {:induction false} HeartbeatTurn(tried: Loop, heartbeat: Net)
    requires tried.reporter.Some? && tried.latest.Some? && tried.needsSend
    ensures Delivered(TryHeartbeat(tried, heartbeat).0) <==> !HeartbeatForgets(tried, heartbeat)
  {
    hide HeartbeatStep, AfterHeartbeat, Confirms;
    HeartbeatConfirms(tried.reporter.value, tried.disk, heartbeat);
    HeartbeatDelivers(tried, heartbeat);
  }

  lemma {:induction false} FailedPublishForgets(l: Loop, loading: Loading, n: Net, heartbeat: Net)
    requires l.reporter.Some? && l.latest.Some? && l.needsSend && !TryPublish(l, n).1
    ensures HeartbeatForgets(TryPublish(l, n).0, heartbeat) <==> Forgets(l, Timeout(loading, n, heartbeat))
  {
    hide PublishStep, AfterPublish, Confirms;
    FailedPublish(l, n);
  }

  lemma {:induction false} ReloadedForgets(l: Loop, loading: Loading, n: Net, heartbeat: Net)
    requires Reloaded(l, loading).reporter.Some?
    ensures Forgets(l, Timeout(loading, n, heartbeat)) <==> Forgets(Reloaded(l, loading), Timeout(loading, n, heartbeat))
  {
    hide Confirms;
  }

  lemma {:induction false} TimeoutDelivers(l: Loop, loading: Loading, n: Net, heartbeat: Net)
    requires Delivered(l)
    ensures Delivered(Turn(l, Timeout(loading, n, heartbeat))) <==> !Forgets(l, Timeout(loading, n, heartbeat))
  {
    hide PublishStep, HeartbeatStep, AfterPublish, AfterHeartbeat, OvertakenByHeartbeat, HeartbeatAlone;
    var loaded := Reloaded(l, loading);
    if loaded.reporter.Some? {
      ReloadedForgets(l, loading, n, heartbeat);
      if loaded.needsSend && loaded.latest.Some? {
        if TryPublish(loaded, n).1 {
          PublishDelivers(loaded, n);
          PublishedIsNotForgotten(loaded, loading, n, heartbeat);
        } else {
          FailedPublishForgets(loaded, loading, n, heartbeat);
          HeartbeatTurn(TryPublish(loaded, n).0, heartbeat);
        }
      } else {
        HeartbeatDelivers(loaded, heartbeat);
      }
    }
  }

  lemma {:induction false} PublishedIsNotForgotten(l: Loop, loading: Loading, n: Net, heartbeat: Net)
    requires l.reporter.Some? && l.latest.Some? && TryPublish(l, n).1
    ensures !Forgets(l, Timeout(loading, n, heartbeat))
  {
    hide FlushStep, Confirms, AfterPublish;
    var r, s := l.reporter.value, Target(l);
    FlushedIsGone(r, l.disk, n.first);
    MatchingIsState(r, s);
    if r.pending.Some? {
      FlushConfirms(r, l.disk, n.first);
      var e := r.pending.value;
      assert s.petId in SUPPORTED_PETS && FlushStep(r, l.disk, n.first).2.Acknowledged?;
      assert n.writeOk || Told(l.delivered, e) == Some(s);
      assert !OvertakenByHeartbeat(l, r, e, n, heartbeat);
    }
  }

  /** One turn keeps the latest state delivered exactly when its inputs do not make it forget. */
  lemma {:induction false} TurnDelivers(l: Loop, c: Command)
    requires Delivered(l)
    ensures Delivered(Turn(l, c)) <==> !Forgets(l, c)
  {
    match c
    case SnapshotChanged(snapshot, n) =>
      hide PublishIfPossible;
      PublishIfPossibleDelivers(l.(latest := Some(snapshot), needsSend := true), n);
    case PetSelected(petId, n) =>
      hide PublishIfPossible;
      PublishIfPossibleDelivers(l.(petId := petId, needsSend := true), n);
    case ReloadConnection(disk, loading, n) =>
      hide PublishIfPossible;
      var moved := l.(disk := disk);
      PublishIfPossibleDelivers(moved.(reporter := Load(moved, loading), needsSend := l.latest.Some?), n);
    case Timeout(loading, n, heartbeat) =>
      hide Turn, Forgets, Delivered;
      TimeoutDelivers(l, loading, n, heartbeat);
  }

  /** A reload leaves the old connection: the reporter and whatever it goes on to send are of the one on the new disk. */
  lemma {:induction false} ReloadTakesTheNewConnection(l: Loop, disk: Disk, loading: Loading, n: Net)
    ensures var l' := Turn(l, ReloadConnection(disk, loading, n));
      && (l'.reporter.Some? <==> loading.Loads? && disk.config.Some?)
      && (l'.reporter.Some? ==> SameConnection(l'.reporter.value.config, disk.config.value))
      && (l'.reporter.Some? && l'.reporter.value.pending.Some? && l'.reporter.value.pending != disk.outbox ==>
            l'.reporter.value.pending.value.instanceId == disk.config.value.instanceId
            && l'.reporter.value.pending.value.keyId == disk.config.value.keyId)
  {
    var moved := l.(disk := disk);
    var loaded := moved.(reporter := Load(moved, loading), needsSend := l.latest.Some?);
    if loaded.reporter.Some? && l.latest.Some? {
      PublishKeepsConnection(loaded.reporter.value, disk, Target(loaded), n);
    }
  }

  lemma {:induction false} PublishKeepsConnection(r: Reporter, disk: Disk, s: Sent, n: Net)
    ensures var r' := PublishStep(r, disk, s.display, s.activity, s.petId, n.stamp, n.first, n.writeOk, n.second).0;
      && SameConnection(r'.config, r.config)
      && (r'.pending.Some? && r'.pending != r.pending ==>
            r'.pending.value.instanceId == r.config.instanceId && r'.pending.value.keyId == r.config.keyId)
  {
    if s.petId in SUPPORTED_PETS {
      var (r1, disk1, _) := FlushStep(r, disk, n.first);
      var event := StateEvent(r1.nextSequence, s.display, s.activity, s.petId, n.stamp);
      var (r2, disk2, _) := CreateStep(r1, disk1, event, n.stamp, n.writeOk);
      assert r1.pending.Some? ==> r1.pending == r.pending;
      assert SameConnection(r1.config, r.config) && r2.config == r1.config;
      assert SameConnection(FlushStep(r2, disk2, n.second).0.config, r2.config);
    }
  }

  // ---------------------------------------------------------------- every run

  function Play(l: Loop, commands: seq<Command>): Loop {
    if commands == [] then l else Turn(Play(l, commands[..|commands| - 1]), commands[|commands| - 1])
  }

  predicate NeverForgets(l: Loop, commands: seq<Command>) {
    commands == []
    || (NeverForgets(l, commands[..|commands| - 1])
        && !Forgets(Play(l, commands[..|commands| - 1]), commands[|commands| - 1]))
  }

  /** In every run from the loop's start without such a turn, nothing left to send means that the latest state arrived. */
  lemma {:induction false} LatestStateArrives(l: Loop, commands: seq<Command>)
    requires l.latest.None? && !l.needsSend && NeverForgets(l, commands)
    ensures Delivered(Play(l, commands))
  {
    hide Turn, Forgets;
    if commands != [] {
      LatestStateArrives(l, commands[..|commands| - 1]);
      TurnDelivers(Play(l, commands[..|commands| - 1]), commands[|commands| - 1]);
    }
  }

  const SampleConfig := Config("server", "instance", "key", None)

  const SampleStamp := Stamp("t", "t", "1", "s")

  const NoAnswer := Exchange(None, "next", NoFault)

  const AckOne := Exchange(Some(Ack(1, 1, "instance", "boot", 1, 0, 90_000)), "next", NoFault)

  const Unanswered := Net(SampleStamp, NoAnswer, true, NoAnswer)

  /** The loop at its start, with a freshly loaded reporter. */
  const SampleStart := Loop(Some(Reporter(SampleConfig, "boot", None, 1, false, None)), Disk(Some(SampleConfig), None),
                            None, "sora-shiba", false, None)

  /** Working, then Done, and no answers; then a timeout turn whose publish has no answer and whose heartbeat has one. */
  const SampleCommands := [
    SnapshotChanged(Snapshot(Working, Active), Unanswered),
    SnapshotChanged(Snapshot(Done, EligibleIdle), Unanswered),
    Timeout(LoadFails, Unanswered, Net(SampleStamp, AckOne, true, NoAnswer))]

  /**
   From the loop's start, those three turns end with nothing marked for sending and an empty outbox, although the server
   was told Working and the desktop shows Done.
   */
  lemma {:induction false} LatestStateCanBeForgotten()
    ensures SampleStart.latest.None? && !SampleStart.needsSend && SampleStart.reporter == LoadStep(SampleStart.disk, "boot")
    ensures var end := Play(SampleStart, SampleCommands);
      && !end.needsSend && end.reporter.Some? && end.reporter.value.pending.None?
      && end.delivered == Some(Sent(Working, Active, "sora-shiba")) && end.latest == Some(Snapshot(Done, EligibleIdle))
  {
    var commands := SampleCommands;
    assert commands[..2] == [commands[0], commands[1]] && commands[..2][..1] == [commands[0]] && [commands[0]][..0] == [];
    var config := SampleConfig;
    var working := Envelope("instance", "key", "boot", None, 1, [StateTransition(1, "t", Working, Active, "sora-shiba")], "t", "1", "s");
    var pending := Loop(Some(Reporter(config, "boot", None, 1, false, Some(working))), Disk(Some(config), Some(working)),
                        Some(Snapshot(Working, Active)), "sora-shiba", true, None);
    assert Play(SampleStart, []) == SampleStart;
    assert Turn(SampleStart, commands[0]) == pending;
    assert Play(SampleStart, [commands[0]]) == pending;
    var changed := pending.(latest := Some(Snapshot(Done, EligibleIdle)));
    assert Turn(pending, commands[1]) == changed;
    assert Play(SampleStart, commands[..2]) == changed;
  }

  // ---------------------------------------------------------------- the loop's variables

  class ReporterLoop {
    var reporter: EdgeReporter.EdgeReporter?
    var files: EdgeReporter.DataDirectory
    var latest: Option<Snapshot>
    var petId: string
    var needsSend: bool
    ghost var delivered: Option<Sent>

    ghost predicate Valid()
      reads this, reporter
    {
      reporter != null ==> reporter.files == files
    }

    ghost function State(): Loop
      reads this, reporter, files
      requires Valid()
    {
      Loop(if reporter == null then None else Some(reporter.View()), files.Contents(), latest, petId, needsSend, delivered)
    }

    constructor (files: EdgeReporter.DataDirectory, loading: Loading)
      ensures Valid() && this.files == files
      ensures State().latest.None? && !State().needsSend && State().petId == "sora-shiba"
    {
      this.files := files;
      latest, petId, needsSend, delivered := None, "sora-shiba", false, None;
      reporter := null;
      new;
      Reload(loading);
    }

    method Reload(loading: Loading)
      requires reporter != null ==> reporter.files == files
      modifies this`reporter
      ensures Valid() && (reporter == null || fresh(reporter))
      ensures (if reporter == null then None else Some(reporter.View()))
           == (if loading.LoadFails? then None else LoadStep(files.Contents(), loading.freshBootId))
    {
      if loading.LoadFails? || files.config.None? {
        reporter := null;
      } else {
        reporter := new EdgeReporter.EdgeReporter.Load(files, loading.freshBootId);
      }
    }

    method Publish(n: Net) returns (ok: bool)
      requires Valid() && reporter != null && latest.Some?
      modifies this`needsSend, this`delivered, reporter, files
      ensures Valid() && reporter == old(reporter) && (State(), ok) == TryPublish(old(State()), n)
    {
      hide PublishStep, AfterPublish;
      delivered := AfterPublish(delivered, reporter.View(), files.Contents(), Target(State()), n);
      ok := reporter.PublishState(latest.value.display, latest.value.activity, petId, n.stamp, n.first, n.writeOk, n.second);
      if ok { needsSend := !reporter.established && reporter.pending.None?; }
    }

    method Beat(n: Net) returns (ok: bool)
      requires Valid() && reporter != null
      modifies this`needsSend, this`delivered, reporter, files
      ensures Valid() && reporter == old(reporter) && (State(), ok) == TryHeartbeat(old(State()), n)
    {
      hide HeartbeatStep, AfterHeartbeat;
      delivered := AfterHeartbeat(delivered, reporter.View(), files.Contents(), n);
      ok := reporter.SendHeartbeat(n.stamp, n.first, n.writeOk, n.second);
      if ok { needsSend := !reporter.established && reporter.pending.None?; }
    }

    /** A new snapshot or a new pet, told to the server at once if it can be. */
    method OnChange(snapshot: Option<Snapshot>, pet: string, n: Net)
      requires Valid() && (snapshot.None? || pet == petId)
      modifies this, reporter, files
      ensures Valid()
      ensures State() == Turn(old(State()), if snapshot.Some? then SnapshotChanged(snapshot.value, n) else PetSelected(pet, n))
    {
      hide TryPublish;
      if snapshot.Some? { latest := snapshot; }
      petId := pet;
      needsSend := true;
      if reporter != null && latest.Some? {
        var ok := Publish(n);
      }
    }

    /** Pairing has rewritten the files; the loop starts over with what it finds there. */
    method OnReload(loading: Loading, n: Net)
      requires Valid()
      modifies this, reporter, files
      ensures Valid() && State() == Turn(old(State()), ReloadConnection(old(files.Contents()), loading, n))
    {
      hide TryPublish;
      Reload(loading);
      needsSend := latest.Some?;
      if reporter != null && latest.Some? {
        var ok := Publish(n);
      }
    }

    method OnTimeout(loading: Loading, n: Net, heartbeat: Net)
      requires Valid()
      modifies this, reporter, files
      ensures Valid() && State() == Turn(old(State()), Timeout(loading, n, heartbeat))
    {
      hide TryPublish, TryHeartbeat;
      if reporter == null {
        Reload(loading);
        needsSend := latest.Some?;
      }
      if reporter != null {
        var sentState := false;
        if needsSend && latest.Some? {
          sentState := Publish(n);
        }
        if !sentState {
          var ok := Beat(heartbeat);
        }
      }
    }
  }
}

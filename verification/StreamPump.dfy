/**
 One public event stream: the re-entrant pump with its backpressure, the notifications that wake it, and the Office it
 reads from under a shared lock.
 */
module StreamPump {
  import opened RevisionLog

  const PAGE_LIMIT: nat := 100

  /** Where the one running activity of the stream waits; `Holding` and `Releasing` have the Office locked. */
  datatype Phase =
    | Idle
    | Reading
    | Holding(page: Page)
    | Releasing(drain: bool)
    | Draining

  /** `initial` until the first replay is complete; a pump is running when `initial` is over and the phase is not Idle. */
  datatype Stream = Stream(
    closed: bool,
    initial: bool,
    phase: Phase,
    pendingPump: bool,
    lastSent: nat,
    frames: seq<nat>,
    resynced: bool)

  datatype QueueResult = Queued | Backpressure | Closed

  // ---------------------------------------------------------------- steps

  function Close(s: Stream): Stream {
    s.(closed := true, phase := Idle)
  }

  function ResyncAndClose(s: Stream): Stream {
    if s.closed then s else Close(s.(resynced := true))
  }

  function QueueEvent(s: Stream, e: ReplayEvent, writable: bool): (Stream, QueueResult) {
    if s.closed then (s, Closed)
    else if e.revision <= s.lastSent then (s, Queued)
    else if e.revision != s.lastSent + 1 then (ResyncAndClose(s), Closed)
    else if e.payload.officeRevision != e.revision then (ResyncAndClose(s), Closed)
    else (s.(lastSent := e.revision, frames := s.frames + [e.revision]), if writable then Queued else Backpressure)
  }

  /** Writes until the socket's buffer, which takes `room` more frames without complaint, reports backpressure. */
  function QueueEvents(s: Stream, events: seq<ReplayEvent>, room: nat): (Stream, QueueResult)
    decreases |events|
  {
    if events == [] then (s, Queued)
    else
      var (next, result) := QueueEvent(s, events[0], room > 0);
      if result.Queued? then QueueEvents(next, events[1..], if next.lastSent > s.lastSent && room > 0 then room - 1 else room)
      else (next, result)
  }

  function StartPump(s: Stream): Stream {
    s.(phase := Reading, pendingPump := false)
  }

  /** The loop's condition, or the end of the initial replay: go on while something is pending. */
  function LoopEnd(s: Stream): Stream {
    var done := s.(initial := false);
    if done.pendingPump then StartPump(done) else done.(phase := Idle)
  }

  /** The first replay refuses a cursor that is ahead or that has lost its next revision. */
  predicate InitialRefuses(s: Stream, page: Page) {
    || !page.Events?
    || page.currentRevision < s.lastSent
    || (s.lastSent < page.currentRevision && (page.events == [] || page.events[0].revision != s.lastSent + 1))
  }

  function SendPage(s: Stream, page: Page, room: nat): Stream
    requires page.Events?
  {
    var (sent, result) := QueueEvents(s, page.events, room);
    match result
    case Closed => sent
    case Backpressure => sent.(phase := Releasing(true))
    case Queued => sent.(phase := Releasing(false), pendingPump := sent.pendingPump || sent.lastSent < page.currentRevision)
  }

  function OnPage(s: Stream, room: nat): Stream
    requires s.phase.Holding?
  {
    var page := s.phase.page;
    if s.closed then s
    else if s.initial then (if InitialRefuses(s, page) then Close(s) else SendPage(s, page, room))
    else
      match page
      case NotFound => Close(s)
      case RevisionGap(_, _) => ResyncAndClose(s)
      case Events(_, _, _) => SendPage(s, page, room)
  }

  function OnReleased(s: Stream): Stream
    requires s.phase.Releasing?
  {
    if s.closed then s else if s.phase.drain then s.(phase := Draining) else LoopEnd(s)
  }

  function OnDrained(s: Stream, drained: bool): Stream
    requires s.phase.Draining?
  {
    if s.closed then s else if drained then LoopEnd(s.(pendingPump := true)) else Close(s)
  }

  /** A pump that is already running is only told to go round once more. */
  function Pump(s: Stream): Stream {
    if s.closed then s
    else if s.phase.Idle? then StartPump(s)
    else s.(pendingPump := true)
  }

  function OnNotify(s: Stream): Stream {
    if s.closed then s
    else if s.initial then s.(pendingPump := true)
    else Pump(s.(pendingPump := true))
  }

  function OnTimer(s: Stream, writable: bool): Stream {
    if s.closed || s.initial then s else if writable then Pump(s) else Close(s)
  }

  // ---------------------------------------------------------------- the system

  datatype System = System(office: Office, stream: Stream, notified: nat, cursor: nat)

  datatype Move =
    | OfficeMove(action: Action)
    | Notify(revision: nat)
    | Timer(writable: bool)
    | Read(fails: bool)
    | Send(room: nat)
    | Released
    | Drained(ok: bool)
    | Disconnect

  predicate LeaseHeld(s: Stream) {
    !s.closed && (s.phase.Holding? || s.phase.Releasing?)
  }

  /** The shared lock keeps the Office still; only committed revisions are notified. */
  predicate Enabled(y: System, m: Move) {
    match m
    case OfficeMove(_) => !LeaseHeld(y.stream)
    case Notify(revision) => revision <= y.office.revision
    case Timer(_) => true
    case Read(_) => !y.stream.closed && y.stream.phase.Reading?
    case Send(_) => !y.stream.closed && y.stream.phase.Holding?
    case Released => !y.stream.closed && y.stream.phase.Releasing?
    case Drained(_) => !y.stream.closed && y.stream.phase.Draining?
    case Disconnect => true
  }

  function Apply(y: System, m: Move): System
    requires Enabled(y, m)
  {
    match m
    case OfficeMove(action) => y.(office := Step(y.office, action))
    case Notify(revision) =>
      y.(notified := if revision > y.notified then revision else y.notified, stream := OnNotify(y.stream))
    case Timer(writable) => y.(stream := OnTimer(y.stream, writable))
    case Read(fails) =>
      y.(stream := if fails then Close(y.stream)
                   else y.stream.(phase := Holding(PageOf(y.office, y.stream.lastSent, PAGE_LIMIT))))
    case Send(room) => y.(stream := OnPage(y.stream, room))
    case Released => y.(stream := OnReleased(y.stream))
    case Drained(ok) => y.(stream := OnDrained(y.stream, ok))
    case Disconnect => y.(stream := Close(y.stream))
  }

  /** Just subscribed, about to read the authoritative first page. */
  predicate JustOpened(y: System) {
    y.stream == Stream(false, true, Reading, false, y.cursor, [], false) && y.notified == 0
  }

  // ---------------------------------------------------------------- the invariant

  predicate Consecutive(frames: seq<nat>, cursor: nat, lastSent: nat) {
    && cursor + |frames| == lastSent
    && forall i :: 0 <= i < |frames| ==> frames[i] == cursor + 1 + i
  }

  predicate AwakeOrDone(y: System) {
    var s := y.stream;
    match s.phase
    case Idle => !s.initial && y.notified <= s.lastSent
    case Reading => true
    case Holding(page) => page == PageOf(y.office, s.lastSent, PAGE_LIMIT)
    case Releasing(drain) => drain || y.notified <= s.lastSent || s.pendingPump
    case Draining => true
  }

  ghost predicate SystemValid(y: System) {
    && OfficeValid(y.office) && y.office.current.Some? && y.notified <= y.office.revision
    && Consecutive(y.stream.frames, y.cursor, y.stream.lastSent)
    && (!y.stream.closed ==>
          && AwakeOrDone(y)
          && ((y.stream.initial && (y.stream.phase.Reading? || y.stream.phase.Holding?)) || y.stream.lastSent <= y.office.revision))
  }

  // ---------------------------------------------------------------- sending

  predicate AllWritten(s: Stream, sent: Stream, events: seq<ReplayEvent>, n: nat)
    requires n <= |events|
  {
    sent == s.(lastSent := s.lastSent + n, frames := s.frames + Revisions(events[..n]))
  }

  function Revisions(events: seq<ReplayEvent>): (r: seq<nat>)
    ensures |r| == |events|
  {
    seq(|events|, i requires 0 <= i < |events| => events[i].revision)
  }

  lemma {:induction false} OneWritten(s: Stream, events: seq<ReplayEvent>, n: nat, next: Stream, sent: Stream)
    requires events != [] && n < |events|
    requires next == s.(lastSent := s.lastSent + 1, frames := s.frames + [events[0].revision])
    requires AllWritten(next, sent, events[1..], n)
    ensures AllWritten(s, sent, events, n + 1)
  {
    assert events[..n + 1] == [events[0]] + events[1..][..n];
    assert Revisions(events[..n + 1]) == [events[0].revision] + Revisions(events[1..][..n]);
  }

  /** A contiguous page is written without a gap: all of it, or a non-empty prefix up to the backpressure. */
  lemma {:induction false} ContiguousIsWritten(s: Stream, events: seq<ReplayEvent>, room: nat) returns (n: nat)
    requires !s.closed && Contiguous(events, s.lastSent + 1)
    ensures n <= |events| && AllWritten(s, QueueEvents(s, events, room).0, events, n)
    ensures var result := QueueEvents(s, events, room).1;
            (result.Queued? && n == |events|) || (result.Backpressure? && n > 0)
    decreases |events|
  {
    hide AllWritten;
    if events == [] {
      n := 0;
      NoneWritten(s, events);
    } else {
      var (next, result) := QueueEvent(s, events[0], room > 0);
      var rest := events[1..];
      assert next == s.(lastSent := s.lastSent + 1, frames := s.frames + [events[0].revision]);
      if result.Queued? {
        forall i | 0 <= i < |rest|
          ensures rest[i].revision == next.lastSent + 1 + i && rest[i].payload.officeRevision == next.lastSent + 1 + i
        {
          assert rest[i] == events[i + 1];
        }
        n := ContiguousIsWritten(next, rest, room - 1);
        OneWritten(s, events, n, next, QueueEvents(next, rest, room - 1).0);
        n := n + 1;
      } else {
        n := 1;
        NoneWritten(next, rest);
        OneWritten(s, events, 0, next, next);
      }
    }
  }

  lemma {:induction false} NoneWritten(s: Stream, events: seq<ReplayEvent>)
    ensures AllWritten(s, s, events, 0)
  {
    assert s.frames + Revisions(events[..0]) == s.frames;
  }

  /** What sending the page it holds does to a stream: frames right after the last one, and progress when behind. */
  ghost predicate Sent(y: System, s': Stream) {
    && Consecutive(s'.frames, y.cursor, s'.lastSent) && y.stream.frames <= s'.frames
    && !s'.closed && s'.phase.Releasing? && s'.initial == y.stream.initial && s'.resynced == y.stream.resynced
    && y.stream.lastSent <= s'.lastSent <= y.office.revision
    && (y.stream.lastSent < y.office.revision ==> s'.lastSent > y.stream.lastSent)
    && (forall i :: |y.stream.frames| <= i < |s'.frames| ==> y.office.minimum < s'.frames[i] <= y.office.revision)
    && (!s'.phase.drain ==> s'.pendingPump == (y.stream.pendingPump || s'.lastSent < y.office.revision))
  }

  lemma {:induction false} SendingIsSound(y: System, room: nat)
    requires SystemValid(y) && !y.stream.closed && y.stream.phase.Holding? && y.stream.phase.page.Events?
    requires y.stream.lastSent <= y.office.revision
    ensures Sent(y, SendPage(y.stream, y.stream.phase.page, room))
  {
    hide OfficeValid, PageOf, Affordable, Full, QueueEvents;
    var s, page := y.stream, y.stream.phase.page;
    PageIsNext(y.office, s.lastSent, PAGE_LIMIT);
    var n := ContiguousIsWritten(s, page.events, room);
    var sent := QueueEvents(s, page.events, room).0;
    forall i | |s.frames| <= i < |sent.frames|
      ensures sent.frames[i] == y.cursor + 1 + i && y.office.minimum < sent.frames[i] <= y.office.revision
    {
      assert sent.frames[i] == page.events[i - |s.frames|].revision;
    }
    if n > 0 { assert page.events[n - 1].revision <= y.office.revision; }
  }

  lemma {:induction false} SendValid(y: System, room: nat)
    requires SystemValid(y) && Enabled(y, Send(room))
    ensures SystemValid(Apply(y, Send(room)))
  {
    hide QueueEvents, PageOf, SendPage;
    var s, page := y.stream, y.stream.phase.page;
    if page.Events? && !(s.initial && InitialRefuses(s, page)) {
      PageCurrent(y.office, s.lastSent);
      SendingIsSound(y, room);
    }
  }

  /** What a stream meets when it reads: a gap below the minimum, nothing readable ahead of the revision, a page between. */
  lemma {:induction false} PageAtCursor(o: Office, s: Stream)
    requires OfficeValid(o) && o.current.Some?
    ensures var page := PageOf(o, s.lastSent, PAGE_LIMIT);
      && (page.RevisionGap? <==> s.lastSent < o.minimum) && !page.NotFound?
      && (InitialRefuses(s, page) <==> s.lastSent < o.minimum || s.lastSent > o.revision)
  {
    hide Affordable, Full;
    PageIsNext(o, s.lastSent, PAGE_LIMIT);
  }

  /**
   An open stream is closed only by its client, a failed read, a full socket at the timer or after backpressure, or
   because its cursor lies ahead of the Office or its next revision was withdrawn.
   */
  lemma {:induction false} ClosesForAReason(y: System, m: Move)
    requires SystemValid(y) && Enabled(y, m) && !y.stream.closed && Apply(y, m).stream.closed
    ensures || m == Disconnect || m == Timer(false) || m == Read(true) || m == Drained(false)
            || (m.Send? && (y.stream.lastSent < y.office.minimum || y.stream.lastSent > y.office.revision))
  {
    hide OfficeValid, PageOf, SendPage, InitialRefuses;
    if m.Send? {
      PageAtCursor(y.office, y.stream);
      if y.office.minimum <= y.stream.lastSent <= y.office.revision { SendingIsSound(y, m.room); }
    }
  }

  lemma {:induction false} PageCurrent(o: Office, cursor: nat)
    requires PageOf(o, cursor, PAGE_LIMIT).Events?
    ensures PageOf(o, cursor, PAGE_LIMIT).currentRevision == o.revision
  {
  }

  lemma {:induction false} MoveValid(y: System, m: Move)
    requires SystemValid(y) && Enabled(y, m)
    ensures SystemValid(Apply(y, m))
  {
    hide OfficeValid, PageOf;
    match m
    case OfficeMove(action) => StepValid(y.office, action);
    case Send(room) => SendValid(y, room);
    case Notify(_) =>
    case Timer(_) =>
    case Read(_) =>
    case Released =>
    case Drained(_) =>
    case Disconnect =>
  }

  // ---------------------------------------------------------------- every run

  predicate Legal(y: System, moves: seq<Move>)
    decreases |moves|
  {
    moves == [] || (Enabled(y, moves[0]) && Legal(Apply(y, moves[0]), moves[1..]))
  }

  function Execute(y: System, moves: seq<Move>): System
    requires Legal(y, moves)
    decreases |moves|
  {
    if moves == [] then y else Execute(Apply(y, moves[0]), moves[1..])
  }

  lemma {:induction false} RunValid(y: System, moves: seq<Move>)
    requires SystemValid(y) && Legal(y, moves)
    ensures SystemValid(Execute(y, moves))
    decreases |moves|
  {
    hide SystemValid, Apply, Enabled;
    if moves != [] {
      MoveValid(y, moves[0]);
      RunValid(Apply(y, moves[0]), moves[1..]);
    }
  }

  /**
   In every run: the frames written are cursor + 1, cursor + 2, ... without a gap; and whenever the stream is open and
   no pump runs, it has sent every revision it was ever notified of.
   */
  lemma {:induction false} NoLostWakeUp(y: System, moves: seq<Move>)
    requires JustOpened(y) && OfficeValid(y.office) && y.office.current.Some? && Legal(y, moves)
    ensures var end := Execute(y, moves);
      && Consecutive(end.stream.frames, y.cursor, end.stream.lastSent)
      && (!end.stream.closed && end.stream.phase.Idle? ==>
            !end.stream.initial && end.notified <= end.stream.lastSent <= end.office.revision)
  {
    hide OfficeValid, Apply, Enabled, PageOf;
    RunValid(y, moves);
    CursorStays(y, moves);
  }

  lemma {:induction false} CursorStays(y: System, moves: seq<Move>)
    requires Legal(y, moves)
    ensures Execute(y, moves).cursor == y.cursor
    decreases |moves|
  {
    if moves != [] {
      assert Apply(y, moves[0]).cursor == y.cursor by { hide OnPage, OnNotify, OnTimer, PageOf, Step; }
      CursorStays(Apply(y, moves[0]), moves[1..]);
    }
  }

  /** The client is told to resynchronise only because the page really has a gap: its next revision was withdrawn. */
  lemma {:induction false} ResyncMeansGap(y: System, m: Move)
    requires SystemValid(y) && Enabled(y, m) && !y.stream.resynced && Apply(y, m).stream.resynced
    ensures m.Send? && y.stream.lastSent < y.office.minimum
  {
    hide OfficeValid, PageOf, SendPage, QueueEvents;
    if m.Send? {
      var s, page := y.stream, y.stream.phase.page;
      PageIsNext(y.office, s.lastSent, PAGE_LIMIT);
      if page.Events? && s.lastSent <= y.office.revision { SendingIsSound(y, m.room); }
      if page.Events? { PageCurrent(y.office, s.lastSent); }
    }
  }

  /** Every frame a step writes is of a revision that is not withdrawn at that moment. */
  lemma {:induction false} FramesAreCurrent(y: System, m: Move, i: nat)
    requires SystemValid(y) && Enabled(y, m) && |y.stream.frames| <= i < |Apply(y, m).stream.frames|
    ensures y.office.minimum < Apply(y, m).stream.frames[i] <= y.office.revision
  {
    hide OfficeValid, PageOf, SendPage, QueueEvents;
    if m.Send? {
      var s, page := y.stream, y.stream.phase.page;
      if page.Events? { PageCurrent(y.office, s.lastSent); }
      if page.Events? && s.lastSent <= y.office.revision { SendingIsSound(y, m.room); }
    }
  }

  /**
   Once a privacy-lowering revision r is committed, the stream never again writes a frame of a revision below r: the
   shared lock keeps the withdrawal from slipping between reading a page and writing it.
   */
  lemma {:induction false} NoFrameFromBeforeAWithdrawal(y: System, moves: seq<Move>, r: nat, i: nat)
    requires SystemValid(y) && Legal(y, moves) && r <= y.office.minimum + 1
    requires |y.stream.frames| <= i < |Execute(y, moves).stream.frames|
    ensures Execute(y, moves).stream.frames[i] >= r
    decreases |moves|
  {
    hide SystemValid, Enabled;
    if moves != [] {
      var next := Apply(y, moves[0]);
      MoveValid(y, moves[0]);
      MinimumHolds(y, moves[0]);
      FramesOnlyGrow(next, moves[1..]);
      if i < |next.stream.frames| {
        FramesAreCurrent(y, moves[0], i);
      } else {
        hide Apply;
        NoFrameFromBeforeAWithdrawal(next, moves[1..], r, i);
      }
    }
  }

  lemma {:induction false} MinimumHolds(y: System, m: Move)
    requires SystemValid(y) && Enabled(y, m)
    ensures Apply(y, m).office.minimum >= y.office.minimum
  {
    hide OnPage, OnNotify, OnTimer, PageOf, Step, OnReleased, OnDrained, OfficeValid;
    if m.OfficeMove? { StepValid(y.office, m.action); }
  }

  lemma {:induction false} StepFrames(y: System, m: Move)
    requires SystemValid(y) && Enabled(y, m)
    ensures y.stream.frames <= Apply(y, m).stream.frames
  {
    hide OfficeValid, PageOf, SendPage, QueueEvents;
    if m.Send? {
      var s, page := y.stream, y.stream.phase.page;
      if page.Events? { PageCurrent(y.office, s.lastSent); }
      if page.Events? && s.lastSent <= y.office.revision { SendingIsSound(y, m.room); }
    }
  }

  lemma {:induction false} FramesOnlyGrow(y: System, moves: seq<Move>)
    requires SystemValid(y) && Legal(y, moves)
    ensures y.stream.frames <= Execute(y, moves).stream.frames
    decreases |moves|
  {
    hide SystemValid, Apply, Enabled;
    if moves != [] {
      MoveValid(y, moves[0]);
      StepFrames(y, moves[0]);
      FramesOnlyGrow(Apply(y, moves[0]), moves[1..]);
    }
  }

  // ---------------------------------------------------------------- the pump stops

  /** One trip round the loop with nothing else happening. */
  function OneTrip(y: System, room: nat, drained: bool): Stream
    requires !y.stream.closed && y.stream.phase.Reading?
  {
    var held := y.stream.(phase := Holding(PageOf(y.office, y.stream.lastSent, PAGE_LIMIT)));
    var sent := OnPage(held, room);
    if !sent.phase.Releasing? then sent
    else
      var free := OnReleased(sent);
      if free.phase.Draining? then OnDrained(free, drained) else free
  }

  /**
   Between notifications, every trip round the loop closes the stream, ends the pump with everything sent, or brings
   the stream closer to the Office revision: the distance is a termination measure.
   */
  lemma {:induction false} EveryTripGetsCloser(y: System, room: nat, drained: bool)
    requires SystemValid(y) && !y.stream.closed && !y.stream.initial && y.stream.phase.Reading? && !y.stream.pendingPump
    ensures var s' := OneTrip(y, room, drained);
      || s'.closed
      || (s'.phase.Idle? && s'.lastSent == y.office.revision)
      || (s'.phase.Reading? && !s'.pendingPump && y.stream.lastSent < s'.lastSent <= y.office.revision)
  {
    hide OfficeValid, PageOf, SendPage, QueueEvents;
    var s := y.stream;
    var page := PageOf(y.office, s.lastSent, PAGE_LIMIT);
    var held := y.(stream := s.(phase := Holding(page)));
    if page.Events? {
      SendingIsSound(held, room);
      if s.lastSent == y.office.revision { EmptyPageNeedsNoDrain(held, room); }
    }
  }

  lemma {:induction false} EmptyPageNeedsNoDrain(y: System, room: nat)
    requires SystemValid(y) && y.stream.phase.Holding? && y.stream.phase.page.Events? && !y.stream.closed
    requires y.stream.lastSent == y.office.revision
    ensures var s' := SendPage(y.stream, y.stream.phase.page, room);
      s'.lastSent == y.office.revision && s'.phase == Releasing(false)
  {
    PageIsNext(y.office, y.stream.lastSent, PAGE_LIMIT);
    hide OfficeValid, PageOf, Affordable, Full, NextRevisions;
  }

  // ---------------------------------------------------------------- the closure variables

  class PublicStream {
    var closed: bool
    var initial: bool
    var phase: Phase
    var pendingPump: bool
    var lastSent: nat
    var frames: seq<nat>
    var resynced: bool

    function State(): Stream
      reads this
    {
      Stream(closed, initial, phase, pendingPump, lastSent, frames, resynced)
    }

    constructor (cursor: nat)
      ensures State() == Stream(false, true, Reading, false, cursor, [], false)
    {
      closed, initial, phase, pendingPump := false, true, Reading, false;
      lastSent, frames, resynced := cursor, [], false;
    }

    method CloseStream()
      modifies this
      ensures State() == Close(old(State()))
    {
      closed, phase := true, Idle;
    }

    method Queue(e: ReplayEvent, writable: bool) returns (result: QueueResult)
      modifies this
      ensures (State(), result) == QueueEvent(old(State()), e, writable)
    {
      if closed { return Closed; }
      if e.revision <= lastSent { return Queued; }
      if e.revision != lastSent + 1 || e.payload.officeRevision != e.revision {
        resynced := true;
        CloseStream();
        return Closed;
      }
      frames := frames + [e.revision];
      lastSent := e.revision;
      return if writable then Queued else Backpressure;
    }

    /** The loop over one page's events. */
    method QueueAll(events: seq<ReplayEvent>, room: nat) returns (result: QueueResult)
      modifies this
      ensures (State(), result) == QueueEvents(old(State()), events, room)
    {
      hide QueueEvent;
      result := Queued;
      var left := room;
      var k := 0;
      while k < |events|
        invariant k <= |events|
        invariant QueueEvents(old(State()), events, room) == QueueEvents(State(), events[k..], left)
        invariant result.Queued?
      {
        var before := lastSent;
        assert events[k..][1..] == events[k + 1..];
        result := Queue(events[k], left > 0);
        if !result.Queued? { return; }
        if lastSent > before && left > 0 { left := left - 1; }
        k := k + 1;
      }
    }

    method PageArrived(room: nat)
      requires phase.Holding? && !closed
      modifies this
      ensures State() == OnPage(old(State()), room)
    {
      hide QueueEvents;
      var page := phase.page;
      if initial {
        if InitialRefuses(State(), page) {
          CloseStream();
          return;
        }
      } else if !page.Events? {
        if page.RevisionGap? { resynced := true; }
        CloseStream();
        return;
      }
      var result := QueueAll(page.events, room);
      if result.Closed? { return; }
      if result.Backpressure? {
        phase := Releasing(true);
      } else {
        phase := Releasing(false);
        if lastSent < page.currentRevision { pendingPump := true; }
      }
    }

    method EndOfLoop()
      modifies this
      ensures State() == LoopEnd(old(State()))
    {
      initial := false;
      if pendingPump {
        pendingPump := false;
        phase := Reading;
      } else {
        phase := Idle;
      }
    }

    method LeaseReleased()
      requires phase.Releasing? && !closed
      modifies this
      ensures State() == OnReleased(old(State()))
    {
      if phase.drain { phase := Draining; } else { EndOfLoop(); }
    }

    method DrainEnded(drained: bool)
      requires phase.Draining? && !closed
      modifies this
      ensures State() == OnDrained(old(State()), drained)
    {
      if !drained {
        CloseStream();
      } else {
        pendingPump := true;
        EndOfLoop();
      }
    }

    method RunPump()
      modifies this
      ensures State() == Pump(old(State()))
    {
      if closed { return; }
      if !phase.Idle? {
        pendingPump := true;
      } else {
        pendingPump := false;
        phase := Reading;
      }
    }

    method Notified()
      modifies this
      ensures State() == OnNotify(old(State()))
    {
      if closed { return; }
      pendingPump := true;
      if !initial { RunPump(); }
    }

    method TimerFired(writable: bool)
      modifies this
      ensures State() == OnTimer(old(State()), writable)
    {
      if closed || initial { return; }
      if !writable { CloseStream(); } else { RunPump(); }
    }
  }
}

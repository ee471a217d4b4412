/**
 The public Office page's connection logic: snapshots that replace what is shown, an event stream that extends it, and
 generations that tell late answers from current ones.
 */
module OfficePage {
  import opened Status

  /** `current` is -1 before the first snapshot; sources are numbered as they are opened; `retry` is a running retry timer. */
  datatype View = View(current: int, generation: nat, source: Option<nat>, nextSource: nat, retry: bool)

  // ---------------------------------------------------------------- the page's steps

  function Refresh(v: View): View {
    v.(generation := v.generation + 1, source := None, retry := false)
  }

  /**
   A snapshot replaces what is shown, unless a later refresh was started since; then the stream opens after it, or, if
   showing it throws after its revision was noted, the retry timer refreshes later.
   */
  function SnapshotStep(v: View, generation: nat, revision: nat, rendered: bool): View {
    if generation != v.generation then v
    else if !rendered then v.(current := revision, source := None, retry := true)
    else v.(current := revision, source := Some(v.nextSource), nextSource := v.nextSource + 1)
  }

  /** Any failure of the fetch closes whatever stream there is and starts the retry timer. */
  function FailStep(v: View, generation: nat): View {
    if generation != v.generation then v else v.(source := None, retry := true)
  }

  /**
   The next revision extends what is shown, an old one is ignored, and a jump, an unreadable event or one that cannot be
   shown refreshes.
   */
  function EventStep(v: View, source: nat, generation: nat, revision: Option<nat>, rendered: bool): View {
    if generation != v.generation || v.source != Some(source) then v
    else if revision.None? then Refresh(v)
    else if revision.value <= v.current then v
    else if revision.value != v.current + 1 then Refresh(v)
    else if !rendered then Refresh(v.(current := revision.value))
    else v.(current := revision.value)
  }

  function ErrorStep(v: View, source: nat, generation: nat): View {
    if generation != v.generation || v.source != Some(source) then v else v.(source := None, retry := true)
  }

  // ---------------------------------------------------------------- the page and its server

  /** A snapshot request in flight: its generation and the Office revision when it was sent. */
  datatype Fetch = Fetch(generation: nat, sentAt: nat)

  datatype World = World(view: View, fetches: set<Fetch>, serverRevision: nat, offline: bool)

  datatype Move =
    | ServerAdvances(revision: nat)
    | Refreshes
    | Answered(fetch: Fetch, revision: nat, rendered: bool)
    | Failed(fetch: Fetch)
    | Event(source: nat, generation: nat, told: Option<nat>, shown: bool)
    | SourceError(source: nat, generation: nat)
    | RetryFires
    | GoesOffline

  /** The server's revision never falls; an answer shows a revision from between request and answer. */
  predicate Enabled(w: World, m: Move) {
    match m
    case ServerAdvances(revision) => revision >= w.serverRevision
    case Answered(fetch, revision, _) => fetch in w.fetches && fetch.sentAt <= revision <= w.serverRevision
    case Failed(fetch) => fetch in w.fetches
    case RetryFires => w.view.retry
    case Event(_, _, revision, _) => revision.Some? ==> revision.value <= w.serverRevision
    case _ => true
  }

  /** A refresh, whatever caused it, sends a request of the new generation. */
  function WithView(w: World, v: View): World {
    w.(view := v, offline := w.offline && v.generation == w.view.generation,
       fetches := if v.generation != w.view.generation then w.fetches + {Fetch(v.generation, w.serverRevision)} else w.fetches)
  }

  function Apply(w: World, m: Move): World {
    match m
    case ServerAdvances(revision) => w.(serverRevision := revision)
    case Refreshes => WithView(w, Refresh(w.view))
    case Answered(fetch, revision, rendered) =>
      WithView(w.(fetches := w.fetches - {fetch}), SnapshotStep(w.view, fetch.generation, revision, rendered))
    case Failed(fetch) => WithView(w.(fetches := w.fetches - {fetch}), FailStep(w.view, fetch.generation))
    case Event(source, generation, revision, rendered) => WithView(w, EventStep(w.view, source, generation, revision, rendered))
    case SourceError(source, generation) => WithView(w, ErrorStep(w.view, source, generation))
    case RetryFires => WithView(w, Refresh(w.view))
    case GoesOffline => w.(view := w.view.(source := None), offline := true)
  }

  predicate NotBehind(w: World, f: Fetch) {
    && f.generation <= w.view.generation && f.sentAt <= w.serverRevision
    && (f.generation == w.view.generation ==> w.view.source.None? && w.view.current <= f.sentAt)
  }

  /**
   The page always has a way to go on: an open stream, its current request in flight, or a running retry timer; only after
   going offline it waits for coming back.
   */
  ghost predicate GoesOn(w: World) {
    w.view.source.Some? || w.view.retry || w.offline || exists f :: f in w.fetches && f.generation == w.view.generation
  }

  lemma {:induction false} MoveGoesOn(w: World, m: Move)
    requires GoesOn(w) && Enabled(w, m)
    ensures GoesOn(Apply(w, m))
  {
    var next := Apply(w, m);
    if next.view.generation != w.view.generation {
      assert Fetch(next.view.generation, w.serverRevision) in next.fetches;
    } else if f :| f in w.fetches && f.generation == w.view.generation {
      if f !in next.fetches { assert next.view.source.Some? || next.view.retry; }
    }
  }

  /** In every interleaving the page keeps a way to go on. */
  lemma {:induction false} NeverStuck(w: World, moves: seq<Move>)
    requires GoesOn(w) && Legal(w, moves)
    ensures GoesOn(Execute(w, moves))
    decreases |moves|
  {
    hide GoesOn, Apply, Enabled;
    if moves != [] {
      MoveGoesOn(w, moves[0]);
      NeverStuck(Apply(w, moves[0]), moves[1..]);
    }
  }

  /** While the current request is in flight no stream is accepted, so nothing newer can be shown than it will bring. */
  ghost predicate WorldValid(w: World) {
    && -1 <= w.view.current <= w.serverRevision
    && (w.view.source.Some? ==> w.view.source.value < w.view.nextSource && w.view.current >= 0)
    && (forall f :: f in w.fetches ==> NotBehind(w, f))
    && (forall f, g :: f in w.fetches && g in w.fetches && f.generation == g.generation ==> f == g)
  }

  lemma {:induction false} MoveKeeps(w: World, m: Move)
    requires WorldValid(w) && Enabled(w, m)
    ensures WorldValid(Apply(w, m)) && Apply(w, m).view.current >= w.view.current
  {
    if m.Answered? {
      assert NotBehind(w, m.fetch);
    }
    var next := Apply(w, m);
    forall f | f in next.fetches ensures NotBehind(next, f) {
      if f in w.fetches { assert NotBehind(w, f); }
    }
  }

  predicate Legal(w: World, moves: seq<Move>)
    decreases |moves|
  {
    moves == [] || (Enabled(w, moves[0]) && Legal(Apply(w, moves[0]), moves[1..]))
  }

  function Execute(w: World, moves: seq<Move>): World
    requires Legal(w, moves)
    decreases |moves|
  {
    if moves == [] then w else Execute(Apply(w, moves[0]), moves[1..])
  }

  /**
   In every interleaving of refreshes, late answers, events of old and new streams, errors and retries, the page never
   shows an older revision than it already did, and none that the server does not have.
   */
  lemma {:induction false} ShownNeverGoesBack(w: World, moves: seq<Move>)
    requires WorldValid(w) && Legal(w, moves)
    ensures WorldValid(Execute(w, moves))
    ensures w.view.current <= Execute(w, moves).view.current <= Execute(w, moves).serverRevision
    decreases |moves|
  {
    hide WorldValid, Apply, Enabled;
    if moves == [] {
      ShownIsKnown(w);
    } else {
      MoveKeeps(w, moves[0]);
      ShownNeverGoesBack(Apply(w, moves[0]), moves[1..]);
    }
  }

  lemma {:induction false} ShownIsKnown(w: World)
    requires WorldValid(w)
    ensures w.view.current <= w.serverRevision
  {
  }

  /** The page as it loads, with its first request sent. */
  lemma {:induction false} PageStarts(serverRevision: nat)
    ensures var loaded := Apply(World(View(-1, 0, None, 0, false), {}, serverRevision, false), Refreshes);
      WorldValid(loaded) && GoesOn(loaded)
  {
    var w := World(View(-1, 0, None, 0, false), {}, serverRevision, false);
    assert Apply(w, Refreshes).fetches == {Fetch(1, serverRevision)};
  }

  /**
   Whatever the current stream tells, afterwards it is shown, or a request sent since is in flight that will bring at
   least as much; an event of any other stream changes nothing.
   */
  lemma {:induction false} EventIsNotLost(w: World, m: Move)
    requires WorldValid(w) && Enabled(w, m) && m.Event?
    ensures var next := Apply(w, m);
      && (w.view.source != Some(m.source) || w.view.generation != m.generation ==> next == w)
      && (w.view.source == Some(m.source) && w.view.generation == m.generation ==>
            || (m.told.Some? && next.view.current >= m.told.value)
            || (next.view.source.None? && next.view.generation == w.view.generation + 1
                && Fetch(next.view.generation, w.serverRevision) in next.fetches))
  {
  }

  /** Outside a replacing snapshot, what is shown moves by exactly one revision at a time. */
  lemma {:induction false} StreamMovesByOne(w: World, m: Move)
    requires WorldValid(w) && Enabled(w, m) && Apply(w, m).view.current != w.view.current && !m.Answered?
    ensures m.Event? && w.view.source == Some(m.source) && Apply(w, m).view.current == w.view.current + 1
  {
  }

  // ---------------------------------------------------------------- the page's variables

  class OfficePage {
    var currentRevision: int
    var connectionGeneration: nat
    var eventSource: Option<nat>
    var openedSources: nat
    var retryTimer: bool

    function State(): View
      reads this
    {
      View(currentRevision, connectionGeneration, eventSource, openedSources, retryTimer)
    }

    constructor ()
      ensures State() == View(-1, 0, None, 0, false)
    {
      currentRevision, connectionGeneration, eventSource, openedSources, retryTimer := -1, 0, None, 0, false;
    }

    method ScheduleRecovery()
      modifies this
      ensures State() == old(State()).(source := None, retry := true)
    {
      eventSource := None;
      retryTimer := true;
    }

    method FetchFailed(generation: nat)
      modifies this
      ensures State() == FailStep(old(State()), generation)
    {
      if generation != connectionGeneration { return; }
      ScheduleRecovery();
    }

    method StreamFailed(source: nat, generation: nat)
      modifies this
      ensures State() == ErrorStep(old(State()), source, generation)
    {
      if generation != connectionGeneration || eventSource != Some(source) { return; }
      ScheduleRecovery();
    }

    /** Starts a request; its answer comes back with the generation returned here. */
    method RefreshSnapshot() returns (generation: nat)
      modifies this
      ensures State() == Refresh(old(State())) && generation == connectionGeneration
    {
      connectionGeneration := connectionGeneration + 1;
      eventSource := None;
      retryTimer := false;
      return connectionGeneration;
    }

    method SnapshotArrived(generation: nat, revision: nat, rendered: bool)
      modifies this
      ensures State() == SnapshotStep(old(State()), generation, revision, rendered)
    {
      if generation != connectionGeneration { return; }
      currentRevision := revision;
      if !rendered {
        ScheduleRecovery();
        return;
      }
      eventSource := Some(openedSources);
      openedSources := openedSources + 1;
    }

    method EventArrived(source: nat, generation: nat, revision: Option<nat>, rendered: bool)
      modifies this
      ensures State() == EventStep(old(State()), source, generation, revision, rendered)
    {
      if generation != connectionGeneration || eventSource != Some(source) { return; }
      if revision.Some? && revision.value <= currentRevision { return; }
      if revision.None? || revision.value != currentRevision + 1 {
        var _ := RefreshSnapshot();
        return;
      }
      currentRevision := revision.value;
      if !rendered { var _ := RefreshSnapshot(); }
    }
  }
}

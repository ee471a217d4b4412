/**
 What a status snapshot means in terms of the unpruned history, and why it does not depend on when, or whether,
 decayed sessions were pruned.
 */
module StatusMeaning {
  import opened Status
  import opened StatusMachine
  import opened StatusHistory

  predicate Shown(h: seq<Signal>, i: int, now: nat) {
    0 <= i < |h| && Live(h, i, now)
  }

  predicate Blocking(h: seq<Signal>, i: int, now: nat) {
    BlockingEvent(h, i) && Live(h, i, now)
  }

  /** The display is that of a live event of highest priority, latest first; without one, Idle since the last run-out. */
  ghost predicate HistoryDisplay(h: seq<Signal>, now: nat, d: DisplayState, since: Option<nat>) {
    if exists i :: Shown(h, i, now) then
      && since.Some?
      && (exists i :: Shown(h, i, now) && h[i].display == d && h[i].at == since.value)
      && (forall j :: Shown(h, j, now) ==> AtMost(DisplayPriority(h[j].display), h[j].at, DisplayPriority(d), since.value))
    else
      d == Idle && since == MaxOf(RanOutTimes(h, now))
  }

  /**
   Blocked exactly while some session's latest event blocks and is within its time to live; otherwise eligible since
   the latest end of any block, or since the first event when there never was a block.
   */
  ghost predicate HistoryActivity(h: seq<Signal>, now: nat, a: ActivityState, since: Option<nat>) {
    if exists i :: Blocking(h, i, now) then
      && since.Some?
      && (exists i :: Blocking(h, i, now) && h[i].activity == a && h[i].at == since.value)
      && (forall j :: Blocking(h, j, now) ==> AtMost(ActivityPriority(h[j].activity), h[j].at, ActivityPriority(a), since.value))
    else if h == [] then
      a == Unknown && since.None?
    else
      a == EligibleIdle && since == Some(Anchor(h))
  }

  ghost predicate HistorySnapshot(h: seq<Signal>, now: nat, r: StatusSnapshot) {
    && HistoryDisplay(h, now, r.display, r.displaySince)
    && HistoryActivity(h, now, r.activity, r.activitySince)
    && r.idleStage == StageAt(r.activity, r.activitySince, now)
  }

  // ---------------------------------------------------------------- display

  lemma {:induction false} LiveDisplay(s: MachineState, h: seq<Signal>, t: nat, now: nat, i: nat)
    requires Reflects(s, h, t) && t <= now <= U64_MAX && Shown(h, i, now)
    ensures h[i].session in s.sessions && Effective(s.sessions[h[i].session], now) == EntryOf(h[i])
    ensures DisplayPriority(h[i].display) > DisplayPriority(Idle)
  {
    assert Live(h, i, t);
    DecayIsTheEnd(h, i, t, now);
    LiveMeaning(h, i, t);
  }

  lemma {:induction false} DisplayFromLive(s: MachineState, h: seq<Signal>, t: nat, now: nat, d: DisplayState, since: Option<nat>, i: nat)
    requires Reflects(s, h, t) && t <= now <= U64_MAX && Shown(h, i, now)
    requires DisplayWins(s, now, d, since)
    ensures HistoryDisplay(h, now, d, since)
  {
    hide Reflects, Effective, RanOutTimes, Live;
    LiveDisplay(s, h, t, now, i);
    forall j | Shown(h, j, now)
      ensures AtMost(DisplayPriority(h[j].display), h[j].at, DisplayPriority(d), since.value)
    {
      LiveDisplay(s, h, t, now, j);
    }
    if k :| k in s.sessions && ShowsAt(s.sessions[k], now, d, since.value) {
      var j := StoredEntry(s, h, t, now, k);
      assert Shown(h, j, now);
    }
  }

  lemma {:induction false} DisplayFromIdle(s: MachineState, h: seq<Signal>, t: nat, now: nat, d: DisplayState, since: Option<nat>)
    requires Reflects(s, h, t) && t <= now <= U64_MAX && !exists i :: Shown(h, i, now)
    requires DisplayWins(s, now, d, since)
    ensures HistoryDisplay(h, now, d, since)
  {
    hide Reflects, Effective, RanOutTimes, Live;
    DecayedIdle(s, h, t, now);
    var decayed := DecayStep(s, now).sessions;
    var times := Optional(s.idleDisplaySince) + IdleTimes(decayed, decayed.Keys);
    forall k | k in s.sessions ensures Effective(s.sessions[k], now).display == Idle && k in decayed {
      var j := StoredEntry(s, h, t, now, k);
      assert !Shown(h, j, now);
    }
    assert IsMax(since, times);
  }

  // ---------------------------------------------------------------- activity

  lemma {:induction false} ActivityFromBlock(s: MachineState, h: seq<Signal>, t: nat, now: nat, a: ActivityState, since: Option<nat>)
    requires Reflects(s, h, t) && t <= now <= U64_MAX && Blocked(h, now)
    requires ActivityWins(s, now, a, since)
    ensures HistoryActivity(h, now, a, since)
  {
    hide Reflects, Effective, Live, BlockEnds, ReopenTimes;
    var i :| BlockingEvent(h, i) && Live(h, i, now);
    assert Blocking(h, i, now) && Shown(h, i, now);
    LiveDisplay(s, h, t, now, i);
    assert Blocks(s.sessions[h[i].session], now);
    var e :| BlockerWins(s, now, e) && a == e.activity && since == Some(e.activitySince);
    var k :| k in s.sessions && Blocks(s.sessions[k], now) && Effective(s.sessions[k], now) == e;
    var j := StoredEntry(s, h, t, now, k);
    assert Blocking(h, j, now);
    forall j | Blocking(h, j, now)
      ensures AtMost(ActivityPriority(h[j].activity), h[j].at, ActivityPriority(a), since.value)
    {
      assert Shown(h, j, now);
      LiveDisplay(s, h, t, now, j);
      assert Blocks(s.sessions[h[j].session], now);
    }
  }

  lemma {:induction false} ActivityFromIdle(s: MachineState, h: seq<Signal>, t: nat, now: nat, a: ActivityState, since: Option<nat>)
    requires Reflects(s, h, t) && t <= now <= U64_MAX && !Blocked(h, now)
    requires ActivityWins(s, now, a, since)
    ensures HistoryActivity(h, now, a, since)
  {
    hide Effective, Live, BlockEnds, ReopenTimes, SessionsReflect, RanOutTimes, Chronicle;
    DecayedBlocks(s, h, t, now);
    assert forall k :: k in s.sessions ==> k in DecayStep(s, now).sessions;
    ReopenedEnds(s, h, t, now);
    assert forall i :: Blocking(h, i, now) ==> BlockingEvent(h, i);
    if h != [] && Blocked(h, t) { BlockedHasSession(s, h, t); }
  }

  /** Every snapshot at or after the latest receive time is what the unpruned history says at that time. */
  lemma {:induction false} SnapshotIsHistory(s: MachineState, h: seq<Signal>, t: nat, now: nat, r: StatusSnapshot)
    requires Reflects(s, h, t) && t <= now <= U64_MAX
    requires SnapshotOf(s, now, r)
    ensures HistorySnapshot(h, now, r)
  {
    hide Reflects, DisplayWins, ActivityWins, HistoryDisplay, HistoryActivity;
    if i :| Shown(h, i, now) {
      DisplayFromLive(s, h, t, now, r.display, r.displaySince, i);
    } else {
      DisplayFromIdle(s, h, t, now, r.display, r.displaySince);
    }
    if Blocked(h, now) {
      ActivityFromBlock(s, h, t, now, r.activity, r.activitySince);
    } else {
      ActivityFromIdle(s, h, t, now, r.activity, r.activitySince);
    }
  }

  /** In every run of the machine, and at every later time, a snapshot is what the run's history says. */
  lemma {:induction false} StatusIsTheHistory(calls: seq<Call>, now: nat, r: StatusSnapshot)
    requires ReceivedInRange(calls) && LatestReceived(calls) <= now <= U64_MAX
    requires SnapshotOf(Play(calls), now, r)
    ensures HistorySnapshot(History(calls), now, r)
  {
    hide Reflects, HistorySnapshot, SnapshotOf, Play, History;
    PlayReflects(calls);
    SnapshotIsHistory(Play(calls), History(calls), LatestReceived(calls), now, r);
  }

  // ---------------------------------------------------------------- which session a snapshot speaks for

  ghost predicate SomeActivity(h: seq<Signal>, now: nat, a: ActivityState) {
    exists i :: Shown(h, i, now) && h[i].activity == a
  }

  /** The time of the latest live event with this activity. */
  ghost predicate LatestActivity(h: seq<Signal>, now: nat, a: ActivityState, since: Option<nat>) {
    && since.Some?
    && (exists i :: Shown(h, i, now) && h[i].activity == a && h[i].at == since.value)
    && (forall i :: Shown(h, i, now) && h[i].activity == a ==> h[i].at <= since.value)
  }

  ghost predicate SomeDisplay(h: seq<Signal>, now: nat, ds: set<DisplayState>) {
    exists i :: Shown(h, i, now) && h[i].display in ds
  }

  ghost predicate LatestDisplay(h: seq<Signal>, now: nat, ds: set<DisplayState>, d: DisplayState, since: Option<nat>) {
    && since.Some? && d in ds
    && (exists i :: Shown(h, i, now) && h[i].display == d && h[i].at == since.value)
    && (forall i :: Shown(h, i, now) && h[i].display in ds ==> h[i].at <= since.value)
  }

  lemma {:induction false} ActivityIsTheGravest(h: seq<Signal>, now: nat, a: ActivityState, since: Option<nat>)
    requires Chronicle(h) && HistoryActivity(h, now, a, since)
    ensures if SomeActivity(h, now, ActivityState.Failed) then
              a == ActivityState.Failed && LatestActivity(h, now, ActivityState.Failed, since)
            else if SomeActivity(h, now, ActivityState.Waiting) then
              a == ActivityState.Waiting && LatestActivity(h, now, ActivityState.Waiting, since)
            else if SomeActivity(h, now, Active) then
              a == Active && LatestActivity(h, now, Active, since)
            else
              a == if h == [] then Unknown else EligibleIdle
  {
    hide Live, BlockEnds, Anchor;
    forall i | Shown(h, i, now) ensures h[i].activity != Unknown {
      assert Semantic(Meaning(h[i].display, h[i].activity));
    }
    assert forall i :: Shown(h, i, now) && h[i].activity != EligibleIdle ==> Blocking(h, i, now);
  }

  lemma {:induction false} DisplayIsTheGravest(h: seq<Signal>, now: nat, d: DisplayState, since: Option<nat>)
    requires Chronicle(h) && Until(h, now) && HistoryDisplay(h, now, d, since)
    ensures if SomeDisplay(h, now, {DisplayState.Failed}) then LatestDisplay(h, now, {DisplayState.Failed}, d, since)
            else if SomeDisplay(h, now, {DisplayState.Waiting}) then LatestDisplay(h, now, {DisplayState.Waiting}, d, since)
            else if SomeDisplay(h, now, {Working}) then LatestDisplay(h, now, {Working}, d, since)
            else if SomeDisplay(h, now, {Thinking, Review, Done}) then LatestDisplay(h, now, {Thinking, Review, Done}, d, since)
            else d == Idle && forall i :: !Shown(h, i, now)
  {
    forall i | Shown(h, i, now) ensures h[i].display != Idle { LiveMeaning(h, i, now); }
    hide Live, RanOutTimes;
  }

  /**
   In every run and at every later time: with a failed session live the snapshot is failed since the latest such event,
   else with a waiting one it waits since the latest, else with an active one it is active since the latest; and the
   display goes by failed, waiting, working, and then the latest of thinking, review and done.
   */
  lemma {:induction false} SnapshotIsTheGravest(calls: seq<Call>, now: nat, r: StatusSnapshot)
    requires ReceivedInRange(calls) && LatestReceived(calls) <= now <= U64_MAX
    requires SnapshotOf(Play(calls), now, r)
    ensures var h := History(calls);
      if SomeActivity(h, now, ActivityState.Failed) then
        r.activity == ActivityState.Failed && LatestActivity(h, now, ActivityState.Failed, r.activitySince)
      else if SomeActivity(h, now, ActivityState.Waiting) then
        r.activity == ActivityState.Waiting && LatestActivity(h, now, ActivityState.Waiting, r.activitySince)
      else if SomeActivity(h, now, Active) then
        r.activity == Active && LatestActivity(h, now, Active, r.activitySince)
      else
        r.activity == if h == [] then Unknown else EligibleIdle
    ensures var h := History(calls);
      if SomeDisplay(h, now, {DisplayState.Failed}) then LatestDisplay(h, now, {DisplayState.Failed}, r.display, r.displaySince)
      else if SomeDisplay(h, now, {DisplayState.Waiting}) then LatestDisplay(h, now, {DisplayState.Waiting}, r.display, r.displaySince)
      else if SomeDisplay(h, now, {Working}) then LatestDisplay(h, now, {Working}, r.display, r.displaySince)
      else if SomeDisplay(h, now, {Thinking, Review, Done}) then LatestDisplay(h, now, {Thinking, Review, Done}, r.display, r.displaySince)
      else r.display == Idle
  {
    hide SnapshotOf, Play, SessionsReflect, EligibleAt, RanOutTimes, HistoryDisplay, HistoryActivity, SomeActivity, LatestActivity,
      SomeDisplay, LatestDisplay, Chronicle;
    StatusIsTheHistory(calls, now, r);
    PlayReflects(calls);
    ChronicleGoesOn(History(calls), LatestReceived(calls), now);
    ActivityIsTheGravest(History(calls), now, r.activity, r.activitySince);
    DisplayIsTheGravest(History(calls), now, r.display, r.displaySince);
  }

  lemma {:induction false} ChronicleGoesOn(h: seq<Signal>, t: nat, now: nat)
    requires Until(h, t) && t <= now
    ensures Until(h, now)
  {
  }

  // ---------------------------------------------------------------- what a snapshot determines

  /** Equal but for the choice among displays of the same priority. */
  predicate SameStatus(r: StatusSnapshot, r': StatusSnapshot) {
    && DisplayPriority(r.display) == DisplayPriority(r'.display) && r.displaySince == r'.displaySince
    && r.activity == r'.activity && r.activitySince == r'.activitySince && r.idleStage == r'.idleStage
  }

  lemma {:induction false} HistoryDetermines(h: seq<Signal>, now: nat, r: StatusSnapshot, r': StatusSnapshot)
    requires Chronicle(h) && HistorySnapshot(h, now, r) && HistorySnapshot(h, now, r')
    ensures SameStatus(r, r')
  {
    hide Live, BlockEnds, RanOutTimes;
    if exists i :: Blocking(h, i, now) {
      var i :| Blocking(h, i, now) && h[i].activity == r.activity && h[i].at == r.activitySince.value;
      var j :| Blocking(h, j, now) && h[j].activity == r'.activity && h[j].at == r'.activitySince.value;
      assert Semantic(Meaning(h[i].display, h[i].activity)) && Semantic(Meaning(h[j].display, h[j].activity));
    }
  }

  /** Pruning early is invisible: with or without an earlier advance, every later snapshot is the same status. */
  lemma {:induction false} AdvanceIsInvisible(calls: seq<Call>, t: nat, now: nat, r: StatusSnapshot, r': StatusSnapshot)
    requires ReceivedInRange(calls) && LatestReceived(calls) <= t <= now <= U64_MAX
    requires SnapshotOf(Play(calls), now, r) && SnapshotOf(AdvanceStep(Play(calls), t), now, r')
    ensures SameStatus(r, r')
  {
    hide HistorySnapshot, SnapshotOf, Play, History, AdvanceStep, SessionsReflect, EligibleAt, RanOutTimes, SameStatus;
    PlayReflects(calls);
    var h := History(calls);
    AdvanceReflects(Play(calls), h, LatestReceived(calls), t);
    SnapshotIsHistory(Play(calls), h, LatestReceived(calls), now, r);
    SnapshotIsHistory(AdvanceStep(Play(calls), t), h, t, now, r');
    HistoryDetermines(h, now, r, r');
  }

  /** The history determines the pruned state. */
  lemma {:induction false} ReflectionIsUnique(s: MachineState, s': MachineState, h: seq<Signal>, t: nat)
    requires Reflects(s, h, t) && Reflects(s', h, t) && s.lastTimelineAt == s'.lastTimelineAt
    ensures s == s'
  {
    hide Live, EligibleAt, RanOutTimes, Chronicle;
    forall k ensures k in s.sessions ==> k in s'.sessions && s'.sessions[k] == s.sessions[k] {
      if k in s.sessions { assert SessionLive(h, k, t); }
    }
    forall k ensures k in s'.sessions ==> k in s.sessions {
      if k in s'.sessions { assert SessionLive(h, k, t); }
    }
    assert s.sessions == s'.sessions;
  }

  /** Two advances are one. */
  lemma {:induction false} AdvanceTwice(calls: seq<Call>, t1: nat, t2: nat)
    requires ReceivedInRange(calls) && LatestReceived(calls) <= t1 <= t2 <= U64_MAX
    ensures AdvanceStep(AdvanceStep(Play(calls), t1), t2) == AdvanceStep(Play(calls), t2)
  {
    hide Reflects, Play, History;
    PlayReflects(calls);
    var s, h := Play(calls), History(calls);
    AdvanceReflects(s, h, LatestReceived(calls), t1);
    AdvanceReflects(AdvanceStep(s, t1), h, t1, t2);
    AdvanceReflects(s, h, LatestReceived(calls), t2);
    ReflectionIsUnique(AdvanceStep(AdvanceStep(s, t1), t2), AdvanceStep(s, t2), h, t2);
  }

  // ---------------------------------------------------------------- idle accounting is not reset by noise

  /** An informational notification changes nothing any later snapshot can show. */
  lemma {:induction false} InformationIsInvisible(calls: seq<Call>, c: Call, now: nat, r: StatusSnapshot, r': StatusSnapshot)
    requires ReceivedInRange(calls + [c]) && LatestReceived(calls + [c]) <= now <= U64_MAX && MeaningOf(c.kind).None?
    requires SnapshotOf(Play(calls), now, r) && SnapshotOf(Play(calls + [c]), now, r')
    ensures SameStatus(r, r')
  {
    hide HistorySnapshot, SnapshotOf, Play, SessionsReflect, EligibleAt, RanOutTimes, SameStatus, MeaningOf;
    assert (calls + [c])[..|calls|] == calls;
    forall i | 0 <= i < |calls| ensures calls[i].receivedAt <= U64_MAX {
      assert (calls + [c])[i] == calls[i];
    }
    PlayReflects(calls);
    StatusIsTheHistory(calls, now, r);
    StatusIsTheHistory(calls + [c], now, r');
    HistoryDetermines(History(calls), now, r, r');
  }

  // ---------------------------------------------------------------- the documented display order

  /** The order the pet documentation promises: failed, waiting, working, review, thinking, done, idle. */
  function DocumentedRank(d: DisplayState): nat {
    match d
    case Failed => 6
    case Waiting => 5
    case Working => 4
    case Review => 3
    case Thinking => 2
    case Done => 1
    case Idle => 0
  }

  ghost predicate ShowsDocumented(h: seq<Signal>, now: nat, d: DisplayState) {
    && (exists i :: Shown(h, i, now) && h[i].display == d)
    && (forall j :: Shown(h, j, now) ==> DocumentedRank(h[j].display) <= DocumentedRank(d))
  }

  ghost predicate Foremost(h: seq<Signal>, now: nat, i: int) {
    && Shown(h, i, now)
    && (forall j :: Shown(h, j, now) ==> AtMost(DisplayPriority(h[j].display), h[j].at, DisplayPriority(h[i].display), h[i].at))
  }

  /** When only thinking, review and done are live, the latest of them is also the highest in the documented order. */
  ghost predicate LatestQuietIsHighest(h: seq<Signal>, now: nat) {
    forall i, j :: Foremost(h, now, i) && Shown(h, j, now) && h[i].display in {Thinking, Review, Done} ==>
      DocumentedRank(h[j].display) <= DocumentedRank(h[i].display)
  }

  /** Whatever a snapshot shows is the state the documentation promises. */
  ghost predicate FollowsDocumentation(h: seq<Signal>, now: nat) {
    forall d, since :: HistoryDisplay(h, now, d, since) ==> ShowsDocumented(h, now, d)
  }

  /** Event j ranks highest in the documented order, and later than every live event that ranks lower. */
  ghost predicate HighestAndLater(h: seq<Signal>, now: nat, j: int) {
    && Shown(h, j, now)
    && (forall i :: Shown(h, i, now) ==>
          DocumentedRank(h[i].display) == DocumentedRank(h[j].display)
          || (DocumentedRank(h[i].display) < DocumentedRank(h[j].display) && h[i].at < h[j].at))
  }

  ghost predicate SomeLoud(h: seq<Signal>, now: nat) {
    exists i :: Shown(h, i, now) && h[i].display in {DisplayState.Failed, DisplayState.Waiting, Working}
  }

  /**
   Exactly when the displayed state is certain to follow the documented order: some session is failed, waiting or
   working, or a session of the highest documented rank spoke after every session of a lower one.
   */
  lemma {:induction false} DocumentedOrder(h: seq<Signal>, now: nat)
    requires Chronicle(h) && Until(h, now) && exists i :: Shown(h, i, now)
    ensures FollowsDocumentation(h, now) <==> SomeLoud(h, now) || exists j :: HighestAndLater(h, now, j)
  {
    FollowsWhenQuietIsHighest(h, now);
    hide FollowsDocumentation, LatestQuietIsHighest, HighestAndLater, SomeLoud;
    if SomeLoud(h, now) {
      LoudIsForemost(h, now);
    } else {
      QuietOrder(h, now);
    }
  }

  lemma {:induction false} LoudIsForemost(h: seq<Signal>, now: nat)
    requires SomeLoud(h, now)
    ensures LatestQuietIsHighest(h, now)
  {
    hide Live;
    var k :| Shown(h, k, now) && h[k].display in {DisplayState.Failed, DisplayState.Waiting, Working};
    forall i | Foremost(h, now, i) ensures h[i].display !in {Thinking, Review, Done} {
      assert AtMost(DisplayPriority(h[k].display), h[k].at, DisplayPriority(h[i].display), h[i].at);
    }
  }

  lemma {:induction false} QuietOrder(h: seq<Signal>, now: nat)
    requires Chronicle(h) && Until(h, now) && !SomeLoud(h, now) && exists i :: Shown(h, i, now)
    ensures LatestQuietIsHighest(h, now) <==> exists j :: HighestAndLater(h, now, j)
  {
    forall i | Shown(h, i, now) ensures h[i].display in {Thinking, Review, Done} { LiveMeaning(h, i, now); }
    hide Live;
    if LatestQuietIsHighest(h, now) {
      var i := LastShown(h, now, |h|);
      assert Foremost(h, now, i);
      forall j | Shown(h, j, now) && h[j].at == h[i].at ensures Foremost(h, now, j) {}
      assert HighestAndLater(h, now, i);
    }
    if j :| HighestAndLater(h, now, j) {
      forall i, k | Foremost(h, now, i) && Shown(h, k, now)
        ensures DocumentedRank(h[k].display) <= DocumentedRank(h[i].display)
      {
        assert AtMost(DisplayPriority(h[j].display), h[j].at, DisplayPriority(h[i].display), h[i].at);
      }
    }
  }

  /** The last live event is the latest. */
  lemma {:induction false} LastShown(h: seq<Signal>, now: nat, n: nat) returns (i: nat)
    requires Chronicle(h) && n <= |h| && (exists k :: Shown(h, k, now)) && forall k :: n <= k < |h| ==> !Shown(h, k, now)
    ensures Shown(h, i, now) && forall j :: Shown(h, j, now) ==> h[j].at <= h[i].at
  {
    hide Live;
    if n > 0 && Shown(h, n - 1, now) {
      i := n - 1;
    } else {
      i := LastShown(h, now, n - 1);
    }
  }

  lemma {:induction false} FollowsWhenQuietIsHighest(h: seq<Signal>, now: nat)
    requires Chronicle(h) && Until(h, now) && exists i :: Shown(h, i, now)
    ensures FollowsDocumentation(h, now) <==> LatestQuietIsHighest(h, now)
  {
    hide HistoryDisplay, ShowsDocumented, Foremost, Shown;
    if FollowsDocumentation(h, now) {
      forall i, j | Foremost(h, now, i) && Shown(h, j, now)
        ensures 0 <= i < |h| && 0 <= j < |h| && DocumentedRank(h[j].display) <= DocumentedRank(h[i].display)
      {
        ForemostMayShow(h, now, i, j);
      }
    }
    if LatestQuietIsHighest(h, now) {
      forall d, since | HistoryDisplay(h, now, d, since) ensures ShowsDocumented(h, now, d) {
        ShownIsForemost(h, now, d, since);
      }
    }
  }

  lemma {:induction false} ForemostMayShow(h: seq<Signal>, now: nat, i: int, j: int)
    requires FollowsDocumentation(h, now) && Foremost(h, now, i) && Shown(h, j, now)
    ensures 0 <= i < |h| && 0 <= j < |h| && DocumentedRank(h[j].display) <= DocumentedRank(h[i].display)
  {
    hide Live, RanOutTimes, DocumentedRank;
    assert HistoryDisplay(h, now, h[i].display, Some(h[i].at));
    assert ShowsDocumented(h, now, h[i].display);
  }

  lemma {:induction false} ShownIsForemost(h: seq<Signal>, now: nat, d: DisplayState, since: Option<nat>)
    requires Chronicle(h) && Until(h, now) && LatestQuietIsHighest(h, now) && exists i :: Shown(h, i, now)
    requires HistoryDisplay(h, now, d, since)
    ensures ShowsDocumented(h, now, d)
  {
    hide RanOutTimes;
    var i :| Shown(h, i, now) && h[i].display == d && h[i].at == since.value;
    assert Foremost(h, now, i);
    LiveMeaning(h, i, now);
    hide Live;
    forall j | Shown(h, j, now) ensures DocumentedRank(h[j].display) <= DocumentedRank(d) {
      assert AtMost(DisplayPriority(h[j].display), h[j].at, DisplayPriority(d), since.value);
    }
  }

  /** How long the pet documentation says a state stays. */
  function DocumentedTime(d: DisplayState): nat {
    match d
    case Thinking => 180_000
    case Working => 180_000
    case Review => 180_000
    case Failed => 3_600_000
    case Waiting => 86_400_000
    case Done => 604_800_000
    case Idle => 0
  }

  predicate StaysUntil(h: seq<Signal>, time: nat, now: nat)
    requires h != []
  {
    Live(h, |h| - 1, now) <==> now - h[|h| - 1].at <= time
  }

  /**
   The latest event stays three minutes when it is working or review, an hour when failed and two minutes otherwise; that
   is as long as documented exactly when it is working, review or failed.
   */
  lemma {:induction false} DocumentedTimes(h: seq<Signal>)
    requires Chronicle(h) && h != [] && h[|h| - 1].display != Idle
    ensures var x := h[|h| - 1];
            var time := if x.display in {Working, Review} then 180_000 else if x.display.Failed? then 3_600_000 else 120_000;
      forall now :: x.at <= now ==> StaysUntil(h, time, now)
    ensures var x := h[|h| - 1];
      (forall now :: x.at <= now ==> StaysUntil(h, DocumentedTime(x.display), now))
      <==> x.display in {Working, Review, DisplayState.Failed}
  {
    hide Live;
    var x := h[|h| - 1];
    var time := TimeToLive(x.display).value;
    forall now | x.at <= now ensures StaysUntil(h, time, now) {
      LiveMeaning(h, |h| - 1, now);
    }
    assert time == DocumentedTime(x.display) <==> x.display in {Working, Review, DisplayState.Failed};
    assert StaysUntil(h, time, x.at + time + 1);
    if forall now :: x.at <= now ==> StaysUntil(h, DocumentedTime(x.display), now) {
      assert StaysUntil(h, DocumentedTime(x.display), x.at + time + 1);
    }
  }

  /** A session that was prompted and a later one that stopped: the machine shows done, the documentation says thinking. */
  lemma {:induction false} DocumentedOrderFails()
    ensures var h := History([Call("a", UserPromptSubmit, 0), Call("b", Stop(false), 1)]);
      && HistoryDisplay(h, 1, Done, Some(1)) && !ShowsDocumented(h, 1, Done)
  {
    var calls := [Call("a", UserPromptSubmit, 0), Call("b", Stop(false), 1)];
    var first := [Call("a", UserPromptSubmit, 0)];
    assert calls[..1] == first && first[..0] == [];
    var a, b := Signal("a", Thinking, Active, 0), Signal("b", Done, EligibleIdle, 1);
    assert History(first) == [a];
    var h := History(calls);
    assert h == [a, b];
    assert h[..1] == [a];
    AppendEnds([a], b);
    assert [a] + [b] == h;
    assert Shown(h, 0, 1) && Shown(h, 1, 1);
  }
}

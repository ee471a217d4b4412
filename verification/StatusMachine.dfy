/**
 The desktop's status machine: it folds privacy-safe hook events of many sessions into one status,
 decaying each session when its time to live runs out and forgetting it once it shows Idle.
 */
module StatusMachine {
  import opened Status

  const U64_MAX: nat := 0xFFFF_FFFF_FFFF_FFFF

  function SaturatingAdd(a: nat, b: nat): nat {
    if a + b > U64_MAX then U64_MAX else a + b
  }

  function SaturatingSub(a: nat, b: nat): nat {
    if a < b then 0 else a - b
  }

  // ---------------------------------------------------------------- tables

  function DisplayPriority(d: DisplayState): nat {
    match d
    case Failed => 5
    case Waiting => 4
    case Working => 3
    case Thinking => 2
    case Review => 2
    case Done => 2
    case Idle => 1
  }

  function ActivityPriority(a: ActivityState): nat {
    match a
    case Failed => 3
    case Waiting => 2
    case Active => 1
    case EligibleIdle => 0
    case Unknown => 0
  }

  function TimeToLive(d: DisplayState): Option<nat> {
    match d
    case Working => Some(180_000)
    case Thinking => Some(120_000)
    case Review => Some(180_000)
    case Failed => Some(3_600_000)
    case Waiting => Some(120_000)
    case Done => Some(120_000)
    case Idle => None
  }

  datatype IdleStage = NoStage | Fresh | Salted | Costume | Fish

  function StageOf(inactive: nat): IdleStage {
    if inactive >= 3_600_000 then Fish
    else if inactive >= 2_100_000 then Costume
    else if inactive >= 1_500_000 then Salted
    else if inactive >= 900_000 then Fresh
    else NoStage
  }

  /** The stages begin at 15, 25, 35 and 60 minutes. */
  lemma {:induction false} StagesByMinutes(inactive: nat)
    ensures var minutes := inactive / 60_000;
      && (StageOf(inactive).NoStage? <==> minutes < 15)
      && (StageOf(inactive).Fresh? <==> 15 <= minutes < 25)
      && (StageOf(inactive).Salted? <==> 25 <= minutes < 35)
      && (StageOf(inactive).Costume? <==> 35 <= minutes < 60)
      && (StageOf(inactive).Fish? <==> minutes >= 60)
  {
  }

  // ---------------------------------------------------------------- events

  /** `readOnly` is what the tool-name heuristic answers for the tool. */
  datatype HookKind =
    | SessionStart
    | UserPromptSubmit
    | PreToolUse(readOnly: bool)
    | PostToolUse
    | PermissionRequest
    | Notification(kind: Option<string>)
    | Stop(endsWithQuestion: bool)

  datatype Meaning = Meaning(display: DisplayState, activity: ActivityState)

  /** Lower-casing beyond ASCII cannot create or destroy any of the words looked for below. */
  function Lower(c: char): char {
    if 'A' <= c <= 'Z' then (c as int + 32) as char else c
  }

  predicate OccursAt(text: string, word: string, i: int) {
    0 <= i <= |text| - |word| && text[i..i + |word|] == word
  }

  predicate Contains(text: string, word: string) {
    exists i :: 0 <= i <= |text| - |word| && OccursAt(text, word, i)
  }

  function ClassifyNotification(kind: Option<string>): Option<Meaning> {
    match kind
    case None => None
    case Some(text) =>
      var k := seq(|text|, i requires 0 <= i < |text| => Lower(text[i]));
      if Contains(k, "error") || Contains(k, "fail") then
        Some(Meaning(DisplayState.Failed, ActivityState.Failed))
      else if Contains(k, "permission") || Contains(k, "approval") || Contains(k, "input") then
        Some(Meaning(DisplayState.Waiting, ActivityState.Waiting))
      else if Contains(k, "idle") then
        Some(Meaning(DisplayState.Waiting, EligibleIdle))
      else
        None
  }

  function MeaningOf(kind: HookKind): (r: Option<Meaning>)
    ensures r.Some? ==> Semantic(r.value)
  {
    match kind
    case SessionStart => Some(Meaning(Idle, EligibleIdle))
    case UserPromptSubmit => Some(Meaning(Thinking, Active))
    case PreToolUse(readOnly) => Some(Meaning(if readOnly then Review else Working, Active))
    case PostToolUse => Some(Meaning(Working, Active))
    case PermissionRequest => Some(Meaning(DisplayState.Waiting, ActivityState.Waiting))
    case Notification(text) => ClassifyNotification(text)
    case Stop(_) => Some(Meaning(Done, EligibleIdle))
  }

  predicate Surrounds(text: string, before: string, word: string, after: string) {
    text == before + word + after
  }

  /** Containing a word is being something, the word, and something. */
  lemma {:induction false} ContainsMeans(text: string, word: string)
    ensures Contains(text, word) <==> exists before, after :: Surrounds(text, before, word, after)
  {
    if Contains(text, word) {
      var i :| 0 <= i <= |text| - |word| && OccursAt(text, word, i);
      assert text == text[..i] + word + text[i + |word|..];
      assert Surrounds(text, text[..i], word, text[i + |word|..]);
    }
    if before, after :| Surrounds(text, before, word, after) { assert OccursAt(text, word, |before|); }
  }

  /**
   A notification whose kind names an error or a failure is failed; else one that names a permission, an approval or an
   input waits; else an idle one shows waiting but counts as idle; and any other says nothing.
   */
  lemma {:induction false} NotificationMeaning(text: string)
    requires forall i :: 0 <= i < |text| ==> !('A' <= text[i] <= 'Z')
    ensures ClassifyNotification(Some(text)) ==
      if Contains(text, "error") || Contains(text, "fail") then Some(Meaning(DisplayState.Failed, ActivityState.Failed))
      else if Contains(text, "permission") || Contains(text, "approval") || Contains(text, "input") then
        Some(Meaning(DisplayState.Waiting, ActivityState.Waiting))
      else if Contains(text, "idle") then Some(Meaning(DisplayState.Waiting, EligibleIdle))
      else None
  {
    hide Contains;
    assert seq(|text|, i requires 0 <= i < |text| => Lower(text[i])) == text;
  }

  function Upper(c: char): char {
    if 'a' <= c <= 'z' then (c as int - 32) as char else c
  }

  /** The case of ASCII letters does not matter. */
  lemma {:induction false} CaseDoesNotMatter(text: string, other: string)
    requires |text| == |other| && forall i :: 0 <= i < |text| ==> Upper(text[i]) == Upper(other[i])
    ensures ClassifyNotification(Some(text)) == ClassifyNotification(Some(other))
  {
    hide Contains;
    assert forall i :: 0 <= i < |text| ==> Lower(text[i]) == Lower(other[i]);
    assert seq(|text|, i requires 0 <= i < |text| => Lower(text[i])) == seq(|other|, i requires 0 <= i < |other| => Lower(other[i]));
  }

  /** What each hook says of its session. */
  lemma {:induction false} HookMeanings()
    ensures MeaningOf(SessionStart) == Some(Meaning(Idle, EligibleIdle))
    ensures MeaningOf(UserPromptSubmit) == Some(Meaning(Thinking, Active))
    ensures MeaningOf(PreToolUse(true)) == Some(Meaning(Review, Active)) && MeaningOf(PreToolUse(false)) == Some(Meaning(Working, Active))
    ensures MeaningOf(PostToolUse) == Some(Meaning(Working, Active))
    ensures MeaningOf(PermissionRequest) == Some(Meaning(DisplayState.Waiting, ActivityState.Waiting))
    ensures MeaningOf(Notification(None)) == None
    ensures forall question :: MeaningOf(Stop(question)) == Some(Meaning(Done, EligibleIdle))
  {
  }

  /** A condition that blocks idle accounting always shows, and always ends by itself. */
  predicate Semantic(m: Meaning) {
    m.activity != Unknown && (m.activity != EligibleIdle ==> m.display != Idle)
  }

  // ---------------------------------------------------------------- state

  datatype Entry = Entry(display: DisplayState, activity: ActivityState, displaySince: nat, activitySince: nat)

  datatype MachineState = MachineState(
    sessions: map<string, Entry>,
    eligibleSince: Option<nat>,
    idleDisplaySince: Option<nat>,
    lastTimelineAt: Option<nat>)

  /** An entry after its time to live is taken into account; it is still live at exactly its time to live. */
  function Effective(e: Entry, now: nat): Entry {
    var ttl := TimeToLive(e.display);
    if ttl.Some? && SaturatingSub(now, e.displaySince) > ttl.value then
      var decayAt := SaturatingAdd(SaturatingAdd(e.displaySince, ttl.value), 1);
      Entry(Idle, EligibleIdle, decayAt, if e.activity == EligibleIdle then e.activitySince else decayAt)
    else
      e
  }

  /** The entry blocked idle accounting as stored and no longer does. */
  predicate Reopens(e: Entry, now: nat) {
    e.activity != EligibleIdle && Effective(e, now).activity == EligibleIdle
  }

  // ---------------------------------------------------------------- maxima

  predicate IsMax(r: Option<nat>, s: set<nat>) {
    match r
    case None => s == {}
    case Some(m) => m in s && forall x :: x in s ==> x <= m
  }

  lemma {:induction false} HasMax(s: set<nat>) returns (m: nat)
    requires s != {}
    ensures m in s && forall x :: x in s ==> x <= m
    decreases |s|
  {
    m :| m in s;
    if s != {m} {
      var n := HasMax(s - {m});
      assert forall x :: x in s ==> x == m || x in s - {m};
      if n > m { m := n; }
    }
  }

  ghost function MaxOf(s: set<nat>): (r: Option<nat>)
    ensures IsMax(r, s)
  {
    if s == {} then None
    else
      assert exists m :: m in s && forall x :: x in s ==> x <= m by { var _ := HasMax(s); }
      var m :| m in s && forall x :: x in s ==> x <= m;
      Some(m)
  }

  function Later(o: Option<nat>, x: nat): Option<nat> {
    Some(if o.None? then x else if o.value < x then x else o.value)
  }

  lemma {:induction false} LaterIsMax(o: Option<nat>, base: set<nat>, s: set<nat>, x: nat)
    requires IsMax(o, base + s)
    ensures IsMax(Later(o, x), base + (s + {x}))
  {
  }

  function Optional(o: Option<nat>): set<nat> {
    if o.None? then {} else {o.value}
  }

  lemma {:induction false} MaxIsUnique(o: Option<nat>, s: set<nat>)
    requires IsMax(o, s)
    ensures o == MaxOf(s)
  {
  }

  // ---------------------------------------------------------------- steps

  ghost function IdleTimes(sessions: map<string, Entry>, keys: set<string>): set<nat> {
    set k | k in keys && k in sessions && sessions[k].display == Idle :: sessions[k].displaySince
  }

  ghost function ReopenTimes(sessions: map<string, Entry>, keys: set<string>, now: nat): set<nat> {
    set k | k in keys && k in sessions && Reopens(sessions[k], now) :: Effective(sessions[k], now).activitySince
  }

  lemma {:induction false} NothingIdle(o: Option<nat>, m: map<string, Entry>)
    ensures IsMax(o, Optional(o) + IdleTimes(m, {}))
  {
  }

  lemma {:induction false} IdleTimesGrow(m: map<string, Entry>, keys: set<string>, k: string)
    requires k in m
    ensures IdleTimes(m, keys + {k})
         == if m[k].display == Idle then IdleTimes(m, keys) + {m[k].displaySince} else IdleTimes(m, keys)
  {
  }

  lemma {:induction false} ReopenTimesGrow(m: map<string, Entry>, keys: set<string>, k: string, now: nat)
    requires k in m
    ensures ReopenTimes(m, keys + {k}, now)
         == ReopenTimes(m, keys, now) + (if Reopens(m[k], now) then {Effective(m[k], now).activitySince} else {})
  {
  }

  /** Forgets the sessions that show Idle, keeping the latest time one of them turned Idle. */
  ghost function PruneStep(s: MachineState): MachineState {
    s.(sessions := map k | k in s.sessions && s.sessions[k].display != Idle :: s.sessions[k],
       idleDisplaySince := MaxOf(Optional(s.idleDisplaySince) + IdleTimes(s.sessions, s.sessions.Keys)))
  }

  predicate AllEligible(sessions: map<string, Entry>) {
    forall k :: k in sessions ==> sessions[k].activity == EligibleIdle
  }

  ghost function DecayStep(s: MachineState, now: nat): MachineState {
    var decayed := map k | k in s.sessions :: Effective(s.sessions[k], now);
    s.(sessions := decayed,
       eligibleSince :=
         if !AllEligible(decayed) then None
         else if s.eligibleSince.None? && decayed != map[] then MaxOf(ReopenTimes(s.sessions, s.sessions.Keys, now))
         else s.eligibleSince)
  }

  ghost function AdvanceStep(s: MachineState, now: nat): MachineState {
    PruneStep(DecayStep(s, now))
  }

  function Timeline(s: MachineState, receivedAt: nat): nat {
    if s.lastTimelineAt.None? || s.lastTimelineAt.value < receivedAt then receivedAt else s.lastTimelineAt.value
  }

  function InsertStep(s: MachineState, session: string, m: Meaning, at: nat): MachineState {
    var sessions := s.sessions[session := Entry(m.display, m.activity, at, at)];
    s.(sessions := sessions,
       eligibleSince :=
         if m.activity != EligibleIdle then None
         else if s.eligibleSince.None? && AllEligible(sessions) then Some(at)
         else s.eligibleSince)
  }

  ghost function ApplyStep(s: MachineState, session: string, kind: HookKind, receivedAt: nat): MachineState {
    var at := Timeline(s, receivedAt);
    var advanced := AdvanceStep(s, at).(lastTimelineAt := Some(at));
    var next := MeaningOf(kind);
    PruneStep(if next.None? then advanced else InsertStep(advanced, session, next.value, at))
  }

  const NewMachine := MachineState(map[], None, None, None)

  // ---------------------------------------------------------------- snapshots

  datatype StatusSnapshot = StatusSnapshot(
    display: DisplayState,
    activity: ActivityState,
    idleStage: IdleStage,
    displaySince: Option<nat>,
    activitySince: Option<nat>)

  /** Lexicographic order of priority and start. */
  predicate AtMost(p: nat, t: nat, p': nat, t': nat) {
    p < p' || (p == p' && t <= t')
  }

  predicate ShowsAt(e: Entry, now: nat, d: DisplayState, since: nat) {
    d == Effective(e, now).display && since == Effective(e, now).displaySince
  }

  predicate DisplayCandidate(s: MachineState, now: nat, d: DisplayState, since: nat) {
    (exists k :: k in s.sessions && ShowsAt(s.sessions[k], now, d, since))
    || (d == Idle && s.idleDisplaySince == Some(since))
  }

  predicate DisplayWins(s: MachineState, now: nat, d: DisplayState, since: Option<nat>) {
    match since
    case None => d == Idle && s.sessions == map[] && s.idleDisplaySince.None?
    case Some(t) =>
      && DisplayCandidate(s, now, d, t)
      && (forall k :: k in s.sessions ==>
            var e := Effective(s.sessions[k], now);
            AtMost(DisplayPriority(e.display), e.displaySince, DisplayPriority(d), t))
      && (s.idleDisplaySince.Some? ==>
            AtMost(DisplayPriority(Idle), s.idleDisplaySince.value, DisplayPriority(d), t))
  }

  predicate Blocks(e: Entry, now: nat) {
    Effective(e, now).activity != EligibleIdle
  }

  predicate BlockerWins(s: MachineState, now: nat, e: Entry) {
    && (exists k :: k in s.sessions && Blocks(s.sessions[k], now) && Effective(s.sessions[k], now) == e)
    && (forall k :: k in s.sessions && Blocks(s.sessions[k], now) ==>
          var c := Effective(s.sessions[k], now);
          AtMost(ActivityPriority(c.activity), c.activitySince, ActivityPriority(e.activity), e.activitySince))
  }

  ghost predicate ActivityWins(s: MachineState, now: nat, a: ActivityState, since: Option<nat>) {
    if exists k :: k in s.sessions && Blocks(s.sessions[k], now) then
      exists e :: BlockerWins(s, now, e) && a == e.activity && since == Some(e.activitySince)
    else
      && since == (if s.eligibleSince.Some? then s.eligibleSince else MaxOf(ReopenTimes(s.sessions, s.sessions.Keys, now)))
      && a == (if since.Some? then EligibleIdle else Unknown)
  }

  function StageAt(a: ActivityState, since: Option<nat>, now: nat): IdleStage {
    if a == EligibleIdle && since.Some? then StageOf(SaturatingSub(now, since.value)) else NoStage
  }

  /**
   The statuses a snapshot may return: ties between sessions of equal priority and equal start are decided by the
   iteration order of a hash map, so they are not decided here.
   */
  ghost predicate SnapshotOf(s: MachineState, now: nat, r: StatusSnapshot) {
    && DisplayWins(s, now, r.display, r.displaySince)
    && ActivityWins(s, now, r.activity, r.activitySince)
    && r.idleStage == StageAt(r.activity, r.activitySince, now)
  }

  // ---------------------------------------------------------------- the machine

  class Machine {
    var sessions: map<string, Entry>
    var eligibleSince: Option<nat>
    var idleDisplaySince: Option<nat>
    var lastTimelineAt: Option<nat>

    function State(): MachineState
      reads this
    {
      MachineState(sessions, eligibleSince, idleDisplaySince, lastTimelineAt)
    }

    constructor ()
      ensures State() == NewMachine
    {
      sessions, eligibleSince, idleDisplaySince, lastTimelineAt := map[], None, None, None;
    }

    method PruneIdle()
      modifies this
      ensures State() == PruneStep(old(State()))
    {
      hide IsMax, IdleTimes;
      var idle := idleDisplaySince;
      var rest := sessions.Keys;
      ghost var was := sessions;
      ghost var base := Optional(idleDisplaySince);
      ghost var seen: set<string> := {};
      NothingIdle(idle, was);
      while rest != {}
        invariant seen + rest == was.Keys && seen !! rest
        invariant eligibleSince == old(eligibleSince) && lastTimelineAt == old(lastTimelineAt)
        invariant idleDisplaySince == old(idleDisplaySince)
        invariant sessions == map k | k in was && (k in rest || was[k].display != Idle) :: was[k]
        invariant IsMax(idle, base + IdleTimes(was, seen))
      {
        var k :| k in rest;
        ghost var before := IdleTimes(was, seen);
        IdleTimesGrow(was, seen, k);
        rest, seen := rest - {k}, seen + {k};
        assert IdleTimes(was, seen) == if was[k].display == Idle then before + {was[k].displaySince} else before;
        if sessions[k].display == Idle {
          LaterIsMax(idle, base, before, sessions[k].displaySince);
          idle := Later(idle, sessions[k].displaySince);
          sessions := sessions - {k};
        }
      }
      assert seen == was.Keys;
      MaxIsUnique(idle, base + IdleTimes(was, was.Keys));
      idleDisplaySince := idle;
    }

    method DecayEntries(now: nat) returns (newly: Option<nat>)
      modifies this`sessions
      ensures sessions == map k | k in old(sessions) :: Effective(old(sessions)[k], now)
      ensures IsMax(newly, ReopenTimes(old(sessions), old(sessions).Keys, now))
    {
      hide Effective;
      newly := None;
      var rest := sessions.Keys;
      ghost var was := sessions;
      ghost var seen: set<string> := {};
      while rest != {}
        invariant seen + rest == was.Keys && seen !! rest
        invariant sessions == map k | k in was :: if k in seen then Effective(was[k], now) else was[k]
        invariant IsMax(newly, ReopenTimes(was, seen, now))
      {
        var k :| k in rest;
        ReopenTimesGrow(was, seen, k, now);
        rest, seen := rest - {k}, seen + {k};
        var current := Effective(sessions[k], now);
        if sessions[k].activity != EligibleIdle && current.activity == EligibleIdle {
          newly := Later(newly, current.activitySince);
        }
        sessions := sessions[k := current];
      }
      assert seen == was.Keys;
    }

    method Advance(now: nat)
      modifies this
      ensures State() == AdvanceStep(old(State()), now)
    {
      hide Effective;
      var newly := DecayEntries(now);
      if exists k :: k in sessions && sessions[k].activity != EligibleIdle {
        eligibleSince := None;
      } else if eligibleSince.None? && sessions != map[] {
        eligibleSince := newly;
      }
      assert State() == DecayStep(old(State()), now);
      PruneIdle();
    }

    method ApplyAt(session: string, kind: HookKind, receivedAt: nat)
      modifies this
      ensures State() == ApplyStep(old(State()), session, kind, receivedAt)
    {
      var at := if lastTimelineAt.None? then receivedAt else Max(lastTimelineAt.value, receivedAt);
      Advance(at);
      lastTimelineAt := Some(at);
      var next := MeaningOf(kind);
      if next.Some? {
        var Meaning(display, activity) := next.value;
        if activity != EligibleIdle {
          eligibleSince := None;
        }
        sessions := sessions[session := Entry(display, activity, at, at)];
        if activity == EligibleIdle && eligibleSince.None?
           && forall k :: k in sessions ==> sessions[k].activity == EligibleIdle {
          eligibleSince := Some(at);
        }
      }
      PruneIdle();
    }

    method Snapshot(now: nat) returns (r: StatusSnapshot)
      ensures SnapshotOf(State(), now, r)
    {
      var display, displaySince := CurrentDisplay(now);
      var activity, activitySince := CurrentActivity(now);
      var stage := if activity == EligibleIdle && activitySince.Some?
                   then StageOf(SaturatingSub(now, activitySince.value)) else NoStage;
      r := StatusSnapshot(display, activity, stage, displaySince, activitySince);
    }

    method CurrentDisplay(now: nat) returns (display: DisplayState, since: Option<nat>)
      ensures DisplayWins(State(), now, display, since)
    {
      display, since := Idle, None;
      var rest := sessions.Keys;
      while rest != {}
        invariant rest <= sessions.Keys
        invariant since.None? ==> display == Idle && rest == sessions.Keys
        invariant since.Some? ==> exists k :: k in sessions && ShowsAt(sessions[k], now, display, since.value)
        invariant since.Some? ==> forall k :: k in sessions && k !in rest ==>
                                    var e := Effective(sessions[k], now);
                                    AtMost(DisplayPriority(e.display), e.displaySince, DisplayPriority(display), since.value)
      {
        var k :| k in rest;
        rest := rest - {k};
        var e := Effective(sessions[k], now);
        if since.None? || AtMost(DisplayPriority(display), since.value, DisplayPriority(e.display), e.displaySince) {
          display, since := e.display, Some(e.displaySince);
          assert ShowsAt(sessions[k], now, display, since.value);
        }
      }
      if idleDisplaySince.Some?
         && (since.None? || AtMost(DisplayPriority(display), since.value, DisplayPriority(Idle), idleDisplaySince.value)) {
        display, since := Idle, idleDisplaySince;
      }
    }

    method CurrentActivity(now: nat) returns (activity: ActivityState, since: Option<nat>)
      ensures ActivityWins(State(), now, activity, since)
    {
      hide Effective, IdleTimes;
      var blocker: Option<Entry> := None;
      var newly: Option<nat> := None;
      var rest := sessions.Keys;
      ghost var seen: set<string> := {};
      while rest != {}
        invariant seen + rest == sessions.Keys && seen !! rest
        invariant blocker.None? ==> forall k :: k in seen ==> !Blocks(sessions[k], now)
        invariant blocker.Some? ==>
                    exists k :: k in sessions && Blocks(sessions[k], now) && Effective(sessions[k], now) == blocker.value
        invariant blocker.Some? ==> forall k :: k in seen && Blocks(sessions[k], now) ==>
                                      var c := Effective(sessions[k], now);
                                      AtMost(ActivityPriority(c.activity), c.activitySince,
                                        ActivityPriority(blocker.value.activity), blocker.value.activitySince)
        invariant IsMax(newly, ReopenTimes(sessions, seen, now))
      {
        var k :| k in rest;
        ReopenTimesGrow(sessions, seen, k, now);
        rest, seen := rest - {k}, seen + {k};
        var e := Effective(sessions[k], now);
        if e.activity != EligibleIdle {
          if blocker.None? || AtMost(ActivityPriority(blocker.value.activity), blocker.value.activitySince,
                                ActivityPriority(e.activity), e.activitySince) {
            blocker := Some(e);
            assert Blocks(sessions[k], now);
          }
        }
        if sessions[k].activity != EligibleIdle && e.activity == EligibleIdle {
          newly := Later(newly, e.activitySince);
        }
      }
      assert seen == sessions.Keys;
      if blocker.Some? {
        assert BlockerWins(State(), now, blocker.value);
        return blocker.value.activity, Some(blocker.value.activitySince);
      }
      since := if eligibleSince.Some? then eligibleSince else newly;
      activity := if since.Some? then EligibleIdle else Unknown;
    }
  }
}

/**
 What the status machine means: the unpruned list of the semantic events it was fed. Each event holds from its time
 until its session's next event or until its time to live has run out, whichever comes first, and everything the
 machine remembers or answers is a statement about those spans.
 */
module StatusHistory {
  import opened Status
  import opened StatusMachine

  datatype Signal = Signal(session: string, display: DisplayState, activity: ActivityState, at: nat)

  /** In time order, and every blocking event shows and ends by itself. */
  predicate Chronicle(h: seq<Signal>) {
    && (forall i :: 0 <= i < |h| ==> Semantic(Meaning(h[i].display, h[i].activity)))
    && (forall i, j {:trigger h[i], h[j]} :: 0 <= i < j < |h| ==> h[i].at <= h[j].at)
  }

  predicate Until(h: seq<Signal>, now: nat) {
    h != [] ==> h[|h| - 1].at <= now
  }

  /** The first instant at which the event no longer holds by itself; an idle display does not hold at all. */
  function Expiry(x: Signal): nat {
    match TimeToLive(x.display)
    case None => x.at
    case Some(ttl) => x.at + ttl + 1
  }

  /** The end of the span of event i. */
  function EndOf(h: seq<Signal>, i: nat): nat
    requires i < |h|
    decreases |h|
  {
    if i == |h| - 1 then Expiry(h[i])
    else
      var end := EndOf(h[..|h| - 1], i);
      if h[|h| - 1].session == h[i].session then Min(end, h[|h| - 1].at) else end
  }

  predicate Supersedes(h: seq<Signal>, i: int, j: int) {
    0 <= i < j < |h| && h[j].session == h[i].session
  }

  /** The end of a span is the earliest of its expiry and the times of the later events of its session. */
  lemma {:induction false} EndOfMeaning(h: seq<Signal>, i: nat)
    requires i < |h|
    ensures EndOf(h, i) <= Expiry(h[i])
    ensures forall j :: Supersedes(h, i, j) ==> EndOf(h, i) <= h[j].at
    ensures EndOf(h, i) == Expiry(h[i]) || exists j :: Supersedes(h, i, j) && EndOf(h, i) == h[j].at
    decreases |h|
  {
    if i < |h| - 1 {
      var front := h[..|h| - 1];
      EndOfMeaning(front, i);
      forall j | Supersedes(h, i, j) ensures EndOf(h, i) <= h[j].at {
        if j < |h| - 1 { assert Supersedes(front, i, j); }
      }
      if EndOf(h, i) != Expiry(h[i]) {
        if EndOf(h, i) == EndOf(front, i) {
          var j :| Supersedes(front, i, j) && EndOf(front, i) == front[j].at;
          assert Supersedes(h, i, j) && EndOf(h, i) == h[j].at;
        } else {
          assert Supersedes(h, i, |h| - 1);
        }
      }
    }
  }

  predicate Live(h: seq<Signal>, i: nat, now: nat)
    requires i < |h|
  {
    EndOf(h, i) > now
  }

  /** Live means: the latest event of its session, showing, and within its time to live. */
  lemma {:induction false} LiveMeaning(h: seq<Signal>, i: nat, now: nat)
    requires Chronicle(h) && Until(h, now) && i < |h|
    ensures Live(h, i, now) <==>
            && (forall j :: i < j < |h| ==> h[j].session != h[i].session)
            && h[i].display != Idle && now - h[i].at <= TimeToLive(h[i].display).value
  {
    EndOfMeaning(h, i);
    forall j | i < j < |h| && h[j].session == h[i].session ensures EndOf(h, i) <= now {
      assert Supersedes(h, i, j);
      assert h[j].at <= h[|h| - 1].at;
    }
    assert h[i].at <= h[|h| - 1].at;
  }

  predicate BlockingEvent(h: seq<Signal>, i: int) {
    0 <= i < |h| && h[i].activity != EligibleIdle
  }

  ghost function BlockEnds(h: seq<Signal>): set<nat> {
    set i | 0 <= i < |h| && BlockingEvent(h, i) :: EndOf(h, i)
  }

  ghost predicate Blocked(h: seq<Signal>, now: nat) {
    exists i :: BlockingEvent(h, i) && Live(h, i, now)
  }

  lemma {:induction false} LiveBlocks(h: seq<Signal>, i: nat, now: nat)
    requires i < |h|
    ensures Live(h, i, now) && h[i].activity != EligibleIdle ==> Blocked(h, now)
  {
    assert BlockingEvent(h, i) <==> h[i].activity != EligibleIdle;
  }

  /** Where the current eligible-idle interval starts: the latest end of a block, or the first event. */
  ghost function Anchor(h: seq<Signal>): nat
    requires h != []
  {
    var last := MaxOf(BlockEnds(h));
    if last.None? then h[0].at else last.value
  }

  ghost function EligibleAt(h: seq<Signal>, now: nat): Option<nat> {
    if h == [] || Blocked(h, now) then None else Some(Anchor(h))
  }

  /** Event i ran its course before anything replaced it. */
  predicate RanOut(h: seq<Signal>, i: int, now: nat) {
    0 <= i < |h| && EndOf(h, i) == Expiry(h[i]) <= now
  }

  ghost function RanOutTimes(h: seq<Signal>, now: nat): set<nat> {
    set i | 0 <= i < |h| && RanOut(h, i, now) :: Expiry(h[i])
  }

  function EntryOf(x: Signal): Entry {
    Entry(x.display, x.activity, x.at, x.at)
  }

  predicate SessionLive(h: seq<Signal>, session: string, now: nat) {
    exists i :: 0 <= i < |h| && h[i].session == session && Live(h, i, now)
  }

  ghost predicate SessionsReflect(sessions: map<string, Entry>, h: seq<Signal>, now: nat) {
    && (forall k :: k in sessions ==> SessionLive(h, k, now))
    && (forall i :: 0 <= i < |h| && Live(h, i, now) ==>
          h[i].session in sessions && sessions[h[i].session] == EntryOf(h[i]))
  }

  /** The pruned state is what the unpruned history says at time `now`. */
  ghost predicate Reflects(s: MachineState, h: seq<Signal>, now: nat) {
    && Chronicle(h) && Until(h, now)
    && SessionsReflect(s.sessions, h, now)
    && s.eligibleSince == EligibleAt(h, now)
    && s.idleDisplaySince == MaxOf(RanOutTimes(h, now))
  }

  // ---------------------------------------------------------------- time passing

  /** On a live entry no saturating addition saturates, and the entry decays exactly when its span is over. */
  lemma {:induction false} DecayIsTheEnd(h: seq<Signal>, i: nat, t: nat, now: nat)
    requires Chronicle(h) && Until(h, t) && t <= now <= U64_MAX && i < |h| && Live(h, i, t)
    ensures EndOf(h, i) == Expiry(h[i]) && h[i].at <= t
    ensures Live(h, i, now) ==> Effective(EntryOf(h[i]), now) == EntryOf(h[i])
    ensures !Live(h, i, now) ==>
              Effective(EntryOf(h[i]), now)
              == Entry(Idle, EligibleIdle, Expiry(h[i]), if h[i].activity == EligibleIdle then h[i].at else Expiry(h[i]))
  {
    LiveMeaning(h, i, t);
    EndOfMeaning(h, i);
    assert h[i].at <= h[|h| - 1].at;
  }

  /** What a live session's stored entry is, and what becomes of it. */
  lemma {:induction false} StoredEntry(s: MachineState, h: seq<Signal>, t: nat, now: nat, k: string) returns (i: nat)
    requires Reflects(s, h, t) && t <= now <= U64_MAX && k in s.sessions
    ensures i < |h| && h[i].session == k && Live(h, i, t) && s.sessions[k] == EntryOf(h[i])
    ensures EndOf(h, i) == Expiry(h[i]) && h[i].at <= t && h[i].display != Idle
    ensures Live(h, i, now) ==> Effective(s.sessions[k], now) == EntryOf(h[i])
    ensures !Live(h, i, now) ==>
              Effective(s.sessions[k], now)
              == Entry(Idle, EligibleIdle, Expiry(h[i]), if h[i].activity == EligibleIdle then h[i].at else Expiry(h[i]))
  {
    assert SessionLive(h, k, t);
    i :| 0 <= i < |h| && h[i].session == k && Live(h, i, t);
    LiveMeaning(h, i, t);
    DecayIsTheEnd(h, i, t, now);
  }

  lemma {:induction false} DecayedSessions(s: MachineState, h: seq<Signal>, t: nat, now: nat)
    requires Reflects(s, h, t) && t <= now <= U64_MAX
    ensures SessionsReflect(AdvanceStep(s, now).sessions, h, now)
  {
    hide Effective, Chronicle, EndOf, EligibleAt, RanOutTimes;
    var next := AdvanceStep(s, now).sessions;
    forall k | k in next ensures SessionLive(h, k, now) {
      var i := StoredEntry(s, h, t, now, k);
    }
    forall i | 0 <= i < |h| && Live(h, i, now)
      ensures h[i].session in next && next[h[i].session] == EntryOf(h[i])
    {
      assert Live(h, i, t);
      DecayIsTheEnd(h, i, t, now);
      LiveMeaning(h, i, t);
    }
  }

  /** What turned Idle by decay between the two times ran out between them. */
  lemma {:induction false} TurnedRanOut(s: MachineState, h: seq<Signal>, t: nat, now: nat, x: nat)
    requires Reflects(s, h, t) && t <= now <= U64_MAX
    requires x in IdleTimes(DecayStep(s, now).sessions, DecayStep(s, now).sessions.Keys)
    ensures x in RanOutTimes(h, now)
  {
    hide Effective, Chronicle, EndOf, EligibleAt, Expiry;
    var decayed := DecayStep(s, now).sessions;
    var k :| k in decayed && decayed[k].display == Idle && x == decayed[k].displaySince;
    var i := StoredEntry(s, h, t, now, k);
    assert RanOut(h, i, now);
  }

  lemma {:induction false} RanOutTurned(s: MachineState, h: seq<Signal>, t: nat, now: nat, i: nat)
    requires Reflects(s, h, t) && t <= now <= U64_MAX && RanOut(h, i, now)
    ensures Expiry(h[i]) in RanOutTimes(h, t)
         || Expiry(h[i]) in IdleTimes(DecayStep(s, now).sessions, DecayStep(s, now).sessions.Keys)
  {
    hide Effective, Chronicle, EndOf, EligibleAt, Expiry;
    var decayed := DecayStep(s, now).sessions;
    if Live(h, i, t) {
      DecayIsTheEnd(h, i, t, now);
      assert h[i].session in decayed;
    } else {
      assert RanOut(h, i, t);
    }
  }

  lemma {:induction false} DecayedIdle(s: MachineState, h: seq<Signal>, t: nat, now: nat)
    requires Reflects(s, h, t) && t <= now <= U64_MAX
    ensures AdvanceStep(s, now).idleDisplaySince == MaxOf(RanOutTimes(h, now))
  {
    hide Effective, Chronicle, EndOf, EligibleAt, Expiry, SessionsReflect, IdleTimes;
    var decayed := DecayStep(s, now).sessions;
    var turned := IdleTimes(decayed, decayed.Keys);
    var after := RanOutTimes(h, now);
    forall x | x in turned ensures x in after {
      TurnedRanOut(s, h, t, now, x);
    }
    forall i | RanOut(h, i, t) ensures Expiry(h[i]) in after {
      assert RanOut(h, i, now);
    }
    forall x | x in after ensures x in turned || x in RanOutTimes(h, t) {
      var i :| 0 <= i < |h| && RanOut(h, i, now) && x == Expiry(h[i]);
      RanOutTurned(s, h, t, now, i);
    }
    assert IsMax(MaxOf(after), Optional(s.idleDisplaySince) + turned);
  }

  /** The machine's own answer to "who reopens" is the ends of the blocks that were live. */
  lemma {:induction false} ReopenedEnds(s: MachineState, h: seq<Signal>, t: nat, now: nat)
    requires Reflects(s, h, t) && t <= now <= U64_MAX && !Blocked(h, now)
    ensures Blocked(h, t) ==> MaxOf(ReopenTimes(s.sessions, s.sessions.Keys, now)) == MaxOf(BlockEnds(h))
    ensures !Blocked(h, t) ==> ReopenTimes(s.sessions, s.sessions.Keys, now) == {}
  {
    hide Effective, Chronicle, EndOf, EligibleAt, RanOutTimes, Expiry;
    var reopened := ReopenTimes(s.sessions, s.sessions.Keys, now);
    forall x | x in reopened ensures x in BlockEnds(h) && x > t && Blocked(h, t) {
      var k :| k in s.sessions && Reopens(s.sessions[k], now) && x == Effective(s.sessions[k], now).activitySince;
      var i := StoredEntry(s, h, t, now, k);
      assert BlockingEvent(h, i);
    }
    forall x | x in BlockEnds(h) && x > t ensures x in reopened {
      var i :| 0 <= i < |h| && BlockingEvent(h, i) && x == EndOf(h, i);
      DecayIsTheEnd(h, i, t, now);
      assert h[i].session in s.sessions;
    }
    if Blocked(h, t) {
      var i :| BlockingEvent(h, i) && Live(h, i, t);
      assert EndOf(h, i) in BlockEnds(h);
      assert IsMax(MaxOf(BlockEnds(h)), reopened);
    }
  }

  /** After decay, every remaining session is eligible exactly when the history is not blocked. */
  lemma {:induction false} DecayedBlocks(s: MachineState, h: seq<Signal>, t: nat, now: nat)
    requires Reflects(s, h, t) && t <= now <= U64_MAX
    ensures AllEligible(DecayStep(s, now).sessions) <==> !Blocked(h, now)
  {
    hide Effective, Chronicle, EndOf, EligibleAt, RanOutTimes, Expiry;
    var decayed := DecayStep(s, now).sessions;
    if Blocked(h, now) {
      var i :| BlockingEvent(h, i) && Live(h, i, now);
      assert Live(h, i, t);
      DecayIsTheEnd(h, i, t, now);
      assert decayed[h[i].session].activity != EligibleIdle;
    } else {
      forall k | k in decayed ensures decayed[k].activity == EligibleIdle {
        var i := StoredEntry(s, h, t, now, k);
        LiveBlocks(h, i, now);
      }
    }
  }

  lemma {:induction false} BlockedEarlier(h: seq<Signal>, t: nat, now: nat)
    requires t <= now && Blocked(h, now)
    ensures Blocked(h, t)
  {
    var i :| BlockingEvent(h, i) && Live(h, i, now);
    assert Live(h, i, t);
  }

  lemma {:induction false} DecayedEligible(s: MachineState, h: seq<Signal>, t: nat, now: nat)
    requires Reflects(s, h, t) && t <= now <= U64_MAX
    ensures AdvanceStep(s, now).eligibleSince == EligibleAt(h, now)
  {
    hide Effective, Chronicle, EndOf, RanOutTimes, Expiry, Live, Blocked, SessionsReflect, AllEligible, ReopenTimes, BlockEnds;
    DecayedBlocks(s, h, t, now);
    if !Blocked(h, now) {
      ReopenedEnds(s, h, t, now);
      if h != [] && Blocked(h, t) {
        BlockedHasSession(s, h, t);
        assert s.sessions != map[] ==> DecayStep(s, now).sessions != map[];
      } else if h == [] {
        NoHistoryNoSessions(s, t);
      }
    } else {
      BlockedEarlier(h, t, now);
    }
  }

  lemma {:induction false} NoHistoryNoSessions(s: MachineState, t: nat)
    requires Reflects(s, [], t)
    ensures s.sessions == map[]
  {
    assert forall k :: k in s.sessions ==> SessionLive([], k, t);
  }

  lemma {:induction false} BlockedHasSession(s: MachineState, h: seq<Signal>, t: nat)
    requires Reflects(s, h, t) && Blocked(h, t)
    ensures s.sessions != map[] && MaxOf(BlockEnds(h)).Some?
  {
    var i :| BlockingEvent(h, i) && Live(h, i, t);
    assert h[i].session in s.sessions;
    assert EndOf(h, i) in BlockEnds(h);
  }

  /** Letting time pass keeps the pruned state equal to what the history says. */
  lemma {:induction false} AdvanceReflects(s: MachineState, h: seq<Signal>, t: nat, now: nat)
    requires Reflects(s, h, t) && t <= now <= U64_MAX
    ensures Reflects(AdvanceStep(s, now), h, now)
  {
    DecayedSessions(s, h, t, now);
    DecayedIdle(s, h, t, now);
    DecayedEligible(s, h, t, now);
  }

  // ---------------------------------------------------------------- one more event

  lemma {:induction false} AppendEnds(h: seq<Signal>, e: Signal)
    ensures EndOf(h + [e], |h|) == Expiry(e)
    ensures forall i :: 0 <= i < |h| ==>
              EndOf(h + [e], i) == if h[i].session == e.session then Min(EndOf(h, i), e.at) else EndOf(h, i)
  {
    assert (h + [e])[..|h|] == h;
  }

  /** The event belongs after the history: it is well formed and happens now. */
  predicate Follows(h: seq<Signal>, e: Signal) {
    Until(h, e.at) && Semantic(Meaning(e.display, e.activity))
  }

  ghost function Inserted(s: MachineState, e: Signal): MachineState {
    PruneStep(InsertStep(s, e.session, Meaning(e.display, e.activity), e.at))
  }

  /** At the time of the new event, the spans of the other sessions are as before, and its own session's are over. */
  lemma {:induction false} LiveAfter(h: seq<Signal>, e: Signal)
    requires Follows(h, e)
    ensures forall i :: 0 <= i < |h| ==>
              (Live(h + [e], i, e.at) <==> Live(h, i, e.at) && h[i].session != e.session)
    ensures Live(h + [e], |h|, e.at) <==> e.display != Idle
  {
    AppendEnds(h, e);
  }

  lemma {:induction false} InsertedSessions(s: MachineState, h: seq<Signal>, e: Signal)
    requires Reflects(s, h, e.at) && Follows(h, e) && e.at <= U64_MAX
    ensures SessionsReflect(Inserted(s, e).sessions, h + [e], e.at)
  {
    hide Chronicle, EndOf, Live, EligibleAt, RanOutTimes, Semantic, Expiry;
    var next := Inserted(s, e).sessions;
    var after := h + [e];
    LiveAfter(h, e);
    forall k | k in next ensures SessionLive(after, k, e.at) {
      if k == e.session {
        assert after[|h|].session == k;
      } else {
        var i := StoredEntry(s, h, e.at, e.at, k);
        assert after[i].session == k;
      }
    }
    forall i | 0 <= i < |after| && Live(after, i, e.at)
      ensures after[i].session in next && next[after[i].session] == EntryOf(after[i])
    {
      if i < |h| { LiveMeaning(h, i, e.at); }
    }
  }

  lemma {:induction false} InsertedIdle(s: MachineState, h: seq<Signal>, e: Signal)
    requires Reflects(s, h, e.at) && Follows(h, e) && e.at <= U64_MAX
    ensures Inserted(s, e).idleDisplaySince == MaxOf(RanOutTimes(h + [e], e.at))
  {
    hide Chronicle, EndOf, EligibleAt, Semantic;
    var inserted := InsertStep(s, e.session, Meaning(e.display, e.activity), e.at).sessions;
    var after := h + [e];
    AppendEnds(h, e);
    forall k | k in inserted && k != e.session ensures inserted[k].display != Idle {
      var i := StoredEntry(s, h, e.at, e.at, k);
    }
    assert e.session in inserted.Keys && inserted[e.session] == EntryOf(e);
    assert IdleTimes(inserted, inserted.Keys) == if e.display == Idle then {e.at} else {};
    forall i | 0 <= i < |h| ensures RanOut(after, i, e.at) <==> RanOut(h, i, e.at) {
      EndOfMeaning(h, i);
    }
    RanOutGrow(h, e);
    assert IsMax(MaxOf(RanOutTimes(after, e.at)), Optional(s.idleDisplaySince) + IdleTimes(inserted, inserted.Keys));
  }

  lemma {:induction false} RanOutGrow(h: seq<Signal>, e: Signal)
    requires forall i :: 0 <= i < |h| ==> (RanOut(h + [e], i, e.at) <==> RanOut(h, i, e.at))
    ensures RanOutTimes(h + [e], e.at) == RanOutTimes(h, e.at) + (if e.display == Idle then {e.at} else {})
  {
    var after := h + [e];
    AppendEnds(h, e);
    forall x | x in RanOutTimes(h, e.at) ensures x in RanOutTimes(after, e.at) {
      var i :| 0 <= i < |h| && RanOut(h, i, e.at) && x == Expiry(h[i]);
      assert RanOut(after, i, e.at) && after[i] == h[i];
    }
    assert RanOut(after, |h|, e.at) <==> e.display == Idle;
    assert after[|h|] == e;
  }

  /** A block that was live ends now if it was the session's own, and every block has ended by then. */
  lemma {:induction false} InsertedEligible(s: MachineState, h: seq<Signal>, e: Signal)
    requires Reflects(s, h, e.at) && Follows(h, e) && e.at <= U64_MAX
    ensures Inserted(s, e).eligibleSince == EligibleAt(h + [e], e.at)
  {
    hide Chronicle, EndOf, RanOutTimes, SessionsReflect, Expiry, BlockEnds, Reflects;
    var after := h + [e];
    LiveAfter(h, e);
    if e.activity != EligibleIdle {
      assert BlockingEvent(after, |h|) && Live(after, |h|, e.at);
    } else {
      hide Live;
      EligibleInsert(s, h, e);
    }
  }

  lemma {:induction false} EligibleInsert(s: MachineState, h: seq<Signal>, e: Signal)
    requires Reflects(s, h, e.at) && Follows(h, e) && e.at <= U64_MAX && e.activity == EligibleIdle
    ensures Inserted(s, e).eligibleSince == EligibleAt(h + [e], e.at)
  {
    hide Chronicle, EndOf, RanOutTimes, Expiry, BlockEnds, Live, SessionsReflect, AllEligible;
    var after := h + [e];
    OthersEligible(s, h, e);
    BlockEndsAfter(h, e);
    if h == [] {
      NoHistoryNoSessions(s, e.at);
      NothingBlocks(e);
    } else if Blocked(h, e.at) {
      if !Blocked(after, e.at) { assert Anchor(after) == e.at; }
    }
  }

  lemma {:induction false} NothingBlocks(e: Signal)
    requires e.activity == EligibleIdle
    ensures BlockEnds([] + [e]) == {} && !Blocked([] + [e], e.at)
  {
    assert forall i :: !BlockingEvent([] + [e], i);
  }

  lemma {:induction false} OthersEligible(s: MachineState, h: seq<Signal>, e: Signal)
    requires Reflects(s, h, e.at) && Follows(h, e) && e.at <= U64_MAX && e.activity == EligibleIdle
    ensures AllEligible(s.sessions[e.session := EntryOf(e)]) <==> !Blocked(h + [e], e.at)
  {
    hide Chronicle, EndOf, RanOutTimes, EligibleAt, Live, Expiry;
    var after := h + [e];
    var next := s.sessions[e.session := EntryOf(e)];
    LiveAfter(h, e);
    if Blocked(after, e.at) {
      var i :| BlockingEvent(after, i) && Live(after, i, e.at);
      assert i < |h|;
      assert next[h[i].session].activity != EligibleIdle;
    } else {
      forall k | k in next ensures next[k].activity == EligibleIdle {
        if k != e.session {
          var i := StoredEntry(s, h, e.at, e.at, k);
          LiveBlocks(after, i, e.at);
        }
      }
    }
  }

  /** An eligible event caps the ends of its session's blocks at its own time and adds no block. */
  lemma {:induction false} BlockEndsAfter(h: seq<Signal>, e: Signal)
    requires Chronicle(h) && Follows(h, e) && e.activity == EligibleIdle
    ensures !Blocked(h, e.at) ==>
              MaxOf(BlockEnds(h + [e])) == MaxOf(BlockEnds(h)) && !Blocked(h + [e], e.at)
    ensures Blocked(h, e.at) && !Blocked(h + [e], e.at) ==> MaxOf(BlockEnds(h + [e])) == Some(e.at)
  {
    hide Chronicle, EndOf, Expiry;
    var after := h + [e];
    AppendEnds(h, e);
    LiveAfter(h, e);
    forall i | BlockingEvent(after, i) ensures i < |h| && BlockingEvent(h, i) && EndOf(after, i) in BlockEnds(after) {
    }
    if !Blocked(h, e.at) {
      forall i | BlockingEvent(h, i) ensures EndOf(after, i) == EndOf(h, i) {
        assert !Live(h, i, e.at);
      }
      assert forall i :: BlockingEvent(h, i) <==> BlockingEvent(after, i);
      assert BlockEnds(after) == BlockEnds(h);
    } else if !Blocked(after, e.at) {
      var i :| BlockingEvent(h, i) && Live(h, i, e.at);
      assert BlockingEvent(after, i) && EndOf(after, i) == e.at;
      forall x | x in BlockEnds(after) ensures x <= e.at {
        var j :| 0 <= j < |after| && BlockingEvent(after, j) && x == EndOf(after, j);
        assert !Live(after, j, e.at);
      }
      assert IsMax(Some(e.at), BlockEnds(after));
    }
  }

  lemma {:induction false} ChronicleGrows(h: seq<Signal>, e: Signal)
    requires Chronicle(h) && Follows(h, e)
    ensures Chronicle(h + [e]) && Until(h + [e], e.at)
  {
    hide Semantic;
    if h != [] { assert forall i :: 0 <= i < |h| ==> h[i].at <= h[|h| - 1].at; }
  }

  /** One more event keeps the pruned state equal to what the longer history says. */
  lemma {:induction false} InsertReflects(s: MachineState, h: seq<Signal>, e: Signal)
    requires Reflects(s, h, e.at) && Follows(h, e) && e.at <= U64_MAX
    ensures Reflects(Inserted(s, e), h + [e], e.at)
  {
    hide SessionsReflect, EligibleAt, RanOutTimes, Inserted, Chronicle, Follows, Until;
    InsertedSessions(s, h, e);
    InsertedIdle(s, h, e);
    InsertedEligible(s, h, e);
    ChronicleGrows(h, e);
  }

  // ---------------------------------------------------------------- every run

  datatype Call = Call(session: string, kind: HookKind, receivedAt: nat)

  ghost function Play(calls: seq<Call>): MachineState {
    if calls == [] then NewMachine
    else
      var c := calls[|calls| - 1];
      ApplyStep(Play(calls[..|calls| - 1]), c.session, c.kind, c.receivedAt)
  }

  /** The latest receive time so far: an event received earlier than another counts as simultaneous with it. */
  function LatestReceived(calls: seq<Call>): nat {
    if calls == [] then 0 else Max(LatestReceived(calls[..|calls| - 1]), calls[|calls| - 1].receivedAt)
  }

  /** The semantic events of a run; informational notifications leave no trace. */
  function History(calls: seq<Call>): seq<Signal> {
    if calls == [] then []
    else
      var c := calls[|calls| - 1];
      var before := History(calls[..|calls| - 1]);
      var m := MeaningOf(c.kind);
      if m.None? then before else before + [Signal(c.session, m.value.display, m.value.activity, LatestReceived(calls))]
  }

  predicate ReceivedInRange(calls: seq<Call>) {
    forall i :: 0 <= i < |calls| ==> calls[i].receivedAt <= U64_MAX
  }

  lemma {:induction false} NewReflects()
    ensures Reflects(NewMachine, [], 0)
  {
    assert IsMax(None, RanOutTimes([], 0));
  }

  /** In every run the pruned machine is what the whole history says at the latest receive time. */
  lemma {:induction false} PlayReflects(calls: seq<Call>)
    requires ReceivedInRange(calls)
    ensures Reflects(Play(calls), History(calls), LatestReceived(calls)) && LatestReceived(calls) <= U64_MAX
    ensures Play(calls).lastTimelineAt == if calls == [] then None else Some(LatestReceived(calls))
    decreases |calls|
  {
    hide Reflects, ApplyStep, MeaningOf;
    if calls == [] {
      NewReflects();
    } else {
      var front, c := calls[..|calls| - 1], calls[|calls| - 1];
      PlayReflects(front);
      ApplyReflects(Play(front), History(front), LatestReceived(front), c);
    }
  }

  lemma {:induction false} ApplyReflects(s: MachineState, h: seq<Signal>, t: nat, c: Call)
    requires Reflects(s, h, t) && t <= U64_MAX && c.receivedAt <= U64_MAX
    requires s.lastTimelineAt == Some(t) || (s.lastTimelineAt.None? && t == 0)
    ensures var at := Max(t, c.receivedAt);
            var m := MeaningOf(c.kind);
            var next := ApplyStep(s, c.session, c.kind, c.receivedAt);
      && next.lastTimelineAt == Some(at)
      && Reflects(next, if m.None? then h else h + [Signal(c.session, m.value.display, m.value.activity, at)], at)
  {
    hide MeaningOf, SessionsReflect, EligibleAt, RanOutTimes, Chronicle, Effective, AllEligible;
    var at := Max(t, c.receivedAt);
    AdvanceReflects(s, h, t, at);
    hide DecayStep;
    var advanced := AdvanceStep(s, at).(lastTimelineAt := Some(at));
    var m := MeaningOf(c.kind);
    if m.None? {
      PruneAgain(DecayStep(s, at));
    } else {
      InsertReflects(advanced, h, Signal(c.session, m.value.display, m.value.activity, at));
    }
  }

  lemma {:induction false} PruneAgain(s: MachineState)
    ensures PruneStep(PruneStep(s).(lastTimelineAt := s.lastTimelineAt)) == PruneStep(s)
    ensures forall at :: PruneStep(PruneStep(s).(lastTimelineAt := at)) == PruneStep(s).(lastTimelineAt := at)
  {
    var once := PruneStep(s);
    assert once.sessions == map k | k in once.sessions && once.sessions[k].display != Idle :: once.sessions[k];
    assert IdleTimes(once.sessions, once.sessions.Keys) == {};
    assert Optional(once.idleDisplaySince) + {} == Optional(once.idleDisplaySince);
    assert IsMax(once.idleDisplaySince, Optional(once.idleDisplaySince));
  }
}

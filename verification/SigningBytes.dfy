/** The canonical text of a report envelope, which replay compares and the signature covers. */
module SigningBytes {
  import opened Status
  import opened EdgeWire
  import opened JsonText
  import opened CanonicalJson

  function DisplayName(d: DisplayState): string {
    match d
    case Idle => "idle"
    case Thinking => "thinking"
    case Working => "working"
    case Review => "review"
    case Waiting => "waiting"
    case Done => "done"
    case Failed => "failed"
  }

  function ActivityName(a: ActivityState): string {
    match a
    case Unknown => "unknown"
    case Active => "active"
    case EligibleIdle => "eligible_idle"
    case Waiting => "waiting"
    case Failed => "failed"
  }

  function EventMembers(e: EdgeEvent): seq<Member> {
    match e
    case StateTransition(sequence, observedAt, display, activity, petId) =>
      [Member("kind", Text("state_transition")), Member("sequence", Number(sequence)), Member("observed_at", Text(observedAt)),
       Member("display_state", Text(DisplayName(display))), Member("activity_state", Text(ActivityName(activity))),
       Member("pet_id", Text(petId))]
    case Heartbeat(sequence, observedAt) =>
      [Member("kind", Text("heartbeat")), Member("sequence", Number(sequence)), Member("observed_at", Text(observedAt))]
  }

  function EventsJson(events: seq<EdgeEvent>): (r: seq<Json>)
    ensures |r| == |events|
  {
    seq(|events|, i requires 0 <= i < |events| => Object(EventMembers(events[i])))
  }

  /** The envelope without its signature. */
  function UnsignedMembers(e: Envelope): seq<Member> {
    [Member("protocol_version", Number(PROTOCOL_VERSION)), Member("instance_id", Text(e.instanceId)),
     Member("key_id", Text(e.keyId)), Member("boot_id", Text(e.bootId)),
     Member("previous_boot_id", if e.previousBootId.None? then Null else Text(e.previousBootId.value)),
     Member("first_sequence", Number(e.firstSequence)), Member("events", Array(EventsJson(e.events))),
     Member("sent_at", Text(e.sentAt)), Member("client_version", Text(e.clientVersion))]
  }

  function SignedMembers(e: Envelope): seq<Member> {
    UnsignedMembers(e) + [Member("signature", Text(e.signature))]
  }

  const SIGNATURE_DOMAIN := "workbuddy-buddy/edge-report/v1\0"

  function SigningPayload(rt: Runtime, e: Envelope): string {
    SIGNATURE_DOMAIN + Canonical(rt, Object(UnsignedMembers(e)))
  }

  function EnvelopeText(rt: Runtime, e: Envelope): string {
    Canonical(rt, Object(SignedMembers(e)))
  }

  // ---------------------------------------------------------------- well formed, with plain keys

  /** Keys that differ in length or in one of their first three characters. */
  predicate Tells(a: string, b: string) {
    |a| != |b| || (|a| >= 3 && (a[0] != b[0] || a[2] != b[2]))
  }

  lemma {:induction false} EnvelopeKeys(e: Envelope)
    ensures DistinctKeys(SignedMembers(e)) && DistinctKeys(UnsignedMembers(e))
  {
    var m := SignedMembers(e);
    forall i, j | 0 <= i < j < |m| ensures m[i].key != m[j].key {
      assert Tells(m[i].key, m[j].key);
    }
    forall i, j | 0 <= i < j < |UnsignedMembers(e)| ensures UnsignedMembers(e)[i].key != UnsignedMembers(e)[j].key {
      assert m[i] == UnsignedMembers(e)[i] && m[j] == UnsignedMembers(e)[j];
    }
  }

  lemma {:induction false} EventIsWellFormed(e: EdgeEvent)
    ensures WellFormed(Object(EventMembers(e)))
  {
    var m := EventMembers(e);
    forall i, j | 0 <= i < j < |m| ensures m[i].key != m[j].key {
      assert |m[i].key| != |m[j].key|;
    }
  }

  lemma {:induction false} EnvelopeIsWellFormed(e: Envelope)
    ensures WellFormed(Object(SignedMembers(e))) && WellFormed(Object(UnsignedMembers(e)))
  {
    hide EventMembers, DistinctKeys;
    EnvelopeKeys(e);
    forall i | 0 <= i < |e.events| ensures WellFormed(EventsJson(e.events)[i]) {
      EventIsWellFormed(e.events[i]);
    }
    var events := Array(EventsJson(e.events));
    assert WellFormed(events);
    forall i | 0 <= i < |SignedMembers(e)| ensures WellFormed(SignedMembers(e)[i].value) {
      assert SignedMembers(e)[i].value == events || !SignedMembers(e)[i].value.Array?;
    }
    forall i | 0 <= i < |UnsignedMembers(e)| ensures WellFormed(UnsignedMembers(e)[i].value) {
      assert UnsignedMembers(e)[i] == SignedMembers(e)[i];
    }
  }

  // ---------------------------------------------------------------- the text determines the envelope

  predicate SameKeys(m: seq<Member>, n: seq<Member>) {
    |m| == |n| && forall k :: 0 <= k < |m| ==> m[k].key == n[k].key
  }

  /** Objects that list the same distinct keys in the same places are the same member by member. */
  lemma {:induction false} SameByPosition(m: seq<Member>, n: seq<Member>, i: nat)
    requires DistinctKeys(n) && Same(Object(m), Object(n)) && i < |m|
    requires SameKeys(m, n)
    ensures Same(m[i].value, n[i].value)
  {
    var j :| 0 <= j < |n| && n[j].key == m[i].key && Same(m[i].value, n[j].value);
    OneIndexPerKey(n, i, j);
  }

  lemma {:induction false} SameSize(m: seq<Member>, n: seq<Member>)
    requires Same(Object(m), Object(n))
    ensures |m| == |n|
  {
  }

  lemma {:induction false} SameLeaf(v: Json, w: Json)
    requires Same(v, w) && (v.Text? || v.Number? || v.Null?)
    ensures v == w
  {
  }

  lemma {:induction false} SameTexts(m: seq<Member>, n: seq<Member>, i: nat)
    requires DistinctKeys(n) && Same(Object(m), Object(n)) && i < |m|
    requires SameKeys(m, n)
    requires m[i].value.Text? || m[i].value.Number? || m[i].value.Null?
    ensures m[i].value == n[i].value
  {
    hide Same, DistinctKeys;
    SameByPosition(m, n, i);
    SameLeaf(m[i].value, n[i].value);
  }

  lemma {:induction false} EventKeys(e: EdgeEvent)
    ensures DistinctKeys(EventMembers(e))
  {
    EventIsWellFormed(e);
  }

  lemma {:induction false} SameEvents(a: EdgeEvent, b: EdgeEvent)
    requires Same(Object(EventMembers(a)), Object(EventMembers(b)))
    ensures a == b
  {
    hide Same, DistinctKeys, DisplayName, ActivityName;
    EventKeys(b);
    var m, n := EventMembers(a), EventMembers(b);
    SameSize(m, n);
    assert SameKeys(m, n);
    SameTexts(m, n, 1);
    SameTexts(m, n, 2);
    if a.StateTransition? {
      SameTexts(m, n, 3);
      SameTexts(m, n, 4);
      SameTexts(m, n, 5);
      NamesDiffer(a.displayState, b.displayState, a.activityState, b.activityState);
    }
  }

  lemma {:induction false} NamesDiffer(d: DisplayState, d': DisplayState, a: ActivityState, a': ActivityState)
    ensures DisplayName(d) == DisplayName(d') ==> d == d'
    ensures ActivityName(a) == ActivityName(a') ==> a == a'
  {
    assert DisplayName(d)[0] == DisplayName(d)[0] && DisplayName(d')[0] == DisplayName(d')[0];
    assert DisplayName(d)[1] == DisplayName(d)[1] && DisplayName(d')[1] == DisplayName(d')[1];
    assert ActivityName(a)[0] == ActivityName(a)[0] && ActivityName(a')[0] == ActivityName(a')[0];
  }

  lemma {:induction false} SameEventLists(e: seq<EdgeEvent>, f: seq<EdgeEvent>)
    requires Same(Array(EventsJson(e)), Array(EventsJson(f)))
    ensures e == f
  {
    hide EventMembers;
    forall i | 0 <= i < |e| ensures e[i] == f[i] {
      assert Same(EventsJson(e)[i], EventsJson(f)[i]);
      SameEvents(e[i], f[i]);
    }
  }

  lemma {:induction false} SameUnsigned(e: Envelope, f: Envelope)
    requires forall i :: 0 <= i < 9 ==> Same(UnsignedMembers(e)[i].value, UnsignedMembers(f)[i].value)
    ensures e.(signature := "") == f.(signature := "")
  {
    hide Same, EventsJson;
    var m, n := UnsignedMembers(e), UnsignedMembers(f);
    SameLeaf(m[1].value, n[1].value);
    SameLeaf(m[2].value, n[2].value);
    SameLeaf(m[3].value, n[3].value);
    SameLeaf(m[4].value, n[4].value);
    SameLeaf(m[5].value, n[5].value);
    SameLeaf(m[7].value, n[7].value);
    SameLeaf(m[8].value, n[8].value);
    assert m[6].value == Array(EventsJson(e.events)) && n[6].value == Array(EventsJson(f.events));
    SameEventLists(e.events, f.events);
  }

  lemma {:induction false} UnsignedIgnoresSignature(e: Envelope)
    ensures UnsignedMembers(e) == UnsignedMembers(e.(signature := ""))
  {
  }

  lemma {:induction false} UnsignedKeyList(e: Envelope, f: Envelope)
    ensures |UnsignedMembers(e)| == 9 && SameKeys(UnsignedMembers(e), UnsignedMembers(f))
  {
  }

  /** The signing payload determines everything in the envelope but the signature, and nothing else. */
  lemma {:induction false} SigningPayloadDetermines(rt: Runtime, e: Envelope, f: Envelope)
    ensures SigningPayload(rt, e) == SigningPayload(rt, f) <==> e.(signature := "") == f.(signature := "")
  {
    hide Canonical, DistinctKeys, WellFormed, Same, UnsignedMembers;
    var v, w := Object(UnsignedMembers(e)), Object(UnsignedMembers(f));
    EnvelopeIsWellFormed(e);
    EnvelopeIsWellFormed(f);
    CanonicalIffSame(rt, v, w);
    UnsignedIgnoresSignature(e);
    UnsignedIgnoresSignature(f);
    if SigningPayload(rt, e) == SigningPayload(rt, f) {
      Cancel(SIGNATURE_DOMAIN, Canonical(rt, v), Canonical(rt, w));
      EnvelopeKeys(f);
      UnsignedKeyList(e, f);
      forall i | 0 <= i < 9 ensures Same(UnsignedMembers(e)[i].value, UnsignedMembers(f)[i].value) {
        SameByPosition(UnsignedMembers(e), UnsignedMembers(f), i);
      }
      SameUnsigned(e, f);
    }
  }

  /** Comparing canonical texts is comparing envelopes, so an exact replay is recognised and nothing else is. */
  lemma {:induction false} EnvelopeTextDetermines(rt: Runtime, e: Envelope, f: Envelope)
    ensures EnvelopeText(rt, e) == EnvelopeText(rt, f) <==> e == f
  {
    hide Canonical, DistinctKeys, WellFormed, Same, UnsignedMembers;
    var m, n := SignedMembers(e), SignedMembers(f);
    EnvelopeIsWellFormed(e);
    EnvelopeIsWellFormed(f);
    CanonicalIffSame(rt, Object(m), Object(n));
    if EnvelopeText(rt, e) == EnvelopeText(rt, f) {
      EnvelopeKeys(f);
      SameKeyList(e, f);
      forall i | 0 <= i < |m| ensures Same(m[i].value, n[i].value) { SameByPosition(m, n, i); }
      SameLeaf(Text(e.signature), Text(f.signature)) by { assert m[9].value == Text(e.signature) && n[9].value == Text(f.signature); }
      forall i | 0 <= i < 9 ensures Same(UnsignedMembers(e)[i].value, UnsignedMembers(f)[i].value) {
        assert m[i] == UnsignedMembers(e)[i] && n[i] == UnsignedMembers(f)[i];
      }
      SameUnsigned(e, f);
      assert e == e.(signature := "").(signature := e.signature) && f == f.(signature := "").(signature := f.signature);
    }
  }

  lemma {:induction false} SameKeyList(e: Envelope, f: Envelope)
    ensures |UnsignedMembers(e)| == 9 == |UnsignedMembers(f)|
    ensures |SignedMembers(e)| == 10 && SameKeys(SignedMembers(e), SignedMembers(f))
  {
  }

  // ---------------------------------------------------------------- the client and the server agree

  predicate AllPlain(members: seq<Member>) {
    forall i :: 0 <= i < |members| ==> PlainKey(members[i].key)
  }

  /** The wire's own keys are ASCII. */
  lemma {:induction false} PlainNames()
    ensures PlainKey("kind") && PlainKey("sequence") && PlainKey("observed_at") && PlainKey("display_state")
    ensures PlainKey("activity_state") && PlainKey("pet_id")
    ensures PlainKey("protocol_version") && PlainKey("instance_id") && PlainKey("key_id") && PlainKey("boot_id")
    ensures PlainKey("previous_boot_id") && PlainKey("first_sequence") && PlainKey("events") && PlainKey("sent_at")
    ensures PlainKey("client_version") && PlainKey("signature")
  {
  }

  lemma {:induction false} PlainMembersAreAlike(members: seq<Member>)
    requires AllPlain(members)
    ensures AllAlike(members)
  {
    forall i, j | 0 <= i < |members| && 0 <= j < |members| ensures OrderedAlike(members[i].key, members[j].key) {
      PlainKeysAreAlike(members[i].key, members[j].key);
    }
  }

  lemma {:induction false} EventIsAlike(e: EdgeEvent)
    ensures KeysAlike(Object(EventMembers(e)))
  {
    hide OrderedAlike, PlainKey, AllAlike;
    PlainNames();
    assert AllPlain(EventMembers(e));
    PlainMembersAreAlike(EventMembers(e));
  }

  lemma {:induction false} EnvelopeIsAlike(e: Envelope)
    ensures KeysAlike(Object(SignedMembers(e))) && KeysAlike(Object(UnsignedMembers(e)))
  {
    hide OrderedAlike, EventMembers, AllAlike, PlainKey;
    PlainNames();
    PlainMembersAreAlike(SignedMembers(e));
    PlainMembersAreAlike(UnsignedMembers(e));
    forall i | 0 <= i < |e.events| ensures KeysAlike(EventsJson(e.events)[i]) { EventIsAlike(e.events[i]); }
    var events := Array(EventsJson(e.events));
    assert KeysAlike(events);
    forall i | 0 <= i < |SignedMembers(e)| ensures KeysAlike(SignedMembers(e)[i].value) {
      assert SignedMembers(e)[i].value == events || !SignedMembers(e)[i].value.Array?;
    }
    forall i | 0 <= i < |UnsignedMembers(e)| ensures KeysAlike(UnsignedMembers(e)[i].value) {
      assert UnsignedMembers(e)[i] == SignedMembers(e)[i];
    }
  }

  /** For every envelope the Rust client signs the bytes the TypeScript server verifies. */
  lemma {:induction false} ClientSignsWhatServerVerifies(e: Envelope)
    ensures SigningPayload(Rust, e) == SigningPayload(TypeScript, e)
    ensures EnvelopeText(Rust, e) == EnvelopeText(TypeScript, e)
  {
    hide Canonical, KeysAlike, WellFormed;
    EnvelopeIsWellFormed(e);
    EnvelopeIsAlike(e);
    RuntimesAgree(Object(UnsignedMembers(e)));
    RuntimesAgree(Object(SignedMembers(e)));
  }

  // ---------------------------------------------------------------- reading an envelope by its member names

  function Find(members: seq<Member>, key: string): Option<Json> {
    if members == [] then None else if members[0].key == key then Some(members[0].value) else Find(members[1..], key)
  }

  function TextOf(o: Option<Json>): Option<string> {
    if o.Some? && o.value.Text? then Some(o.value.s) else None
  }

  function CountOf(o: Option<Json>): Option<nat> {
    if o.Some? && o.value.Number? && o.value.n >= 0 then Some(o.value.n) else None
  }

  /** The display states as the wire schema names them. */
  function ReadDisplay(name: string): Option<DisplayState> {
    if name == "idle" then Some(Idle)
    else if name == "thinking" then Some(Thinking)
    else if name == "working" then Some(Working)
    else if name == "review" then Some(Review)
    else if name == "waiting" then Some(DisplayState.Waiting)
    else if name == "done" then Some(Done)
    else if name == "failed" then Some(DisplayState.Failed)
    else None
  }

  function ReadActivity(name: string): Option<ActivityState> {
    if name == "unknown" then Some(Unknown)
    else if name == "active" then Some(Active)
    else if name == "eligible_idle" then Some(EligibleIdle)
    else if name == "waiting" then Some(ActivityState.Waiting)
    else if name == "failed" then Some(ActivityState.Failed)
    else None
  }

  function ReadEvent(m: seq<Member>): Option<EdgeEvent> {
    var kind, sequence, at := TextOf(Find(m, "kind")), CountOf(Find(m, "sequence")), TextOf(Find(m, "observed_at"));
    if sequence.None? || at.None? then None
    else if kind == Some("heartbeat") then Some(Heartbeat(sequence.value, at.value))
    else if kind != Some("state_transition") then None
    else
      var display, activity, pet := TextOf(Find(m, "display_state")), TextOf(Find(m, "activity_state")), TextOf(Find(m, "pet_id"));
      if display.None? || activity.None? || pet.None? || ReadDisplay(display.value).None? || ReadActivity(activity.value).None? then None
      else Some(StateTransition(sequence.value, at.value, ReadDisplay(display.value).value, ReadActivity(activity.value).value, pet.value))
  }

  function ReadEvents(items: seq<Json>): Option<seq<EdgeEvent>> {
    if items == [] then Some([])
    else if !items[0].Object? then None
    else
      var first, rest := ReadEvent(items[0].members), ReadEvents(items[1..]);
      if first.None? || rest.None? then None else Some([first.value] + rest.value)
  }

  function ReadPrevious(o: Option<Json>): Option<Option<string>> {
    if o == Some(Null) then Some(None) else if TextOf(o).Some? then Some(TextOf(o)) else None
  }

  /** The envelope that a report's members name; None when one is missing or of the wrong kind. */
  function ReadEnvelope(m: seq<Member>): Option<Envelope> {
    var instanceId, keyId, bootId := TextOf(Find(m, "instance_id")), TextOf(Find(m, "key_id")), TextOf(Find(m, "boot_id"));
    var previous, first := ReadPrevious(Find(m, "previous_boot_id")), CountOf(Find(m, "first_sequence"));
    var items := Find(m, "events");
    var events := if items.Some? && items.value.Array? then ReadEvents(items.value.items) else None;
    var sentAt, version, signature := TextOf(Find(m, "sent_at")), TextOf(Find(m, "client_version")), TextOf(Find(m, "signature"));
    if Find(m, "protocol_version") != Some(Number(1)) || instanceId.None? || keyId.None? || bootId.None? || previous.None?
       || first.None? || events.None? || sentAt.None? || version.None? || signature.None? then None
    else Some(Envelope(instanceId.value, keyId.value, bootId.value, previous.value, first.value, events.value, sentAt.value,
                       version.value, signature.value))
  }

  lemma {:induction false} FindsMember(m: seq<Member>, i: nat)
    requires DistinctKeys(m) && i < |m|
    ensures Find(m, m[i].key) == Some(m[i].value)
  {
    if i > 0 { FindsMember(m[1..], i - 1); }
  }

  lemma {:induction false} NamesAreRead(d: DisplayState, a: ActivityState)
    ensures ReadDisplay(DisplayName(d)) == Some(d) && ReadActivity(ActivityName(a)) == Some(a)
  {
  }

  lemma {:induction false} EventIsRead(e: EdgeEvent)
    ensures ReadEvent(EventMembers(e)) == Some(e)
  {
    hide Find, DistinctKeys, ReadDisplay, ReadActivity, DisplayName, ActivityName;
    EventKeys(e);
    var m := EventMembers(e);
    FindsMember(m, 0);
    FindsMember(m, 1);
    FindsMember(m, 2);
    if e.StateTransition? {
      FindsMember(m, 3);
      FindsMember(m, 4);
      FindsMember(m, 5);
      NamesAreRead(e.displayState, e.activityState);
    }
  }

  lemma {:induction false} EventsAreRead(events: seq<EdgeEvent>)
    ensures ReadEvents(EventsJson(events)) == Some(events)
  {
    hide ReadEvent, EventMembers;
    if events != [] {
      EventIsRead(events[0]);
      EventsAreRead(events[1..]);
      assert EventsJson(events)[1..] == EventsJson(events[1..]);
      assert events == [events[0]] + events[1..];
    }
  }

  /** Reading a report's members by their names gives back the envelope. */
  lemma {:induction false} EnvelopeIsRead(e: Envelope)
    ensures ReadEnvelope(SignedMembers(e)) == Some(e)
  {
    hide Find, DistinctKeys, ReadEvents, EventsJson;
    EnvelopeKeys(e);
    EventsAreRead(e.events);
    var m := SignedMembers(e);
    FindsMember(m, 0);
    FindsMember(m, 1);
    FindsMember(m, 2);
    FindsMember(m, 3);
    FindsMember(m, 4);
    FindsMember(m, 5);
    FindsMember(m, 6);
    FindsMember(m, 7);
    FindsMember(m, 8);
    FindsMember(m, 9);
  }

  /** The signed text is the domain and the canonical text of all members but the signature. */
  lemma {:induction false} PayloadIsUnsigned(rt: Runtime, e: Envelope)
    ensures SigningPayload(rt, e) == "workbuddy-buddy/edge-report/v1\0" + Canonical(rt, Object(SignedMembers(e)[..9]))
    ensures |SignedMembers(e)| == 10 && SignedMembers(e)[9].key == "signature"
  {
    hide Canonical;
    assert SignedMembers(e)[..9] == UnsignedMembers(e);
  }
}

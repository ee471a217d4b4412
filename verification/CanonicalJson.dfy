/**
 Canonical JSON: object members sorted by key, then printed. Two values have the same canonical text exactly when they
 are equal with members reordered, in either runtime; the two runtimes agree exactly when they order the keys alike.
 */
module CanonicalJson {
  import opened JsonText

  /** JavaScript sorts keys by UTF-16 code units, Rust by code points (as UTF-8 bytes do). */
  datatype Runtime = TypeScript | Rust

  // ---------------------------------------------------------------- key order

  function CharUnits(rt: Runtime, c: char): seq<nat> {
    if rt.Rust? || (c as int) < 0x1_0000 then [c as nat]
    else [0xD800 + (c as int - 0x1_0000) / 0x400, 0xDC00 + (c as int - 0x1_0000) % 0x400]
  }

  function Units(rt: Runtime, s: string): seq<nat> {
    if s == [] then [] else CharUnits(rt, s[0]) + Units(rt, s[1..])
  }

  predicate LexLeq(a: seq<nat>, b: seq<nat>) {
    a == [] || (b != [] && (a[0] < b[0] || (a[0] == b[0] && LexLeq(a[1..], b[1..]))))
  }

  predicate KeyLeq(rt: Runtime, a: string, b: string) {
    LexLeq(Units(rt, a), Units(rt, b))
  }

  lemma {:induction false} LexIsTotal(a: seq<nat>, b: seq<nat>)
    ensures LexLeq(a, b) || LexLeq(b, a)
    ensures LexLeq(a, b) && LexLeq(b, a) ==> a == b
  {
    if a != [] && b != [] {
      LexIsTotal(a[1..], b[1..]);
      if a[0] == b[0] && a[1..] == b[1..] { assert a == [a[0]] + a[1..] && b == [b[0]] + b[1..]; }
    }
  }

  lemma {:induction false} LexIsTransitive(a: seq<nat>, b: seq<nat>, c: seq<nat>)
    requires LexLeq(a, b) && LexLeq(b, c)
    ensures LexLeq(a, c)
  {
    if a != [] && a[0] == b[0] == c[0] { LexIsTransitive(a[1..], b[1..], c[1..]); }
  }

  /** The units of a text determine it: a leading surrogate is never a character of its own. */
  lemma {:induction false} UnitsAreUnique(rt: Runtime, s: string, t: string)
    requires Units(rt, s) == Units(rt, t)
    ensures s == t
  {
    if s != [] && t != [] {
      var x, y := Units(rt, s), Units(rt, t);
      var a, b := CharUnits(rt, s[0]), CharUnits(rt, t[0]);
      assert x[0] == a[0] && y[0] == b[0];
      assert |a| == |b|;
      if |a| == 2 { assert x[1] == a[1] && y[1] == b[1]; }
      assert s[0] == t[0];
      assert x[|a|..] == Units(rt, s[1..]) && y[|a|..] == Units(rt, t[1..]);
      UnitsAreUnique(rt, s[1..], t[1..]);
      assert s == [s[0]] + s[1..] && t == [t[0]] + t[1..];
    }
  }

  lemma {:induction false} KeysAreOrdered(rt: Runtime, a: string, b: string)
    ensures KeyLeq(rt, a, b) || KeyLeq(rt, b, a)
    ensures KeyLeq(rt, a, b) && KeyLeq(rt, b, a) ==> a == b
  {
    LexIsTotal(Units(rt, a), Units(rt, b));
    if KeyLeq(rt, a, b) && KeyLeq(rt, b, a) { UnitsAreUnique(rt, a, b); }
  }

  // ---------------------------------------------------------------- sorting members

  function InsertMember(rt: Runtime, m: Member, s: seq<Member>): seq<Member> {
    if s == [] then [m] else if KeyLeq(rt, m.key, s[0].key) then [m] + s else [s[0]] + InsertMember(rt, m, s[1..])
  }

  function SortMembers(rt: Runtime, s: seq<Member>): seq<Member> {
    if s == [] then [] else InsertMember(rt, s[0], SortMembers(rt, s[1..]))
  }

  predicate DistinctKeys(s: seq<Member>) {
    forall i, j {:trigger s[i], s[j]} :: 0 <= i < j < |s| ==> s[i].key != s[j].key
  }

  predicate Ascending(rt: Runtime, s: seq<Member>) {
    forall i, j {:trigger s[i], s[j]} :: 0 <= i < j < |s| ==> KeyLeq(rt, s[i].key, s[j].key)
  }

  lemma {:induction false} InsertKeeps(rt: Runtime, m: Member, s: seq<Member>)
    ensures |InsertMember(rt, m, s)| == |s| + 1
    ensures forall x :: x in InsertMember(rt, m, s) <==> x == m || x in s
    ensures Ascending(rt, s) ==> Ascending(rt, InsertMember(rt, m, s))
  {
    hide KeyLeq;
    if s != [] {
      KeysAreOrdered(rt, m.key, s[0].key);
      if KeyLeq(rt, m.key, s[0].key) {
        if Ascending(rt, s) { HeadIsLeast(rt, m, s); }
      } else {
        InsertKeeps(rt, m, s[1..]);
        var rest := InsertMember(rt, m, s[1..]);
        if Ascending(rt, s) {
          forall j | 0 <= j < |rest| ensures KeyLeq(rt, s[0].key, rest[j].key) {
            assert rest[j] in rest;
            if rest[j] != m { var k :| 0 <= k < |s[1..]| && s[1..][k] == rest[j]; assert s[k + 1] == rest[j]; }
          }
        }
      }
    }
  }

  lemma {:induction false} HeadIsLeast(rt: Runtime, m: Member, s: seq<Member>)
    requires s != [] && Ascending(rt, s) && KeyLeq(rt, m.key, s[0].key)
    ensures Ascending(rt, [m] + s)
  {
    hide LexLeq, Units;
    forall j | 0 <= j < |s| ensures KeyLeq(rt, m.key, s[j].key) {
      if j > 0 { LexIsTransitive(Units(rt, m.key), Units(rt, s[0].key), Units(rt, s[j].key)); }
    }
  }

  lemma {:induction false} SortKeeps(rt: Runtime, s: seq<Member>)
    ensures |SortMembers(rt, s)| == |s|
    ensures forall x :: x in SortMembers(rt, s) <==> x in s
    ensures Ascending(rt, SortMembers(rt, s))
  {
    hide KeyLeq;
    if s != [] {
      SortKeeps(rt, s[1..]);
      InsertKeeps(rt, s[0], SortMembers(rt, s[1..]));
    }
  }

  ghost function Keys(s: seq<Member>): (r: set<string>)
    ensures forall k :: k in r <==> exists i :: 0 <= i < |s| && s[i].key == k
  {
    set m | m in s :: m.key
  }

  lemma {:induction false} KeysCount(s: seq<Member>)
    ensures |Keys(s)| <= |s|
    ensures DistinctKeys(s) <==> |Keys(s)| == |s|
  {
    if s != [] {
      var rest := s[1..];
      KeysCount(rest);
      assert forall i :: 0 <= i < |rest| ==> rest[i] == s[i + 1];
      assert Keys(s) == Keys(rest) + {s[0].key};
      if DistinctKeys(s) {
        assert s[0].key !in Keys(rest);
      } else if DistinctKeys(rest) {
        var i, j :| 0 <= i < j < |s| && s[i].key == s[j].key;
        assert s[j] == rest[j - 1];
        if i > 0 { assert s[i] == rest[i - 1]; }
        assert s[0].key in Keys(rest);
      }
    }
  }

  lemma {:induction false} SameSetSameKeys(a: seq<Member>, b: seq<Member>)
    requires |a| == |b| && DistinctKeys(a) && forall x :: x in b <==> x in a
    ensures DistinctKeys(b)
  {
    KeysCount(a);
    KeysCount(b);
    assert Keys(a) == Keys(b);
  }

  /** Sorting the same members with distinct keys gives the same list. */
  lemma {:induction false} SortedIsUnique(rt: Runtime, a: seq<Member>, b: seq<Member>)
    requires Ascending(rt, a) && Ascending(rt, b) && DistinctKeys(a) && DistinctKeys(b) && |a| == |b|
    requires forall x :: x in a <==> x in b
    ensures a == b
  {
    hide KeyLeq;
    if a != [] {
      assert a[0] in b && b[0] in a;
      var j :| 0 <= j < |b| && b[j] == a[0];
      var i :| 0 <= i < |a| && a[i] == b[0];
      KeysAreOrdered(rt, a[0].key, b[0].key);
      KeysAreOrdered(rt, a[0].key, a[0].key);
      assert KeyLeq(rt, a[0].key, b[0].key) && KeyLeq(rt, b[0].key, a[0].key);
      assert j == 0 && a[0] == b[0];
      forall x ensures x in a[1..] <==> x in b[1..] { TailMembers(a, x); TailMembers(b, x); }
      SortedIsUnique(rt, a[1..], b[1..]);
      assert a == [a[0]] + a[1..] && b == [b[0]] + b[1..];
    }
  }

  lemma {:induction false} TailMembers(s: seq<Member>, x: Member)
    requires s != [] && DistinctKeys(s)
    ensures x in s[1..] <==> x in s && x != s[0]
  {
    if x in s[1..] { var k :| 0 <= k < |s[1..]| && s[1..][k] == x; assert s[k + 1] == x; }
  }

  // ---------------------------------------------------------------- canonical text

  function Normalize(rt: Runtime, v: Json): Json
    decreases v
  {
    match v
    case Array(items) => Array(NormalizeItems(rt, items))
    case Object(members) => Object(SortMembers(rt, NormalizeMembers(rt, members)))
    case _ => v
  }

  function NormalizeItems(rt: Runtime, items: seq<Json>): (r: seq<Json>)
    ensures |r| == |items|
    ensures forall i :: 0 <= i < |items| ==> r[i] == Normalize(rt, items[i])
    decreases items
  {
    if items == [] then [] else [Normalize(rt, items[0])] + NormalizeItems(rt, items[1..])
  }

  function NormalizeMembers(rt: Runtime, members: seq<Member>): (r: seq<Member>)
    ensures |r| == |members|
    ensures forall i :: 0 <= i < |members| ==> r[i] == Member(members[i].key, Normalize(rt, members[i].value))
    decreases members
  {
    if members == [] then []
    else [Member(members[0].key, Normalize(rt, members[0].value))] + NormalizeMembers(rt, members[1..])
  }

  function Canonical(rt: Runtime, v: Json): string {
    Print(Normalize(rt, v))
  }

  /** No object has the same key twice, at any depth. */
  predicate WellFormed(v: Json) {
    match v
    case Array(items) => forall i :: 0 <= i < |items| ==> WellFormed(items[i])
    case Object(members) => DistinctKeys(members) && forall i :: 0 <= i < |members| ==> WellFormed(members[i].value)
    case _ => true
  }

  /** Equal with the members of objects reordered, at any depth. */
  predicate Same(v: Json, w: Json) {
    match v
    case Array(items) =>
      w.Array? && |items| == |w.items| && forall i :: 0 <= i < |items| ==> Same(items[i], w.items[i])
    case Object(members) =>
      && w.Object? && |members| == |w.members|
      && forall i :: 0 <= i < |members| ==>
           exists j :: 0 <= j < |w.members| && w.members[j].key == members[i].key && Same(members[i].value, w.members[j].value)
    case _ => v == w
  }

  lemma {:induction false} NormalizedKeys(rt: Runtime, members: seq<Member>)
    requires DistinctKeys(members)
    ensures DistinctKeys(NormalizeMembers(rt, members))
  {
  }

  lemma {:induction false} SameMembersSort(rt: Runtime, a: seq<Member>, b: seq<Member>)
    requires DistinctKeys(a) && DistinctKeys(b) && |a| == |b| && forall x :: x in a ==> x in b
    ensures SortMembers(rt, a) == SortMembers(rt, b)
  {
    hide KeyLeq;
    SortKeeps(rt, a);
    SortKeeps(rt, b);
    KeysCount(a);
    KeysCount(b);
    SubsetOfSameSize(Keys(a), Keys(b));
    forall x | x in b ensures x in a {
      assert x.key in Keys(a);
      var i :| 0 <= i < |a| && a[i].key == x.key;
      assert a[i] in b;
      var j :| 0 <= j < |b| && b[j] == a[i];
      var k :| 0 <= k < |b| && b[k] == x;
      assert j == k;
    }
    SameSetSameKeys(a, SortMembers(rt, a));
    SameSetSameKeys(b, SortMembers(rt, b));
    SortedIsUnique(rt, SortMembers(rt, a), SortMembers(rt, b));
  }

  lemma {:induction false} SubsetOfSameSize(a: set<string>, b: set<string>)
    requires a <= b && |a| == |b|
    ensures a == b
  {
    assert b == a + (b - a);
    assert |b| == |a| + |b - a|;
  }

  lemma {:induction false} SameNormalizes(rt: Runtime, v: Json, w: Json)
    requires WellFormed(v) && WellFormed(w) && Same(v, w)
    ensures Normalize(rt, v) == Normalize(rt, w)
    decreases v
  {
    hide KeyLeq, SortMembers;
    match v
    case Array(items) =>
      forall i | 0 <= i < |items| ensures Normalize(rt, items[i]) == Normalize(rt, w.items[i]) {
        SameNormalizes(rt, items[i], w.items[i]);
      }
      assert NormalizeItems(rt, items) == NormalizeItems(rt, w.items);
    case Object(members) =>
      var a, b := NormalizeMembers(rt, members), NormalizeMembers(rt, w.members);
      forall i | 0 <= i < |members| ensures a[i] in b {
        var j :| 0 <= j < |w.members| && w.members[j].key == members[i].key && Same(members[i].value, w.members[j].value);
        SameNormalizes(rt, members[i].value, w.members[j].value);
        assert b[j] == a[i];
      }
      NormalizedKeys(rt, members);
      NormalizedKeys(rt, w.members);
      SameMembersSort(rt, a, b);
    case _ =>
  }

  lemma {:induction false} SortedMemberMatches(rt: Runtime, members: seq<Member>, others: seq<Member>, i: nat) returns (j: nat)
    requires SortMembers(rt, NormalizeMembers(rt, members)) == SortMembers(rt, NormalizeMembers(rt, others)) && i < |members|
    ensures |members| == |others|
    ensures j < |others| && others[j].key == members[i].key && Normalize(rt, others[j].value) == Normalize(rt, members[i].value)
  {
    hide KeyLeq, SortMembers, Normalize;
    var a, b := NormalizeMembers(rt, members), NormalizeMembers(rt, others);
    SortKeeps(rt, a);
    SortKeeps(rt, b);
    assert a[i] in SortMembers(rt, b);
    j :| 0 <= j < |b| && b[j] == a[i];
  }

  lemma {:induction false} SortedSizes(rt: Runtime, members: seq<Member>, others: seq<Member>)
    requires SortMembers(rt, NormalizeMembers(rt, members)) == SortMembers(rt, NormalizeMembers(rt, others))
    ensures |members| == |others|
  {
    hide KeyLeq, SortMembers, Normalize;
    SortKeeps(rt, NormalizeMembers(rt, members));
    SortKeeps(rt, NormalizeMembers(rt, others));
  }

  lemma {:induction false} NormalizedIsSame(rt: Runtime, v: Json, w: Json)
    requires WellFormed(v) && WellFormed(w) && Normalize(rt, v) == Normalize(rt, w)
    ensures Same(v, w)
    decreases v
  {
    hide KeyLeq, SortMembers;
    match v
    case Array(items) =>
      forall i | 0 <= i < |items| ensures Same(items[i], w.items[i]) {
        assert NormalizeItems(rt, items)[i] == NormalizeItems(rt, w.items)[i];
        NormalizedIsSame(rt, items[i], w.items[i]);
      }
    case Object(members) =>
      SortedSizes(rt, members, w.members);
      forall i | 0 <= i < |members|
        ensures exists j :: 0 <= j < |w.members| && w.members[j].key == members[i].key && Same(members[i].value, w.members[j].value)
      {
        var j := SortedMemberMatches(rt, members, w.members, i);
        NormalizedIsSame(rt, members[i].value, w.members[j].value);
      }
    case _ =>
  }

  /** Two values have the same canonical text exactly when they are equal with members reordered. */
  lemma {:induction false} CanonicalIffSame(rt: Runtime, v: Json, w: Json)
    requires WellFormed(v) && WellFormed(w)
    ensures Canonical(rt, v) == Canonical(rt, w) <==> Same(v, w)
  {
    hide Print, Normalize;
    if Same(v, w) { SameNormalizes(rt, v, w); }
    if Canonical(rt, v) == Canonical(rt, w) {
      assert Print(Normalize(rt, v)) + "" == Print(Normalize(rt, w)) + "";
      PrintIsUnique(Normalize(rt, v), Normalize(rt, w), "", "");
      NormalizedIsSame(rt, v, w);
    }
  }

  // ---------------------------------------------------------------- two runtimes

  predicate OrderedAlike(a: string, b: string) {
    KeyLeq(TypeScript, a, b) <==> KeyLeq(Rust, a, b)
  }

  predicate AllAlike(s: seq<Member>) {
    forall i, j {:trigger s[i], s[j]} :: 0 <= i < |s| && 0 <= j < |s| ==> OrderedAlike(s[i].key, s[j].key)
  }

  /** In no object do the runtimes order two keys differently. */
  predicate KeysAlike(v: Json) {
    match v
    case Array(items) => forall i :: 0 <= i < |items| ==> KeysAlike(items[i])
    case Object(members) => AllAlike(members) && forall i :: 0 <= i < |members| ==> KeysAlike(members[i].value)
    case _ => true
  }

  predicate KeyAmong(m: Member, s: seq<Member>) {
    forall i :: 0 <= i < |s| ==> OrderedAlike(m.key, s[i].key)
  }

  lemma {:induction false} InsertAlike(m: Member, s: seq<Member>)
    requires KeyAmong(m, s)
    ensures InsertMember(TypeScript, m, s) == InsertMember(Rust, m, s)
  {
    hide KeyLeq;
    if s != [] {
      assert OrderedAlike(m.key, s[0].key);
      assert forall i :: 0 <= i < |s[1..]| ==> s[1..][i] == s[i + 1];
      InsertAlike(m, s[1..]);
    }
  }

  lemma {:induction false} SortAlike(s: seq<Member>)
    requires AllAlike(s)
    ensures SortMembers(TypeScript, s) == SortMembers(Rust, s)
  {
    hide OrderedAlike, KeyLeq;
    if s != [] {
      var rest := s[1..];
      assert forall i :: 0 <= i < |rest| ==> rest[i] == s[i + 1];
      SortAlike(rest);
      SortKeeps(Rust, rest);
      var sorted := SortMembers(Rust, rest);
      forall i | 0 <= i < |sorted| ensures OrderedAlike(s[0].key, sorted[i].key) {
        assert sorted[i] in rest;
        var k :| 0 <= k < |rest| && rest[k] == sorted[i];
        assert s[k + 1] == sorted[i];
      }
      InsertAlike(s[0], sorted);
    }
  }

  lemma {:induction false} AlikeNormalizes(v: Json)
    requires KeysAlike(v)
    ensures Normalize(TypeScript, v) == Normalize(Rust, v)
    decreases v
  {
    hide KeyLeq, SortMembers, OrderedAlike;
    match v
    case Array(items) =>
      forall i | 0 <= i < |items| ensures Normalize(TypeScript, items[i]) == Normalize(Rust, items[i]) {
        AlikeNormalizes(items[i]);
      }
      assert NormalizeItems(TypeScript, items) == NormalizeItems(Rust, items);
    case Object(members) =>
      forall i | 0 <= i < |members| ensures Normalize(TypeScript, members[i].value) == Normalize(Rust, members[i].value) {
        AlikeNormalizes(members[i].value);
      }
      assert NormalizeMembers(TypeScript, members) == NormalizeMembers(Rust, members);
      SortAlike(NormalizeMembers(Rust, members));
    case _ =>
  }

  /** If both runtimes sort distinct keys into one order, they order every two of them alike. */
  lemma {:induction false} OneOrderIsAlike(a: seq<Member>, b: seq<Member>)
    requires DistinctKeys(a) && DistinctKeys(b) && |a| == |b|
    requires forall i :: 0 <= i < |a| ==> a[i].key == b[i].key
    requires SortMembers(TypeScript, a) == SortMembers(Rust, b)
    ensures AllAlike(a) && forall x :: x in a <==> x in b
  {
    hide KeyLeq, SortMembers, OrderedAlike;
    SortKeeps(TypeScript, a);
    SortKeeps(Rust, b);
    var sorted := SortMembers(Rust, b);
    forall i, j | 0 <= i < |a| && 0 <= j < |a| ensures OrderedAlike(a[i].key, a[j].key) {
      assert a[i] in sorted && a[j] in sorted;
      var p :| 0 <= p < |sorted| && sorted[p] == a[i];
      var q :| 0 <= q < |sorted| && sorted[q] == a[j];
      PositionsOrder(sorted, p, q);
    }
  }

  lemma {:induction false} PositionsOrder(s: seq<Member>, p: nat, q: nat)
    requires Ascending(TypeScript, s) && Ascending(Rust, s) && p < |s| && q < |s|
    ensures OrderedAlike(s[p].key, s[q].key)
  {
    hide KeyLeq;
    KeysAreOrdered(TypeScript, s[p].key, s[q].key);
    KeysAreOrdered(Rust, s[p].key, s[q].key);
    KeysAreOrdered(TypeScript, s[p].key, s[p].key);
    KeysAreOrdered(Rust, s[p].key, s[p].key);
  }

  lemma {:induction false} OneIndexPerKey(s: seq<Member>, i: nat, j: nat)
    requires DistinctKeys(s) && i < |s| && j < |s|
    ensures s[i].key == s[j].key ==> i == j
  {
  }

  /** The normalised members agree one by one, and the keys are ordered alike. */
  lemma {:induction false} NormalizedMembersAgree(members: seq<Member>)
    requires DistinctKeys(members)
    requires SortMembers(TypeScript, NormalizeMembers(TypeScript, members)) == SortMembers(Rust, NormalizeMembers(Rust, members))
    ensures AllAlike(members)
    ensures forall i :: 0 <= i < |members| ==> Normalize(TypeScript, members[i].value) == Normalize(Rust, members[i].value)
  {
    hide KeyLeq, SortMembers, OrderedAlike, Normalize;
    var a, b := NormalizeMembers(TypeScript, members), NormalizeMembers(Rust, members);
    NormalizedKeys(TypeScript, members);
    NormalizedKeys(Rust, members);
    OneOrderIsAlike(a, b);
    forall i, j | 0 <= i < |members| && 0 <= j < |members| ensures OrderedAlike(members[i].key, members[j].key) {
      assert a[i].key == members[i].key && a[j].key == members[j].key;
    }
    forall i | 0 <= i < |members| ensures Normalize(TypeScript, members[i].value) == Normalize(Rust, members[i].value) {
      assert a[i] in b;
      var j :| 0 <= j < |b| && b[j] == a[i];
      OneIndexPerKey(b, i, j);
    }
  }

  lemma {:induction false} NormalizedAlike(v: Json)
    requires WellFormed(v) && Normalize(TypeScript, v) == Normalize(Rust, v)
    ensures KeysAlike(v)
    decreases v
  {
    hide KeyLeq, SortMembers, OrderedAlike;
    match v
    case Array(items) =>
      forall i | 0 <= i < |items| ensures KeysAlike(items[i]) {
        assert NormalizeItems(TypeScript, items)[i] == NormalizeItems(Rust, items)[i];
        NormalizedAlike(items[i]);
      }
    case Object(members) =>
      NormalizedMembersAgree(members);
      forall i | 0 <= i < |members| ensures KeysAlike(members[i].value) {
        NormalizedAlike(members[i].value);
      }
    case _ =>
  }

  /** The server and the client compute the same text exactly when no object orders two keys differently. */
  lemma {:induction false} RuntimesAgree(v: Json)
    requires WellFormed(v)
    ensures Canonical(TypeScript, v) == Canonical(Rust, v) <==> KeysAlike(v)
  {
    hide Print, Normalize, KeysAlike;
    if KeysAlike(v) { AlikeNormalizes(v); }
    if Canonical(TypeScript, v) == Canonical(Rust, v) {
      assert Print(Normalize(TypeScript, v)) + "" == Print(Normalize(Rust, v)) + "";
      PrintIsUnique(Normalize(TypeScript, v), Normalize(Rust, v), "", "");
      NormalizedAlike(v);
    }
  }

  predicate PlainKey(s: string) {
    forall i :: 0 <= i < |s| ==> (s[i] as int) < 0x1_0000
  }

  lemma {:induction false} PlainUnits(s: string)
    requires PlainKey(s)
    ensures Units(TypeScript, s) == Units(Rust, s)
  {
    if s != [] {
      assert forall i :: 0 <= i < |s[1..]| ==> s[1..][i] == s[i + 1];
      PlainUnits(s[1..]);
    }
  }

  /** Keys within the Basic Multilingual Plane are always ordered alike. */
  lemma {:induction false} PlainKeysAreAlike(a: string, b: string)
    requires PlainKey(a) && PlainKey(b)
    ensures OrderedAlike(a, b)
  {
    PlainUnits(a);
    PlainUnits(b);
  }

  lemma {:induction false} SupplementaryKeysDisagree()
    ensures !OrderedAlike("\U{E000}", "\U{10000}")
  {
    var a, b := "\U{E000}", "\U{10000}";
    assert a[1..] == "" && b[1..] == "";
    assert Units(TypeScript, a) == [0xE000] && Units(TypeScript, b) == [0xD800, 0xDC00];
    assert Units(Rust, a) == [0xE000] && Units(Rust, b) == [0x1_0000];
  }

  /** Its keys are a private-use character and a supplementary one, whose order the runtimes disagree on. */
  const SupplementaryObject := Object([Member("\U{E000}", Null), Member("\U{10000}", Null)])

  /** An object for which the two runtimes print different canonical texts. */
  lemma {:induction false} SupplementaryKeysDiffer()
    ensures WellFormed(SupplementaryObject)
    ensures Canonical(TypeScript, SupplementaryObject) != Canonical(Rust, SupplementaryObject)
  {
    hide Canonical, OrderedAlike;
    SupplementaryKeysDisagree();
    var a, b: string := "\U{E000}", "\U{10000}";
    assert a[0] != b[0];
    var members := SupplementaryObject.members;
    assert members[0].key == a && members[1].key == b;
    RuntimesAgree(SupplementaryObject);
  }

  // ---------------------------------------------------------------- what the order of the members is

  /**
   Which of two characters that differ comes first: by code point in Rust; in JavaScript a supplementary character starts
   with a unit from D800 to DBFF.
   */
  predicate CharBefore(rt: Runtime, c: char, d: char) {
    if rt.Rust? || (c as int < 0x1_0000 <==> d as int < 0x1_0000) then c < d
    else if c as int < 0x1_0000 then c as int < 0xD800
    else d as int >= 0xE000
  }

  /** The keys agree up to n, and there the first one ends or has the earlier character. */
  predicate DifferAt(rt: Runtime, a: string, b: string, n: int) {
    && 0 <= n <= |a| && n < |b| && a[..n] == b[..n]
    && (n < |a| ==> CharBefore(rt, a[n], b[n]))
  }

  predicate KeyBefore(rt: Runtime, a: string, b: string) {
    exists n :: 0 <= n <= |a| && DifferAt(rt, a, b, n)
  }

  lemma {:induction false} UnitsHead(rt: Runtime, s: string)
    requires s != []
    ensures Units(rt, s) == CharUnits(rt, s[0]) + Units(rt, s[1..]) && Units(rt, s) != [] && Units(rt, s)[0] == CharUnits(rt, s[0])[0]
  {
  }

  lemma {:induction false} LexStrip(p: seq<nat>, a: seq<nat>, b: seq<nat>)
    requires LexLeq(p + a, p + b)
    ensures LexLeq(a, b)
  {
    if p == [] {
      assert p + a == a && p + b == b;
    } else {
      assert (p + a)[1..] == p[1..] + a && (p + b)[1..] == p[1..] + b;
      LexStrip(p[1..], a, b);
    }
  }

  lemma {:induction false} FirstCharsOrdered(rt: Runtime, c: char, d: char, x: seq<nat>, y: seq<nat>)
    requires c != d && LexLeq(CharUnits(rt, c) + x, CharUnits(rt, d) + y)
    ensures CharBefore(rt, c, d)
  {
    var a, b := CharUnits(rt, c) + x, CharUnits(rt, d) + y;
    assert a[0] == CharUnits(rt, c)[0] && b[0] == CharUnits(rt, d)[0];
    if |CharUnits(rt, c)| == 2 { assert a[1..][0] == CharUnits(rt, c)[1]; }
    if |CharUnits(rt, d)| == 2 { assert b[1..][0] == CharUnits(rt, d)[1]; }
  }

  /** Sorting by units puts a key before another exactly as the characters say. */
  lemma {:induction false} KeyOrderMeans(rt: Runtime, a: string, b: string)
    requires a != b && KeyLeq(rt, a, b)
    ensures KeyBefore(rt, a, b)
    decreases |a|
  {
    hide CharUnits, CharBefore;
    if a == [] {
      assert DifferAt(rt, a, b, 0);
    } else {
      UnitsHead(rt, a);
      if b != [] {
        UnitsHead(rt, b);
        hide Units, LexLeq;
        if a[0] == b[0] {
          LexStrip(CharUnits(rt, a[0]), Units(rt, a[1..]), Units(rt, b[1..]));
          assert a == [a[0]] + a[1..] && b == [b[0]] + b[1..];
          KeyOrderMeans(rt, a[1..], b[1..]);
          var n :| 0 <= n <= |a[1..]| && DifferAt(rt, a[1..], b[1..], n);
          assert a[..n + 1] == [a[0]] + a[1..][..n] && b[..n + 1] == [b[0]] + b[1..][..n];
          assert DifferAt(rt, a, b, n + 1);
        } else {
          FirstCharsOrdered(rt, a[0], b[0], Units(rt, a[1..]), Units(rt, b[1..]));
          assert DifferAt(rt, a, b, 0);
        }
      }
    }
  }

  predicate KeysInOrder(rt: Runtime, members: seq<Member>) {
    forall i, j {:trigger members[i], members[j]} :: 0 <= i < j < |members| ==> KeyBefore(rt, members[i].key, members[j].key)
  }

  /**
   The members of a canonical object are those of the object, each with its canonical value, and of any two the key that
   is a proper prefix of the other or has the earlier character where they first differ comes first.
   */
  lemma {:induction false} MembersAreInOrder(rt: Runtime, members: seq<Member>)
    requires DistinctKeys(members)
    ensures Normalize(rt, Object(members)).Object?
    ensures var sorted := Normalize(rt, Object(members)).members;
      && |sorted| == |members| && KeysInOrder(rt, sorted)
      && (forall m :: m in sorted <==> exists i :: 0 <= i < |members| && m == Member(members[i].key, Normalize(rt, members[i].value)))
  {
    hide KeyLeq, KeyBefore, Normalize;
    var inner := NormalizeMembers(rt, members);
    NormalizedObject(rt, members);
    SortKeeps(rt, inner);
    var sorted := SortMembers(rt, inner);
    assert DistinctKeys(inner);
    SameSetSameKeys(inner, sorted);
    forall i, j | 0 <= i < j < |sorted| ensures KeyBefore(rt, sorted[i].key, sorted[j].key) {
      assert KeyLeq(rt, sorted[i].key, sorted[j].key);
      KeyOrderMeans(rt, sorted[i].key, sorted[j].key);
    }
  }

  lemma {:induction false} NormalizedObject(rt: Runtime, members: seq<Member>)
    ensures Normalize(rt, Object(members)) == Object(SortMembers(rt, NormalizeMembers(rt, members)))
  {
  }

  // ---------------------------------------------------------------- a sample text

  lemma {:induction false} TwoKeysSorted(rt: Runtime)
    ensures Normalize(rt, Object([Member("b", Number(2)), Member("a", Number(1))])) == Object([Member("a", Number(1)), Member("b", Number(2))])
  {
    var a, b := Member("a", Number(1)), Member("b", Number(2));
    assert [b, a][1..] == [a] && [a][1..] == [];
    assert NormalizeMembers(rt, [a]) == [a] + NormalizeMembers(rt, []) == [a];
    assert NormalizeMembers(rt, [b, a]) == [b] + NormalizeMembers(rt, [a]);
    NormalizedObject(rt, [b, a]);
    assert Units(rt, "a") == [97] && Units(rt, "b") == [98];
    assert SortMembers(rt, [a]) == InsertMember(rt, a, SortMembers(rt, [])) == [a];
    assert InsertMember(rt, b, [a]) == [a] + InsertMember(rt, b, []) == [a, b];
  }

  lemma {:induction false} TwoKeyText(rt: Runtime)
    ensures Canonical(rt, Object([Member("b", Number(2)), Member("a", Number(1))])) == "{\"a\":1,\"b\":2}"
  {
    TwoKeysSorted(rt);
    TwoMembers(Member("a", Number(1)), Member("b", Number(2)));
    SmallTexts();
    hide Quote, PrintNumber, Normalize;
  }

  lemma {:induction false} SmallTexts()
    ensures Quote("a") == "\"a\"" && Quote("b") == "\"b\"" && PrintNumber(1) == "1" && PrintNumber(2) == "2"
  {
    assert Escape("a") == "a" + Escape("") && Escape("b") == "b" + Escape("");
  }
}

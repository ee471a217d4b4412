/** The per-interval and per-candidate scoring rules of the public leaderboard. Times are in milliseconds. */
module Scoring {
  import opened Status

  const MAX_SAFE_INTEGER := 9_007_199_254_740_991
  const GRACE_SECONDS := 900

  datatype EligibilityInterval = EligibilityInterval(startedAt: int, endedAt: Option<int>)

  datatype Failure = BadTimestamp | BadInterval | Overlap | UnsafeReach | UnsafeTotal

  datatype Result<+T> = Ok(value: T) | Err(failure: Failure)

  datatype Score = Score(seconds: int, reachedAt: Option<int>)

  predicate Timestamp(x: int) {
    0 <= x <= MAX_SAFE_INTEGER
  }

  function CheckInterval(i: EligibilityInterval): Option<Failure> {
    if !Timestamp(i.startedAt) then Some(BadTimestamp)
    else if i.endedAt.None? then None
    else if !Timestamp(i.endedAt.value) then Some(BadTimestamp)
    else if i.endedAt.value < i.startedAt then Some(BadInterval)
    else None
  }

  function EffectiveEnd(i: EligibilityInterval, asOf: int): int {
    if i.endedAt.None? then asOf else Min(i.endedAt.value, asOf)
  }

  /** Whole seconds beyond the grace period that every interval pays on its own. */
  function Seconds(start: int, end: int): int {
    if end <= start then 0 else Max(0, (end - start) / 1000 - GRACE_SECONDS)
  }

  /** The instant the last scored second was completed; it never lies beyond the interval. */
  function Reach(start: int, end: int): (r: Option<int>)
    ensures r.Some? <==> Seconds(start, end) > 0
    ensures r.Some? ==> start < r.value <= end < r.value + 1000
  {
    var seconds := Seconds(start, end);
    if seconds == 0 then None else Some(start + (GRACE_SECONDS + seconds) * 1000)
  }

  function ScoreEligibilityInterval(i: EligibilityInterval, asOf: int): Result<Score> {
    if !Timestamp(asOf) then Err(BadTimestamp)
    else if CheckInterval(i).Some? then Err(CheckInterval(i).value)
    else
      var end := EffectiveEnd(i, asOf);
      var reach := Reach(i.startedAt, end);
      if reach.Some? && !Timestamp(reach.value) then Err(UnsafeReach)
      else Ok(Score(Seconds(i.startedAt, end), reach))
  }

  // ---------------------------------------------------------------- order

  predicate EndsBy(end: Option<int>, t: int) {
    end.Some? && end.value <= t
  }

  predicate NotAfter(a: EligibilityInterval, b: EligibilityInterval) {
    a.startedAt < b.startedAt
    || (a.startedAt == b.startedAt && (b.endedAt.None? || EndsBy(a.endedAt, b.endedAt.value)))
  }

  predicate Sorted(s: seq<EligibilityInterval>) {
    forall i, j {:trigger s[i], s[j]} :: 0 <= i < j < |s| ==> NotAfter(s[i], s[j])
  }

  function Insert(x: EligibilityInterval, s: seq<EligibilityInterval>): seq<EligibilityInterval> {
    if s == [] then [x]
    else if NotAfter(x, s[0]) then [x] + s
    else [s[0]] + Insert(x, s[1..])
  }

  /** The library sort, by start and then by end, an open interval last. */
  function Sort(s: seq<EligibilityInterval>): seq<EligibilityInterval> {
    if s == [] then [] else Insert(s[0], Sort(s[1..]))
  }

  lemma {:induction false} InsertMembers(x: EligibilityInterval, s: seq<EligibilityInterval>)
    ensures |Insert(x, s)| == |s| + 1
    ensures forall y :: y in Insert(x, s) <==> y == x || y in s
  {
    if s != [] && !NotAfter(x, s[0]) { InsertMembers(x, s[1..]); }
  }

  lemma {:induction false} SortMembers(s: seq<EligibilityInterval>)
    ensures |Sort(s)| == |s|
    ensures forall y :: y in Sort(s) <==> y in s
  {
    if s != [] {
      SortMembers(s[1..]);
      InsertMembers(s[0], Sort(s[1..]));
    }
  }

  lemma {:induction false} InsertSorts(x: EligibilityInterval, s: seq<EligibilityInterval>)
    requires Sorted(s)
    ensures Sorted(Insert(x, s))
  {
    if s != [] && !NotAfter(x, s[0]) {
      InsertSorts(x, s[1..]);
      InsertMembers(x, s[1..]);
      var rest := Insert(x, s[1..]);
      forall j | 0 <= j < |rest| ensures NotAfter(s[0], rest[j]) {
        assert rest[j] in rest;
        if rest[j] != x { var k :| 0 <= k < |s[1..]| && s[1..][k] == rest[j]; assert s[k + 1] == rest[j]; }
      }
    } else if s != [] {
      forall j | 0 <= j < |s| ensures NotAfter(x, s[j]) {
        if j > 0 { assert NotAfter(s[0], s[j]); }
      }
    }
  }

  lemma {:induction false} SortSorts(s: seq<EligibilityInterval>)
    ensures Sorted(Sort(s))
  {
    if s != [] {
      SortSorts(s[1..]);
      InsertSorts(s[0], Sort(s[1..]));
    }
  }

  // ---------------------------------------------------------------- overlap

  predicate Hollow(i: EligibilityInterval) {
    i.endedAt == Some(i.startedAt)
  }

  /** Two intervals share no instant; an empty interval shares none with anything. */
  predicate Apart(a: EligibilityInterval, b: EligibilityInterval) {
    Hollow(a) || Hollow(b) || EndsBy(a.endedAt, b.startedAt) || EndsBy(b.endedAt, a.startedAt)
  }

  predicate AllApart(s: seq<EligibilityInterval>) {
    s == [] || ((forall y :: y in s[1..] ==> Apart(s[0], y)) && AllApart(s[1..]))
  }

  lemma {:induction false} AllApartMeaning(s: seq<EligibilityInterval>)
    ensures AllApart(s) <==> forall i, j {:trigger s[i], s[j]} :: 0 <= i < j < |s| ==> Apart(s[i], s[j])
  {
    if s != [] {
      AllApartMeaning(s[1..]);
      var rest := s[1..];
      if AllApart(s) {
        forall i, j | 0 <= i < j < |s| ensures Apart(s[i], s[j]) {
          assert s[j] == rest[j - 1];
          if i > 0 { assert s[i] == rest[i - 1]; }
        }
      }
      if forall i, j {:trigger s[i], s[j]} :: 0 <= i < j < |s| ==> Apart(s[i], s[j]) {
        forall i, j | 0 <= i < j < |rest| ensures Apart(rest[i], rest[j]) {
          assert rest[i] == s[i + 1] && rest[j] == s[j + 1];
        }
        forall y | y in rest ensures Apart(s[0], y) {
          var k :| 0 <= k < |rest| && rest[k] == y;
          assert s[k + 1] == y;
        }
      }
    }
  }

  lemma {:induction false} ConsApart(x: EligibilityInterval, s: seq<EligibilityInterval>)
    ensures AllApart([x] + s) <==> (forall y :: y in s ==> Apart(x, y)) && AllApart(s)
  {
    assert ([x] + s)[1..] == s;
  }

  lemma {:induction false} InsertApart(x: EligibilityInterval, s: seq<EligibilityInterval>)
    ensures AllApart(Insert(x, s)) <==> AllApart([x] + s)
  {
    if s != [] && !NotAfter(x, s[0]) {
      var rest := Insert(x, s[1..]);
      InsertApart(x, s[1..]);
      InsertMembers(x, s[1..]);
      ConsApart(s[0], rest);
      ConsApart(x, s[1..]);
      ConsApart(x, s);
      assert x in rest && s[0] in s;
      assert (forall y :: y in rest ==> Apart(s[0], y)) <==> Apart(s[0], x) && forall y :: y in s[1..] ==> Apart(s[0], y);
      assert (forall y :: y in s ==> Apart(x, y)) <==> Apart(x, s[0]) && forall y :: y in s[1..] ==> Apart(x, y);
    }
  }

  lemma {:induction false} SortApart(s: seq<EligibilityInterval>)
    ensures AllApart(Sort(s)) <==> AllApart(s)
  {
    if s != [] {
      SortApart(s[1..]);
      SortMembers(s[1..]);
      InsertApart(s[0], Sort(s[1..]));
      assert ([s[0]] + Sort(s[1..]))[1..] == Sort(s[1..]);
    }
  }

  datatype End = Unset | Finite(at: int) | Infinite

  predicate StartsBefore(t: int, end: End) {
    match end
    case Unset => false
    case Finite(at) => t < at
    case Infinite => true
  }

  predicate AllChecked(s: seq<EligibilityInterval>) {
    forall i :: 0 <= i < |s| ==> CheckInterval(s[i]).None?
  }

  /** Comparing each interval with the previous non-empty one finds an overlap exactly when any two overlap. */
  method AssertNonOverlapping(s: seq<EligibilityInterval>) returns (ok: bool)
    requires Sorted(s) && AllChecked(s)
    ensures ok <==> AllApart(s)
  {
    AllApartMeaning(s);
    var previous := Unset;
    ghost var last := -1;
    for k := 0 to |s|
      invariant -1 <= last < k
      invariant last == -1 ==> previous == Unset && forall i :: 0 <= i < k ==> Hollow(s[i])
      invariant last >= 0 ==> !Hollow(s[last]) && previous == if s[last].endedAt.None? then Infinite else Finite(s[last].endedAt.value)
      invariant forall i :: 0 <= i < k && i != last && !Hollow(s[i]) ==> i < last && EndsBy(s[i].endedAt, s[last].startedAt)
      invariant forall i, j {:trigger s[i], s[j]} :: 0 <= i < j < k ==> Apart(s[i], s[j])
    {
      if Hollow(s[k]) { continue; }
      if StartsBefore(s[k].startedAt, previous) {
        assert NotAfter(s[last], s[k]) && !Apart(s[last], s[k]);
        return false;
      }
      previous := if s[k].endedAt.None? then Infinite else Finite(s[k].endedAt.value);
      last := k;
    }
    return true;
  }

  // ---------------------------------------------------------------- totals

  function IntervalSeconds(i: EligibilityInterval, asOf: int): int {
    Seconds(i.startedAt, EffectiveEnd(i, asOf))
  }

  function IntervalReach(i: EligibilityInterval, asOf: int): Option<int> {
    Reach(i.startedAt, EffectiveEnd(i, asOf))
  }

  function TotalSeconds(s: seq<EligibilityInterval>, asOf: int): int {
    if s == [] then 0 else IntervalSeconds(s[0], asOf) + TotalSeconds(s[1..], asOf)
  }

  function LaterOf(a: Option<int>, b: Option<int>): Option<int> {
    if a.None? then b else if b.None? then a else Some(Max(a.value, b.value))
  }

  function LatestReach(s: seq<EligibilityInterval>, asOf: int): Option<int> {
    if s == [] then None else LaterOf(IntervalReach(s[0], asOf), LatestReach(s[1..], asOf))
  }

  lemma {:induction false} InsertTotals(x: EligibilityInterval, s: seq<EligibilityInterval>, asOf: int)
    ensures TotalSeconds(Insert(x, s), asOf) == IntervalSeconds(x, asOf) + TotalSeconds(s, asOf)
    ensures LatestReach(Insert(x, s), asOf) == LaterOf(IntervalReach(x, asOf), LatestReach(s, asOf))
  {
    hide IntervalSeconds, IntervalReach;
    if s != [] && !NotAfter(x, s[0]) {
      InsertTotals(x, s[1..], asOf);
      assert Insert(x, s)[1..] == Insert(x, s[1..]);
    } else {
      assert ([x] + s)[1..] == s;
    }
  }

  lemma {:induction false} SortTotals(s: seq<EligibilityInterval>, asOf: int)
    ensures TotalSeconds(Sort(s), asOf) == TotalSeconds(s, asOf)
    ensures LatestReach(Sort(s), asOf) == LatestReach(s, asOf)
  {
    hide IntervalSeconds, IntervalReach;
    if s != [] {
      SortTotals(s[1..], asOf);
      InsertTotals(s[0], Sort(s[1..]), asOf);
    }
  }

  lemma {:induction false} TotalsSnoc(s: seq<EligibilityInterval>, k: nat, asOf: int)
    requires k < |s|
    ensures TotalSeconds(s[..k + 1], asOf) == TotalSeconds(s[..k], asOf) + IntervalSeconds(s[k], asOf)
    ensures LatestReach(s[..k + 1], asOf) == LaterOf(LatestReach(s[..k], asOf), IntervalReach(s[k], asOf))
  {
    hide IntervalSeconds, IntervalReach;
    if k == 0 {
      assert s[..1] == [s[0]] && s[..0] == [];
    } else {
      TotalsSnoc(s[1..], k - 1, asOf);
      assert s[..k + 1][1..] == s[1..][..k] && s[..k][1..] == s[1..][..k - 1];
    }
  }

  /** Disjoint intervals cannot score more seconds than the clock has run: no total is ever unsafe. */
  lemma {:induction false} TotalIsBounded(s: seq<EligibilityInterval>, from: int, asOf: int)
    requires Sorted(s) && AllChecked(s) && AllApart(s) && from <= asOf
    requires forall i :: 0 <= i < |s| && !Hollow(s[i]) ==> s[i].startedAt >= from
    ensures 0 <= TotalSeconds(s, asOf) * 1000 <= asOf - from
  {
    if s != [] {
      var rest := s[1..];
      AllApartMeaning(s);
      AllApartMeaning(rest);
      assert AllChecked(rest) && Sorted(rest);
      assert forall i :: 0 <= i < |rest| ==> rest[i] == s[i + 1];
      var end := EffectiveEnd(s[0], asOf);
      if Hollow(s[0]) || end <= s[0].startedAt {
        TotalIsBounded(rest, from, asOf);
      } else {
        forall i | 0 <= i < |rest| && !Hollow(rest[i]) ensures rest[i].startedAt >= end {
          assert NotAfter(s[0], s[i + 1]) && Apart(s[0], s[i + 1]);
        }
        TotalIsBounded(rest, end, asOf);
      }
    }
  }

  lemma {:induction false} TotalsGrow(s: seq<EligibilityInterval>, k: nat, asOf: int)
    requires k <= |s|
    ensures 0 <= TotalSeconds(s[..k], asOf) <= TotalSeconds(s, asOf)
    decreases |s| - k
  {
    if k == |s| {
      assert s[..k] == s;
      if k > 0 { TotalsGrowFrom(s, asOf); }
    } else {
      TotalsSnoc(s, k, asOf);
      TotalsGrow(s, k + 1, asOf);
      TotalsGrowFrom(s[..k], asOf);
    }
  }

  lemma {:induction false} TotalsGrowFrom(s: seq<EligibilityInterval>, asOf: int)
    ensures TotalSeconds(s, asOf) >= 0
  {
    if s != [] { TotalsGrowFrom(s[1..], asOf); }
  }

  function FirstFailure(s: seq<EligibilityInterval>): Option<Failure> {
    if s == [] then None else if CheckInterval(s[0]).Some? then CheckInterval(s[0]) else FirstFailure(s[1..])
  }

  lemma {:induction false} FirstFailureAt(s: seq<EligibilityInterval>, k: nat)
    requires k < |s| && CheckInterval(s[k]).Some? && forall i :: 0 <= i < k ==> CheckInterval(s[i]).None?
    ensures FirstFailure(s) == CheckInterval(s[k])
  {
    if k > 0 {
      assert s[1..][k - 1] == s[k];
      FirstFailureAt(s[1..], k - 1);
    }
  }

  lemma {:induction false} NoFailure(s: seq<EligibilityInterval>)
    ensures FirstFailure(s).None? <==> AllChecked(s)
  {
    if s != [] {
      NoFailure(s[1..]);
      assert forall i :: 0 <= i < |s[1..]| ==> s[1..][i] == s[i + 1];
    }
  }

  /**
   One interval is refused as reversed only when it ends before it starts, an empty one being fine, and as out of range
   only for a negative or unsafe start, end or instant. The error for an unsafe reach never occurs.
   */
  lemma {:induction false} RefusedIntervals(i: EligibilityInterval, asOf: int)
    ensures var r := ScoreEligibilityInterval(i, asOf);
            var times := {asOf, i.startedAt} + (if i.endedAt.Some? then {i.endedAt.value} else {});
      && (r.Err? <==> (exists t :: t in times && (t < 0 || t >= 0x20_0000_0000_0000))
                      || (i.endedAt.Some? && i.endedAt.value < i.startedAt))
      && (r.Err? ==> r.failure in {BadTimestamp, BadInterval})
      && (r == Err(BadInterval) <==> i.endedAt.Some? && 0 <= i.endedAt.value < i.startedAt < 0x20_0000_0000_0000
                                     && 0 <= asOf < 0x20_0000_0000_0000)
  {
    var times := {asOf, i.startedAt} + (if i.endedAt.Some? then {i.endedAt.value} else {});
    assert asOf in times && i.startedAt in times && (i.endedAt.Some? ==> i.endedAt.value in times);
  }

  /**
   A candidate is refused for a bad timestamp, a reversed interval or an overlap, and for nothing else; otherwise its
   score is the sum over the intervals as given, in whatever order.
   */
  method ScoreCandidate(intervals: seq<EligibilityInterval>, asOf: int) returns (r: Result<Score>)
    ensures !Timestamp(asOf) ==> r == Err(BadTimestamp)
    ensures Timestamp(asOf) && FirstFailure(intervals).Some? ==> r == Err(FirstFailure(intervals).value)
    ensures Timestamp(asOf) && AllChecked(intervals) && !AllApart(intervals) ==> r == Err(Overlap)
    ensures Timestamp(asOf) && AllChecked(intervals) && AllApart(intervals) ==>
              r == Ok(Score(TotalSeconds(intervals, asOf), LatestReach(intervals, asOf)))
  {
    if !Timestamp(asOf) { return Err(BadTimestamp); }
    NoFailure(intervals);
    for k := 0 to |intervals|
      invariant forall i :: 0 <= i < k ==> CheckInterval(intervals[i]).None?
    {
      if CheckInterval(intervals[k]).Some? {
        FirstFailureAt(intervals, k);
        return Err(CheckInterval(intervals[k]).value);
      }
    }
    var sorted := Sort(intervals);
    SortIsFaithful(intervals, asOf);
    hide Sort, Sorted, AllApart;
    var apart := AssertNonOverlapping(sorted);
    if !apart { return Err(Overlap); }
    r := SumScores(sorted, asOf);
  }

  lemma {:induction false} SortIsFaithful(s: seq<EligibilityInterval>, asOf: int)
    requires AllChecked(s)
    ensures Sorted(Sort(s)) && AllChecked(Sort(s)) && (AllApart(Sort(s)) <==> AllApart(s))
    ensures TotalSeconds(Sort(s), asOf) == TotalSeconds(s, asOf) && LatestReach(Sort(s), asOf) == LatestReach(s, asOf)
  {
    SortSorts(s);
    SortMembers(s);
    SortApart(s);
    SortTotals(s, asOf);
    forall i | 0 <= i < |Sort(s)| ensures CheckInterval(Sort(s)[i]).None? {
      assert Sort(s)[i] in s;
    }
  }

  method SumScores(s: seq<EligibilityInterval>, asOf: int) returns (r: Result<Score>)
    requires Timestamp(asOf) && Sorted(s) && AllChecked(s) && AllApart(s)
    ensures r == Ok(Score(TotalSeconds(s, asOf), LatestReach(s, asOf)))
  {
    TotalIsBounded(s, 0, asOf);
    hide Sorted, AllApart;
    var seconds := 0;
    var reachedAt: Option<int> := None;
    for k := 0 to |s|
      invariant seconds == TotalSeconds(s[..k], asOf) && reachedAt == LatestReach(s[..k], asOf)
    {
      TotalsSnoc(s, k, asOf);
      TotalsGrow(s, k + 1, asOf);
      var one := ScoreEligibilityInterval(s[k], asOf);
      if one.Err? { return Err(UnsafeReach); }
      seconds := seconds + one.value.seconds;
      if !Timestamp(seconds) { return Err(UnsafeTotal); }
      if one.value.reachedAt.Some? && (reachedAt.None? || one.value.reachedAt.value > reachedAt.value) {
        reachedAt := one.value.reachedAt;
      }
    }
    assert s[..|s|] == s;
    r := Ok(Score(seconds, reachedAt));
  }

  // ---------------------------------------------------------------- splitting

  /** Cutting one interval in two never raises a candidate's score: both pieces pay the grace period. */
  lemma {:induction false} SplittingNeverPays(s: seq<EligibilityInterval>, k: nat, cut: int, asOf: int)
    requires k < |s| && s[k].startedAt <= cut && !(s[k].endedAt.Some? && s[k].endedAt.value < cut)
    ensures var pieces := [EligibilityInterval(s[k].startedAt, Some(cut)), EligibilityInterval(cut, s[k].endedAt)];
            TotalSeconds(s[..k] + pieces + s[k + 1..], asOf) <= TotalSeconds(s, asOf)
  {
    var a, b := EligibilityInterval(s[k].startedAt, Some(cut)), EligibilityInterval(cut, s[k].endedAt);
    if k == 0 {
      var split := s[..0] + [a, b] + s[1..];
      assert split == [a] + ([b] + s[1..]);
      assert split[1..] == [b] + s[1..] && ([b] + s[1..])[1..] == s[1..];
      assert IntervalSeconds(a, asOf) + IntervalSeconds(b, asOf) <= IntervalSeconds(s[0], asOf);
    } else {
      SplittingNeverPays(s[1..], k - 1, cut, asOf);
      var split := s[..k] + [a, b] + s[k + 1..];
      assert split[1..] == s[1..][..k - 1] + [a, b] + s[1..][k..];
    }
  }
}

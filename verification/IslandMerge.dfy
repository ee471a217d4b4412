/**
 The leaderboard query's merge of overlapping segments into islands by a running maximum of their ends, and its
 agreement with the scoring rules.
 */
module IslandMerge {
  import opened Status
  import opened Scoring

  /** A row that survives the query's filter: closed, and of positive length. */
  predicate Segment(i: EligibilityInterval) {
    i.endedAt.Some? && i.startedAt < i.endedAt.value
  }

  predicate Segments(s: seq<EligibilityInterval>) {
    forall k :: 0 <= k < |s| ==> Segment(s[k])
  }

  function Last(s: seq<EligibilityInterval>): EligibilityInterval
    requires s != []
  {
    s[|s| - 1]
  }

  function Front(s: seq<EligibilityInterval>): seq<EligibilityInterval>
    requires s != []
  {
    s[..|s| - 1]
  }

  /** The window function's running maximum of `segment_end`. */
  function LatestEnd(s: seq<EligibilityInterval>): int
    requires s != [] && Segments(s)
    decreases |s|
  {
    if |s| == 1 then s[0].endedAt.value else Max(LatestEnd(Front(s)), Last(s).endedAt.value)
  }

  predicate StartsNew(s: seq<EligibilityInterval>)
    requires s != [] && Segments(s)
  {
    |s| == 1 || Last(s).startedAt >= LatestEnd(Front(s))
  }

  /** The running sum of `starts_new_island` at the last row. */
  function IslandOfLast(s: seq<EligibilityInterval>): nat
    requires s != [] && Segments(s)
    decreases |s|
  {
    (if |s| == 1 then 0 else IslandOfLast(Front(s))) + (if StartsNew(s) then 1 else 0)
  }

  function IslandId(s: seq<EligibilityInterval>, k: nat): nat
    requires k < |s| && Segments(s)
  {
    IslandOfLast(s[..k + 1])
  }

  /** One pass over the sorted rows that either opens an island or stretches the last one. */
  function Islands(s: seq<EligibilityInterval>): (r: seq<EligibilityInterval>)
    requires Segments(s)
    ensures s != [] ==> r != []
    ensures Segments(r)
    decreases |s|
  {
    if s == [] then []
    else
      var before := Islands(Front(s));
      if StartsNew(s) || before == [] then before + [Last(s)]
      else
        var stretched := Last(before).(endedAt := Some(Max(Last(before).endedAt.value, Last(s).endedAt.value)));
        Front(before) + [stretched]
  }

  // ---------------------------------------------------------------- the pass is the query's GROUP BY

  predicate Inside(x: EligibilityInterval, island: EligibilityInterval)
    requires Segment(x) && Segment(island)
  {
    island.startedAt <= x.startedAt && x.endedAt.value <= island.endedAt.value
  }

  predicate StartsIsland(s: seq<EligibilityInterval>, k: int, id: nat, start: int)
    requires Segments(s)
  {
    0 <= k < |s| && IslandId(s, k) == id && s[k].startedAt == start
  }

  predicate EndsIsland(s: seq<EligibilityInterval>, k: int, id: nat, end: int)
    requires Segments(s)
  {
    0 <= k < |s| && IslandId(s, k) == id && s[k].endedAt.value == end
  }

  /** The island is MIN(segment_start) to MAX(segment_end) of the rows with that `island_id`. */
  ghost predicate Groups(s: seq<EligibilityInterval>, island: EligibilityInterval, id: nat)
    requires Segments(s) && Segment(island)
  {
    && (exists k :: StartsIsland(s, k, id, island.startedAt))
    && (exists k :: EndsIsland(s, k, id, island.endedAt.value))
    && (forall k :: 0 <= k < |s| && IslandId(s, k) == id ==> Inside(s[k], island))
  }

  /** `GROUP BY island_id`: island number `id` is at index `id - 1`, and every row is in one of them. */
  ghost predicate GroupedBy(s: seq<EligibilityInterval>, islands: seq<EligibilityInterval>)
    requires Segments(s) && Segments(islands)
  {
    && (forall k :: 0 <= k < |s| ==> 1 <= IslandId(s, k) <= |islands|)
    && (forall j :: 0 <= j < |islands| ==> Groups(s, islands[j], j + 1))
  }

  lemma {:induction false} IdPrefix(s: seq<EligibilityInterval>, k: nat)
    requires Segments(s) && k < |s| - 1
    ensures IslandId(s, k) == IslandId(Front(s), k)
  {
    assert Front(s)[..k + 1] == s[..k + 1];
  }

  /** What the pass keeps: the number of islands, the last end, and the order. */
  lemma {:induction false} PassShape(s: seq<EligibilityInterval>)
    requires s != [] && Segments(s) && Sorted(s)
    ensures |Islands(s)| == IslandOfLast(s) && Islands(s) != []
    ensures Last(Islands(s)).endedAt.value == LatestEnd(s)
    ensures Last(Islands(s)).startedAt <= Last(s).startedAt
    decreases |s|
  {
    if |s| > 1 {
      PassShape(Front(s));
      assert NotAfter(s[|s| - 2], s[|s| - 1]);
    }
  }

  lemma {:induction false} PassGroups(s: seq<EligibilityInterval>)
    requires Segments(s) && Sorted(s)
    ensures GroupedBy(s, Islands(s))
    decreases |s|
  {
    hide LatestEnd, IslandOfLast, Groups, IslandId;
    if s != [] {
      var front, islands, before := Front(s), Islands(s), Islands(Front(s));
      PassGroups(front);
      LastId(s);
      if |s| > 1 { LastId(front); assert NotAfter(Last(front), Last(s)); }
      forall k | 0 <= k < |s| - 1 ensures IslandId(s, k) == IslandId(front, k) { IdPrefix(s, k); }
      forall j | 0 <= j < |islands| ensures Groups(s, islands[j], j + 1) {
        if j < |islands| - 1 {
          assert islands[j] == before[j];
          GroupStays(s, before[j], j + 1);
        } else if |islands| > |before| {
          GroupOpens(s, j + 1);
        } else {
          GroupStretches(s, before[j], j + 1);
        }
      }
    }
  }

  lemma {:induction false} LastId(s: seq<EligibilityInterval>)
    requires s != [] && Segments(s) && Sorted(s)
    ensures IslandId(s, |s| - 1) == |Islands(s)| > 0
    ensures |s| > 1 ==> |Islands(s)| == |Islands(Front(s))| + (if StartsNew(s) then 1 else 0)
    ensures Last(Islands(s)).startedAt <= Last(s).startedAt
  {
    PassShape(s);
    assert s[..|s| - 1 + 1] == s;
    if |s| > 1 { PassShape(Front(s)); }
  }

  ghost predicate SameIds(s: seq<EligibilityInterval>)
    requires s != [] && Segments(s)
  {
    forall k :: 0 <= k < |s| - 1 ==> IslandId(s, k) == IslandId(Front(s), k)
  }

  lemma {:induction false} GroupStays(s: seq<EligibilityInterval>, island: EligibilityInterval, id: nat)
    requires s != [] && Segments(s) && SameIds(s) && Segment(island)
    requires Groups(Front(s), island, id) && IslandId(s, |s| - 1) != id
    ensures Groups(s, island, id)
  {
    hide IslandId;
    var k :| StartsIsland(Front(s), k, id, island.startedAt);
    assert StartsIsland(s, k, id, island.startedAt);
    var k' :| EndsIsland(Front(s), k', id, island.endedAt.value);
    assert EndsIsland(s, k', id, island.endedAt.value);
  }

  lemma {:induction false} GroupOpens(s: seq<EligibilityInterval>, id: nat)
    requires s != [] && Segments(s) && IslandId(s, |s| - 1) == id
    requires forall k :: 0 <= k < |s| - 1 ==> IslandId(s, k) != id
    ensures Groups(s, Last(s), id)
  {
    hide IslandId;
    assert StartsIsland(s, |s| - 1, id, Last(s).startedAt) && EndsIsland(s, |s| - 1, id, Last(s).endedAt.value);
  }

  lemma {:induction false} GroupStretches(s: seq<EligibilityInterval>, island: EligibilityInterval, id: nat)
    requires s != [] && Segments(s) && SameIds(s) && Segment(island)
    requires Groups(Front(s), island, id) && IslandId(s, |s| - 1) == id && island.startedAt <= Last(s).startedAt
    ensures Groups(s, island.(endedAt := Some(Max(island.endedAt.value, Last(s).endedAt.value))), id)
  {
    hide IslandId;
    var k :| StartsIsland(Front(s), k, id, island.startedAt);
    assert StartsIsland(s, k, id, island.startedAt);
    var k' :| EndsIsland(Front(s), k', id, island.endedAt.value);
    assert EndsIsland(s, k', id, island.endedAt.value);
    assert EndsIsland(s, |s| - 1, id, Last(s).endedAt.value);
  }

  // ---------------------------------------------------------------- disjoint, with the same union

  predicate Holds(i: EligibilityInterval, t: int) {
    i.endedAt.Some? && i.startedAt <= t < i.endedAt.value
  }

  predicate SomeHolds(s: seq<EligibilityInterval>, t: int) {
    exists k :: 0 <= k < |s| && Holds(s[k], t)
  }

  predicate Before(a: EligibilityInterval, b: EligibilityInterval) {
    a.endedAt.Some? && a.endedAt.value <= b.startedAt
  }

  predicate Separate(s: seq<EligibilityInterval>) {
    forall i, j {:trigger s[i], s[j]} :: 0 <= i < j < |s| ==> Before(s[i], s[j])
  }

  /** The islands are in order, pairwise disjoint and of positive length. */
  lemma {:induction false} IslandsAreSeparate(s: seq<EligibilityInterval>)
    requires Segments(s) && Sorted(s)
    ensures Separate(Islands(s))
    decreases |s|
  {
    if s != [] {
      var before := Islands(Front(s));
      IslandsAreSeparate(Front(s));
      if Front(s) != [] { PassShape(Front(s)); }
      var islands := Islands(s);
      forall i, j | 0 <= i < j < |islands| ensures Before(islands[i], islands[j]) {
        assert islands[i] == before[i];
        if j < |before| { assert Before(before[i], before[j]); }
        else if i < |before| - 1 { assert Before(before[i], Last(before)); }
      }
    }
  }

  /** Merging neither loses nor adds an instant. */
  lemma {:induction false} IslandsCoverTheSame(s: seq<EligibilityInterval>, t: int)
    requires Segments(s) && Sorted(s)
    ensures SomeHolds(Islands(s), t) <==> SomeHolds(s, t)
    decreases |s|
  {
    if s != [] {
      var front, before, islands := Front(s), Islands(Front(s)), Islands(s);
      IslandsCoverTheSame(front, t);
      if front != [] { PassShape(front); assert NotAfter(Last(front), Last(s)); }
      SomeSplit(s, t);
      SomeSplit(islands, t);
      if before != [] { SomeSplit(before, t); }
      hide SomeHolds;
      if !(StartsNew(s) || before == []) { assert Front(islands) == Front(before); }
      else { assert Front(islands) == before; }
    }
  }

  lemma {:induction false} SomeSplit(s: seq<EligibilityInterval>, t: int)
    requires s != []
    ensures SomeHolds(s, t) <==> SomeHolds(Front(s), t) || Holds(Last(s), t)
  {
    if k :| 0 <= k < |Front(s)| && Holds(Front(s)[k], t) { assert Holds(s[k], t); }
    if k :| 0 <= k < |s| && Holds(s[k], t) {
      if k < |s| - 1 { assert Holds(Front(s)[k], t); }
    }
  }

  /** Rows that overlap nowhere are their own islands; touching rows stay apart. */
  lemma {:induction false} SeparateRowsStay(s: seq<EligibilityInterval>)
    requires Segments(s) && Separate(s)
    ensures Islands(s) == s && (s != [] ==> LatestEnd(s) == Last(s).endedAt.value)
    decreases |s|
  {
    if s != [] {
      SeparateRowsStay(Front(s));
      if Front(s) != [] { assert Before(s[|s| - 2], s[|s| - 1]); }
    }
  }

  // ---------------------------------------------------------------- the query's score

  function Contribution(i: EligibilityInterval): int
    requires Segment(i)
  {
    Max((i.endedAt.value - i.startedAt) / 1000 - 900, 0)
  }

  function SumOfContributions(s: seq<EligibilityInterval>): int
    requires Segments(s)
  {
    if s == [] then 0 else Contribution(s[0]) + SumOfContributions(s[1..])
  }

  function MaxOfReaches(s: seq<EligibilityInterval>): Option<int>
    requires Segments(s)
  {
    if s == [] then None
    else if Contribution(s[0]) > 0
    then LaterOf(Some(s[0].startedAt + (900 + Contribution(s[0])) * 1000), MaxOfReaches(s[1..]))
    else MaxOfReaches(s[1..])
  }

  /** The two columns the query computes for one mount from its filtered rows, in any order. */
  function QueryScore(rows: seq<EligibilityInterval>): Score
    requires Segments(rows)
  {
    SortKeepsSegments(rows);
    var islands := Islands(Sort(rows));
    Score(SumOfContributions(islands), MaxOfReaches(islands))
  }

  lemma {:induction false} SortKeepsSegments(rows: seq<EligibilityInterval>)
    requires Segments(rows)
    ensures Segments(Sort(rows))
  {
    SortMembers(rows);
    forall k | 0 <= k < |Sort(rows)| ensures Segment(Sort(rows)[k]) {
      assert Sort(rows)[k] in rows;
    }
  }

  lemma {:induction false} ContributionsAreSeconds(s: seq<EligibilityInterval>, asOf: int)
    requires Segments(s) && forall k :: 0 <= k < |s| ==> s[k].endedAt.value <= asOf
    ensures SumOfContributions(s) == TotalSeconds(s, asOf) && MaxOfReaches(s) == LatestReach(s, asOf)
  {
    if s != [] { ContributionsAreSeconds(s[1..], asOf); }
  }

  /** Clipped to the day and with times in range, as the database stores them. */
  predicate Clipped(s: seq<EligibilityInterval>, asOf: int) {
    forall k :: 0 <= k < |s| ==> s[k].endedAt.Some? && s[k].endedAt.value <= asOf && s[k].startedAt >= 0
  }

  lemma {:induction false} IslandsStayClipped(s: seq<EligibilityInterval>, asOf: int)
    requires Segments(s) && Sorted(s) && Clipped(s, asOf)
    ensures Clipped(Islands(s), asOf)
  {
    hide IslandId, Islands;
    PassGroups(s);
    var islands := Islands(s);
    forall j | 0 <= j < |islands| ensures islands[j].endedAt.value <= asOf && islands[j].startedAt >= 0 {
      assert Groups(s, islands[j], j + 1);
      var k :| StartsIsland(s, k, j + 1, islands[j].startedAt);
      var k' :| EndsIsland(s, k', j + 1, islands[j].endedAt.value);
    }
  }

  /**
   What `ScoreCandidate` answers on the query's islands is what the query answers: the islands pass every check, and
   the sums agree.
   */
  lemma {:induction false} QueryAgreesWithScoring(rows: seq<EligibilityInterval>, asOf: int)
    requires Segments(rows) && Clipped(rows, asOf) && Timestamp(asOf)
    ensures Segments(Sort(rows))
    ensures var islands := Islands(Sort(rows));
      && AllChecked(islands) && AllApart(islands)
      && QueryScore(rows) == Score(TotalSeconds(islands, asOf), LatestReach(islands, asOf))
      && QueryScore(rows).seconds * 1000 <= asOf
  {
    hide Islands, LatestReach, TotalSeconds, Sort, Contribution;
    SortKeepsSegments(rows);
    SortSorts(rows);
    SortMembers(rows);
    var sorted := Sort(rows);
    forall k | 0 <= k < |sorted| ensures Clipped([sorted[k]], asOf) && sorted[k].endedAt.Some? { assert sorted[k] in rows; }
    assert forall k :: 0 <= k < |sorted| ==> [sorted[k]][0] == sorted[k];
    IslandsStayClipped(sorted, asOf);
    IslandsAreSeparate(sorted);
    var islands := Islands(sorted);
    ContributionsAreSeconds(islands, asOf);
    SeparateIsApart(islands);
    TotalIsBounded(islands, 0, asOf);
  }

  lemma {:induction false} SeparateIsApart(s: seq<EligibilityInterval>)
    requires Segments(s) && Separate(s)
    ensures Sorted(s) && AllApart(s)
  {
    AllApartMeaning(s);
    forall i, j | 0 <= i < j < |s| ensures NotAfter(s[i], s[j]) && Apart(s[i], s[j]) {
      assert Before(s[i], s[j]);
    }
  }
}

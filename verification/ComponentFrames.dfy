/** Sums over labelled components: pixel counts, centroids, the frame each component goes to, and the largest one. */
module ComponentFrames {
  import opened Status
  import opened DisjointSets
  import opened PixelPaths
  import opened ConnectedRuns

  const ROWS := 7
  const COLUMNS := 8

  function Length(r: Run): int {
    r.end - r.start + 1
  }

  predicate RunsFit(runs: seq<Run>, f: Forest) {
    && Valid(f) && |f.parent| == |runs|
    && (forall i :: 0 <= i < |runs| ==> runs[i].element == i && runs[i].start <= runs[i].end)
  }

  predicate InClass(f: Forest, r: Run, root: nat) {
    Valid(f) && r.element < |f.parent| && Root(f, r.element) == root
  }

  // ---------------------------------------------------------------- sums over the runs of a class

  /** The sum of start..end. */
  function SumBetween(start: int, end: int): int
    decreases end - start
  {
    if start > end then 0 else SumBetween(start, end - 1) + end
  }

  /** The integer halving in the x sum never truncates: it is the sum of the run's x coordinates. */
  lemma {:induction false} HalvingIsExact(start: int, end: int)
    requires start <= end + 1
    ensures (start + end) * (end - start + 1) == 2 * SumBetween(start, end)
    decreases end - start
  {
    if start <= end {
      HalvingIsExact(start, end - 1);
      calc {
        (start + end) * (end - start + 1);
        (start + end - 1) * (end - start) + (end - start) + (start + end);
      }
    }
  }

  datatype Sums = Sums(area: int, x: int, y: int)

  /** Number of pixels and sums of their coordinates, over the first k runs of the class. */
  function SumsOf(runs: seq<Run>, f: Forest, root: nat, k: nat): Sums
    requires k <= |runs|
  {
    if k == 0 then Sums(0, 0, 0)
    else
      var before := SumsOf(runs, f, root, k - 1);
      var r := runs[k - 1];
      if InClass(f, r, root) then
        Sums(before.area + Length(r), before.x + SumBetween(r.start, r.end), before.y + r.y * Length(r))
      else before
  }

  ghost function RunPixels(r: Run, end: int): (s: set<Pixel>)
    requires r.start <= end + 1
    ensures |s| == end - r.start + 1
    ensures forall p :: p in s <==> p.y == r.y && r.start <= p.x <= end
    decreases end - r.start
  {
    if end < r.start then {} else RunPixels(r, end - 1) + {Pixel(end, r.y)}
  }

  lemma {:induction false} RunPixelsMeaning(r: Run, p: Pixel)
    requires r.start <= r.end
    ensures p in RunPixels(r, r.end) <==> Within(r, p)
  {
  }

  lemma {:induction false} DisjointSizes(s: set<Pixel>, r: Run)
    requires r.start <= r.end && forall p :: p in s ==> !Within(r, p)
    ensures |s + RunPixels(r, r.end)| == |s| + Length(r)
  {
    assert s !! RunPixels(r, r.end);
  }

  ghost function ClassPixels(runs: seq<Run>, f: Forest, root: nat, k: nat): set<Pixel>
    requires RunsFit(runs, f) && k <= |runs|
  {
    if k == 0 then {}
    else
      var before := ClassPixels(runs, f, root, k - 1);
      if InClass(f, runs[k - 1], root) then before + RunPixels(runs[k - 1], runs[k - 1].end) else before
  }

  lemma {:induction false} ClassPixelsMeaning(runs: seq<Run>, f: Forest, root: nat, k: nat, p: Pixel)
    requires RunsFit(runs, f) && k <= |runs|
    ensures p in ClassPixels(runs, f, root, k) <==>
            exists i :: 0 <= i < k && InClass(f, runs[i], root) && Within(runs[i], p)
  {
    hide Root, Valid, Within, RunPixels, InClass;
    if k > 0 {
      ClassPixelsMeaning(runs, f, root, k - 1, p);
      RunPixelsMeaning(runs[k - 1], p);
    }
  }

  predicate Disjoint(runs: seq<Run>) {
    forall i, j {:trigger runs[i], runs[j]} :: 0 <= i < j < |runs| ==> Earlier(runs[i], runs[j])
  }

  lemma {:induction false} OneRunOnly(runs: seq<Run>, i: nat, j: nat, p: Pixel)
    requires Disjoint(runs) && i < j < |runs| && Within(runs[i], p)
    ensures !Within(runs[j], p)
  {
    assert Earlier(runs[i], runs[j]);
  }

  /** The area of a class is its number of pixels. */
  lemma {:induction false} AreaCounts(runs: seq<Run>, f: Forest, root: nat, k: nat)
    requires RunsFit(runs, f) && Disjoint(runs) && k <= |runs|
    ensures SumsOf(runs, f, root, k).area == |ClassPixels(runs, f, root, k)|
  {
    hide Disjoint, Root, Valid, InClass, Within;
    if k > 0 {
      AreaCounts(runs, f, root, k - 1);
      var before, r := ClassPixels(runs, f, root, k - 1), runs[k - 1];
      forall p | p in before ensures !Within(r, p) {
        ClassPixelsMeaning(runs, f, root, k - 1, p);
        var i :| 0 <= i < k - 1 && InClass(f, runs[i], root) && Within(runs[i], p);
        OneRunOnly(runs, i, k - 1, p);
      }
      DisjointSizes(before, r);
    }
  }

  /** The pixels of the class of run i are exactly the set pixels connected to any of its pixels. */
  lemma {:induction false} ClassPixelsAreAComponent(mask: Mask, runs: seq<Run>, f: Forest, i: nat, p: Pixel, q: Pixel)
    requires RunsOf(mask, runs, |mask|) && Sound(mask, runs, f) && Complete(runs, f)
    requires RunsFit(runs, f) && i < |runs| && Within(runs[i], p)
    ensures q in ClassPixels(runs, f, Root(f, i), |runs|) <==> SetAt(mask, q) && Connected(mask, p, q)
  {
    hide Root, Sound, Complete;
    ClassPixelsMeaning(runs, f, Root(f, i), |runs|, q);
    if SetAt(mask, q) {
      var j := HolderOf(mask, runs, q);
      ClassesAreComponents(mask, runs, f, p, q, i, j);
    }
    if q in ClassPixels(runs, f, Root(f, i), |runs|) {
      var j :| 0 <= j < |runs| && InClass(f, runs[j], Root(f, i)) && Within(runs[j], q);
      assert Filled(mask, runs[j]);
      ClassesAreComponents(mask, runs, f, p, q, i, j);
    }
  }

  // ---------------------------------------------------------------- areas add up

  ghost function SumOver(roots: set<nat>, runs: seq<Run>, f: Forest, k: nat): int
    requires k <= |runs|
    decreases roots
  {
    if roots == {} then 0
    else
      var root :| root in roots;
      SumsOf(runs, f, root, k).area + SumOver(roots - {root}, runs, f, k)
  }

  lemma {:induction false} SumOverPick(roots: set<nat>, root: nat, runs: seq<Run>, f: Forest, k: nat)
    requires k <= |runs| && root in roots
    ensures SumOver(roots, runs, f, k) == SumsOf(runs, f, root, k).area + SumOver(roots - {root}, runs, f, k)
    decreases roots
  {
    hide SumsOf;
    var pick :| pick in roots && SumOver(roots, runs, f, k) == SumsOf(runs, f, pick, k).area + SumOver(roots - {pick}, runs, f, k);
    if pick != root {
      SumOverPick(roots - {pick}, root, runs, f, k);
      SumOverPick(roots - {root}, pick, runs, f, k);
      assert roots - {pick} - {root} == roots - {root} - {pick};
    }
  }

  lemma {:induction false} SumOverUnchanged(roots: set<nat>, runs: seq<Run>, f: Forest, k: nat)
    requires 0 < k <= |runs| && forall root :: root in roots ==> !InClass(f, runs[k - 1], root)
    ensures SumOver(roots, runs, f, k) == SumOver(roots, runs, f, k - 1)
    decreases roots
  {
    if roots != {} {
      var root :| root in roots;
      SumOverPick(roots, root, runs, f, k);
      SumOverPick(roots, root, runs, f, k - 1);
      SumOverUnchanged(roots - {root}, runs, f, k);
    }
  }

  ghost function Roots(f: Forest): set<nat>
    requires Valid(f)
  {
    set v | 0 <= v < |f.parent| && f.parent[v] == v
  }

  predicate Ordinary(runs: seq<Run>) {
    forall i :: 0 <= i < |runs| ==> runs[i].start <= runs[i].end
  }

  ghost function AllPixels(runs: seq<Run>, k: nat): set<Pixel>
    requires k <= |runs| && Ordinary(runs)
  {
    if k == 0 then {} else AllPixels(runs, k - 1) + RunPixels(runs[k - 1], runs[k - 1].end)
  }

  lemma {:induction false} AllPixelsMeaning(runs: seq<Run>, k: nat, p: Pixel)
    requires k <= |runs| && Ordinary(runs)
    ensures p in AllPixels(runs, k) <==> exists i :: 0 <= i < k && Within(runs[i], p)
  {
    hide Within, RunPixels;
    if k > 0 {
      AllPixelsMeaning(runs, k - 1, p);
      RunPixelsMeaning(runs[k - 1], p);
    }
  }

  lemma {:induction false} AreasAddUpBelow(runs: seq<Run>, f: Forest, k: nat)
    requires RunsFit(runs, f) && Disjoint(runs) && k <= |runs|
    ensures SumOver(Roots(f), runs, f, k) == |AllPixels(runs, k)|
  {
    hide Disjoint, Root, Within, RunPixels, SumOver;
    var roots := Roots(f);
    if k == 0 {
      SumOverNothing(roots, runs, f);
    } else {
      AreasAddUpBelow(runs, f, k - 1);
      var root, r := Root(f, k - 1), runs[k - 1];
      RootIsRoot(f, k - 1);
      SumOverPick(roots, root, runs, f, k);
      SumOverPick(roots, root, runs, f, k - 1);
      SumOverUnchanged(roots - {root}, runs, f, k);
      assert SumsOf(runs, f, root, k).area == SumsOf(runs, f, root, k - 1).area + Length(r);
      hide InClass, SumsOf;
      forall p | p in AllPixels(runs, k - 1) ensures !Within(r, p) {
        AllPixelsMeaning(runs, k - 1, p);
        var i :| 0 <= i < k - 1 && Within(runs[i], p);
        OneRunOnly(runs, i, k - 1, p);
      }
      DisjointSizes(AllPixels(runs, k - 1), r);
    }
  }

  lemma {:induction false} SumOverNothing(roots: set<nat>, runs: seq<Run>, f: Forest)
    ensures SumOver(roots, runs, f, 0) == 0
    decreases roots
  {
    if roots != {} {
      var root :| root in roots;
      SumOverPick(roots, root, runs, f, 0);
      SumOverNothing(roots - {root}, runs, f);
    }
  }

  /** The areas of all components add up to the number of set pixels of the mask. */
  lemma {:induction false} AreasAddUp(mask: Mask, runs: seq<Run>, f: Forest)
    requires RunsOf(mask, runs, |mask|) && RunsFit(runs, f)
    ensures SumOver(Roots(f), runs, f, |runs|) == |AllPixels(runs, |runs|)|
    ensures forall p :: p in AllPixels(runs, |runs|) <==> SetAt(mask, p)
  {
    AreasAddUpBelow(runs, f, |runs|);
    forall p ensures p in AllPixels(runs, |runs|) <==> SetAt(mask, p) {
      AllPixelsMeaning(runs, |runs|, p);
      if i :| 0 <= i < |runs| && Within(runs[i], p) { assert Filled(mask, runs[i]); }
      if SetAt(mask, p) { var i := HolderOf(mask, runs, p); }
    }
  }

  // ---------------------------------------------------------------- frames

  datatype Frame = Frame(row: int, column: int)

  /** The number of boundaries at or below num/den. */
  function SearchRight(boundaries: seq<int>, num: int, den: int): nat {
    if boundaries == [] then 0
    else if boundaries[|boundaries| - 1] * den <= num then |boundaries|
    else SearchRight(boundaries[..|boundaries| - 1], num, den)
  }

  function Clamp(x: int, high: int): int {
    Min(high, Max(0, x))
  }

  function FrameForPoint(s: Sums, xBoundaries: seq<int>, yBoundaries: seq<int>): Frame {
    Frame(Clamp(SearchRight(yBoundaries, s.y, s.area) - 1, ROWS - 1),
          Clamp(SearchRight(xBoundaries, s.x, s.area) - 1, COLUMNS - 1))
  }

  predicate AscendingInts(s: seq<int>) {
    forall i, j {:trigger s[i], s[j]} :: 0 <= i < j < |s| ==> s[i] < s[j]
  }

  /** A centroid inside the grid falls into the cell whose boundaries enclose it. */
  lemma {:induction false} SearchFindsTheCell(boundaries: seq<int>, num: int, den: int, cells: nat)
    requires den > 0 && AscendingInts(boundaries) && |boundaries| == cells + 1 > 1
    requires boundaries[0] * den <= num < boundaries[cells] * den
    ensures var c := Clamp(SearchRight(boundaries, num, den) - 1, cells - 1);
      0 <= c < cells && boundaries[c] * den <= num < boundaries[c + 1] * den
  {
    SearchCounts(boundaries, num, den);
  }

  lemma {:induction false} SearchCounts(boundaries: seq<int>, num: int, den: int)
    requires den > 0 && AscendingInts(boundaries)
    ensures var n := SearchRight(boundaries, num, den);
      && n <= |boundaries|
      && (n > 0 ==> boundaries[n - 1] * den <= num)
      && (n < |boundaries| ==> num < boundaries[n] * den)
  {
    if boundaries != [] && boundaries[|boundaries| - 1] * den > num {
      SearchCounts(boundaries[..|boundaries| - 1], num, den);
    }
  }

  /** The frame of a centroid inside the grid: its row by the y boundaries around it, its column by the x boundaries. */
  lemma {:induction false} FrameHoldsTheCentroid(s: Sums, xBoundaries: seq<int>, yBoundaries: seq<int>)
    requires s.area > 0 && AscendingInts(xBoundaries) && |xBoundaries| == 9 && AscendingInts(yBoundaries) && |yBoundaries| == 8
    requires xBoundaries[0] * s.area <= s.x < xBoundaries[8] * s.area && yBoundaries[0] * s.area <= s.y < yBoundaries[7] * s.area
    ensures var frame := FrameForPoint(s, xBoundaries, yBoundaries);
      && 0 <= frame.row < 7 && yBoundaries[frame.row] * s.area <= s.y < yBoundaries[frame.row + 1] * s.area
      && 0 <= frame.column < 8 && xBoundaries[frame.column] * s.area <= s.x < xBoundaries[frame.column + 1] * s.area
  {
    SearchFindsTheCell(xBoundaries, s.x, s.area, 8);
    SearchFindsTheCell(yBoundaries, s.y, s.area, 7);
  }

  /** A centroid outside the grid goes to the nearest row and column. */
  lemma {:induction false} FrameIsClamped(s: Sums, xBoundaries: seq<int>, yBoundaries: seq<int>)
    requires s.area > 0 && AscendingInts(xBoundaries) && |xBoundaries| == 9 && AscendingInts(yBoundaries) && |yBoundaries| == 8
    ensures var frame := FrameForPoint(s, xBoundaries, yBoundaries);
      && (s.x < xBoundaries[0] * s.area ==> frame.column == 0) && (s.x >= xBoundaries[8] * s.area ==> frame.column == 7)
      && (s.y < yBoundaries[0] * s.area ==> frame.row == 0) && (s.y >= yBoundaries[7] * s.area ==> frame.row == 6)
  {
    SearchEnds(xBoundaries, s.x, s.area);
    SearchEnds(yBoundaries, s.y, s.area);
  }

  lemma {:induction false} SearchEnds(boundaries: seq<int>, num: int, den: int)
    requires den > 0 && AscendingInts(boundaries) && boundaries != []
    ensures num < boundaries[0] * den ==> SearchRight(boundaries, num, den) == 0
    ensures num >= boundaries[|boundaries| - 1] * den ==> SearchRight(boundaries, num, den) == |boundaries|
  {
    SearchCounts(boundaries, num, den);
    var n := SearchRight(boundaries, num, den);
    if n > 0 { assert boundaries[0] * den <= boundaries[n - 1] * den by { Monotone(boundaries[0], boundaries[n - 1], den); } }
  }

  lemma {:induction false} Monotone(a: int, b: int, den: int)
    requires a <= b && den > 0
    ensures a * den <= b * den
  {
  }

  /** The same search with a rounded quotient. */
  function SearchRounded(boundaries: seq<int>, q: real): nat {
    if boundaries == [] then 0
    else if boundaries[|boundaries| - 1] as real <= q then |boundaries|
    else SearchRounded(boundaries[..|boundaries| - 1], q)
  }

  /** Nearer to num/den than 1/den, and exact when num/den is an integer: far less than floating division promises. */
  ghost predicate Rounds(q: real, num: int, den: int)
    requires den > 0
  {
    && num as real - 1.0 < q * den as real < num as real + 1.0
    && (forall b: int :: b * den == num ==> q == b as real)
  }

  lemma {:induction false} RoundedComparison(b: int, q: real, num: int, den: int)
    requires den > 0 && Rounds(q, num, den)
    ensures b as real <= q <==> b * den <= num
  {
    var d := den as real;
    assert (b * den) as real == b as real * d;
    if b as real <= q {
      assert b as real * d <= q * d;
    } else {
      assert q * d < b as real * d;
    }
  }

  /** Dividing in floating point instead of exactly never changes the cell. */
  lemma {:induction false} RoundingIsHarmless(boundaries: seq<int>, q: real, num: int, den: int)
    requires den > 0 && Rounds(q, num, den)
    ensures SearchRounded(boundaries, q) == SearchRight(boundaries, num, den)
  {
    hide Rounds;
    if boundaries != [] {
      RoundedComparison(boundaries[|boundaries| - 1], q, num, den);
      RoundingIsHarmless(boundaries[..|boundaries| - 1], q, num, den);
    }
  }

  predicate HasRun(runs: seq<Run>, f: Forest, root: nat, k: nat)
    requires k <= |runs|
  {
    exists i :: 0 <= i < k && InClass(f, runs[i], root)
  }

  /** Kept components, each with the frame of its exact centroid. */
  ghost predicate AssignedTo(assignments: map<nat, Frame>, runs: seq<Run>, f: Forest, minimumArea: int, xBoundaries: seq<int>, yBoundaries: seq<int>) {
    forall root ::
      && (root in assignments <==> HasRun(runs, f, root, |runs|) && SumsOf(runs, f, root, |runs|).area >= minimumArea)
      && (root in assignments ==>
            assignments[root] == FrameForPoint(SumsOf(runs, f, root, |runs|), xBoundaries, yBoundaries))
  }

  /** The runs among the first k whose component was assigned to the frame, in order. */
  function RunsIn(runs: seq<Run>, f: Forest, assignments: map<nat, Frame>, frame: Frame, k: nat): seq<Run>
    requires RunsFit(runs, f) && k <= |runs|
  {
    if k == 0 then []
    else
      var before := RunsIn(runs, f, assignments, frame, k - 1);
      var root := Root(f, k - 1);
      if root in assignments && assignments[root] == frame then before + [runs[k - 1]] else before
  }

  /** Every run of a kept component is in its component's frame and in no other; a dropped one is nowhere. */
  lemma {:induction false} WholeComponentsMove(runs: seq<Run>, f: Forest, assignments: map<nat, Frame>, frame: Frame, k: nat, i: nat)
    requires RunsFit(runs, f) && i < k <= |runs|
    ensures runs[i] in RunsIn(runs, f, assignments, frame, k) <==>
            Root(f, i) in assignments && assignments[Root(f, i)] == frame
  {
    var before := RunsIn(runs, f, assignments, frame, k - 1);
    if i < k - 1 {
      WholeComponentsMove(runs, f, assignments, frame, k - 1, i);
    } else {
      RunsInAreEarlier(runs, f, assignments, frame, k - 1);
    }
  }

  lemma {:induction false} RunsInAreEarlier(runs: seq<Run>, f: Forest, assignments: map<nat, Frame>, frame: Frame, k: nat)
    requires RunsFit(runs, f) && k <= |runs|
    ensures forall r :: r in RunsIn(runs, f, assignments, frame, k) ==> r.element < k
  {
    if k > 0 { RunsInAreEarlier(runs, f, assignments, frame, k - 1); }
  }

  /** The three dictionaries agree with the sums of this class. */
  predicate SumsAt(area: map<nat, int>, xSum: map<nat, int>, ySum: map<nat, int>, has: bool, sums: Sums, root: nat) {
    && (root in area <==> has) && (root in xSum <==> has) && (root in ySum <==> has)
    && (has ==> Sums(area[root], xSum[root], ySum[root]) == sums)
  }

  ghost predicate SumsSoFar(area: map<nat, int>, xSum: map<nat, int>, ySum: map<nat, int>, runs: seq<Run>, f: Forest, k: nat)
    requires k <= |runs|
  {
    forall root :: SumsAt(area, xSum, ySum, HasRun(runs, f, root, k), SumsOf(runs, f, root, k), root)
  }

  lemma {:induction false} HalvedSum(r: Run)
    requires r.start <= r.end
    ensures (r.start + r.end) * Length(r) / 2 == SumBetween(r.start, r.end)
  {
    HalvingIsExact(r.start, r.end);
  }

  lemma {:induction false} SumsStep(area: map<nat, int>, xSum: map<nat, int>, ySum: map<nat, int>, runs: seq<Run>, f: Forest, k: nat, root: nat)
    requires RunsFit(runs, f) && k < |runs| && root == Root(f, k) && SumsSoFar(area, xSum, ySum, runs, f, k)
    ensures var r := runs[k];
            var a := if root in area then area[root] else 0;
            var x := if root in xSum then xSum[root] else 0;
            var y := if root in ySum then ySum[root] else 0;
      SumsSoFar(area[root := a + Length(r)], xSum[root := x + SumBetween(r.start, r.end)],
                ySum[root := y + r.y * Length(r)], runs, f, k + 1)
  {
    OnlyItsClass(runs, f, k);
    hide Root, Valid, SumBetween, InClass, Length, HasRun, SumsAt, SumsOf;
    var r := runs[k];
    var a := area[root := (if root in area then area[root] else 0) + Length(r)];
    var x := xSum[root := (if root in xSum then xSum[root] else 0) + SumBetween(r.start, r.end)];
    var y := ySum[root := (if root in ySum then ySum[root] else 0) + r.y * Length(r)];
    NoRunNoSums(runs, f, root, k);
    var n := k + 1;
    forall other ensures SumsAt(a, x, y, HasRun(runs, f, other, n), SumsOf(runs, f, other, n), other) {
      HasRunStep(runs, f, other, k + 1);
      SumsOfStep(runs, f, other, k);
      assert SumsAt(area, xSum, ySum, HasRun(runs, f, other, k), SumsOf(runs, f, other, k), other);
      assert SumsAt(area, xSum, ySum, HasRun(runs, f, root, k), SumsOf(runs, f, root, k), root);
      SumsAtStep(area, xSum, ySum, HasRun(runs, f, other, k), SumsOf(runs, f, other, k), root, other, r);
    }
  }

  lemma {:induction false} SumsOfStep(runs: seq<Run>, f: Forest, root: nat, k: nat)
    requires k < |runs|
    ensures var before, r := SumsOf(runs, f, root, k), runs[k];
      SumsOf(runs, f, root, k + 1)
      == if InClass(f, r, root)
         then Sums(before.area + Length(r), before.x + SumBetween(r.start, r.end), before.y + r.y * Length(r)) else before
  {
  }

  lemma {:induction false} SumsAtStep(area: map<nat, int>, xSum: map<nat, int>, ySum: map<nat, int>, has: bool, sums: Sums, root: nat, other: nat, r: Run)
    requires SumsAt(area, xSum, ySum, has, sums, other) && (!has ==> sums == Sums(0, 0, 0) || root != other)
    ensures var a := area[root := (if root in area then area[root] else 0) + Length(r)];
            var x := xSum[root := (if root in xSum then xSum[root] else 0) + SumBetween(r.start, r.end)];
            var y := ySum[root := (if root in ySum then ySum[root] else 0) + r.y * Length(r)];
      if root == other
      then SumsAt(a, x, y, true, Sums(sums.area + Length(r), sums.x + SumBetween(r.start, r.end), sums.y + r.y * Length(r)), other)
      else SumsAt(a, x, y, has, sums, other)
  {
    hide SumBetween, Length;
  }

  lemma {:induction false} OnlyItsClass(runs: seq<Run>, f: Forest, k: nat)
    requires RunsFit(runs, f) && k < |runs|
    ensures forall root :: InClass(f, runs[k], root) <==> root == Root(f, k)
  {
  }

  lemma {:induction false} NoRunNoSums(runs: seq<Run>, f: Forest, root: nat, k: nat)
    requires k <= |runs|
    ensures !HasRun(runs, f, root, k) ==> SumsOf(runs, f, root, k) == Sums(0, 0, 0)
  {
    if k > 0 {
      NoRunNoSums(runs, f, root, k - 1);
      assert InClass(f, runs[k - 1], root) ==> HasRun(runs, f, root, k);
      if HasRun(runs, f, root, k - 1) {
        var i :| 0 <= i < k - 1 && InClass(f, runs[i], root);
        assert HasRun(runs, f, root, k);
      }
    }
  }

  method SumRuns(runs: seq<Run>, unionFind: UnionFind)
    returns (area: map<nat, int>, xSum: map<nat, int>, ySum: map<nat, int>)
    requires Weighted(unionFind.State()) && RunsFit(runs, unionFind.State())
    modifies unionFind
    ensures Weighted(unionFind.State()) && SamePartition(old(unionFind.State()), unionFind.State())
    ensures SumsSoFar(area, xSum, ySum, runs, old(unionFind.State()), |runs|)
  {
    hide Weighted, Root, SumsSoFar, SumBetween;
    area, xSum, ySum := map[], map[], map[];
    NothingSummed(runs, unionFind.State());
    for k := 0 to |runs|
      invariant Weighted(unionFind.State()) && SamePartition(old(unionFind.State()), unionFind.State())
      invariant SumsSoFar(area, xSum, ySum, runs, old(unionFind.State()), k)
    {
      var run := runs[k];
      var root := unionFind.Find(run.element);
      var length := run.end - run.start + 1;
      SumsStep(area, xSum, ySum, runs, old(unionFind.State()), k, root);
      HalvedSum(run);
      SameKeys(area, xSum, ySum, runs, old(unionFind.State()), k);
      area := area[root := (if root in area then area[root] else 0) + length];
      xSum := xSum[root := (if root in xSum then xSum[root] else 0) + (run.start + run.end) * length / 2];
      ySum := ySum[root := (if root in ySum then ySum[root] else 0) + run.y * length];
    }
  }

  lemma {:induction false} NothingSummed(runs: seq<Run>, f: Forest)
    ensures SumsSoFar(map[], map[], map[], runs, f, 0)
  {
  }

  lemma {:induction false} SameKeys(area: map<nat, int>, xSum: map<nat, int>, ySum: map<nat, int>, runs: seq<Run>, f: Forest, k: nat)
    requires k <= |runs| && SumsSoFar(area, xSum, ySum, runs, f, k)
    ensures area.Keys == xSum.Keys == ySum.Keys
  {
    hide SumsOf, HasRun;
    forall root ensures (root in area <==> root in xSum) && (root in area <==> root in ySum) {
      assert SumsAt(area, xSum, ySum, HasRun(runs, f, root, k), SumsOf(runs, f, root, k), root);
    }
  }

  method AssignFrames(area: map<nat, int>, xSum: map<nat, int>, ySum: map<nat, int>, minimumArea: int,
                      xBoundaries: seq<int>, yBoundaries: seq<int>, ghost runs: seq<Run>, ghost f: Forest)
    returns (assignments: map<nat, Frame>)
    requires SumsSoFar(area, xSum, ySum, runs, f, |runs|)
    ensures AssignedTo(assignments, runs, f, minimumArea, xBoundaries, yBoundaries)
  {
    hide HasRun, SumsOf, FrameForPoint, InClass;
    SameKeys(area, xSum, ySum, runs, f, |runs|);
    assignments := map[];
    var rest := area.Keys;
    while rest != {}
      invariant rest <= area.Keys && assignments.Keys <= area.Keys - rest
      invariant forall root :: root in area && root !in rest ==>
                  && (root in assignments <==> area[root] >= minimumArea)
                  && (root in assignments ==>
                        assignments[root] == FrameForPoint(Sums(area[root], xSum[root], ySum[root]), xBoundaries, yBoundaries))
    {
      var root :| root in rest;
      rest := rest - {root};
      if area[root] >= minimumArea {
        var frame := FrameForPoint(Sums(area[root], xSum[root], ySum[root]), xBoundaries, yBoundaries);
        assignments := assignments[root := frame];
      }
    }
  }

  /** The groups hold the runs of each frame in order, and only frames that got a run. */
  ghost predicate GroupedRuns(grouped: map<Frame, seq<Run>>, runs: seq<Run>, f: Forest, assignments: map<nat, Frame>, k: nat)
    requires RunsFit(runs, f) && k <= |runs|
  {
    forall frame ::
      && (frame in grouped <==> RunsIn(runs, f, assignments, frame, k) != [])
      && (frame in grouped ==> grouped[frame] == RunsIn(runs, f, assignments, frame, k))
  }

  lemma {:induction false} NothingGrouped(runs: seq<Run>, f: Forest, assignments: map<nat, Frame>)
    requires RunsFit(runs, f)
    ensures GroupedRuns(map[], runs, f, assignments, 0)
  {
  }

  lemma {:induction false} GroupStep(grouped: map<Frame, seq<Run>>, runs: seq<Run>, f: Forest, assignments: map<nat, Frame>, k: nat)
    requires RunsFit(runs, f) && k < |runs| && GroupedRuns(grouped, runs, f, assignments, k)
    ensures var root := Root(f, k);
      if root in assignments then
        var frame := assignments[root];
        GroupedRuns(grouped[frame := (if frame in grouped then grouped[frame] else []) + [runs[k]]], runs, f, assignments, k + 1)
      else GroupedRuns(grouped, runs, f, assignments, k + 1)
  {
    hide Root, Valid;
  }

  method GroupRuns(runs: seq<Run>, unionFind: UnionFind, assignments: map<nat, Frame>) returns (grouped: map<Frame, seq<Run>>)
    requires Weighted(unionFind.State()) && RunsFit(runs, unionFind.State())
    modifies unionFind
    ensures Weighted(unionFind.State()) && SamePartition(old(unionFind.State()), unionFind.State())
    ensures GroupedRuns(grouped, runs, old(unionFind.State()), assignments, |runs|)
  {
    hide Weighted, Root, GroupedRuns;
    grouped := map[];
    NothingGrouped(runs, unionFind.State(), assignments);
    for k := 0 to |runs|
      invariant Weighted(unionFind.State()) && SamePartition(old(unionFind.State()), unionFind.State())
      invariant GroupedRuns(grouped, runs, old(unionFind.State()), assignments, k)
    {
      var root := unionFind.Find(runs[k].element);
      GroupStep(grouped, runs, old(unionFind.State()), assignments, k);
      if root in assignments {
        var frame := assignments[root];
        grouped := grouped[frame := (if frame in grouped then grouped[frame] else []) + [runs[k]]];
      }
    }
  }

  /**
   Every component of at least the minimum area is assigned the frame of its exact centroid, and the runs are grouped
   by the frames of their components.
   */
  method ComponentAssignments(runs: seq<Run>, unionFind: UnionFind, minimumArea: int, xBoundaries: seq<int>, yBoundaries: seq<int>)
    returns (assignments: map<nat, Frame>, grouped: map<Frame, seq<Run>>)
    requires Weighted(unionFind.State()) && RunsFit(runs, unionFind.State())
    modifies unionFind
    ensures SamePartition(old(unionFind.State()), unionFind.State())
    ensures AssignedTo(assignments, runs, old(unionFind.State()), minimumArea, xBoundaries, yBoundaries)
    ensures GroupedRuns(grouped, runs, old(unionFind.State()), assignments, |runs|)
  {
    hide Weighted, Root, SumsSoFar, AssignedTo;
    ghost var f := unionFind.State();
    var area, xSum, ySum := SumRuns(runs, unionFind);
    assignments := AssignFrames(area, xSum, ySum, minimumArea, xBoundaries, yBoundaries, runs, f);
    ghost var g := unionFind.State();
    grouped := GroupRuns(runs, unionFind, assignments);
    SameRunsIn(runs, f, g, assignments, |runs|);
  }

  lemma {:induction false} SameRunsIn(runs: seq<Run>, f: Forest, g: Forest, assignments: map<nat, Frame>, k: nat)
    requires RunsFit(runs, f) && RunsFit(runs, g) && SamePartition(f, g) && k <= |runs|
    ensures forall frame :: RunsIn(runs, g, assignments, frame, k) == RunsIn(runs, f, assignments, frame, k)
  {
    hide Root, Valid;
    if k > 0 { SameRunsIn(runs, f, g, assignments, k - 1); }
  }

  // ---------------------------------------------------------------- the largest component

  datatype Bounds = Bounds(left: int, top: int, right: int, bottom: int)

  datatype Stats = Stats(area: int, bounds: Bounds)

  function Stretch(b: Bounds, r: Run): Bounds {
    Bounds(Min(b.left, r.start), Min(b.top, r.y), Max(b.right, r.end), Max(b.bottom, r.y))
  }

  function StatsOf(runs: seq<Run>, f: Forest, root: nat, k: nat, width: int, height: int): Stats
    requires k <= |runs|
  {
    if k == 0 then Stats(0, Bounds(width, height, -1, -1))
    else
      var before := StatsOf(runs, f, root, k - 1, width, height);
      var r := runs[k - 1];
      if InClass(f, r, root) then Stats(before.area + Length(r), Stretch(before.bounds, r)) else before
  }

  /** No pixel outside, and no side can move in. */
  ghost predicate Tight(b: Bounds, s: set<Pixel>) {
    && (forall p :: p in s ==> b.left <= p.x <= b.right && b.top <= p.y <= b.bottom)
    && (exists p :: p in s && p.x == b.left) && (exists p :: p in s && p.x == b.right)
    && (exists p :: p in s && p.y == b.top) && (exists p :: p in s && p.y == b.bottom)
  }

  predicate InsideImage(runs: seq<Run>, width: int, height: int) {
    forall i :: 0 <= i < |runs| ==> 0 <= runs[i].start <= runs[i].end < width && 0 <= runs[i].y < height
  }

  lemma {:induction false} StretchIsTight(b: Bounds, s: set<Pixel>, r: Run)
    requires Tight(b, s) && r.start <= r.end
    ensures Tight(Stretch(b, r), s + RunPixels(r, r.end))
  {
    var grown := s + RunPixels(r, r.end);
    assert Head(r) in grown && Pixel(r.end, r.y) in grown;
    var l :| l in s && l.x == b.left;
    var t :| t in s && t.y == b.top;
    var m :| m in s && m.x == b.right;
    var n :| n in s && n.y == b.bottom;
    assert l in grown && t in grown && m in grown && n in grown;
  }

  lemma {:induction false} RunIsTight(r: Run)
    requires r.start <= r.end
    ensures Tight(Bounds(r.start, r.y, r.end, r.y), {} + RunPixels(r, r.end))
  {
    assert Head(r) in RunPixels(r, r.end) && Pixel(r.end, r.y) in RunPixels(r, r.end);
  }

  lemma {:induction false} StatsAreTight(runs: seq<Run>, f: Forest, root: nat, k: nat, width: int, height: int)
    requires RunsFit(runs, f) && InsideImage(runs, width, height) && k <= |runs|
    ensures StatsOf(runs, f, root, k, width, height).area == SumsOf(runs, f, root, k).area
    ensures if HasRun(runs, f, root, k)
            then Tight(StatsOf(runs, f, root, k, width, height).bounds, ClassPixels(runs, f, root, k))
            else StatsOf(runs, f, root, k, width, height).bounds == Bounds(width, height, -1, -1) && ClassPixels(runs, f, root, k) == {}
  {
    hide Tight, Root, Valid, InClass;
    if k > 0 {
      var before, r := StatsOf(runs, f, root, k - 1, width, height), runs[k - 1];
      StatsAreTight(runs, f, root, k - 1, width, height);
      HasRunStep(runs, f, root, k);
      if InClass(f, r, root) {
        if HasRun(runs, f, root, k - 1) {
          StretchIsTight(before.bounds, ClassPixels(runs, f, root, k - 1), r);
        } else {
          RunIsTight(r);
        }
      }
    }
  }

  lemma {:induction false} HasRunStep(runs: seq<Run>, f: Forest, root: nat, k: nat)
    requires 0 < k <= |runs|
    ensures HasRun(runs, f, root, k) <==> HasRun(runs, f, root, k - 1) || InClass(f, runs[k - 1], root)
  {
    hide InClass;
    if HasRun(runs, f, root, k - 1) {
      var i :| 0 <= i < k - 1 && InClass(f, runs[i], root);
      assert 0 <= i < k;
    }
  }

  /** A maximal set of set pixels connected to p. */
  ghost predicate IsComponent(mask: Mask, s: set<Pixel>, p: Pixel) {
    SetAt(mask, p) && forall q :: q in s <==> SetAt(mask, q) && Connected(mask, p, q)
  }

  predicate Rectangular(mask: Mask, width: nat) {
    forall y :: 0 <= y < |mask| ==> |mask[y]| == width
  }

  lemma {:induction false} RunsAreInside(mask: Mask, runs: seq<Run>, width: nat)
    requires Rectangular(mask, width) && RunsOf(mask, runs, |mask|)
    ensures InsideImage(runs, width, |mask|)
  {
    forall i | 0 <= i < |runs| ensures 0 <= runs[i].start <= runs[i].end < width {
      assert Filled(mask, runs[i]);
      assert SetAt(mask, Head(runs[i])) && SetAt(mask, Pixel(runs[i].end, runs[i].y));
    }
  }

  lemma {:induction false} LabelsFit(mask: Mask, runs: seq<Run>, f: Forest)
    requires RunsOf(mask, runs, |mask|) && Sound(mask, runs, f)
    ensures RunsFit(runs, f) && Disjoint(runs)
  {
    forall i | 0 <= i < |runs| ensures runs[i].start <= runs[i].end { assert Filled(mask, runs[i]); }
  }

  ghost predicate StatsSoFar(stats: map<nat, Stats>, runs: seq<Run>, f: Forest, k: nat, width: int, height: int)
    requires k <= |runs|
  {
    forall root ::
      && (root in stats <==> HasRun(runs, f, root, k))
      && (root in stats ==> stats[root] == StatsOf(runs, f, root, k, width, height))
  }

  lemma {:induction false} StatsStep(stats: map<nat, Stats>, runs: seq<Run>, f: Forest, k: nat, root: nat, width: int, height: int)
    requires RunsFit(runs, f) && InsideImage(runs, width, height) && k < |runs| && root == Root(f, k)
    requires StatsSoFar(stats, runs, f, k, width, height)
    ensures var before := if root in stats then stats[root] else Stats(0, Bounds(width, height, -1, -1));
      StatsSoFar(stats[root := Stats(before.area + Length(runs[k]), Stretch(before.bounds, runs[k]))], runs, f, k + 1, width, height)
  {
    assert InClass(f, runs[k], root);
    forall other ensures InClass(f, runs[k], other) <==> other == root {}
    hide Root, Valid, InClass, Stretch;
    forall other ensures HasRun(runs, f, other, k + 1) <==> HasRun(runs, f, other, k) || other == root {
      HasRunStep(runs, f, other, k + 1);
    }
    if root !in stats {
      StatsAreTight(runs, f, root, k, width, height);
      NoRunNoSums(runs, f, root, k);
    }
  }

  // ---------------------------------------------------------------- which of several is returned

  /** A run of the first class comes before every run of the second. */
  predicate MetBefore(runs: seq<Run>, f: Forest, a: nat, b: nat, k: nat)
    requires k <= |runs|
  {
    exists i :: 0 <= i < k && InClass(f, runs[i], a) && !HasRun(runs, f, b, i + 1)
  }

  /** The roots in the order in which their first runs are met, as the dictionary keeps its keys. */
  ghost predicate InMeetingOrder(order: seq<nat>, runs: seq<Run>, f: Forest, k: nat)
    requires k <= |runs|
  {
    && (forall root :: root in order <==> HasRun(runs, f, root, k))
    && (forall a, b {:trigger order[a], order[b]} :: 0 <= a < b < |order| ==> MetBefore(runs, f, order[a], order[b], k))
  }

  lemma {:induction false} OrderStep(order: seq<nat>, runs: seq<Run>, f: Forest, k: nat, root: nat)
    requires k < |runs| && InMeetingOrder(order, runs, f, k)
    requires InClass(f, runs[k], root) && forall other :: InClass(f, runs[k], other) ==> other == root
    ensures InMeetingOrder(if root in order then order else order + [root], runs, f, k + 1)
  {
    hide InClass;
    var next := if root in order then order else order + [root];
    forall other ensures HasRun(runs, f, other, k + 1) <==> HasRun(runs, f, other, k) || other == root {
      HasRunStep(runs, f, other, k + 1);
    }
    forall a, b | 0 <= a < b < |next| ensures MetBefore(runs, f, next[a], next[b], k + 1) {
      if b < |order| {
        assert MetBefore(runs, f, order[a], order[b], k);
        var i :| 0 <= i < k && InClass(f, runs[i], order[a]) && !HasRun(runs, f, order[b], i + 1);
      } else {
        NewRootIsLater(runs, f, order[a], root, k);
      }
    }
  }

  lemma {:induction false} NewRootIsLater(runs: seq<Run>, f: Forest, a: nat, root: nat, k: nat)
    requires k < |runs| && HasRun(runs, f, a, k) && !HasRun(runs, f, root, k)
    ensures MetBefore(runs, f, a, root, k + 1)
  {
    hide InClass;
    var i :| 0 <= i < k && InClass(f, runs[i], a);
    assert !HasRun(runs, f, root, i + 1);
  }

  predicate RowMajor(p: Pixel, q: Pixel) {
    p.y < q.y || (p.y == q.y && p.x <= q.x)
  }

  /** No other component is larger, and any other of the same size lies wholly after p. */
  ghost predicate FirstLargest(mask: Mask, s: set<Pixel>, p: Pixel) {
    && IsComponent(mask, s, p)
    && forall s', q :: IsComponent(mask, s', q) ==> |s'| < |s| || s' == s || (|s'| == |s| && RowMajor(p, q))
  }

  lemma {:induction false} FirstRunOf(runs: seq<Run>, f: Forest, root: nat, k: nat) returns (i: nat)
    requires k <= |runs| && HasRun(runs, f, root, k)
    ensures i < k && InClass(f, runs[i], root) && !HasRun(runs, f, root, i)
  {
    hide InClass;
    HasRunStep(runs, f, root, k);
    if HasRun(runs, f, root, k - 1) {
      i := FirstRunOf(runs, f, root, k - 1);
    } else {
      i := k - 1;
    }
  }

  /** The first run of a class met before another precedes every pixel of the other. */
  lemma {:induction false} MetBeforePrecedes(mask: Mask, runs: seq<Run>, f: Forest, a: nat, b: nat, i: nat, j: nat, q: Pixel)
    requires RunsOf(mask, runs, |mask|) && i < |runs| && j < |runs| && Within(runs[j], q)
    requires InClass(f, runs[i], a) && !HasRun(runs, f, a, i)
    requires InClass(f, runs[j], b) && MetBefore(runs, f, a, b, |runs|)
    ensures RowMajor(Head(runs[i]), q)
  {
    hide InClass, Filled;
    var m :| 0 <= m < |runs| && InClass(f, runs[m], a) && !HasRun(runs, f, b, m + 1);
    assert i <= m < j;
    assert Earlier(runs[i], runs[j]);
    assert Filled(mask, runs[i]);
    RunIsForward(mask, runs[i]);
  }

  lemma {:induction false} RunIsForward(mask: Mask, r: Run)
    requires Filled(mask, r)
    ensures r.start <= r.end
  {
  }

  /**
   Finds the first of the components with the largest number of pixels and its tight bounding box; there is none exactly
   when no pixel is set.
   */
  method LargestComponent(mask: Mask, width: nat) returns (r: Option<Stats>)
    requires Rectangular(mask, width)
    ensures r.None? <==> forall p :: !SetAt(mask, p)
    ensures r.Some? ==> exists s, p :: FirstLargest(mask, s, p) && |s| == r.value.area && Tight(r.value.bounds, s)
  {
    var runs, unionFind := LabelRuns(mask);
    ghost var f := unionFind.State();
    LabelsFit(mask, runs, f);
    RunsAreInside(mask, runs, width);
    hide Weighted, Root, Sound, Complete, RunsOf, FirstLargest, Tight, SetAt, Rectangular, StatsSoFar, Stretch, InMeetingOrder, MetBefore, HasRun;
    if runs == [] {
      forall p ensures !SetAt(mask, p) { NoRunsNoPixels(mask, runs, p); }
      return None;
    }
    HeadIsSet(mask, runs, 0);
    var stats, order := CollectStats(runs, unionFind, width, |mask|);
    StatsInhabited(stats, order, runs, f, width, |mask|);
    var best := LargestOf(stats, order);
    LargestIsLargest(mask, runs, f, stats, order, best, width);
    return Some(stats[order[best]]);
  }

  method CollectStats(runs: seq<Run>, unionFind: UnionFind, width: nat, height: nat) returns (stats: map<nat, Stats>, order: seq<nat>)
    requires Weighted(unionFind.State()) && RunsFit(runs, unionFind.State()) && InsideImage(runs, width, height)
    modifies unionFind
    ensures StatsSoFar(stats, runs, old(unionFind.State()), |runs|, width, height)
    ensures InMeetingOrder(order, runs, old(unionFind.State()), |runs|)
  {
    hide Weighted, Root, StatsSoFar, Stretch, InsideImage, InMeetingOrder;
    ghost var f := unionFind.State();
    stats, order := map[], [];
    NoStats(runs, f, width, height);
    for k := 0 to |runs|
      invariant Weighted(unionFind.State()) && SamePartition(f, unionFind.State())
      invariant StatsSoFar(stats, runs, f, k, width, height) && InMeetingOrder(order, runs, f, k)
    {
      var run := runs[k];
      var root := unionFind.Find(run.element);
      OnlyRoot(runs, f, k);
      OrderStep(order, runs, f, k, root);
      if root !in order { order := order + [root]; }
      var values := if root in stats then stats[root] else Stats(0, Bounds(width, height, -1, -1));
      StatsStep(stats, runs, f, k, root, width, height);
      stats := stats[root := Stats(values.area + Length(run), Stretch(values.bounds, run))];
    }
  }

  lemma {:induction false} OnlyRoot(runs: seq<Run>, f: Forest, k: nat)
    requires RunsFit(runs, f) && k < |runs|
    ensures InClass(f, runs[k], Root(f, k)) && forall other :: InClass(f, runs[k], other) ==> other == Root(f, k)
  {
    hide Root, Valid;
  }

  /** The position of the first of the largest, as `max` picks it. */
  method LargestOf(stats: map<nat, Stats>, order: seq<nat>) returns (best: nat)
    requires order != [] && forall root :: root in order ==> root in stats
    ensures best < |order| && forall a :: 0 <= a < |order| ==> stats[order[a]].area <= stats[order[best]].area
    ensures forall a :: 0 <= a < best ==> stats[order[a]].area < stats[order[best]].area
  {
    best := 0;
    for k := 1 to |order|
      invariant best < k && forall a :: 0 <= a < k ==> stats[order[a]].area <= stats[order[best]].area
      invariant forall a :: 0 <= a < best ==> stats[order[a]].area < stats[order[best]].area
    {
      if stats[order[k]].area > stats[order[best]].area { best := k; }
    }
  }

  lemma {:induction false} NoStats(runs: seq<Run>, f: Forest, width: int, height: int)
    ensures StatsSoFar(map[], runs, f, 0, width, height) && InMeetingOrder([], runs, f, 0)
  {
  }

  lemma {:induction false} StatsInhabited(stats: map<nat, Stats>, order: seq<nat>, runs: seq<Run>, f: Forest, width: int, height: int)
    requires runs != [] && RunsFit(runs, f) && StatsSoFar(stats, runs, f, |runs|, width, height)
    requires InMeetingOrder(order, runs, f, |runs|)
    ensures order != [] && forall root :: root in order ==> root in stats
  {
    assert InClass(f, runs[0], Root(f, 0));
    assert HasRun(runs, f, Root(f, 0), |runs|);
    assert Root(f, 0) in stats;
  }

  lemma {:induction false} NoRunsNoPixels(mask: Mask, runs: seq<Run>, p: Pixel)
    requires runs == [] && RunsOf(mask, runs, |mask|)
    ensures !SetAt(mask, p)
  {
    assert !SomeWithin(runs, p);
  }

  lemma {:induction false} HeadIsSet(mask: Mask, runs: seq<Run>, i: nat)
    requires RunsOf(mask, runs, |mask|) && i < |runs|
    ensures SetAt(mask, Head(runs[i])) && Within(runs[i], Head(runs[i]))
  {
    assert Filled(mask, runs[i]);
  }

  lemma {:induction false} ClassIsComponent(mask: Mask, runs: seq<Run>, f: Forest, i: nat, p: Pixel)
    requires RunsOf(mask, runs, |mask|) && Sound(mask, runs, f) && Complete(runs, f)
    requires i < |runs| && Within(runs[i], p)
    ensures RunsFit(runs, f) && IsComponent(mask, ClassPixels(runs, f, Root(f, i), |runs|), p)
    ensures |ClassPixels(runs, f, Root(f, i), |runs|)| == SumsOf(runs, f, Root(f, i), |runs|).area
  {
    LabelsFit(mask, runs, f);
    assert Filled(mask, runs[i]);
    assert SetAt(mask, p);
    hide Root, Sound, Complete, RunsOf, Connected, ClassPixels, SumsOf;
    AreaCounts(runs, f, Root(f, i), |runs|);
    forall q ensures q in ClassPixels(runs, f, Root(f, i), |runs|) <==> SetAt(mask, q) && Connected(mask, p, q) {
      ClassPixelsAreAComponent(mask, runs, f, i, p, q);
    }
  }

  /** A component's size, box and root, from any of its pixels. */
  lemma {:induction false} ComponentHasRoot(mask: Mask, runs: seq<Run>, f: Forest, stats: map<nat, Stats>, s: set<Pixel>, p: Pixel, width: nat)
    returns (j: nat)
    requires RunsOf(mask, runs, |mask|) && Sound(mask, runs, f) && Complete(runs, f) && InsideImage(runs, width, |mask|)
    requires StatsSoFar(stats, runs, f, |runs|, width, |mask|) && IsComponent(mask, s, p)
    ensures j < |runs| && j < |f.parent| && Within(runs[j], p) && Valid(f) && InClass(f, runs[j], Root(f, j)) && HasRun(runs, f, Root(f, j), |runs|)
    ensures s == ClassPixels(runs, f, Root(f, j), |runs|)
    ensures Root(f, j) in stats && |s| == stats[Root(f, j)].area && Tight(stats[Root(f, j)].bounds, s)
  {
    LabelsFit(mask, runs, f);
    hide Sound, Complete, RunsOf, IsComponent, Tight, SetAt, ClassPixels, SumsOf, StatsOf, Root;
    ComponentPixelIsSet(mask, s, p);
    j := HolderOf(mask, runs, p);
    ClassIsComponent(mask, runs, f, j, p);
    var root := Root(f, j);
    SameComponent(mask, s, ClassPixels(runs, f, root, |runs|), p);
    OnlyRoot(runs, f, j);
    assert HasRun(runs, f, root, |runs|);
    StatsAreTight(runs, f, root, |runs|, width, |mask|);
  }

  lemma {:induction false} LargestIsLargest(mask: Mask, runs: seq<Run>, f: Forest, stats: map<nat, Stats>, order: seq<nat>, best: nat, width: nat)
    requires RunsOf(mask, runs, |mask|) && Sound(mask, runs, f) && Complete(runs, f) && InsideImage(runs, width, |mask|)
    requires StatsSoFar(stats, runs, f, |runs|, width, |mask|) && InMeetingOrder(order, runs, f, |runs|)
    requires best < |order| && forall root :: root in order ==> root in stats
    requires forall a :: 0 <= a < |order| ==> stats[order[a]].area <= stats[order[best]].area
    requires forall a :: 0 <= a < best ==> stats[order[a]].area < stats[order[best]].area
    ensures exists s, p :: FirstLargest(mask, s, p) && |s| == stats[order[best]].area && Tight(stats[order[best]].bounds, s)
  {
    var root := order[best];
    var i := FirstRunOf(runs, f, root, |runs|);
    LabelsFit(mask, runs, f);
    OnlyRoot(runs, f, i);
    hide Root, Sound, Complete, RunsOf, IsComponent, Tight, SetAt, ClassPixels, SumsOf, StatsOf, StatsSoFar, HasRun, InClass, MetBefore, RowMajor;
    HeadIsSet(mask, runs, i);
    ClassIsComponent(mask, runs, f, i, Head(runs[i]));
    var s, p := ClassPixels(runs, f, root, |runs|), Head(runs[i]);
    var own := ComponentHasRoot(mask, runs, f, stats, s, p, width);
    HeadHolder(mask, runs, i, own);
    forall s', q | IsComponent(mask, s', q) ensures |s'| < |s| || s' == s || (|s'| == |s| && RowMajor(p, q)) {
      var j := ComponentHasRoot(mask, runs, f, stats, s', q, width);
      var other := Root(f, j);
      assert other in order;
      var a :| 0 <= a < |order| && order[a] == other;
      if a > best { MetBeforePrecedes(mask, runs, f, root, other, i, j, q); }
    }
    assert FirstLargest(mask, s, p);
  }

  lemma {:induction false} HeadHolder(mask: Mask, runs: seq<Run>, i: nat, j: nat)
    requires RunsOf(mask, runs, |mask|) && i < |runs| && j < |runs|
    ensures Within(runs[j], Head(runs[i])) ==> i == j
  {
    assert Filled(mask, runs[i]) && Filled(mask, runs[j]);
    if i < j {
      assert Earlier(runs[i], runs[j]);
    } else if j < i {
      assert Earlier(runs[j], runs[i]);
    }
  }

  lemma {:induction false} ComponentPixelIsSet(mask: Mask, s: set<Pixel>, p: Pixel)
    requires IsComponent(mask, s, p)
    ensures SetAt(mask, p)
  {
  }

  lemma {:induction false} SameComponent(mask: Mask, s: set<Pixel>, s': set<Pixel>, p: Pixel)
    requires IsComponent(mask, s, p) && IsComponent(mask, s', p)
    ensures s == s'
  {
  }

  // ---------------------------------------------------------------- translating a frame

  predicate InFrame(y: int, x: int, height: int, width: int) {
    0 <= y < height && 0 <= x < width
  }

  predicate SomethingStays(height: nat, width: nat, dx: int, dy: int) {
    exists y, x :: 0 <= y < height && 0 <= x < width && InFrame(y, x, height, width) && InFrame(y + dy, x + dx, height, width)
  }

  lemma {:induction false} StaysWhen(height: nat, width: nat, dx: int, dy: int)
    ensures SomethingStays(height, width, dx, dy) <==>
            Max(0, -dx) < Min(width, width - dx) && Max(0, -dy) < Min(height, height - dy)
  {
    if Max(0, -dx) < Min(width, width - dx) && Max(0, -dy) < Min(height, height - dy) {
      assert InFrame(Max(0, -dy), Max(0, -dx), height, width) && InFrame(Max(0, -dy) + dy, Max(0, -dx) + dx, height, width);
    }
  }

  /** Moves the picture by (dx, dy) on a blank frame of the same size; an error exactly when nothing would stay. */
  method TranslateFrame<T>(frame: array2<T>, blank: T, dx: int, dy: int) returns (output: Option<array2<T>>)
    ensures output.Some? <==> SomethingStays(frame.Length0, frame.Length1, dx, dy)
    ensures output.Some? ==> fresh(output.value)
    ensures output.Some? ==> output.value.Length0 == frame.Length0 && output.value.Length1 == frame.Length1
    ensures output.Some? ==> forall y, x :: 0 <= y < frame.Length0 && 0 <= x < frame.Length1 ==>
              output.value[y, x] == if InFrame(y - dy, x - dx, frame.Length0, frame.Length1) then frame[y - dy, x - dx] else blank
  {
    var height, width := frame.Length0, frame.Length1;
    StaysWhen(height, width, dx, dy);
    hide SomethingStays;
    var sourceLeft, sourceTop := Max(0, -dx), Max(0, -dy);
    var sourceRight, sourceBottom := Min(width, width - dx), Min(height, height - dy);
    if sourceLeft >= sourceRight || sourceTop >= sourceBottom { return None; }
    var result := new T[height, width]((_, _) => blank);
    forall y, x | sourceTop + dy <= y < sourceBottom + dy && sourceLeft + dx <= x < sourceRight + dx {
      result[y, x] := frame[y - dy, x - dx];
    }
    output := Some(result);
  }
}

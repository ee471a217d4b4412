/** Masks, their maximal horizontal runs, and paths of set pixels under 8-neighbourhood. */
module PixelPaths {

  type Mask = seq<seq<bool>>

  datatype Pixel = Pixel(x: int, y: int)

  predicate SetAt(mask: Mask, p: Pixel) {
    0 <= p.y < |mask| && 0 <= p.x < |mask[p.y]| && mask[p.y][p.x]
  }

  // ---------------------------------------------------------------- runs of one row

  datatype Run = Run(y: int, start: int, end: int, element: nat)

  predicate Within(r: Run, p: Pixel) {
    r.y == p.y && r.start <= p.x <= r.end
  }

  /** A pixel of the row padded with one unset pixel on both sides. */
  function Bit(row: seq<bool>, x: int): int {
    if 0 <= x < |row| && row[x] then 1 else 0
  }

  /** The difference of neighbouring padded pixels. */
  function Change(row: seq<bool>, i: nat): int {
    Bit(row, i) - Bit(row, i - 1)
  }

  /** The positions below n at which the difference is `v`, in order. */
  function Positions(row: seq<bool>, v: int, n: nat): (r: seq<nat>)
    ensures forall k :: 0 <= k < |r| ==> r[k] < n
  {
    if n == 0 then []
    else if Change(row, n - 1) == v then Positions(row, v, n - 1) + [n - 1]
    else Positions(row, v, n - 1)
  }

  predicate CoveredBelow(starts: seq<nat>, ends: seq<nat>, n: nat, x: int) {
    exists k :: 0 <= k < |starts| && Spans(starts, ends, n, k, x)
  }

  predicate Spans(starts: seq<nat>, ends: seq<nat>, n: nat, k: nat, x: int)
    requires k < |starts|
  {
    starts[k] <= x < (if k < |ends| then ends[k] else n)
  }

  predicate Alternate(starts: seq<nat>, ends: seq<nat>) {
    && |ends| <= |starts| <= |ends| + 1
    && (forall k :: 0 <= k < |ends| ==> starts[k] < ends[k])
    && (forall j, k {:trigger ends[j], starts[k]} :: 0 <= j < k < |starts| ==> ends[j] < starts[k])
  }

  lemma {:induction false} StartsAndEndsAlternate(row: seq<bool>, n: nat)
    ensures Alternate(Positions(row, 1, n), Positions(row, -1, n))
    ensures |Positions(row, 1, n)| == |Positions(row, -1, n)| + Bit(row, n - 1)
  {
    if n > 0 { StartsAndEndsAlternate(row, n - 1); }
  }

  /** One more position leaves the cover of the earlier pixels alone. */
  lemma {:induction false} CoverStays(starts: seq<nat>, ends: seq<nat>, starts': seq<nat>, ends': seq<nat>, n: nat, x: int)
    requires 0 <= x < n && |ends| <= |starts| <= |ends| + 1
    requires starts' == starts || starts' == starts + [n]
    requires ends' == ends || (ends' == ends + [n] && starts' == starts)
    ensures CoveredBelow(starts, ends, n, x) <==> CoveredBelow(starts', ends', n + 1, x)
  {
    if CoveredBelow(starts, ends, n, x) {
      var k :| 0 <= k < |starts| && Spans(starts, ends, n, k, x);
      assert Spans(starts', ends', n + 1, k, x);
    }
    if CoveredBelow(starts', ends', n + 1, x) {
      var k :| 0 <= k < |starts'| && Spans(starts', ends', n + 1, k, x);
      assert k < |starts| && Spans(starts, ends, n, k, x);
    }
  }

  /** The last pixel is covered exactly while a run is open. */
  lemma {:induction false} CoverOfLast(starts: seq<nat>, ends: seq<nat>, n: nat)
    requires n > 0 && |ends| <= |starts| <= |ends| + 1
    requires forall k :: 0 <= k < |starts| ==> starts[k] < n
    requires forall k :: 0 <= k < |ends| ==> ends[k] < n
    ensures CoveredBelow(starts, ends, n, n - 1) <==> |starts| > |ends|
  {
    if |starts| > |ends| { assert Spans(starts, ends, n, |ends|, n - 1); }
  }

  /** Together the starts and ends cover exactly the set pixels seen so far. */
  lemma {:induction false} StartsAndEndsCover(row: seq<bool>, n: nat, x: int)
    requires 0 <= x < n
    ensures Bit(row, x) == 1 <==> CoveredBelow(Positions(row, 1, n), Positions(row, -1, n), n, x)
  {
    hide CoveredBelow;
    StartsAndEndsAlternate(row, n);
    StartsAndEndsAlternate(row, n - 1);
    hide Alternate;
    if x < n - 1 {
      StartsAndEndsCover(row, n - 1, x);
      CoverStays(Positions(row, 1, n - 1), Positions(row, -1, n - 1), Positions(row, 1, n), Positions(row, -1, n), n - 1, x);
    } else {
      CoverOfLast(Positions(row, 1, n), Positions(row, -1, n), n);
    }
  }

  /** The runs of one row, numbered from `first`. */
  function RunsOfRow(row: seq<bool>, y: int, first: nat): (r: seq<Run>)
    ensures forall k :: 0 <= k < |r| ==> r[k].y == y && r[k].element == first + k
  {
    StartsAndEndsAlternate(row, |row| + 1);
    var starts, ends := Positions(row, 1, |row| + 1), Positions(row, -1, |row| + 1);
    seq(|starts|, k requires 0 <= k < |starts| => Run(y, starts[k], ends[k] - 1, first + k))
  }

  /** In order, never empty, and never adjacent. */
  predicate Gapped(runs: seq<Run>) {
    && (forall k :: 0 <= k < |runs| ==> runs[k].start <= runs[k].end)
    && (forall j, k {:trigger runs[j], runs[k]} :: 0 <= j < k < |runs| ==> runs[j].end + 1 < runs[k].start)
  }

  predicate SomeWithin(runs: seq<Run>, p: Pixel) {
    exists k :: 0 <= k < |runs| && Within(runs[k], p)
  }

  /** The runs of a row are its maximal stretches of set pixels. */
  lemma {:induction false} RunsAreMaximal(row: seq<bool>, y: int, first: nat)
    ensures Gapped(RunsOfRow(row, y, first))
    ensures forall x :: SomeWithin(RunsOfRow(row, y, first), Pixel(x, y)) <==> 0 <= x < |row| && row[x]
  {
    var n := |row| + 1;
    StartsAndEndsAlternate(row, n);
    forall x | 0 <= x < n ensures Bit(row, x) == 1 <==> CoveredBelow(Positions(row, 1, n), Positions(row, -1, n), n, x) {
      StartsAndEndsCover(row, n, x);
    }
    var runs := RunsOfRow(row, y, first);
    var starts, ends := Positions(row, 1, n), Positions(row, -1, n);
    forall x ensures SomeWithin(runs, Pixel(x, y)) <==> Bit(row, x) == 1 {
      if SomeWithin(runs, Pixel(x, y)) {
        var k :| 0 <= k < |runs| && Within(runs[k], Pixel(x, y));
        assert Spans(starts, ends, n, k, x);
      }
      if Bit(row, x) == 1 {
        var k :| 0 <= k < |starts| && Spans(starts, ends, n, k, x);
        assert Within(runs[k], Pixel(x, y));
      }
    }
  }

  // ---------------------------------------------------------------- paths

  predicate Adjacent(p: Pixel, q: Pixel) {
    -1 <= p.x - q.x <= 1 && -1 <= p.y - q.y <= 1
  }

  predicate Path(mask: Mask, ps: seq<Pixel>) {
    && ps != []
    && (forall i :: 0 <= i < |ps| ==> SetAt(mask, ps[i]))
    && (forall i {:trigger ps[i]} :: 0 < i < |ps| ==> Adjacent(ps[i - 1], ps[i]))
  }

  predicate Joins(mask: Mask, ps: seq<Pixel>, p: Pixel, q: Pixel) {
    Path(mask, ps) && ps[0] == p && ps[|ps| - 1] == q
  }

  /** An 8-neighbour path of set pixels leads from p to q. */
  ghost predicate Connected(mask: Mask, p: Pixel, q: Pixel) {
    exists ps :: Joins(mask, ps, p, q)
  }

  lemma {:induction false} ConnectedToSelf(mask: Mask, p: Pixel)
    requires SetAt(mask, p)
    ensures Connected(mask, p, p)
  {
    assert Joins(mask, [p], p, p);
  }

  lemma {:induction false} OneStepMore(mask: Mask, p: Pixel, q: Pixel, r: Pixel)
    requires Connected(mask, p, q) && SetAt(mask, r) && Adjacent(q, r)
    ensures Connected(mask, p, r)
  {
    var ps :| Joins(mask, ps, p, q);
    assert Joins(mask, ps + [r], p, r);
  }

  lemma {:induction false} FollowPath(mask: Mask, p: Pixel, qs: seq<Pixel>, n: nat)
    requires Path(mask, qs) && Connected(mask, p, qs[0]) && n < |qs|
    ensures Connected(mask, p, qs[n])
  {
    if n > 0 {
      FollowPath(mask, p, qs, n - 1);
      OneStepMore(mask, p, qs[n - 1], qs[n]);
    }
  }

  lemma {:induction false} ConnectedThrough(mask: Mask, p: Pixel, q: Pixel, r: Pixel)
    requires Connected(mask, p, q) && Connected(mask, q, r)
    ensures Connected(mask, p, r)
  {
    var qs :| Joins(mask, qs, q, r);
    FollowPath(mask, p, qs, |qs| - 1);
  }

  lemma {:induction false} WalkBack(mask: Mask, ps: seq<Pixel>, n: nat)
    requires Path(mask, ps) && n < |ps|
    ensures Connected(mask, ps[n], ps[0])
  {
    ConnectedToSelf(mask, ps[n]);
    if n > 0 {
      OneStepMore(mask, ps[n], ps[n], ps[n - 1]);
      WalkBack(mask, ps, n - 1);
      ConnectedThrough(mask, ps[n], ps[n - 1], ps[0]);
    }
  }

  lemma {:induction false} ConnectedBack(mask: Mask, p: Pixel, q: Pixel)
    requires Connected(mask, p, q)
    ensures Connected(mask, q, p)
  {
    var ps :| Joins(mask, ps, p, q);
    WalkBack(mask, ps, |ps| - 1);
  }

  // ---------------------------------------------------------------- runs and paths

  predicate Filled(mask: Mask, r: Run) {
    r.start <= r.end && forall x :: r.start <= x <= r.end ==> SetAt(mask, Pixel(x, r.y))
  }

  lemma {:induction false} AlongRun(mask: Mask, r: Run, x: int)
    requires Filled(mask, r) && r.start <= x <= r.end
    ensures Connected(mask, Pixel(r.start, r.y), Pixel(x, r.y))
    decreases x
  {
    assert SetAt(mask, Pixel(x, r.y));
    if x == r.start {
      ConnectedToSelf(mask, Pixel(x, r.y));
    } else {
      AlongRun(mask, r, x - 1);
      OneStepMore(mask, Pixel(r.start, r.y), Pixel(x - 1, r.y), Pixel(x, r.y));
    }
  }

  /** Runs of neighbouring rows that overlap once one of them is widened by one pixel. */
  predicate Touch(r: Run, s: Run) {
    (r.y == s.y + 1 || s.y == r.y + 1) && r.start <= s.end + 1 && s.start <= r.end + 1
  }

  function Head(r: Run): Pixel {
    Pixel(r.start, r.y)
  }

  lemma {:induction false} TouchingIsConnected(mask: Mask, r: Run, s: Run)
    requires Filled(mask, r) && Filled(mask, s) && Touch(r, s)
    ensures Connected(mask, Head(r), Head(s))
  {
    var x := if r.start <= s.start - 1 then s.start - 1 else r.start;
    var x' := if s.start <= r.start - 1 then r.start - 1 else s.start;
    if x > r.end { x := r.end; }
    if x' > s.end { x' := s.end; }
    AlongRun(mask, r, x);
    AlongRun(mask, s, x');
    assert SetAt(mask, Pixel(x', s.y));
    OneStepMore(mask, Head(r), Pixel(x, r.y), Pixel(x', s.y));
    ConnectedBack(mask, Head(s), Pixel(x', s.y));
    ConnectedThrough(mask, Head(r), Pixel(x', s.y), Head(s));
  }
}

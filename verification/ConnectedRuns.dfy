/** Labelling connected components: the row sweep that unites touching runs, and what its classes are. */
module ConnectedRuns {
  import opened DisjointSets
  import opened PixelPaths

  predicate Same(f: Forest, i: nat, j: nat) {
    Valid(f) && i < |f.parent| && j < |f.parent| && Root(f, i) == Root(f, j)
  }

  /** Nothing that was in one class is torn apart. */
  ghost predicate Coarser(f: Forest, g: Forest) {
    && Valid(f) && Valid(g) && |g.parent| == |f.parent|
    && forall i, j :: Same(f, i, j) ==> Same(g, i, j)
  }

  /** Runs in one class are connected by a path of set pixels. */
  ghost predicate Sound(mask: Mask, runs: seq<Run>, f: Forest) {
    && Valid(f) && |f.parent| == |runs|
    && (forall i :: 0 <= i < |runs| ==> Filled(mask, runs[i]))
    && (forall i, j :: 0 <= i < |runs| && 0 <= j < |runs| && Same(f, i, j) ==> Connected(mask, Head(runs[i]), Head(runs[j])))
  }

  /** Touching runs are in one class. */
  ghost predicate Complete(runs: seq<Run>, f: Forest) {
    forall i, j :: 0 <= i < |runs| && 0 <= j < |runs| && Touch(runs[i], runs[j]) ==> Same(f, i, j)
  }

  // ---------------------------------------------------------------- rows

  predicate Earlier(r: Run, s: Run) {
    r.y < s.y || (r.y == s.y && r.end + 1 < s.start)
  }

  /** Exactly the runs of the first `height` rows, in order, each numbered by its position. */
  ghost predicate RunsOf(mask: Mask, runs: seq<Run>, height: int) {
    && (forall i :: 0 <= i < |runs| ==> 0 <= runs[i].y < height && runs[i].element == i && Filled(mask, runs[i]))
    && (forall i, j {:trigger runs[i], runs[j]} :: 0 <= i < j < |runs| ==> Earlier(runs[i], runs[j]))
    && (forall p :: SetAt(mask, p) && p.y < height ==> SomeWithin(runs, p))
  }

  lemma {:induction false} RowIsFilled(mask: Mask, y: nat, first: nat, k: nat)
    requires y < |mask| && k < |RunsOfRow(mask[y], y, first)|
    ensures Filled(mask, RunsOfRow(mask[y], y, first)[k])
  {
    RunsAreMaximal(mask[y], y, first);
    var r := RunsOfRow(mask[y], y, first)[k];
    forall x | r.start <= x <= r.end ensures SetAt(mask, Pixel(x, r.y)) {
      assert Within(r, Pixel(x, y));
    }
  }

  lemma {:induction false} OneMoreRow(mask: Mask, runs: seq<Run>, y: nat)
    requires y < |mask| && RunsOf(mask, runs, y)
    ensures RunsOf(mask, runs + RunsOfRow(mask[y], y, |runs|), y + 1)
  {
    hide Positions;
    var row := RunsOfRow(mask[y], y, |runs|);
    var all := runs + row;
    RunsAreMaximal(mask[y], y, |runs|);
    forall i | 0 <= i < |all| ensures 0 <= all[i].y < y + 1 && all[i].element == i && Filled(mask, all[i]) {
      if i >= |runs| { RowIsFilled(mask, y, |runs|, i - |runs|); }
    }
    forall p | SetAt(mask, p) && p.y < y + 1 ensures SomeWithin(all, p) {
      if p.y < y {
        var k :| 0 <= k < |runs| && Within(runs[k], p);
        assert Within(all[k], p);
      } else {
        assert SomeWithin(row, Pixel(p.x, y));
        var k :| 0 <= k < |row| && Within(row[k], p);
        assert Within(all[|runs| + k], p);
      }
    }
  }

  // ---------------------------------------------------------------- what the forest operations do to classes

  /** New elements in classes of their own; the old classes unchanged. */
  ghost predicate Grown(f: Forest, g: Forest) {
    && Valid(f) && Valid(g) && |f.parent| <= |g.parent|
    && (forall v :: 0 <= v < |f.parent| ==> Root(g, v) == Root(f, v))
    && (forall v :: |f.parent| <= v < |g.parent| ==> Root(g, v) == v)
  }

  lemma {:induction false} AddedGrows(f: Forest, g: Forest)
    requires Grown(f, g)
    ensures Grown(f, Added(g))
  {
    AddedIsValid(g);
    forall v | 0 <= v < |g.parent| ensures Root(Added(g), v) == Root(g, v) { AddedRoot(g, v); }
  }

  lemma {:induction false} GrownIsSound(mask: Mask, runs: seq<Run>, f: Forest, runs': seq<Run>, g: Forest)
    requires Sound(mask, runs, f) && Grown(f, g) && |runs'| == |g.parent| && runs <= runs'
    requires forall i :: 0 <= i < |runs'| ==> Filled(mask, runs'[i])
    ensures Sound(mask, runs', g)
  {
    hide Valid, Filled, Connected;
    forall i, j | 0 <= i < |runs'| && 0 <= j < |runs'| && Same(g, i, j)
      ensures Connected(mask, Head(runs'[i]), Head(runs'[j]))
    {
      if i < |runs| && j < |runs| {
        assert Same(f, i, j);
      } else {
        assert i == j;
        AlongRun(mask, runs'[i], runs'[i].start) by { assert Filled(mask, runs'[i]); HeadIsIn(mask, runs'[i]); }
      }
    }
  }

  lemma {:induction false} HeadIsIn(mask: Mask, r: Run)
    requires Filled(mask, r)
    ensures r.start <= r.end
  {
  }

  lemma {:induction false} MergedIsCoarser(f: Forest, g: Forest, winner: nat, loser: nat)
    requires Merged(f, g, winner, loser)
    ensures Coarser(f, g)
  {
    hide Root, Valid;
  }

  /** Uniting two runs that are connected keeps the classes sound. */
  lemma {:induction false} MergedIsSound(mask: Mask, runs: seq<Run>, f: Forest, g: Forest, a: nat, b: nat)
    requires Sound(mask, runs, f) && a < |runs| && b < |runs|
    requires Connected(mask, Head(runs[a]), Head(runs[b]))
    requires Merged(f, g, Root(f, a), Root(f, b))
    ensures Sound(mask, runs, g)
  {
    hide Root, Valid, Connected, Filled, Head;
    forall i, j | 0 <= i < |runs| && 0 <= j < |runs| && Same(g, i, j)
      ensures Connected(mask, Head(runs[i]), Head(runs[j]))
    {
      UnionJoinsTwoClasses(f, g, Root(f, a), Root(f, b), i, j);
      ConnectedBack(mask, Head(runs[a]), Head(runs[b]));
      if Same(f, i, j) {
      } else if Same(f, i, a) && Same(f, b, j) {
        ConnectedThrough(mask, Head(runs[i]), Head(runs[a]), Head(runs[b]));
        ConnectedThrough(mask, Head(runs[i]), Head(runs[b]), Head(runs[j]));
      } else {
        assert Same(f, i, b) && Same(f, a, j);
        ConnectedThrough(mask, Head(runs[i]), Head(runs[b]), Head(runs[a]));
        ConnectedThrough(mask, Head(runs[i]), Head(runs[a]), Head(runs[j]));
      }
    }
  }

  lemma {:induction false} UnitedIsSame(f: Forest, g: Forest, a: nat, b: nat)
    requires Valid(f) && a < |f.parent| && b < |f.parent|
    requires Merged(f, g, Root(f, a), Root(f, b)) || Merged(f, g, Root(f, b), Root(f, a))
    ensures Same(g, a, b)
  {
    hide Root, Valid;
  }

  lemma {:induction false} CoarserTwice(f: Forest, g: Forest, h: Forest)
    requires Coarser(f, g) && Coarser(g, h)
    ensures Coarser(f, h)
  {
    hide Same, Valid;
  }

  lemma {:induction false} PartitionIsSound(mask: Mask, runs: seq<Run>, f: Forest, g: Forest)
    requires Sound(mask, runs, f) && SamePartition(f, g)
    ensures Sound(mask, runs, g) && Coarser(f, g)
  {
    hide Root, Valid, Connected, Filled;
    assert forall i, j :: Same(g, i, j) <==> Same(f, i, j);
  }

  lemma {:induction false} CoarserIsComplete(runs: seq<Run>, f: Forest, g: Forest)
    requires Complete(runs, f) && Coarser(f, g)
    ensures Complete(runs, g)
  {
    hide Same, Touch, Valid;
  }

  // ---------------------------------------------------------------- the sweep

  method RowRuns(row: seq<bool>, y: int, unionFind: UnionFind) returns (runs: seq<Run>)
    requires Weighted(unionFind.State())
    modifies unionFind
    ensures runs == RunsOfRow(row, y, |old(unionFind.parent)|)
    ensures Weighted(unionFind.State()) && Grown(old(unionFind.State()), unionFind.State())
    ensures |unionFind.parent| == |old(unionFind.parent)| + |runs|
  {
    StartsAndEndsAlternate(row, |row| + 1);
    var starts, ends := Positions(row, 1, |row| + 1), Positions(row, -1, |row| + 1);
    hide Positions, Members, Root, Valid, Weighted;
    runs := [];
    for k := 0 to |starts|
      invariant runs == RunsOfRow(row, y, |old(unionFind.parent)|)[..k]
      invariant Weighted(unionFind.State()) && Grown(old(unionFind.State()), unionFind.State())
      invariant |unionFind.parent| == |old(unionFind.parent)| + k
    {
      AddedGrows(old(unionFind.State()), unionFind.State());
      var element := unionFind.Add();
      runs := runs + [Run(y, starts[k], ends[k] - 1, element)];
    }
  }

  /** A run of the list under its own number. */
  predicate Listed(runs: seq<Run>, r: Run) {
    r.element < |runs| && runs[r.element] == r
  }

  predicate AllListed(runs: seq<Run>, row: seq<Run>) {
    forall k :: 0 <= k < |row| ==> Listed(runs, row[k])
  }

  /** One run against the runs of the row above, from the first that could touch it. */
  method UniteTouching(unionFind: UnionFind, run: Run, previous: seq<Run>, first: nat, ghost mask: Mask, ghost runs: seq<Run>)
    requires Weighted(unionFind.State()) && Sound(mask, runs, unionFind.State())
    requires Listed(runs, run) && AllListed(runs, previous) && Gapped(previous)
    requires forall p :: 0 <= p < |previous| ==> previous[p].y + 1 == run.y
    requires first <= |previous|
    requires forall p :: 0 <= p < first ==> previous[p].end < run.start - 1
    requires first < |previous| ==> previous[first].end >= run.start - 1
    modifies unionFind
    ensures Weighted(unionFind.State()) && Sound(mask, runs, unionFind.State())
    ensures Coarser(old(unionFind.State()), unionFind.State())
    ensures forall p :: 0 <= p < |previous| && Touch(run, previous[p]) ==> Same(unionFind.State(), run.element, previous[p].element)
  {
    hide Root, Valid, Weighted, Sound, Coarser, Same, Merged;
    var candidate := first;
    CoarserSelf(unionFind.State(), mask, runs);
    while candidate < |previous| && previous[candidate].start <= run.end + 1
      invariant first <= candidate <= |previous|
      invariant Weighted(unionFind.State()) && Sound(mask, runs, unionFind.State())
      invariant Coarser(old(unionFind.State()), unionFind.State())
      invariant forall p :: first <= p < candidate ==> Same(unionFind.State(), run.element, previous[p].element)
    {
      var other := previous[candidate];
      assert Touch(run, other) && Listed(runs, other);
      ghost var before := unionFind.State();
      ElementsInRange(unionFind.State(), mask, runs);
      unionFind.Unite(run.element, other.element);
      UniteIsSound(mask, runs, before, unionFind.State(), run.element, other.element);
      CoarserTwice(old(unionFind.State()), before, unionFind.State());
      StillSame(before, unionFind.State());
      candidate := candidate + 1;
    }
  }

  lemma {:induction false} CoarserSelf(f: Forest, mask: Mask, runs: seq<Run>)
    requires Sound(mask, runs, f)
    ensures Coarser(f, f)
  {
  }

  lemma {:induction false} ElementsInRange(f: Forest, mask: Mask, runs: seq<Run>)
    requires Sound(mask, runs, f)
    ensures Valid(f) && |f.parent| == |runs|
  {
  }

  lemma {:induction false} StillSame(f: Forest, g: Forest)
    requires Coarser(f, g)
    ensures forall i, j :: Same(f, i, j) ==> Same(g, i, j)
  {
  }

  lemma {:induction false} UniteIsSound(mask: Mask, runs: seq<Run>, f: Forest, g: Forest, a: nat, b: nat)
    requires Sound(mask, runs, f) && a < |runs| && b < |runs| && Touch(runs[a], runs[b])
    requires Merged(f, g, Root(f, a), Root(f, b)) || Merged(f, g, Root(f, b), Root(f, a))
    ensures Sound(mask, runs, g) && Coarser(f, g) && Same(g, a, b)
  {
    hide Root, Connected, Merged, Same;
    TouchingIsConnected(mask, runs[a], runs[b]);
    UnitedIsSame(f, g, a, b);
    if Merged(f, g, Root(f, a), Root(f, b)) {
      MergedIsCoarser(f, g, Root(f, a), Root(f, b));
      MergedIsSound(mask, runs, f, g, a, b);
    } else {
      MergedIsCoarser(f, g, Root(f, b), Root(f, a));
      ConnectedBack(mask, Head(runs[a]), Head(runs[b]));
      MergedIsSound(mask, runs, f, g, b, a);
    }
  }

  /** One row against the row above: both lists are walked once, and exactly the touching pairs are united. */
  method SweepRow(unionFind: UnionFind, current: seq<Run>, previous: seq<Run>, ghost mask: Mask, ghost runs: seq<Run>)
    requires Weighted(unionFind.State()) && Sound(mask, runs, unionFind.State())
    requires AllListed(runs, current) && AllListed(runs, previous) && Gapped(current) && Gapped(previous)
    requires forall c, p :: 0 <= c < |current| && 0 <= p < |previous| ==> previous[p].y + 1 == current[c].y
    modifies unionFind
    ensures Weighted(unionFind.State()) && Sound(mask, runs, unionFind.State())
    ensures Coarser(old(unionFind.State()), unionFind.State())
    ensures forall c, p :: 0 <= c < |current| && 0 <= p < |previous| && Touch(current[c], previous[p]) ==>
              Same(unionFind.State(), current[c].element, previous[p].element)
  {
    hide Root, Valid, Weighted, Sound, Coarser, Same, Touch;
    var previousIndex := 0;
    CoarserSelf(unionFind.State(), mask, runs);
    for c := 0 to |current|
      invariant previousIndex <= |previous|
      invariant Weighted(unionFind.State()) && Sound(mask, runs, unionFind.State())
      invariant Coarser(old(unionFind.State()), unionFind.State())
      invariant c > 0 ==> forall p :: 0 <= p < previousIndex ==> previous[p].end < current[c - 1].start - 1
      invariant c == 0 ==> previousIndex == 0
      invariant forall d, p :: 0 <= d < c && 0 <= p < |previous| && Touch(current[d], previous[p]) ==>
                  Same(unionFind.State(), current[d].element, previous[p].element)
    {
      var run := current[c];
      while previousIndex < |previous| && previous[previousIndex].end < run.start - 1
        invariant previousIndex <= |previous|
        invariant forall p :: 0 <= p < previousIndex ==> previous[p].end < run.start - 1
      {
        previousIndex := previousIndex + 1;
      }
      ghost var before := unionFind.State();
      UniteTouching(unionFind, run, previous, previousIndex, mask, runs);
      CoarserTwice(old(unionFind.State()), before, unionFind.State());
      StillSame(before, unionFind.State());
    }
  }

  /** The last row's runs are the tail of the list. */
  predicate TailRow(runs: seq<Run>, previous: seq<Run>, y: int) {
    && |previous| <= |runs| && runs[|runs| - |previous|..] == previous
    && (forall i :: 0 <= i < |runs| - |previous| ==> runs[i].y < y)
    && (forall k :: 0 <= k < |previous| ==> previous[k].y == y)
  }

  lemma {:induction false} RowIsComplete(runs: seq<Run>, current: seq<Run>, previous: seq<Run>, y: int, f: Forest)
    requires TailRow(runs, previous, y - 1) && (forall k :: 0 <= k < |current| ==> current[k].y == y)
    requires forall i, j :: 0 <= i < |runs| && 0 <= j < |runs| && Touch(runs[i], runs[j]) ==> Same(f, i, j)
    requires AllListed(runs + current, current) && AllListed(runs + current, previous)
    requires forall i :: 0 <= i < |runs| ==> runs[i].element == i
    requires forall k :: 0 <= k < |current| ==> current[k].element == |runs| + k
    requires forall c, p :: 0 <= c < |current| && 0 <= p < |previous| && Touch(current[c], previous[p]) ==>
               Same(f, current[c].element, previous[p].element)
    ensures Complete(runs + current, f)
  {
    hide Root, Valid;
    var all := runs + current;
    forall i, j | 0 <= i < |all| && 0 <= j < |all| && Touch(all[i], all[j]) ensures Same(f, i, j) {
      CrossRow(runs, current, previous, y, i, j);
      CrossRow(runs, current, previous, y, j, i);
    }
  }

  /** Of two touching runs, one in the new row, the other is in the row above. */
  lemma {:induction false} CrossRow(runs: seq<Run>, current: seq<Run>, previous: seq<Run>, y: int, i: nat, j: nat)
    requires TailRow(runs, previous, y - 1) && (forall k :: 0 <= k < |current| ==> current[k].y == y)
    requires i < |runs| + |current| && j < |runs| + |current|
    ensures i >= |runs| && Touch((runs + current)[i], (runs + current)[j]) ==>
              && |runs| - |previous| <= j < |runs|
              && (runs + current)[i] == current[i - |runs|]
              && (runs + current)[j] == previous[j - (|runs| - |previous|)]
  {
    var all := runs + current;
    if i >= |runs| {
      assert all[i] == current[i - |runs|];
      if j >= |runs| { assert all[j] == current[j - |runs|]; }
      else if j >= |runs| - |previous| { assert all[j] == runs[|runs| - |previous|..][j - (|runs| - |previous|)]; }
      else { assert all[j] == runs[j]; }
    }
  }

  /**
   All maximal runs of the mask in order, and a forest over them whose classes are sound and complete for contact.
   */
  method LabelRuns(mask: Mask) returns (allRuns: seq<Run>, unionFind: UnionFind)
    ensures fresh(unionFind) && Weighted(unionFind.State())
    ensures RunsOf(mask, allRuns, |mask|)
    ensures Sound(mask, allRuns, unionFind.State()) && Complete(allRuns, unionFind.State())
  {
    unionFind := new UnionFind();
    allRuns := [];
    var previous: seq<Run> := [];
    hide Root, Valid, Weighted, Sound, Coarser, Same, Touch, Complete, Grown, RunsOf, RunsOfRow;
    EmptyIsSound(mask, unionFind.State());
    for y := 0 to |mask|
      invariant Weighted(unionFind.State()) && fresh(unionFind)
      invariant RunsOf(mask, allRuns, y) && TailRow(allRuns, previous, y - 1)
      invariant Sound(mask, allRuns, unionFind.State()) && Complete(allRuns, unionFind.State())
    {
      ghost var before := unionFind.State();
      ElementsInRange(before, mask, allRuns);
      var current := RowRuns(mask[y], y, unionFind);
      ghost var whole := allRuns + current;
      ghost var grown := unionFind.State();
      RowReady(mask, allRuns, previous, y, before, grown);
      SweepRow(unionFind, current, previous, mask, whole);
      RowDone(mask, allRuns, previous, y, grown, unionFind.State());
      allRuns := allRuns + current;
      previous := current;
    }
    ElementsInRange(unionFind.State(), mask, allRuns);
    for element := 0 to |unionFind.parent|
      invariant Weighted(unionFind.State()) && fresh(unionFind)
      invariant Sound(mask, allRuns, unionFind.State()) && Complete(allRuns, unionFind.State())
      invariant |unionFind.parent| == |allRuns|
    {
      ghost var before := unionFind.State();
      var root := unionFind.Find(element);
      PartitionIsSound(mask, allRuns, before, unionFind.State());
      CoarserIsComplete(allRuns, before, unionFind.State());
      ElementsInRange(unionFind.State(), mask, allRuns);
    }
  }

  lemma {:induction false} EmptyIsSound(mask: Mask, f: Forest)
    requires f == Forest([], [])
    ensures Sound(mask, [], f) && Complete([], f) && RunsOf(mask, [], 0) && TailRow([], [], -1)
  {
  }

  lemma {:induction false} RowReady(mask: Mask, runs: seq<Run>, previous: seq<Run>, y: nat, f: Forest, g: Forest)
    requires y < |mask| && RunsOf(mask, runs, y) && TailRow(runs, previous, y - 1)
    requires Sound(mask, runs, f) && Complete(runs, f) && Grown(f, g)
    requires |g.parent| == |f.parent| + |RunsOfRow(mask[y], y, |f.parent|)|
    ensures |f.parent| == |runs|
    ensures var current := RunsOfRow(mask[y], y, |runs|);
            var whole := runs + current;
      && Sound(mask, whole, g) && RunsOf(mask, whole, y + 1)
      && AllListed(whole, current) && AllListed(whole, previous) && Gapped(current) && Gapped(previous)
      && (forall c, p :: 0 <= c < |current| && 0 <= p < |previous| ==> previous[p].y + 1 == current[c].y)
      && (forall i, j :: 0 <= i < |runs| && 0 <= j < |runs| && Touch(runs[i], runs[j]) ==> Same(g, i, j))
  {
    hide RunsOfRow, Touch, Connected, Filled, Root, Valid;
    var current := RunsOfRow(mask[y], y, |runs|);
    var whole := runs + current;
    OneMoreRow(mask, runs, y);
    RunsAreMaximal(mask[y], y, |runs|);
    GrownIsSound(mask, runs, f, whole, g);
    forall k | 0 <= k < |previous| ensures Listed(whole, previous[k]) {
      assert previous[k] == runs[|runs| - |previous| + k];
    }
    forall j, k | 0 <= j < k < |previous| ensures previous[j].end + 1 < previous[k].start {
      assert previous[j] == runs[|runs| - |previous| + j] && previous[k] == runs[|runs| - |previous| + k];
    }
    forall k | 0 <= k < |previous| ensures previous[k].start <= previous[k].end {
      HeadIsIn(mask, runs[|runs| - |previous| + k]);
    }
  }

  lemma {:induction false} RowDone(mask: Mask, runs: seq<Run>, previous: seq<Run>, y: nat, g: Forest, h: Forest)
    requires y < |mask| && RunsOf(mask, runs, y) && TailRow(runs, previous, y - 1) && Coarser(g, h)
    requires var current := RunsOfRow(mask[y], y, |runs|);
             var whole := runs + current;
      && AllListed(whole, current) && AllListed(whole, previous)
      && (forall i, j :: 0 <= i < |runs| && 0 <= j < |runs| && Touch(runs[i], runs[j]) ==> Same(g, i, j))
      && (forall c, p :: 0 <= c < |current| && 0 <= p < |previous| && Touch(current[c], previous[p]) ==>
            Same(h, current[c].element, previous[p].element))
    ensures var current := RunsOfRow(mask[y], y, |runs|);
      Complete(runs + current, h) && TailRow(runs + current, current, y)
  {
    hide RunsOfRow, Touch, Same;
    var current := RunsOfRow(mask[y], y, |runs|);
    RowIsComplete(runs, current, previous, y, h);
  }

  // ---------------------------------------------------------------- classes are components

  /** The run that holds a set pixel. */
  lemma {:induction false} HolderOf(mask: Mask, runs: seq<Run>, p: Pixel) returns (i: nat)
    requires RunsOf(mask, runs, |mask|) && SetAt(mask, p)
    ensures i < |runs| && Within(runs[i], p)
  {
    assert SomeWithin(runs, p);
    i :| 0 <= i < |runs| && Within(runs[i], p);
  }

  lemma {:induction false} RunsAreApart(mask: Mask, runs: seq<Run>, p: Pixel, q: Pixel, i: nat, j: nat)
    requires RunsOf(mask, runs, |mask|) && i < |runs| && j < |runs| && Within(runs[i], p) && Within(runs[j], q)
    ensures i < j ==> !(p.y == q.y && Adjacent(p, q))
  {
    hide Filled, SetAt;
    if i < j { assert Earlier(runs[i], runs[j]); }
  }

  /** A pixel is in one run only, and neighbouring pixels are in the same run or in touching runs. */
  lemma {:induction false} NeighboursShareAClass(mask: Mask, runs: seq<Run>, f: Forest, p: Pixel, q: Pixel, i: nat, j: nat)
    requires RunsOf(mask, runs, |mask|) && Sound(mask, runs, f) && Complete(runs, f)
    requires SetAt(mask, p) && SetAt(mask, q) && Adjacent(p, q)
    requires i < |runs| && j < |runs| && Within(runs[i], p) && Within(runs[j], q)
    ensures Same(f, i, j)
  {
    hide Root, Connected, Filled, SetAt;
    RunsAreApart(mask, runs, p, q, i, j);
    RunsAreApart(mask, runs, q, p, j, i);
    if p.y != q.y {
      assert Touch(runs[i], runs[j]);
    }
  }

  lemma {:induction false} PathSharesAClass(mask: Mask, runs: seq<Run>, f: Forest, ps: seq<Pixel>, n: nat, i: nat, j: nat)
    requires RunsOf(mask, runs, |mask|) && Sound(mask, runs, f) && Complete(runs, f)
    requires Path(mask, ps) && n < |ps| && i < |runs| && j < |runs| && Within(runs[i], ps[0]) && Within(runs[j], ps[n])
    ensures Same(f, i, j)
  {
    hide Sound, Complete, RunsOf;
    if n == 0 {
      NeighboursShareAClass(mask, runs, f, ps[0], ps[0], i, j);
    } else {
      var k := HolderOf(mask, runs, ps[n - 1]);
      PathSharesAClass(mask, runs, f, ps, n - 1, i, k);
      NeighboursShareAClass(mask, runs, f, ps[n - 1], ps[n], k, j);
    }
  }

  /** For every mask, two set pixels end in one class exactly when an 8-neighbour path of set pixels joins them. */
  lemma {:induction false} ClassesAreComponents(mask: Mask, runs: seq<Run>, f: Forest, p: Pixel, q: Pixel, i: nat, j: nat)
    requires RunsOf(mask, runs, |mask|) && Sound(mask, runs, f) && Complete(runs, f)
    requires i < |runs| && j < |runs| && Within(runs[i], p) && Within(runs[j], q)
    ensures Root(f, i) == Root(f, j) <==> Connected(mask, p, q)
  {
    hide Root, Complete;
    if Connected(mask, p, q) {
      var ps :| Joins(mask, ps, p, q);
      PathSharesAClass(mask, runs, f, ps, |ps| - 1, i, j);
    }
    if Root(f, i) == Root(f, j) {
      assert Same(f, i, j);
      AlongRun(mask, runs[i], p.x);
      ConnectedBack(mask, Head(runs[i]), p);
      AlongRun(mask, runs[j], q.x);
      ConnectedThrough(mask, p, Head(runs[i]), Head(runs[j]));
      ConnectedThrough(mask, p, Head(runs[j]), q);
    }
  }
}

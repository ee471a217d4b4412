/** Disjoint sets over two mutable lists, with union by rank and path halving. */
module DisjointSets {

  /** The two lists as a value. */
  datatype Forest = Forest(parent: seq<nat>, rank: seq<nat>)

  /** Parents are elements, and rank strictly increases from an element to its parent. */
  predicate Valid(f: Forest) {
    && |f.parent| == |f.rank|
    && (forall v :: 0 <= v < |f.parent| ==> f.parent[v] < |f.parent|)
    && (forall v :: 0 <= v < |f.parent| ==> Rises(f, v))
  }

  predicate Rises(f: Forest, v: nat)
    requires v < |f.parent| == |f.rank| && f.parent[v] < |f.rank|
  {
    f.parent[v] != v ==> f.rank[v] < f.rank[f.parent[v]]
  }

  function HighestRank(rank: seq<nat>): (r: nat)
    ensures forall v :: 0 <= v < |rank| ==> rank[v] <= r
  {
    if rank == [] then 0
    else
      var rest := HighestRank(rank[1..]);
      assert forall v :: 0 < v < |rank| ==> rank[v] == rank[1..][v - 1];
      if rank[0] > rest then rank[0] else rest
  }

  /** The representative of the element's class. */
  function Root(f: Forest, v: nat): (r: nat)
    requires Valid(f) && v < |f.parent|
    ensures r < |f.parent| && f.parent[r] == r && f.rank[v] <= f.rank[r]
    decreases HighestRank(f.rank) - f.rank[v]
  {
    if f.parent[v] == v then v else assert Rises(f, v); Root(f, f.parent[v])
  }

  /** The number of steps from the element to its representative. */
  function Depth(f: Forest, v: nat): (d: nat)
    requires Valid(f) && v < |f.parent|
    ensures d <= f.rank[Root(f, v)] - f.rank[v]
    decreases HighestRank(f.rank) - f.rank[v]
  {
    if f.parent[v] == v then 0 else assert Rises(f, v); 1 + Depth(f, f.parent[v])
  }

  ghost function Members(f: Forest, r: nat): set<nat>
    requires Valid(f)
  {
    set v | 0 <= v < |f.parent| && Root(f, v) == r
  }

  function Pow2(k: nat): nat {
    if k == 0 then 1 else 2 * Pow2(k - 1)
  }

  /** A root of rank k has at least two to the k members. */
  ghost predicate Weighted(f: Forest) {
    && Valid(f)
    && forall r :: 0 <= r < |f.parent| && f.parent[r] == r ==> |Members(f, r)| >= Pow2(f.rank[r])
  }

  // ---------------------------------------------------------------- adding an element

  function Added(f: Forest): Forest {
    Forest(f.parent + [|f.parent|], f.rank + [0])
  }

  lemma {:induction false} AddedRoot(f: Forest, v: nat)
    requires Valid(f) && v < |f.parent|
    ensures Valid(Added(f)) && Root(Added(f), v) == Root(f, v)
    decreases HighestRank(f.rank) - f.rank[v]
  {
    AddedIsValid(f);
    if f.parent[v] != v {
      assert Rises(f, v);
      AddedRoot(f, f.parent[v]);
    }
  }

  lemma {:induction false} AddedIsValid(f: Forest)
    requires Valid(f)
    ensures Valid(Added(f)) && Root(Added(f), |f.parent|) == |f.parent|
  {
    var g := Added(f);
    forall v | 0 <= v < |g.parent| ensures Rises(g, v) {
      if v < |f.parent| { assert Rises(f, v); }
    }
  }

  lemma {:induction false} AddedKeepsWeight(f: Forest)
    requires Weighted(f)
    ensures Weighted(Added(f))
  {
    AddedIsValid(f);
    var g := Added(f);
    forall v | 0 <= v < |f.parent| ensures Root(g, v) == Root(f, v) { AddedRoot(f, v); }
    forall r | 0 <= r < |g.parent| && g.parent[r] == r ensures |Members(g, r)| >= Pow2(g.rank[r]) {
      if r == |f.parent| {
        assert Members(g, r) == {r};
      } else {
        assert f.parent[r] == r;
        assert Members(g, r) == Members(f, r);
      }
    }
  }

  // ---------------------------------------------------------------- path halving

  function Halved(f: Forest, v: nat): Forest
    requires Valid(f) && v < |f.parent|
  {
    f.(parent := f.parent[v := f.parent[f.parent[v]]])
  }

  lemma {:induction false} HalvedIsValid(f: Forest, v: nat)
    requires Valid(f) && v < |f.parent| && f.parent[v] != v
    ensures Valid(Halved(f, v)) && f.rank[v] < f.rank[f.parent[v]] && Halved(f, v).rank == f.rank
  {
    assert Rises(f, v) && Rises(f, f.parent[v]);
    forall u | 0 <= u < |f.parent| ensures Rises(Halved(f, v), u) {
      assert Rises(f, u);
    }
  }

  lemma {:induction false} HalvedRoot(f: Forest, v: nat, u: nat)
    requires Valid(f) && v < |f.parent| && u < |f.parent| && f.parent[v] != v
    ensures Valid(Halved(f, v)) && Root(Halved(f, v), u) == Root(f, u)
    decreases HighestRank(f.rank) - f.rank[u]
  {
    HalvedIsValid(f, v);
    if f.parent[u] != u {
      assert Rises(f, u) && Rises(Halved(f, v), u);
      HalvedRoot(f, v, f.parent[u]);
      if u == v && f.parent[f.parent[v]] != f.parent[v] {
        assert Rises(f, f.parent[v]);
        HalvedRoot(f, v, f.parent[f.parent[v]]);
      }
    }
  }

  /** Same elements, same ranks, same classes with the same representatives. */
  ghost predicate SamePartition(f: Forest, g: Forest) {
    && Valid(f) && Valid(g) && g.rank == f.rank && |g.parent| == |f.parent|
    && (forall u :: 0 <= u < |f.parent| ==> Root(g, u) == Root(f, u))
  }

  lemma {:induction false} HalvedKeepsPartition(f: Forest, v: nat)
    requires Valid(f) && v < |f.parent| && f.parent[v] != v
    ensures SamePartition(f, Halved(f, v))
  {
    HalvedIsValid(f, v);
    forall u | 0 <= u < |f.parent| ensures Root(Halved(f, v), u) == Root(f, u) { HalvedRoot(f, v, u); }
  }

  lemma {:induction false} PartitionKeepsWeight(f: Forest, g: Forest)
    requires Weighted(f) && SamePartition(f, g)
    ensures Weighted(g)
  {
    forall r | 0 <= r < |g.parent| && g.parent[r] == r ensures |Members(g, r)| >= Pow2(g.rank[r]) {
      assert Root(g, r) == r && Root(f, r) == r;
      assert f.parent[r] == r;
      assert Members(g, r) == Members(f, r);
    }
  }

  // ---------------------------------------------------------------- linking two roots

  /** The loser's root hangs below the winner's, whose rank grows on a tie. */
  function Linked(f: Forest, winner: nat, loser: nat): Forest
    requires Valid(f) && winner < |f.parent| && loser < |f.parent|
  {
    Forest(f.parent[loser := winner],
           if f.rank[winner] == f.rank[loser] then f.rank[winner := f.rank[winner] + 1] else f.rank)
  }

  predicate CanLink(f: Forest, winner: nat, loser: nat) {
    && Valid(f) && winner < |f.parent| && loser < |f.parent| && winner != loser
    && f.parent[winner] == winner && f.parent[loser] == loser && f.rank[loser] <= f.rank[winner]
  }

  lemma {:induction false} LinkedIsValid(f: Forest, winner: nat, loser: nat)
    requires CanLink(f, winner, loser)
    ensures Valid(Linked(f, winner, loser))
  {
    forall v | 0 <= v < |f.parent| ensures Rises(Linked(f, winner, loser), v) {
      assert Rises(f, v);
    }
  }

  lemma {:induction false} LinkedRoot(f: Forest, winner: nat, loser: nat, v: nat)
    requires CanLink(f, winner, loser) && v < |f.parent|
    ensures Valid(Linked(f, winner, loser))
    ensures Root(Linked(f, winner, loser), v) == if Root(f, v) == loser then winner else Root(f, v)
    decreases HighestRank(f.rank) - f.rank[v]
  {
    LinkedIsValid(f, winner, loser);
    var g := Linked(f, winner, loser);
    if f.parent[v] == v {
      if v == loser {
        assert g.parent[winner] == winner;
        assert Root(g, winner) == winner;
      }
    } else {
      assert Rises(f, v);
      LinkedRoot(f, winner, loser, f.parent[v]);
    }
  }

  /** After a union: the class of the other root has joined the class of `winner`, and nothing else has changed. */
  ghost predicate Merged(f: Forest, g: Forest, winner: nat, loser: nat) {
    && Valid(f) && Valid(g) && |g.parent| == |f.parent|
    && (forall v :: 0 <= v < |f.parent| ==> Root(g, v) == if Root(f, v) == loser then winner else Root(f, v))
  }

  lemma {:induction false} LinkedMerges(f: Forest, winner: nat, loser: nat)
    requires CanLink(f, winner, loser)
    ensures Merged(f, Linked(f, winner, loser), winner, loser)
  {
    LinkedIsValid(f, winner, loser);
    forall v | 0 <= v < |f.parent|
      ensures Root(Linked(f, winner, loser), v) == if Root(f, v) == loser then winner else Root(f, v)
    {
      LinkedRoot(f, winner, loser, v);
    }
  }

  lemma {:induction false} MergedMembers(f: Forest, g: Forest, winner: nat, loser: nat)
    requires Merged(f, g, winner, loser) && winner != loser
    ensures Members(g, winner) == Members(f, winner) + Members(f, loser) && Members(f, winner) !! Members(f, loser)
    ensures forall r :: r != winner && r != loser ==> Members(g, r) == Members(f, r)
  {
    hide Root, Valid;
  }

  lemma {:induction false} LinkedKeepsWeight(f: Forest, winner: nat, loser: nat)
    requires CanLink(f, winner, loser) && Weighted(f)
    ensures Weighted(Linked(f, winner, loser))
  {
    hide Members, Root;
    LinkedMerges(f, winner, loser);
    var g := Linked(f, winner, loser);
    MergedMembers(f, g, winner, loser);
    hide Merged, Valid;
    assert |Members(g, winner)| == |Members(f, winner)| + |Members(f, loser)|;
    forall r | 0 <= r < |g.parent| && g.parent[r] == r ensures |Members(g, r)| >= Pow2(g.rank[r]) {
      assert r != loser && f.parent[r] == r;
    }
  }

  ghost function Elements(n: nat): (s: set<nat>)
    ensures |s| == n && forall v: nat :: v in s <==> v < n
  {
    if n == 0 then {} else Elements(n - 1) + {n - 1}
  }

  lemma {:induction false} SubsetSize(a: set<nat>, b: set<nat>)
    requires a <= b
    ensures |a| <= |b|
  {
    assert b == a + (b - a);
  }

  /** No element is further from its representative than the logarithm of the number of elements. */
  lemma {:induction false} DepthIsLogarithmic(f: Forest, v: nat)
    requires Weighted(f) && v < |f.parent|
    ensures Pow2(Depth(f, v)) <= |f.parent|
  {
    var r := Root(f, v);
    SubsetSize(Members(f, r), Elements(|f.parent|));
    PowGrows(Depth(f, v), f.rank[r]);
  }

  lemma {:induction false} PowGrows(a: nat, b: nat)
    requires a <= b
    ensures 1 <= Pow2(a) <= Pow2(b)
  {
    if a > 0 { PowGrows(a - 1, b - 1); } else if b > 0 { PowGrows(0, b - 1); }
  }

  /** Two elements are in one class after the union exactly when they were, or when the union joined their classes. */
  lemma {:induction false} UnionJoinsTwoClasses(f: Forest, g: Forest, winner: nat, loser: nat, a: nat, b: nat)
    requires Merged(f, g, winner, loser) && a < |f.parent| && b < |f.parent|
    ensures Root(g, a) == Root(g, b) <==>
              || Root(f, a) == Root(f, b)
              || (Root(f, a) == winner && Root(f, b) == loser)
              || (Root(f, a) == loser && Root(f, b) == winner)
  {
    hide Root, Valid;
  }

  lemma {:induction false} RootIsRoot(f: Forest, v: nat)
    requires Valid(f) && v < |f.parent|
    ensures f.parent[Root(f, v)] == Root(f, v)
  {
    assert Root(f, v) < |f.parent|;
  }

  lemma {:induction false} MergedAfterFinds(f: Forest, found: Forest, g: Forest, winner: nat, loser: nat)
    requires SamePartition(f, found) && Merged(found, g, winner, loser)
    ensures Merged(f, g, winner, loser)
  {
    hide Root, Valid;
  }

  // ---------------------------------------------------------------- the class

  class UnionFind {
    var parent: seq<nat>
    var rank: seq<nat>

    function State(): Forest
      reads this
    {
      Forest(parent, rank)
    }

    constructor ()
      ensures State() == Forest([], []) && Weighted(State())
    {
      parent, rank := [], [];
    }

    method Add() returns (element: nat)
      requires Weighted(State())
      modifies this
      ensures Weighted(State()) && State() == Added(old(State())) && element == |old(parent)|
    {
      AddedKeepsWeight(State());
      element := |parent|;
      parent := parent + [element];
      rank := rank + [0];
    }

    method Find(value: nat) returns (root: nat)
      requires Weighted(State()) && value < |parent|
      modifies this
      ensures Weighted(State()) && SamePartition(old(State()), State())
      ensures root == Root(State(), value)
    {
      root := value;
      while parent[root] != root
        invariant SamePartition(old(State()), State()) && root < |parent|
        invariant Root(State(), root) == Root(State(), value)
        decreases HighestRank(rank) - rank[root]
      {
        ghost var before := State();
        HalvedKeepsPartition(before, root);
        HalvedIsValid(before, root);
        assert Rises(Halved(before, root), root);
        parent := parent[root := parent[parent[root]]];
        assert State() == Halved(before, root);
        assert Root(State(), root) == Root(State(), parent[root]);
        root := parent[root];
      }
      PartitionKeepsWeight(old(State()), State());
    }

    /** `union` in the source. */
    method Unite(left: nat, right: nat)
      requires Weighted(State()) && left < |parent| && right < |parent|
      modifies this
      ensures Weighted(State()) && |parent| == |old(parent)|
      ensures var l, r := Root(old(State()), left), Root(old(State()), right);
              Merged(old(State()), State(), l, r) || Merged(old(State()), State(), r, l)
    {
      hide Members, Pow2, Rises, Root, Weighted;
      ghost var before := State();
      var leftRoot := Find(left);
      var rightRoot := Find(right);
      ghost var found := State();
      RootIsRoot(found, left);
      RootIsRoot(found, right);
      if leftRoot == rightRoot {
        assert Merged(before, found, leftRoot, leftRoot);
        return;
      }
      if rank[leftRoot] < rank[rightRoot] {
        leftRoot, rightRoot := rightRoot, leftRoot;
      }
      LinkedKeepsWeight(found, leftRoot, rightRoot);
      LinkedMerges(found, leftRoot, rightRoot);
      parent := parent[rightRoot := leftRoot];
      if rank[leftRoot] == rank[rightRoot] {
        rank := rank[leftRoot := rank[leftRoot] + 1];
      }
      assert State() == Linked(found, leftRoot, rightRoot);
      MergedAfterFinds(before, found, State(), leftRoot, rightRoot);
    }
  }
}

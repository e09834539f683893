/** The in-place union-find of the consolidation step: path halving and union by rank. */
module UnionFind {
  import opened Types

  /** Every link points inside the array and climbs strictly in rank, so following links terminates. */
  ghost predicate Forest(p: seq<nat>, rk: seq<nat>) {
    && |p| == |rk|
    && forall i | 0 <= i < |p| :: p[i] < |p| && (p[i] == i || rk[i] < rk[p[i]])
  }

  ghost function Top(rk: seq<nat>): (m: nat)
    ensures forall i | 0 <= i < |rk| :: rk[i] <= m
  {
    if rk == [] then 0
    else
      var m := Top(rk[..|rk| - 1]);
      assert forall i | 0 <= i < |rk| - 1 :: rk[i] == rk[..|rk| - 1][i];
      if m < rk[|rk| - 1] then rk[|rk| - 1] else m
  }

  /** The representative reached by following links. */
  ghost function Root(p: seq<nat>, rk: seq<nat>, i: nat): (r: nat)
    requires Forest(p, rk) && i < |p|
    ensures r < |p| && p[r] == r && rk[i] <= rk[r]
    decreases Top(rk) - rk[i]
  {
    if p[i] == i then i else Root(p, rk, p[i])
  }

  ghost predicate Same(p: seq<nat>, rk: seq<nat>, x: nat, y: nat)
    requires Forest(p, rk) && x < |p| && y < |p|
  {
    Root(p, rk, x) == Root(p, rk, y)
  }

  ghost predicate RootsKept(p: seq<nat>, q: seq<nat>, rk: seq<nat>)
    requires Forest(p, rk) && Forest(q, rk)
  {
    |p| == |q| && forall j: nat | j < |p| :: Root(q, rk, j) == Root(p, rk, j)
  }

  lemma {:induction false} HalvingKeepsRoot(p: seq<nat>, rk: seq<nat>, x: nat, j: nat)
    requires Forest(p, rk) && x < |p| && j < |p|
    ensures Forest(p[x := p[p[x]]], rk)
    ensures Root(p[x := p[p[x]]], rk, j) == Root(p, rk, j)
    decreases Top(rk) - rk[j]
  {
    var q := p[x := p[p[x]]];
    assert rk[x] <= rk[p[x]] <= rk[p[p[x]]];
    if p[j] != j {
      HalvingKeepsRoot(p, rk, x, p[j]);
      if j == x && p[p[j]] != p[j] {
        HalvingKeepsRoot(p, rk, x, p[p[j]]);
      }
    }
  }

  /** uf_find: returns the root; halving the path on the way changes no element's root. */
  method Find(parent: array<nat>, ghost rk: seq<nat>, i: nat) returns (root: nat)
    requires Forest(parent[..], rk) && i < parent.Length
    modifies parent
    ensures Forest(parent[..], rk)
    ensures root == Root(old(parent[..]), rk, i)
    ensures RootsKept(old(parent[..]), parent[..], rk)
  {
    root := i;
    while parent[root] != root
      invariant root < parent.Length && Forest(parent[..], rk)
      invariant Root(parent[..], rk, root) == Root(old(parent[..]), rk, i)
      invariant RootsKept(old(parent[..]), parent[..], rk)
      decreases Top(rk) - rk[root]
    {
      ghost var p := parent[..];
      assert p[root] == parent[root] && p[p[root]] == parent[parent[root]];
      forall j: nat | j < |p| ensures Root(p[root := p[p[root]]], rk, j) == Root(p, rk, j) {
        HalvingKeepsRoot(p, rk, root, j);
      }
      HalvingKeepsRoot(p, rk, root, root);
      parent[root] := parent[parent[root]];
      assert parent[..] == p[root := p[p[root]]];
      root := parent[root];
    }
  }

  /** Linking one root under another sends exactly the loser's tree to the winner. */
  lemma {:induction false} LinkMovesOneTree(p: seq<nat>, rk: seq<nat>, rk': seq<nat>, loser: nat, winner: nat, j: nat)
    requires Forest(p, rk) && j < |p|
    requires loser < |p| && winner < |p| && loser != winner && p[loser] == loser && p[winner] == winner
    requires Forest(p[loser := winner], rk')
    ensures Root(p[loser := winner], rk', j) == if Root(p, rk, j) == loser then winner else Root(p, rk, j)
    decreases Top(rk) - rk[j]
  {
    if p[j] != j {
      LinkMovesOneTree(p, rk, rk', loser, winner, p[j]);
    } else if j == loser {
      assert Root(p[loser := winner], rk', winner) == winner;
    }
  }

  /** The old relation with the classes of a and b merged. */
  ghost predicate Joined(p: seq<nat>, rk: seq<nat>, a: nat, b: nat, x: nat, y: nat)
    requires Forest(p, rk) && a < |p| && b < |p| && x < |p| && y < |p|
  {
    || Same(p, rk, x, y)
    || (Same(p, rk, x, a) && Same(p, rk, b, y))
    || (Same(p, rk, x, b) && Same(p, rk, a, y))
  }

  ghost predicate Equivalence(n: nat, rel: (nat, nat) -> bool) {
    && (forall x: nat | x < n :: rel(x, x))
    && (forall x: nat, y: nat | x < n && y < n && rel(x, y) :: rel(y, x))
    && (forall x: nat, y: nat, z: nat | x < n && y < n && z < n && rel(x, y) && rel(y, z) :: rel(x, z))
  }

  /** Joined is contained in every equivalence that holds the old relation and the pair (a, b). */
  lemma JoinedIsSmallest(p: seq<nat>, rk: seq<nat>, a: nat, b: nat, rel: (nat, nat) -> bool, x: nat, y: nat)
    requires Forest(p, rk) && a < |p| && b < |p| && x < |p| && y < |p|
    requires Equivalence(|p|, rel)
    requires forall u: nat, v: nat | u < |p| && v < |p| && Same(p, rk, u, v) :: rel(u, v)
    requires rel(a, b)
    requires Joined(p, rk, a, b, x, y)
    ensures rel(x, y)
  {
    assert rel(b, a);
    if Same(p, rk, x, y) {
      assert rel(x, y);
    } else if Same(p, rk, x, a) && Same(p, rk, b, y) {
      assert rel(x, a) && rel(x, b) && rel(b, y);
    } else {
      assert rel(x, b) && rel(x, a) && rel(a, y);
    }
  }

  ghost function Pow2(k: nat): nat {
    if k == 0 then 1 else 2 * Pow2(k - 1)
  }

  ghost function Tree(p: seq<nat>, rk: seq<nat>, r: nat): set<nat>
    requires Forest(p, rk)
  {
    set j: nat | j < |p| && Root(p, rk, j) == r
  }

  /** Every root's tree has at least 2^rank members. */
  ghost predicate Sized(p: seq<nat>, rk: seq<nat>) {
    && Forest(p, rk)
    && forall r: nat | r < |p| && p[r] == r :: Pow2(rk[r]) <= |Tree(p, rk, r)|
  }

  lemma SizedSurvivesHalving(p: seq<nat>, q: seq<nat>, rk: seq<nat>)
    requires Sized(p, rk) && Forest(q, rk) && RootsKept(p, q, rk)
    ensures Sized(q, rk)
  {
    forall r: nat | r < |q| && q[r] == r ensures Pow2(rk[r]) <= |Tree(q, rk, r)| {
      assert Root(q, rk, r) == r && Root(p, rk, r) == r;
      assert Tree(q, rk, r) == Tree(p, rk, r);
    }
  }

  ghost predicate Linkable(p: seq<nat>, rk: seq<nat>, rk': seq<nat>, loser: nat, winner: nat) {
    && Forest(p, rk)
    && loser < |p| && winner < |p| && loser != winner && p[loser] == loser && p[winner] == winner
    && ((rk' == rk && rk[loser] < rk[winner]) || (rk' == rk[winner := rk[winner] + 1] && rk[loser] == rk[winner]))
  }

  lemma LinkRoots(p: seq<nat>, rk: seq<nat>, rk': seq<nat>, loser: nat, winner: nat)
    requires Linkable(p, rk, rk', loser, winner)
    ensures Forest(p[loser := winner], rk')
    ensures forall j: nat | j < |p| ::
              Root(p[loser := winner], rk', j) == if Root(p, rk, j) == loser then winner else Root(p, rk, j)
  {
    forall j: nat | j < |p|
      ensures Root(p[loser := winner], rk', j) == if Root(p, rk, j) == loser then winner else Root(p, rk, j)
    {
      LinkMovesOneTree(p, rk, rk', loser, winner, j);
    }
  }

  lemma LinkTrees(p: seq<nat>, rk: seq<nat>, rk': seq<nat>, loser: nat, winner: nat, r: nat)
    requires Linkable(p, rk, rk', loser, winner) && Forest(p[loser := winner], rk') && r != loser
    ensures Tree(p[loser := winner], rk', r) ==
            if r == winner then Tree(p, rk, winner) + Tree(p, rk, loser) else Tree(p, rk, r)
  {
    LinkRoots(p, rk, rk', loser, winner);
  }

  lemma WinnerIsBigEnough(p: seq<nat>, rk: seq<nat>, rk': seq<nat>, loser: nat, winner: nat)
    requires Linkable(p, rk, rk', loser, winner) && Forest(p[loser := winner], rk')
    requires Pow2(rk[winner]) <= |Tree(p, rk, winner)| && Pow2(rk[loser]) <= |Tree(p, rk, loser)|
    ensures Pow2(rk'[winner]) <= |Tree(p[loser := winner], rk', winner)|
  {
    LinkTrees(p, rk, rk', loser, winner, winner);
    DisjointSizes(Tree(p, rk, winner), Tree(p, rk, loser));
  }

  lemma DisjointSizes(a: set<nat>, b: set<nat>)
    requires a !! b
    ensures |a + b| == |a| + |b|
  {
  }

  lemma SizedSurvivesLink(p: seq<nat>, rk: seq<nat>, rk': seq<nat>, loser: nat, winner: nat)
    requires Linkable(p, rk, rk', loser, winner) && Sized(p, rk)
    ensures Sized(p[loser := winner], rk')
  {
    var q := p[loser := winner];
    assert Forest(q, rk');
    forall r: nat | r < |q| && q[r] == r ensures Pow2(rk'[r]) <= |Tree(q, rk', r)| {
      if r == winner {
        WinnerIsBigEnough(p, rk, rk', loser, winner);
      } else {
        LinkTrees(p, rk, rk', loser, winner, r);
        assert rk'[r] == rk[r] && p[r] == r;
      }
    }
  }

  /** The second forest relates exactly what the first one does, with a and b joined. */
  ghost predicate Merged(p: seq<nat>, rk: seq<nat>, q: seq<nat>, rk': seq<nat>, a: nat, b: nat) {
    && Forest(p, rk) && Forest(q, rk') && |p| == |q| && a < |p| && b < |p|
    && forall x: nat, y: nat | x < |p| && y < |p| :: Same(q, rk', x, y) <==> Joined(p, rk, a, b, x, y)
  }

  lemma LinkMerges(p: seq<nat>, rk: seq<nat>, rk': seq<nat>, loser: nat, winner: nat)
    requires Linkable(p, rk, rk', loser, winner)
    ensures Merged(p, rk, p[loser := winner], rk', loser, winner)
    ensures Merged(p, rk, p[loser := winner], rk', winner, loser)
  {
    LinkRoots(p, rk, rk', loser, winner);
    assert Root(p, rk, loser) == loser && Root(p, rk, winner) == winner;
  }

  /** Merging the roots of a and b merges a and b, also seen from before the two path halvings. */
  lemma MergedThroughRoots(p0: seq<nat>, p: seq<nat>, rk: seq<nat>, q: seq<nat>, rk': seq<nat>, a: nat, b: nat)
    requires Forest(p0, rk) && Forest(p, rk) && RootsKept(p0, p, rk) && a < |p| && b < |p|
    requires Merged(p, rk, q, rk', Root(p, rk, a), Root(p, rk, b))
    ensures Merged(p0, rk, q, rk', a, b)
  {
    var ra, rb := Root(p, rk, a), Root(p, rk, b);
    assert Root(p, rk, ra) == ra && Root(p, rk, rb) == rb;
    forall x: nat, y: nat | x < |p| && y < |p|
      ensures Same(q, rk', x, y) <==> Joined(p0, rk, a, b, x, y)
    {
      assert Same(q, rk', x, y) <==> Joined(p, rk, ra, rb, x, y);
      assert Root(p, rk, x) == Root(p0, rk, x) && Root(p, rk, y) == Root(p0, rk, y);
      assert Root(p, rk, a) == Root(p0, rk, a) && Root(p, rk, b) == Root(p0, rk, b);
    }
  }

  lemma LinkFinishesUnion(p: seq<nat>, rk: seq<nat>, rk': seq<nat>, loser: nat, winner: nat)
    requires Sized(p, rk) && Linkable(p, rk, rk', loser, winner)
    ensures Sized(p[loser := winner], rk')
    ensures Merged(p, rk, p[loser := winner], rk', loser, winner) &&
            Merged(p, rk, p[loser := winner], rk', winner, loser)
  {
    SizedSurvivesLink(p, rk, rk', loser, winner);
    LinkMerges(p, rk, rk', loser, winner);
  }

  lemma HalvingsCompose(p0: seq<nat>, p1: seq<nat>, p: seq<nat>, rk: seq<nat>, a: nat, b: nat)
    requires Sized(p0, rk) && Forest(p1, rk) && Forest(p, rk) && a < |p0| && b < |p0|
    requires RootsKept(p0, p1, rk) && RootsKept(p1, p, rk)
    ensures RootsKept(p0, p, rk) && Sized(p, rk)
    ensures Root(p0, rk, a) == Root(p, rk, a) && Root(p1, rk, b) == Root(p, rk, b) == Root(p0, rk, b)
  {
    SizedSurvivesHalving(p0, p, rk);
  }

  lemma AlreadyMerged(p0: seq<nat>, p: seq<nat>, rk: seq<nat>, a: nat, b: nat)
    requires Forest(p0, rk) && Forest(p, rk) && RootsKept(p0, p, rk) && a < |p| && b < |p|
    requires Root(p0, rk, a) == Root(p0, rk, b)
    ensures Merged(p0, rk, p, rk, a, b)
  {
  }

  /** The rank comparison of uf_union: hangs the lower root under the higher one. */
  method LinkByRank(parent: array<nat>, rank: array<nat>, ra: nat, rb: nat)
    requires parent != rank && Sized(parent[..], rank[..])
    requires ra < parent.Length && rb < parent.Length && ra != rb && parent[ra] == ra && parent[rb] == rb
    modifies parent, rank
    ensures Sized(parent[..], rank[..])
    ensures Merged(old(parent[..]), old(rank[..]), parent[..], rank[..], ra, rb)
  {
    ghost var p, rk := parent[..], rank[..];
    assert p[ra] == ra && p[rb] == rb && rk[ra] == rank[ra] && rk[rb] == rank[rb];
    if rank[ra] < rank[rb] {
      LinkFinishesUnion(p, rk, rk, ra, rb);
      parent[ra] := rb;
      assert parent[..] == p[ra := rb] && rank[..] == rk;
    } else if rank[ra] > rank[rb] {
      LinkFinishesUnion(p, rk, rk, rb, ra);
      parent[rb] := ra;
      assert parent[..] == p[rb := ra] && rank[..] == rk;
    } else {
      LinkFinishesUnion(p, rk, rk[ra := rk[ra] + 1], rb, ra);
      parent[rb] := ra;
      rank[ra] := rank[ra] + 1;
      assert parent[..] == p[rb := ra] && rank[..] == rk[ra := rk[ra] + 1];
    }
  }

  /** uf_union: merges the two classes, nothing else, and keeps the rank bound. */
  method Union(parent: array<nat>, rank: array<nat>, a: nat, b: nat)
    requires parent != rank && Sized(parent[..], rank[..])
    requires a < parent.Length && b < parent.Length
    modifies parent, rank
    ensures Sized(parent[..], rank[..])
    ensures Merged(old(parent[..]), old(rank[..]), parent[..], rank[..], a, b)
  {
    ghost var p0, rk := parent[..], rank[..];
    var ra := Find(parent, rk, a);
    ghost var p1 := parent[..];
    var rb := Find(parent, rk, b);
    ghost var p := parent[..];
    HalvingsCompose(p0, p1, p, rk, a, b);
    assert rank[..] == rk;
    if ra == rb {
      AlreadyMerged(p0, p, rk, a, b);
    } else {
      LinkByRank(parent, rank, ra, rb);
      MergedThroughRoots(p0, p, rk, parent[..], rank[..], a, b);
    }
  }

  /** Rank never exceeds log2 of the number of elements, roots and inner nodes alike. */
  lemma RankIsLogarithmic(p: seq<nat>, rk: seq<nat>, i: nat)
    requires Sized(p, rk) && i < |p|
    ensures Pow2(rk[i]) <= |p|
  {
    var r := Root(p, rk, i);
    RangeBound(Tree(p, rk, r), |p|);
    Pow2Grows(rk[i], rk[r]);
  }

  lemma {:induction false} Pow2Grows(a: nat, b: nat)
    requires a <= b
    ensures Pow2(a) <= Pow2(b)
    decreases b
  {
    if a < b {
      Pow2Grows(a, b - 1);
    }
  }
}

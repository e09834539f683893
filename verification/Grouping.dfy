/** Clustering the discovered pairs: union-find over the accepted links, then one group per component of size two or
    more. */
module Grouping {
  import opened Types
  import opened Graph
  import opened UnionFind
  import opened Sorting

  /** An accepted pair as an index edge, lower index first. */
  datatype Link = Link(lo: nat, hi: nat, similarity: real)

  datatype Group = Group(representative: MemoryId, members: seq<MemoryId>, similarity: real, count: nat)

  // ---- Specification ----

  /** The pairs that count: both ids known, and not a pair of a memory with itself. */
  function Links(index: map<MemoryId, nat>, pairs: seq<NeighborPair>): seq<Link> {
    if pairs == [] then []
    else
      var p := pairs[|pairs| - 1];
      Links(index, pairs[..|pairs| - 1]) +
      if p.idA in index && p.idB in index && index[p.idA] != index[p.idB] then
        [ToLink(index[p.idA], index[p.idB], p.similarity)]
      else []
  }

  function ToLink(i: nat, j: nat, similarity: real): Link {
    if i < j then Link(i, j, similarity) else Link(j, i, similarity)
  }

  ghost function LinkEdges(links: seq<Link>): set<Edge> {
    set l | l in links :: (l.lo, l.hi)
  }

  ghost predicate InRange(n: nat, links: seq<Link>) {
    forall l | l in links :: l.lo < l.hi < n
  }

  ghost function Component(n: nat, links: seq<Link>, x: nat): set<nat> {
    set y: nat | y < n && Connected(LinkEdges(links), x, y)
  }

  ghost function SimilaritySum(links: seq<Link>, comp: set<nat>): real {
    if links == [] then 0.0
    else
      SimilaritySum(links[..|links| - 1], comp) +
      if links[|links| - 1].lo in comp then links[|links| - 1].similarity else 0.0
  }

  ghost function LinkCount(links: seq<Link>, comp: set<nat>): nat {
    if links == [] then 0
    else LinkCount(links[..|links| - 1], comp) + if links[|links| - 1].lo in comp then 1 else 0
  }

  /** cmp_duplicate_representative: last use (or update), then update, then id. */
  predicate RepresentativeLe(a: Candidate, b: Candidate) {
    var ea := if a.lastUsedAt.Some? then a.lastUsedAt.value else a.updatedAt;
    var eb := if b.lastUsedAt.Some? then b.lastUsedAt.value else b.updatedAt;
    ea < eb || (ea == eb && (a.updatedAt < b.updatedAt || (a.updatedAt == b.updatedAt && a.id <= b.id)))
  }

  predicate IdLe(a: MemoryId, b: MemoryId) {
    a <= b
  }

  /** Larger groups first, then the more similar, then the higher representative id. */
  predicate GroupLe(a: Group, b: Group) {
    || a.count > b.count
    || (a.count == b.count &&
        (a.similarity > b.similarity || (a.similarity == b.similarity && a.representative >= b.representative)))
  }

  /** The id belongs to a member that no other member outranks. */
  ghost predicate Leads(c: seq<Candidate>, comp: set<nat>, id: MemoryId) {
    exists y | y in comp && y < |c| :: c[y].id == id && forall z | z in comp && z < |c| :: RepresentativeLe(c[z], c[y])
  }

  /** The group of a component: its ids in order, its most recent member, and the mean similarity of its links. */
  ghost predicate Describes(c: seq<Candidate>, links: seq<Link>, g: Group, comp: set<nat>) {
    && g.count == |g.members| == |comp| >= 2
    && Sorted(g.members, IdLe) && Distinct(g.members)
    && (forall y | y in comp :: y < |c| && c[y].id in g.members)
    && (forall id | id in g.members :: exists y | y in comp :: y < |c| && c[y].id == id)
    && Leads(c, comp, g.representative)
    && LinkCount(links, comp) > 0
    && g.similarity == SimilaritySum(links, comp) / (LinkCount(links, comp) as real)
  }

  /** The indices of a set in ascending order. */
  function IndicesIn(comp: set<nat>, n: nat): (s: seq<nat>)
    ensures forall i: nat :: i in s <==> i < n && i in comp
    ensures Distinct(s) && Within(s, n)
  {
    if n == 0 then [] else IndicesIn(comp, n - 1) + if n - 1 in comp then [n - 1] else []
  }

  /** The group a component of two or more gives rise to; DescribesGroup says what it holds. */
  ghost function GroupOf(c: seq<Candidate>, links: seq<Link>, comp: set<nat>): Group {
    var members := IndicesIn(comp, |c|);
    var count := LinkCount(links, comp);
    var average := if count > 0 then SimilaritySum(links, comp) / (count as real) else 0.0;
    if members == [] then Group(0, [], average, 0) else BuildGroup(c, members, average)
  }

  ghost predicate IsGroup(c: seq<Candidate>, links: seq<Link>, g: Group) {
    exists x: nat | x < |c| && |Component(|c|, links, x)| >= 2 :: g == GroupOf(c, links, Component(|c|, links, x))
  }

  /** Exactly the groups of the components of size two or more, each once. */
  ghost predicate AllGroups(c: seq<Candidate>, links: seq<Link>, gs: seq<Group>) {
    && Distinct(gs)
    && forall g :: g in gs <==> IsGroup(c, links, g)
  }

  // ---- Union over all links ----

  /** The forest relates exactly what the links connect. */
  ghost predicate Mirrors(p: seq<nat>, rk: seq<nat>, links: seq<Link>) {
    && Sized(p, rk)
    && forall x: nat, y: nat | x < |p| && y < |p| :: Same(p, rk, x, y) <==> Connected(LinkEdges(links), x, y)
  }

  lemma MirrorStep(p: seq<nat>, rk: seq<nat>, q: seq<nat>, rk': seq<nat>, links: seq<Link>, i: nat, j: nat,
                   similarity: real)
    requires Mirrors(p, rk, links) && Sized(q, rk') && Merged(p, rk, q, rk', i, j)
    ensures Mirrors(q, rk', links + [ToLink(i, j, similarity)])
  {
    var l := ToLink(i, j, similarity);
    assert LinkEdges(links + [l]) == LinkEdges(links) + {(l.lo, l.hi)} by {
      assert forall m :: m in links + [l] <==> m in links || m == l;
    }
    forall x: nat, y: nat | x < |q| && y < |q|
      ensures Same(q, rk', x, y) <==> Connected(LinkEdges(links + [l]), x, y)
    {
      AddingAnEdge(LinkEdges(links), l.lo, l.hi, x, y);
      assert Same(q, rk', x, y) <==> Joined(p, rk, i, j, x, y);
    }
  }

  lemma MirrorStart(n: nat, p: seq<nat>, rk: seq<nat>)
    requires |p| == |rk| == n && (forall i: nat | i < n :: p[i] == i && rk[i] == 0)
    ensures Mirrors(p, rk, [])
  {
    assert forall i: nat | i < n :: Root(p, rk, i) == i;
    forall r: nat | r < n ensures Pow2(rk[r]) <= |Tree(p, rk, r)| {
      assert Tree(p, rk, r) == {r};
    }
    forall x: nat, y: nat | x < n && y < n ensures Same(p, rk, x, y) <==> Connected(LinkEdges([]), x, y) {
      Reflexive(LinkEdges([]), x);
      if Connected(LinkEdges([]), x, y) {
        var path :| IsPath(LinkEdges([]), x, y, path);
      }
    }
  }

  method UniteLinks(c: seq<Candidate>, pairs: seq<NeighborPair>, parent: array<nat>, rank: array<nat>)
    returns (links: seq<Link>)
    requires DistinctIds(c) && parent != rank && parent.Length == |c|
    requires Mirrors(parent[..], rank[..], [])
    modifies parent, rank
    ensures links == Links(IndexById(c), pairs) && InRange(|c|, links)
    ensures Mirrors(parent[..], rank[..], links)
  {
    var index := IndexById(c);
    links := [];
    for k := 0 to |pairs|
      invariant links == Links(index, pairs[..k]) && InRange(|c|, links)
      invariant Mirrors(parent[..], rank[..], links)
    {
      assert pairs[..k + 1][..k] == pairs[..k];
      var pair := pairs[k];
      if pair.idA !in index || pair.idB !in index { continue; }
      var i, j := index[pair.idA], index[pair.idB];
      if i == j { continue; }
      ghost var p, rk := parent[..], rank[..];
      Union(parent, rank, i, j);
      MirrorStep(p, rk, parent[..], rank[..], links, i, j, pair.similarity);
      links := links + [ToLink(i, j, pair.similarity)];
    }
    assert pairs[..|pairs|] == pairs;
  }

  // ---- Members and similarities by root ----

  ghost function Roots(p: seq<nat>, rk: seq<nat>): (r: seq<nat>)
    requires Forest(p, rk)
    ensures |r| == |p| && forall i: nat | i < |p| :: r[i] == Root(p, rk, i) && r[i] < |p|
  {
    seq(|p|, i requires 0 <= i < |p| => Root(p, rk, i))
  }

  ghost function RootClass(roots: seq<nat>, r: nat): set<nat> {
    set i: nat | i < |roots| && roots[i] == r
  }

  function IndicesOf(roots: seq<nat>, r: nat): (s: seq<nat>)
    ensures forall i: nat :: i in s <==> i < |roots| && roots[i] == r
    ensures Distinct(s) && Within(s, |roots|)
  {
    if roots == [] then []
    else
      var n := |roots| - 1;
      IndicesOf(roots[..n], r) + if roots[n] == r then [n] else []
  }

  ghost predicate ByRoot(roots: seq<nat>, m: map<nat, seq<nat>>) {
    && (forall i: nat | i < |roots| :: roots[i] in m)
    && (forall r | r in m :: m[r] == IndicesOf(roots, r))
  }

  lemma ByRootStep(roots: seq<nat>, r: nat, m: map<nat, seq<nat>>)
    requires ByRoot(roots, m)
    ensures ByRoot(roots + [r], m[r := (if r in m then m[r] else []) + [|roots|]])
  {
    assert (roots + [r])[..|roots|] == roots;
    if r !in m && IndicesOf(roots, r) != [] {
      assert IndicesOf(roots, r)[0] in IndicesOf(roots, r);
    }
  }

  lemma FileNext(roots: seq<nat>, i: nat, m: map<nat, seq<nat>>)
    requires i < |roots| && ByRoot(roots[..i], m)
    ensures ByRoot(roots[..i + 1], m[roots[i] := (if roots[i] in m then m[roots[i]] else []) + [i]])
  {
    ByRootStep(roots[..i], roots[i], m);
    assert roots[..i + 1] == roots[..i] + [roots[i]];
  }

  method MembersByRoot(parent: array<nat>, ghost rk: seq<nat>) returns (byRoot: map<nat, seq<nat>>)
    requires Forest(parent[..], rk)
    modifies parent
    ensures Forest(parent[..], rk) && Roots(parent[..], rk) == Roots(old(parent[..]), rk)
    ensures ByRoot(Roots(old(parent[..]), rk), byRoot)
  {
    byRoot := map[];
    ghost var roots := Roots(parent[..], rk);
    for i := 0 to parent.Length
      invariant Forest(parent[..], rk) && Roots(parent[..], rk) == roots
      invariant ByRoot(roots[..i], byRoot)
    {
      ghost var p := parent[..];
      var root := Find(parent, rk, i);
      RootsKeptMeansSame(p, parent[..], rk);
      FileNext(roots, i, byRoot);
      byRoot := byRoot[root := (if root in byRoot then byRoot[root] else []) + [i]];
    }
    assert roots[..parent.Length] == roots;
  }

  lemma RootsKeptMeansSame(p: seq<nat>, q: seq<nat>, rk: seq<nat>)
    requires Forest(p, rk) && Forest(q, rk) && RootsKept(p, q, rk)
    ensures Roots(p, rk) == Roots(q, rk)
  {
  }

  ghost predicate SumsOk(roots: seq<nat>, links: seq<Link>, sums: map<nat, (real, nat)>) {
    forall r: nat ::
      (if r in sums then sums[r] else (0.0, 0)) ==
        (SimilaritySum(links, RootClass(roots, r)), LinkCount(links, RootClass(roots, r)))
  }

  lemma SumsStep(roots: seq<nat>, links: seq<Link>, l: Link, sums: map<nat, (real, nat)>)
    requires SumsOk(roots, links, sums) && l.lo < |roots|
    ensures var r := roots[l.lo];
            var (sum, count) := if r in sums then sums[r] else (0.0, 0);
            SumsOk(roots, links + [l], sums[r := (sum + l.similarity, count + 1)])
  {
    assert (links + [l])[..|links|] == links;
  }

  method SimilaritiesByRoot(parent: array<nat>, ghost rk: seq<nat>, links: seq<Link>)
    returns (sums: map<nat, (real, nat)>)
    requires Forest(parent[..], rk) && InRange(parent.Length, links)
    modifies parent
    ensures Forest(parent[..], rk)
    ensures SumsOk(Roots(old(parent[..]), rk), links, sums)
  {
    sums := map[];
    ghost var roots := Roots(parent[..], rk);
    for k := 0 to |links|
      invariant Forest(parent[..], rk) && Roots(parent[..], rk) == roots
      invariant SumsOk(roots, links[..k], sums)
    {
      ghost var p := parent[..];
      assert links[k] in links;
      var root := Find(parent, rk, links[k].lo);
      RootsKeptMeansSame(p, parent[..], rk);
      SumsStep(roots, links[..k], links[k], sums);
      assert links[..k + 1] == links[..k] + [links[k]];
      var (sum, count) := if root in sums then sums[root] else (0.0, 0);
      sums := sums[root := (sum + links[k].similarity, count + 1)];
    }
    assert links[..|links|] == links;
  }

  // ---- Building the groups ----

  ghost predicate Within(members: seq<nat>, n: nat) {
    forall k: nat | k < |members| :: members[k] < n
  }

  function Best(c: seq<Candidate>, members: seq<nat>): (b: nat)
    requires members != [] && Within(members, |c|)
    ensures b in members && b < |c| && forall k: nat | k < |members| :: RepresentativeLe(c[members[k]], c[b])
  {
    var last := members[|members| - 1];
    if |members| == 1 then last
    else
      var b := Best(c, members[..|members| - 1]);
      if RepresentativeLe(c[b], c[last]) then last else b
  }

  function IdsOf(c: seq<Candidate>, members: seq<nat>): (ids: seq<MemoryId>)
    requires Within(members, |c|)
    ensures |ids| == |members| && forall k: nat | k < |ids| :: ids[k] == c[members[k]].id
  {
    if members == [] then []
    else IdsOf(c, members[..|members| - 1]) + [c[members[|members| - 1]].id]
  }

  /** build_duplicate_group. */
  function BuildGroup(c: seq<Candidate>, members: seq<nat>, average: real): Group
    requires members != [] && Within(members, |c|)
  {
    Group(c[Best(c, members)].id, SortBy(IdsOf(c, members), IdLe), average, |members|)
  }

  lemma IdLeIsTotal()
    ensures TotalPreorder(IdLe)
  {
  }

  lemma {:induction false} SetOfDistinct(s: seq<nat>, comp: set<nat>)
    requires Distinct(s) && forall i: nat :: i in comp <==> i in s
    ensures |comp| == |s|
  {
    if s == [] {
      assert comp == {};
    } else {
      var last, rest := s[|s| - 1], s[..|s| - 1];
      assert forall i: nat :: i in s <==> i in rest || i == last;
      SetOfDistinct(rest, comp - {last});
    }
  }

  lemma SortedIds(c: seq<Candidate>, members: seq<nat>, comp: set<nat>, sorted: seq<MemoryId>)
    requires DistinctIds(c) && Distinct(members) && Within(members, |c|)
    requires forall i: nat :: i in comp <==> i in members
    requires sorted == SortBy(IdsOf(c, members), IdLe)
    ensures Sorted(sorted, IdLe) && Distinct(sorted)
    ensures forall y | y in comp :: y < |c| && c[y].id in sorted
    ensures forall id | id in sorted :: exists y | y in comp :: y < |c| && c[y].id == id
  {
    var ids := IdsOf(c, members);
    IdLeIsTotal();
    SortBySorts(ids, IdLe);
    DistinctKept(ids, sorted);
    forall y | y in comp ensures y < |c| && c[y].id in sorted {
      var k: nat :| k < |members| && members[k] == y;
      assert ids[k] in ids;
      SameMembers(ids, sorted, ids[k]);
    }
    forall id | id in sorted ensures exists y | y in comp :: y < |c| && c[y].id == id {
      SameMembers(ids, sorted, id);
      var k: nat :| k < |ids| && ids[k] == id;
      assert members[k] in comp;
    }
  }

  lemma BestDescribes(c: seq<Candidate>, members: seq<nat>, comp: set<nat>)
    requires members != [] && Within(members, |c|)
    requires forall i: nat :: i in comp <==> i in members
    ensures Leads(c, comp, c[Best(c, members)].id)
  {
    var b := Best(c, members);
    forall z | z in comp && z < |c| ensures RepresentativeLe(c[z], c[b]) {
      var k: nat :| k < |members| && members[k] == z;
    }
  }

  lemma BuiltDescribes(c: seq<Candidate>, links: seq<Link>, members: seq<nat>, comp: set<nat>, average: real)
    requires DistinctIds(c) && |members| >= 2 && Distinct(members) && Within(members, |c|)
    requires forall i: nat :: i in comp <==> i in members
    requires LinkCount(links, comp) > 0 && average == SimilaritySum(links, comp) / (LinkCount(links, comp) as real)
    ensures Describes(c, links, BuildGroup(c, members, average), comp)
  {
    SetOfDistinct(members, comp);
    SortedIds(c, members, comp, SortBy(IdsOf(c, members), IdLe));
    BestDescribes(c, members, comp);
  }

  lemma {:induction false} CountPositive(links: seq<Link>, comp: set<nat>, l: Link)
    requires l in links && l.lo in comp
    ensures LinkCount(links, comp) > 0
  {
    if l != links[|links| - 1] {
      assert l in links[..|links| - 1];
      CountPositive(links[..|links| - 1], comp, l);
    }
  }

  /** A component of two or more always holds a link, so the zero fallback for the mean is never used. */
  lemma ComponentHasLink(n: nat, links: seq<Link>, x: nat, y: nat)
    requires InRange(n, links) && x < n && x != y && Connected(LinkEdges(links), x, y)
    ensures LinkCount(links, Component(n, links, x)) > 0
  {
    var p :| IsPath(LinkEdges(links), x, y, p);
    EdgeConnects(LinkEdges(links), x, p[0]);
    Reflexive(LinkEdges(links), x);
    var l :| l in links && ((l.lo, l.hi) == (x, p[0]) || (l.lo, l.hi) == (p[0], x));
    CountPositive(links, Component(n, links, x), l);
  }

  /** The union-find classes are the components. */
  ghost predicate ClassesAreComponents(n: nat, links: seq<Link>, roots: seq<nat>) {
    && |roots| == n
    && forall x: nat | x < n :: RootClass(roots, roots[x]) == Component(n, links, x)
  }

  lemma MirrorsGiveComponents(p: seq<nat>, rk: seq<nat>, links: seq<Link>)
    requires Mirrors(p, rk, links)
    ensures ClassesAreComponents(|p|, links, Roots(p, rk))
  {
    var roots := Roots(p, rk);
    forall x: nat | x < |p| ensures RootClass(roots, roots[x]) == Component(|p|, links, x) {
      forall y: nat | y < |p| ensures roots[y] == roots[x] <==> Connected(LinkEdges(links), x, y) {
        assert Same(p, rk, x, y) <==> Connected(LinkEdges(links), x, y);
      }
    }
  }

  lemma {:induction false} IndicesAgree(roots: seq<nat>, r: nat, comp: set<nat>, n: nat)
    requires n <= |roots| && forall i: nat | i < n :: i in comp <==> roots[i] == r
    ensures IndicesOf(roots[..n], r) == IndicesIn(comp, n)
  {
    if n > 0 {
      assert roots[..n][..n - 1] == roots[..n - 1];
      IndicesAgree(roots, r, comp, n - 1);
    }
  }

  lemma ClassIndices(roots: seq<nat>, r: nat)
    ensures IndicesOf(roots, r) == IndicesIn(RootClass(roots, r), |roots|)
    ensures |IndicesOf(roots, r)| == |RootClass(roots, r)|
  {
    IndicesAgree(roots, r, RootClass(roots, r), |roots|);
    assert roots[..|roots|] == roots;
    SetOfDistinct(IndicesOf(roots, r), RootClass(roots, r));
  }

  /** The group of a component: what its fields mean. */
  lemma DescribesGroup(c: seq<Candidate>, links: seq<Link>, x: nat)
    requires DistinctIds(c) && InRange(|c|, links) && x < |c| && |Component(|c|, links, x)| >= 2
    ensures Describes(c, links, GroupOf(c, links, Component(|c|, links, x)), Component(|c|, links, x))
  {
    var comp := Component(|c|, links, x);
    var y :| y in comp - {x} by {
      if comp - {x} == {} {
        assert comp <= {x};
        SmallerSet(comp, {x});
        assert false;
      }
    }
    ComponentHasLink(|c|, links, x, y);
    SetOfDistinct(IndicesIn(comp, |c|), comp);
    BuiltDescribes(c, links, IndicesIn(comp, |c|), comp, SimilaritySum(links, comp) / (LinkCount(links, comp) as real));
  }

  /** The groups built so far, each with the root it came from; the roots in `todo` are still to come. */
  ghost predicate Collected(c: seq<Candidate>, links: seq<Link>, roots: seq<nat>, todo: set<nat>, gs: seq<Group>,
                            from: seq<nat>) {
    && |from| == |gs| && Distinct(from)
    && (forall k: nat | k < |from| :: from[k] !in todo && |RootClass(roots, from[k])| >= 2)
    && (forall k: nat | k < |from| :: gs[k] == GroupOf(c, links, RootClass(roots, from[k])))
    && (forall x: nat | x < |roots| && roots[x] !in todo && |RootClass(roots, roots[x])| >= 2 :: roots[x] in from)
  }

  /** Turning one class into a group. The fallback average is what GroupOf has too; DescribesGroup shows it is never
      taken. */
  method ToGroup(c: seq<Candidate>, members: seq<nat>, r: nat, sums: map<nat, (real, nat)>, ghost links: seq<Link>,
                 ghost roots: seq<nat>)
    returns (g: Group)
    requires |roots| == |c| && members == IndicesOf(roots, r) && members != [] && SumsOk(roots, links, sums)
    ensures g == GroupOf(c, links, RootClass(roots, r))
  {
    ClassIndices(roots, r);
    ghost var comp := RootClass(roots, r);
    var (sum, count) := if r in sums then sums[r] else (0.0, 0);
    assert (sum, count) == (SimilaritySum(links, comp), LinkCount(links, comp));
    var average := if count > 0 then sum / (count as real) else 0.0;
    g := BuildGroup(c, members, average);
  }

  lemma TakeStep(c: seq<Candidate>, links: seq<Link>, roots: seq<nat>, todo: set<nat>, gs: seq<Group>, from: seq<nat>,
                 r: nat, g: Group)
    requires Collected(c, links, roots, todo, gs, from) && r in todo && |RootClass(roots, r)| >= 2
    requires g == GroupOf(c, links, RootClass(roots, r))
    ensures Collected(c, links, roots, todo - {r}, gs + [g], from + [r])
  {
    assert (from + [r])[|from|] == r;
    forall x: nat | x < |roots| && roots[x] !in todo - {r} && |RootClass(roots, roots[x])| >= 2
      ensures roots[x] in from + [r] {
      assert roots[x] in from || roots[x] == r;
    }
  }

  lemma SkipStep(c: seq<Candidate>, links: seq<Link>, roots: seq<nat>, todo: set<nat>, gs: seq<Group>, from: seq<nat>,
                 r: nat)
    requires Collected(c, links, roots, todo, gs, from) && r in todo && |RootClass(roots, r)| < 2
    ensures Collected(c, links, roots, todo - {r}, gs, from)
  {
  }

  method CollectGroups(c: seq<Candidate>, byRoot: map<nat, seq<nat>>, sums: map<nat, (real, nat)>,
                       ghost links: seq<Link>, ghost roots: seq<nat>)
    returns (gs: seq<Group>, ghost from: seq<nat>)
    requires |roots| == |c| && ByRoot(roots, byRoot) && SumsOk(roots, links, sums)
    ensures Collected(c, links, roots, {}, gs, from)
  {
    gs, from := [], [];
    var todo := byRoot.Keys;
    while todo != {}
      invariant todo <= byRoot.Keys
      invariant Collected(c, links, roots, todo, gs, from)
      decreases |todo|
    {
      var r :| r in todo;
      var members := byRoot[r];
      ClassIndices(roots, r);
      if |members| >= 2 {
        var g := ToGroup(c, members, r, sums, links, roots);
        TakeStep(c, links, roots, todo, gs, from, r, g);
        gs, from := gs + [g], from + [r];
      } else {
        SkipStep(c, links, roots, todo, gs, from, r);
      }
      todo := todo - {r};
    }
  }

  lemma ClassOfRoot(n: nat, links: seq<Link>, roots: seq<nat>, r: nat) returns (x: nat)
    requires ClassesAreComponents(n, links, roots) && |RootClass(roots, r)| >= 2
    ensures x < n && roots[x] == r && RootClass(roots, r) == Component(n, links, x)
  {
    ClassIndices(roots, r);
    x := IndicesOf(roots, r)[0];
    assert x in IndicesOf(roots, r);
  }

  /** Different classes give different groups: their first members differ. */
  lemma DifferentClasses(c: seq<Candidate>, links: seq<Link>, roots: seq<nat>, r: nat, q: nat)
    requires DistinctIds(c) && InRange(|c|, links) && ClassesAreComponents(|c|, links, roots) && r != q
    requires |RootClass(roots, r)| >= 2 && |RootClass(roots, q)| >= 2
    ensures forall id | id in GroupOf(c, links, RootClass(roots, r)).members ::
            id !in GroupOf(c, links, RootClass(roots, q)).members
    ensures GroupOf(c, links, RootClass(roots, r)) != GroupOf(c, links, RootClass(roots, q))
  {
    var g, h := GroupOf(c, links, RootClass(roots, r)), GroupOf(c, links, RootClass(roots, q));
    var x := ClassOfRoot(|c|, links, roots, r);
    var y := ClassOfRoot(|c|, links, roots, q);
    DescribesGroup(c, links, x);
    DescribesGroup(c, links, y);
    forall id | id in g.members ensures id !in h.members {
      SharedIdSharedClass(c, links, g, h, RootClass(roots, r), RootClass(roots, q), id);
      assert RootClass(roots, r) !! RootClass(roots, q);
    }
    assert g.members[0] in g.members;
  }

  lemma SharedIdSharedClass(c: seq<Candidate>, links: seq<Link>, g: Group, h: Group, s: set<nat>, t: set<nat>,
                            id: MemoryId)
    requires DistinctIds(c) && Describes(c, links, g, s) && Describes(c, links, h, t)
    ensures id in g.members && id in h.members ==> !(s !! t)
  {
    if id in g.members && id in h.members {
      var y: nat :| y in s && y < |c| && c[y].id == id;
      var z: nat :| z in t && z < |c| && c[z].id == id;
      assert y == z;
    }
  }

  lemma CollectedAreGroups(c: seq<Candidate>, links: seq<Link>, roots: seq<nat>, gs: seq<Group>, from: seq<nat>,
                           g: Group)
    requires ClassesAreComponents(|c|, links, roots) && Collected(c, links, roots, {}, gs, from) && g in gs
    ensures IsGroup(c, links, g)
  {
    var k: nat :| k < |gs| && gs[k] == g;
    var x := ClassOfRoot(|c|, links, roots, from[k]);
  }

  lemma GroupsAreCollected(c: seq<Candidate>, links: seq<Link>, roots: seq<nat>, gs: seq<Group>, from: seq<nat>,
                           g: Group)
    requires ClassesAreComponents(|c|, links, roots) && Collected(c, links, roots, {}, gs, from) && IsGroup(c, links, g)
    ensures g in gs
  {
    var x: nat :| x < |c| && |Component(|c|, links, x)| >= 2 && g == GroupOf(c, links, Component(|c|, links, x));
    assert RootClass(roots, roots[x]) == Component(|c|, links, x);
    assert roots[x] in from;
    var k: nat :| k < |from| && from[k] == roots[x];
    assert gs[k] == g;
  }

  lemma CollectedIsAll(c: seq<Candidate>, links: seq<Link>, roots: seq<nat>, gs: seq<Group>, from: seq<nat>)
    requires DistinctIds(c) && InRange(|c|, links) && ClassesAreComponents(|c|, links, roots)
    requires Collected(c, links, roots, {}, gs, from)
    ensures AllGroups(c, links, gs)
  {
    forall k: nat, m: nat | k < m < |gs| ensures gs[k] != gs[m] {
      DifferentClasses(c, links, roots, from[k], from[m]);
    }
    forall g ensures g in gs <==> IsGroup(c, links, g) {
      if g in gs {
        CollectedAreGroups(c, links, roots, gs, from, g);
      }
      if IsGroup(c, links, g) {
        GroupsAreCollected(c, links, roots, gs, from, g);
      }
    }
  }

  lemma GroupLeIsTotal()
    ensures TotalPreorder(GroupLe)
  {
  }

  /** Sorting rearranges the groups, nothing more. */
  lemma SortedIsAll(c: seq<Candidate>, links: seq<Link>, gs: seq<Group>, sorted: seq<Group>)
    requires AllGroups(c, links, gs) && multiset(gs) == multiset(sorted)
    ensures AllGroups(c, links, sorted)
  {
    DistinctKept(gs, sorted);
    forall g ensures g in sorted <==> IsGroup(c, links, g) {
      SameMembers(gs, sorted, g);
    }
  }

  /** The sorted list of all groups is one list, whatever order the maps were walked in. */
  lemma GroupOrderUnique(c: seq<Candidate>, links: seq<Link>, gs: seq<Group>, hs: seq<Group>)
    requires DistinctIds(c) && InRange(|c|, links)
    requires AllGroups(c, links, gs) && AllGroups(c, links, hs) && Sorted(gs, GroupLe) && Sorted(hs, GroupLe)
    ensures gs == hs
  {
    DistinctSameMultiset(gs, hs);
    forall a, b | a in gs && b in gs && GroupLe(a, b) && GroupLe(b, a) ensures a == b {
      SameRepresentativeSameGroup(c, links, a, b);
    }
    SortedUnique(gs, hs, GroupLe);
  }

  lemma ConnectedComponentsAgree(n: nat, links: seq<Link>, x: nat, y: nat)
    requires x < n && y < n && Connected(LinkEdges(links), x, y)
    ensures Component(n, links, x) == Component(n, links, y)
  {
    var e := LinkEdges(links);
    Symmetric(e, x, y);
    forall z: nat | z < n ensures Connected(e, x, z) <==> Connected(e, y, z) {
      if Connected(e, x, z) { Transitive(e, y, x, z); }
      if Connected(e, y, z) { Transitive(e, x, y, z); }
    }
  }

  lemma OverlappingComponents(n: nat, links: seq<Link>, x: nat, y: nat, z: nat)
    requires x < n && y < n && z in Component(n, links, x) && z in Component(n, links, y)
    ensures Component(n, links, x) == Component(n, links, y)
  {
    ConnectedComponentsAgree(n, links, x, z);
    ConnectedComponentsAgree(n, links, y, z);
  }

  lemma SameRepresentativeSameGroup(c: seq<Candidate>, links: seq<Link>, g: Group, h: Group)
    requires DistinctIds(c) && InRange(|c|, links) && IsGroup(c, links, g) && IsGroup(c, links, h)
    requires g.representative == h.representative
    ensures g == h
  {
    var x: nat :| x < |c| && |Component(|c|, links, x)| >= 2 && g == GroupOf(c, links, Component(|c|, links, x));
    var y: nat :| y < |c| && |Component(|c|, links, y)| >= 2 && h == GroupOf(c, links, Component(|c|, links, y));
    var z := LeaderOf(c, links, x);
    var w := LeaderOf(c, links, y);
    assert z == w;
    OverlappingComponents(|c|, links, x, y, z);
  }

  lemma LeaderOf(c: seq<Candidate>, links: seq<Link>, x: nat) returns (z: nat)
    requires DistinctIds(c) && InRange(|c|, links) && x < |c| && |Component(|c|, links, x)| >= 2
    ensures z in Component(|c|, links, x) && z < |c| &&
            c[z].id == GroupOf(c, links, Component(|c|, links, x)).representative
  {
    DescribesGroup(c, links, x);
    var g := GroupOf(c, links, Component(|c|, links, x));
    assert Leads(c, Component(|c|, links, x), g.representative);
    z :| z in Component(|c|, links, x) && z < |c| && c[z].id == g.representative;
  }

  /** The leading part, up to `n`, of the sorted list of all groups. */
  ghost predicate TopGroups(c: seq<Candidate>, links: seq<Link>, n: nat, groups: seq<Group>) {
    exists all :: AllGroups(c, links, all) && Sorted(all, GroupLe) && groups == if |all| <= n then all else all[..n]
  }

  /** There is only one such list. */
  lemma TopGroupsUnique(c: seq<Candidate>, links: seq<Link>, n: nat, groups: seq<Group>, other: seq<Group>)
    requires DistinctIds(c) && InRange(|c|, links) && TopGroups(c, links, n, groups) && TopGroups(c, links, n, other)
    ensures groups == other
  {
    var gs :| AllGroups(c, links, gs) && Sorted(gs, GroupLe) && groups == if |gs| <= n then gs else gs[..n];
    var hs :| AllGroups(c, links, hs) && Sorted(hs, GroupLe) && other == if |hs| <= n then hs else hs[..n];
    GroupOrderUnique(c, links, gs, hs);
  }

  /** find_duplicate_groups_from_pairs: the first maxGroups of the sorted list of all groups. */
  method FindDuplicateGroups(c: seq<Candidate>, pairs: seq<NeighborPair>, maxGroups: nat)
    returns (groups: seq<Group>, ghost all: seq<Group>)
    requires DistinctIds(c)
    ensures AllGroups(c, Links(IndexById(c), pairs), all) && Sorted(all, GroupLe)
    ensures groups == if |all| <= maxGroups then all else all[..maxGroups]
    ensures TopGroups(c, Links(IndexById(c), pairs), maxGroups, groups)
  {
    if |c| < 2 || pairs == [] {
      NoGroups(c, pairs);
      return [], [];
    }
    var n := |c|;
    var parent := new nat[n](i => i);
    var rank := new nat[n](_ => 0);
    MirrorStart(n, parent[..], rank[..]);
    var links := UniteLinks(c, pairs, parent, rank);
    ghost var rk := rank[..];
    ghost var roots := Roots(parent[..], rk);
    MirrorsGiveComponents(parent[..], rk, links);
    var byRoot := MembersByRoot(parent, rk);
    var sums := SimilaritiesByRoot(parent, rk, links);
    var gs, from := CollectGroups(c, byRoot, sums, links, roots);
    CollectedIsAll(c, links, roots, gs, from);
    GroupLeIsTotal();
    SortBySorts(gs, GroupLe);
    var sorted := SortBy(gs, GroupLe);
    SortedIsAll(c, links, gs, sorted);
    all := sorted;
    groups := if |sorted| <= maxGroups then sorted else sorted[..maxGroups];
  }

  lemma {:induction false} LinksInRange(c: seq<Candidate>, pairs: seq<NeighborPair>)
    requires DistinctIds(c)
    ensures InRange(|c|, Links(IndexById(c), pairs))
  {
    if pairs != [] {
      LinksInRange(c, pairs[..|pairs| - 1]);
    }
  }

  lemma NoGroups(c: seq<Candidate>, pairs: seq<NeighborPair>)
    requires DistinctIds(c) && (|c| < 2 || pairs == [])
    ensures AllGroups(c, Links(IndexById(c), pairs), [])
  {
    var links := Links(IndexById(c), pairs);
    forall x: nat | x < |c| ensures |Component(|c|, links, x)| < 2 {
      if |c| < 2 {
        RangeBound(Component(|c|, links, x), |c|);
      } else {
        forall y | y in Component(|c|, links, x) ensures y in {x} {
          var p :| IsPath(LinkEdges(links), x, y, p);
        }
        SmallerSet(Component(|c|, links, x), {x});
      }
    }
  }

  lemma LinkedComponent(n: nat, links: seq<Link>, l: Link)
    requires InRange(n, links) && l in links
    ensures l.lo < n && l.hi < n && Connected(LinkEdges(links), l.lo, l.hi)
    ensures {l.lo, l.hi} <= Component(n, links, l.lo) && |Component(n, links, l.lo)| >= 2
  {
    Reflexive(LinkEdges(links), l.lo);
    assert Adjacent(LinkEdges(links), l.lo, l.hi);
    EdgeConnects(LinkEdges(links), l.lo, l.hi);
    SmallerSet({l.lo, l.hi}, Component(n, links, l.lo));
  }

  /** The two ends of a link lie in the group of their component, and in no other group. */
  lemma LinkInOneGroup(c: seq<Candidate>, links: seq<Link>, all: seq<Group>, l: Link) returns (g: Group)
    requires DistinctIds(c) && InRange(|c|, links) && AllGroups(c, links, all) && l in links
    ensures g in all && c[l.lo].id in g.members && c[l.hi].id in g.members
    ensures forall h | h in all && (c[l.lo].id in h.members || c[l.hi].id in h.members) :: h == g
  {
    LinkedComponent(|c|, links, l);
    g := GroupOf(c, links, Component(|c|, links, l.lo));
    assert IsGroup(c, links, g);
    DescribesGroup(c, links, l.lo);
    forall h | h in all && (c[l.lo].id in h.members || c[l.hi].id in h.members) ensures h == g {
      MemberMeansComponent(c, links, h, if c[l.lo].id in h.members then l.lo else l.hi);
      ConnectedComponentsAgree(|c|, links, l.lo, l.hi);
    }
  }

  lemma GroupMeans(c: seq<Candidate>, links: seq<Link>, g: Group) returns (x: nat)
    requires DistinctIds(c) && InRange(|c|, links) && IsGroup(c, links, g)
    ensures x < |c| && |Component(|c|, links, x)| >= 2 && Describes(c, links, g, Component(|c|, links, x))
    ensures g == GroupOf(c, links, Component(|c|, links, x))
  {
    x :| x < |c| && |Component(|c|, links, x)| >= 2 && g == GroupOf(c, links, Component(|c|, links, x));
    DescribesGroup(c, links, x);
  }

  lemma MemberIndex(c: seq<Candidate>, links: seq<Link>, g: Group, comp: set<nat>, i: nat)
    requires DistinctIds(c) && Describes(c, links, g, comp) && i < |c| && c[i].id in g.members
    ensures i in comp
  {
    var y: nat :| y in comp && y < |c| && c[y].id == c[i].id;
  }

  /** A group that lists a candidate is the group of that candidate's component. */
  lemma MemberMeansComponent(c: seq<Candidate>, links: seq<Link>, g: Group, i: nat)
    requires DistinctIds(c) && InRange(|c|, links) && IsGroup(c, links, g) && i < |c| && c[i].id in g.members
    ensures |Component(|c|, links, i)| >= 2 && g == GroupOf(c, links, Component(|c|, links, i))
  {
    var x := GroupMeans(c, links, g);
    MemberIndex(c, links, g, Component(|c|, links, x), i);
    ConnectedComponentsAgree(|c|, links, x, i);
  }

  lemma {:induction false} SumAtLeast(links: seq<Link>, comp: set<nat>, t: real)
    requires forall k: nat | k < |links| :: links[k].similarity >= t
    ensures SimilaritySum(links, comp) >= t * (LinkCount(links, comp) as real)
  {
    if links != [] {
      SumAtLeast(links[..|links| - 1], comp, t);
    }
  }

  lemma MeanOfSum(sum: real, count: real, t: real)
    requires count > 0.0 && sum >= t * count
    ensures sum / count >= t
  {
    assert (sum / count) * count == sum;
  }

  lemma MeanIsBounded(c: seq<Candidate>, links: seq<Link>, g: Group, comp: set<nat>, t: real)
    requires Describes(c, links, g, comp)
    requires forall k: nat | k < |links| :: links[k].similarity >= t
    ensures g.similarity >= t
  {
    var sum, count := SimilaritySum(links, comp), LinkCount(links, comp) as real;
    SumAtLeast(links, comp, t);
    MeanOfSum(sum, count, t);
  }

  /** A group is at least as similar as the weakest accepted link allows. */
  lemma MeanAtLeast(c: seq<Candidate>, links: seq<Link>, g: Group, t: real)
    requires DistinctIds(c) && InRange(|c|, links) && IsGroup(c, links, g)
    requires forall k: nat | k < |links| :: links[k].similarity >= t
    ensures g.similarity >= t
  {
    var x := GroupMeans(c, links, g);
    MeanIsBounded(c, links, g, Component(|c|, links, x), t);
  }
}

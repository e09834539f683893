/** One consolidation request end to end: discovery, grouping, and the supersession writes it makes. */
module Consolidation {
  import opened Types
  import opened Graph
  import opened Sorting
  import opened Grouping
  import Discovery

  // ---- From discovered pairs to links ----

  lemma {:induction false} PairsBecomeLinks(c: seq<Candidate>, replies: seq<Discovery.Reply>, t: real,
                                            pairs: seq<NeighborPair>, edges: seq<Edge>)
    requires DistinctIds(c) && |replies| == |c| && Discovery.Emitted(c, replies, t, pairs, edges)
    ensures |Links(IndexById(c), pairs)| == |pairs|
    ensures forall k: nat | k < |pairs| ::
              Links(IndexById(c), pairs)[k] == ToLink(edges[k].0, edges[k].1, pairs[k].similarity)
  {
    if pairs != [] {
      var n := |pairs| - 1;
      assert Discovery.Emitted(c, replies, t, pairs[..n], edges[..n]);
      PairsBecomeLinks(c, replies, t, pairs[..n], edges[..n]);
      assert Discovery.PairIsAnswer(c, replies, t, pairs[n], edges[n]);
    }
  }

  /** Candidate i's reply names candidate j with this similarity. */
  ghost predicate Named(c: seq<Candidate>, replies: seq<Discovery.Reply>, i: nat, j: nat, similarity: real)
    requires |replies| == |c| && i < |c| && j < |c|
  {
    c[i].embedded && replies[i].Success? && Neighbor(c[j].id, similarity) in replies[i].value
  }

  /** The link is an acceptable answer of one of its ends about the other. */
  ghost predicate LinkIsAnswer(c: seq<Candidate>, replies: seq<Discovery.Reply>, t: real, l: Link)
    requires |replies| == |c|
  {
    && l.lo < l.hi < |c| && c[l.lo].profile == c[l.hi].profile && l.similarity >= t
    && (Named(c, replies, l.lo, l.hi, l.similarity) || Named(c, replies, l.hi, l.lo, l.similarity))
  }

  /** Every link is an answer, and no undirected edge is listed twice. */
  ghost predicate AnswerLinks(c: seq<Candidate>, replies: seq<Discovery.Reply>, t: real, links: seq<Link>)
    requires |replies| == |c|
  {
    && (forall k: nat | k < |links| :: LinkIsAnswer(c, replies, t, links[k]))
    && (forall i: nat, j: nat | i < j < |links| :: (links[i].lo, links[i].hi) != (links[j].lo, links[j].hi))
  }

  /** Every discovered link is an answer and counts once, so each mean is over distinct edges. */
  lemma DiscoveredLinksDistinct(c: seq<Candidate>, replies: seq<Discovery.Reply>, t: real,
                                pairs: seq<NeighborPair>, edges: seq<Edge>)
    requires DistinctIds(c) && |replies| == |c| && Discovery.Emitted(c, replies, t, pairs, edges) &&
             Discovery.NoRepeats(edges)
    ensures AnswerLinks(c, replies, t, Links(IndexById(c), pairs))
  {
    PairsBecomeLinks(c, replies, t, pairs, edges);
    forall k: nat | k < |pairs| ensures LinkIsAnswer(c, replies, t, Links(IndexById(c), pairs)[k]) {
      assert Discovery.PairIsAnswer(c, replies, t, pairs[k], edges[k]);
    }
  }

  /** Same edges, link by link, up to the order of the two ends. */
  ghost predicate Aligned(links: seq<Link>, edges: seq<Edge>) {
    && |links| == |edges|
    && forall k: nat | k < |links| :: (links[k].lo, links[k].hi) == edges[k] || (links[k].hi, links[k].lo) == edges[k]
  }

  lemma AlignedAdjacent(links: seq<Link>, edges: seq<Edge>)
    requires Aligned(links, edges)
    ensures forall e | e in LinkEdges(links) :: Adjacent(Discovery.EdgeSet(edges), e.0, e.1)
    ensures forall e | e in Discovery.EdgeSet(edges) :: Adjacent(LinkEdges(links), e.0, e.1)
  {
    forall e | e in LinkEdges(links) ensures Adjacent(Discovery.EdgeSet(edges), e.0, e.1) {
      var k: nat :| k < |links| && (links[k].lo, links[k].hi) == e;
      assert edges[k] in Discovery.EdgeSet(edges);
    }
    forall e | e in Discovery.EdgeSet(edges) ensures Adjacent(LinkEdges(links), e.0, e.1) {
      var k: nat :| k < |edges| && edges[k] == e;
      assert links[k] in links && (links[k].lo, links[k].hi) in LinkEdges(links);
    }
  }

  lemma LinksConnectLikeEdges(c: seq<Candidate>, replies: seq<Discovery.Reply>, t: real,
                              pairs: seq<NeighborPair>, edges: seq<Edge>, x: nat, y: nat)
    requires DistinctIds(c) && |replies| == |c| && Discovery.Emitted(c, replies, t, pairs, edges)
    ensures Connected(LinkEdges(Links(IndexById(c), pairs)), x, y) <==> Connected(Discovery.EdgeSet(edges), x, y)
  {
    PairsBecomeLinks(c, replies, t, pairs, edges);
    assert Aligned(Links(IndexById(c), pairs), edges);
    AlignedAdjacent(Links(IndexById(c), pairs), edges);
    SameUndirected(LinkEdges(Links(IndexById(c), pairs)), Discovery.EdgeSet(edges), x, y);
  }

  lemma SameUndirected(a: set<Edge>, b: set<Edge>, x: nat, y: nat)
    requires (forall e | e in a :: Adjacent(b, e.0, e.1)) && (forall e | e in b :: Adjacent(a, e.0, e.1))
    ensures Connected(a, x, y) <==> Connected(b, x, y)
  {
    forall e | e in a ensures Connected(b, e.0, e.1) { EdgeConnects(b, e.0, e.1); }
    forall e | e in b ensures Connected(a, e.0, e.1) { EdgeConnects(a, e.0, e.1); }
    if Connected(a, x, y) { ConnectivityCarries(a, b, x, y); }
    if Connected(b, x, y) { ConnectivityCarries(b, a, x, y); }
  }

  ghost function FullComponent(c: seq<Candidate>, replies: seq<Discovery.Reply>, t: real, x: nat): set<nat>
    requires |replies| == |c|
  {
    set y: nat | y < |c| && Connected(Discovery.FullGraph(c, replies, t), x, y)
  }

  lemma UncappedComponents(c: seq<Candidate>, replies: seq<Discovery.Reply>, t: real,
                           pairs: seq<NeighborPair>, edges: seq<Edge>, x: nat)
    requires DistinctIds(c) && |replies| == |c| && Discovery.Emitted(c, replies, t, pairs, edges)
    requires Discovery.SameComponents(Discovery.FullGraph(c, replies, t), Discovery.EdgeSet(edges))
    ensures Component(|c|, Links(IndexById(c), pairs), x) == FullComponent(c, replies, t, x)
  {
    forall y: nat | y < |c|
      ensures Connected(LinkEdges(Links(IndexById(c), pairs)), x, y) <==>
              Connected(Discovery.FullGraph(c, replies, t), x, y)
    {
      LinksConnectLikeEdges(c, replies, t, pairs, edges, x, y);
    }
  }

  /** The groups are the components of size two or more of the full graph, each exactly once and each with its sorted
      ids, its most recent member and the mean over its links. */
  ghost predicate ExactComponents(c: seq<Candidate>, replies: seq<Discovery.Reply>, t: real, links: seq<Link>,
                                  gs: seq<Group>)
    requires |replies| == |c|
  {
    && Distinct(gs)
    && (forall g | g in gs :: exists x: nat | x < |c| :: Describes(c, links, g, FullComponent(c, replies, t, x)))
    && (forall x: nat | x < |c| && |FullComponent(c, replies, t, x)| >= 2 ::
          exists g | g in gs :: Describes(c, links, g, FullComponent(c, replies, t, x)))
  }

  /** The end-to-end theorem: an uncapped discovery followed by grouping yields exactly the full graph's components. */
  lemma GroupsAreFullComponents(c: seq<Candidate>, replies: seq<Discovery.Reply>, t: real,
                                pairs: seq<NeighborPair>, edges: seq<Edge>, all: seq<Group>)
    requires DistinctIds(c) && |replies| == |c| && Discovery.Emitted(c, replies, t, pairs, edges)
    requires Discovery.SameComponents(Discovery.FullGraph(c, replies, t), Discovery.EdgeSet(edges))
    requires AllGroups(c, Links(IndexById(c), pairs), all)
    ensures ExactComponents(c, replies, t, Links(IndexById(c), pairs), all)
  {
    var links := Links(IndexById(c), pairs);
    LinksInRange(c, pairs);
    forall g | g in all ensures exists x: nat | x < |c| :: Describes(c, links, g, FullComponent(c, replies, t, x)) {
      var x := GroupMeans(c, links, g);
      UncappedComponents(c, replies, t, pairs, edges, x);
    }
    forall x: nat | x < |c| && |FullComponent(c, replies, t, x)| >= 2
      ensures exists g | g in all :: Describes(c, links, g, FullComponent(c, replies, t, x))
    {
      UncappedComponents(c, replies, t, pairs, edges, x);
      DescribesGroup(c, links, x);
      assert IsGroup(c, links, GroupOf(c, links, Component(|c|, links, x)));
    }
  }

  // ---- The supersession writes ----

  /** One conditional write: mark `member` as superseded by `target`. */
  datatype Write = Write(member: MemoryId, target: MemoryId)

  datatype WriteReply = Applied | NotFound | Denied | Changed(reason: string) | Broken(error: StoreError)

  function GroupPlan(members: seq<MemoryId>, representative: MemoryId): seq<Write> {
    if members == [] then []
    else
      GroupPlan(members[..|members| - 1], representative) +
      if members[|members| - 1] == representative then [] else [Write(members[|members| - 1], representative)]
  }

  lemma {:induction false} GroupPlanWrites(members: seq<MemoryId>, representative: MemoryId)
    ensures forall w | w in GroupPlan(members, representative) ::
              w.target == representative && w.member != representative && w.member in members
  {
    if members != [] {
      GroupPlanWrites(members[..|members| - 1], representative);
    }
  }

  function Plan(groups: seq<Group>): seq<Write> {
    if groups == [] then []
    else
      var g := groups[|groups| - 1];
      Plan(groups[..|groups| - 1]) + GroupPlan(g.members, g.representative)
  }

  ghost predicate Known(snapshots: map<MemoryId, Candidate>, g: Group) {
    g.representative in snapshots && forall id | id in g.members :: id in snapshots
  }

  ghost predicate AllKnown(snapshots: map<MemoryId, Candidate>, groups: seq<Group>) {
    forall k: nat | k < |groups| :: Known(snapshots, groups[k])
  }

  ghost predicate AnyApplied(store: nat -> WriteReply, from: nat, to: nat) {
    exists k: nat | from <= k < to :: store(k) == Applied
  }

  ghost predicate NoneBroken(store: nat -> WriteReply, from: nat, to: nat) {
    forall k: nat | from <= k < to :: !store(k).Broken?
  }

  /** The last of these writes broke with this error, and no earlier one did. */
  ghost predicate StopsAtBroken(store: nat -> WriteReply, from: nat, to: nat, error: StoreError) {
    from < to && NoneBroken(store, from, to - 1) && store(to - 1) == Broken(error)
  }

  /** The writes so far: none broke, and something was merged exactly when one applied. */
  ghost predicate Merging(store: nat -> WriteReply, from: nat, to: nat, merged: bool) {
    NoneBroken(store, from, to) && (merged <==> AnyApplied(store, from, to))
  }

  lemma MergingNext(store: nat -> WriteReply, from: nat, to: nat, next: nat, merged: bool, reply: WriteReply)
    requires from <= to && next == to + 1 && Merging(store, from, to, merged) && reply == store(to)
    ensures reply.Broken? ==> StopsAtBroken(store, from, next, reply.error)
    ensures !reply.Broken? ==> Merging(store, from, next, merged || reply == Applied)
  {
  }

  lemma MergingJoins(store: nat -> WriteReply, from: nat, mid: nat, to: nat, a: bool, b: bool)
    requires from <= mid <= to && Merging(store, from, mid, a) && Merging(store, mid, to, b)
    ensures Merging(store, from, to, a || b)
  {
    assert AnyApplied(store, from, to) <==> AnyApplied(store, from, mid) || AnyApplied(store, mid, to);
  }

  /** The writes planned for the first `k` members. */
  ghost predicate PlannedTo(g: Group, k: nat, writes: seq<Write>) {
    && k <= |g.members| && writes == GroupPlan(g.members[..k], g.representative)
    && writes <= GroupPlan(g.members, g.representative)
  }

  lemma PlannedNext(g: Group, k: nat, writes: seq<Write>)
    requires PlannedTo(g, k, writes) && k < |g.members|
    ensures PlannedTo(g, k + 1, if g.members[k] == g.representative then writes
                                else writes + [Write(g.members[k], g.representative)])
  {
    PlanPrefix(g.members, g.representative, k);
  }

  lemma PlannedAll(g: Group, writes: seq<Write>)
    requires PlannedTo(g, |g.members|, writes)
    ensures writes == GroupPlan(g.members, g.representative)
  {
    assert g.members[..|g.members|] == g.members;
  }

  /** merge_consolidation_group. `store` answers the k-th write of the run; `done` writes were made before. */
  method MergeGroup(g: Group, snapshots: map<MemoryId, Candidate>, store: nat -> WriteReply, done: nat)
    returns (r: Result<bool>, writes: seq<Write>)
    ensures writes <= GroupPlan(g.members, g.representative)
    ensures r.Success? ==> writes == GroupPlan(g.members, g.representative)
    ensures r.Success? ==> Merging(store, done, done + |writes|, r.value)
    ensures r.Failure? ==>
              || StopsAtBroken(store, done, done + |writes|, r.error)
              || (!Known(snapshots, g) && NoneBroken(store, done, done + |writes|))
  {
    writes := [];
    if g.representative !in snapshots {
      return Failure(Conflict("consolidation representative snapshot is unavailable")), writes;
    }
    var merged, at := false, done;
    for k := 0 to |g.members|
      invariant PlannedTo(g, k, writes) && at == done + |writes|
      invariant Merging(store, done, at, merged)
    {
      PlannedNext(g, k, writes);
      var id := g.members[k];
      if id == g.representative { continue; }
      if id !in snapshots {
        return Failure(Conflict("consolidation member snapshot is unavailable")), writes;
      }
      var reply := store(at);
      MergingNext(store, done, at, at + 1, merged, reply);
      writes, at := writes + [Write(id, g.representative)], at + 1;
      match reply {
        case Applied => merged := true;
        case Broken(e) => return Failure(e), writes;
        case _ =>
      }
    }
    PlannedAll(g, writes);
    r := Success(merged);
  }

  lemma {:induction false} PlanPrefix(members: seq<MemoryId>, representative: MemoryId, k: nat)
    requires k < |members|
    ensures GroupPlan(members[..k + 1], representative) ==
            GroupPlan(members[..k], representative) +
            if members[k] == representative then [] else [Write(members[k], representative)]
    ensures GroupPlan(members[..k + 1], representative) <= GroupPlan(members, representative)
    decreases |members| - k
  {
    assert members[..k + 1][..k] == members[..k];
    if k + 1 < |members| {
      PlanPrefix(members, representative, k + 1);
    } else {
      assert members[..k + 1] == members;
    }
  }

  /** merge_consolidation_groups: makes the planned writes in order, stopping at the first broken one. */
  method MergeGroups(groups: seq<Group>, snapshots: map<MemoryId, Candidate>, store: nat -> WriteReply)
    returns (r: Result<bool>, writes: seq<Write>)
    ensures writes <= Plan(groups)
    ensures r.Success? ==> writes == Plan(groups) && Merging(store, 0, |writes|, r.value)
    ensures r.Failure? ==>
              || StopsAtBroken(store, 0, |writes|, r.error)
              || (!AllKnown(snapshots, groups) && NoneBroken(store, 0, |writes|))
  {
    writes := [];
    var merged := false;
    for k := 0 to |groups|
      invariant writes == Plan(groups[..k])
      invariant Merging(store, 0, |writes|, merged)
    {
      WholePlanPrefix(groups, k);
      var one, more := MergeGroup(groups[k], snapshots, store, |writes|);
      ghost var at := |writes|;
      writes := writes + more;
      if one.Failure? {
        return Failure(one.error), writes;
      }
      MergingJoins(store, 0, at, |writes|, merged, one.value);
      merged := merged || one.value;
    }
    assert groups[..|groups|] == groups;
    r := Success(merged);
  }

  lemma {:induction false} WholePlanPrefix(groups: seq<Group>, k: nat)
    requires k < |groups|
    ensures Plan(groups[..k + 1]) == Plan(groups[..k]) + GroupPlan(groups[k].members, groups[k].representative)
    ensures Plan(groups[..k + 1]) <= Plan(groups)
    decreases |groups| - k
  {
    assert groups[..k + 1][..k] == groups[..k];
    if k + 1 < |groups| {
      WholePlanPrefix(groups, k + 1);
    } else {
      assert groups[..k + 1] == groups;
    }
  }

  /** The writes never mark a memory twice, never mark a memory another write points at, and stay within one profile. */
  ghost predicate SafeWrites(c: seq<Candidate>, writes: seq<Write>) {
    && MarksOnce(writes)
    && (forall i: nat, j: nat | i < |writes| && j < |writes| :: writes[i].target != writes[j].member)
    && (forall k: nat | k < |writes| :: SameProfile(c, writes[k].member, writes[k].target))
  }

  ghost predicate SameProfile(c: seq<Candidate>, a: MemoryId, b: MemoryId) {
    exists i: nat, j: nat | i < |c| && j < |c| :: c[i].id == a && c[j].id == b && c[i].profile == c[j].profile
  }

  /** What grouping guarantees of its groups, as far as merging depends on it. */
  ghost predicate Mergeable(groups: seq<Group>) {
    && (forall k: nat | k < |groups| :: Distinct(groups[k].members) && groups[k].representative in groups[k].members)
    && (forall k: nat, m: nat | k < m < |groups| :: forall id | id in groups[k].members :: id !in groups[m].members)
  }

  ghost predicate MarksOnce(w: seq<Write>) {
    forall i: nat, j: nat | i < j < |w| :: w[i].member != w[j].member
  }

  lemma {:induction false} GroupPlanMarksOnce(members: seq<MemoryId>, representative: MemoryId)
    requires Distinct(members)
    ensures MarksOnce(GroupPlan(members, representative))
  {
    if members != [] {
      var n := |members| - 1;
      GroupPlanMarksOnce(members[..n], representative);
      assert members[n] !in members[..n];
      var w := GroupPlan(members[..n], representative);
      GroupPlanWrites(members[..n], representative);
      assert forall k: nat | k < |w| :: w[k].member in members[..n];
    }
  }

  /** Every planned write belongs to one of the groups. */
  lemma {:induction false} PlanOrigin(groups: seq<Group>, w: Write)
    requires w in Plan(groups)
    ensures exists k: nat | k < |groups| ::
              w.target == groups[k].representative && w.member != w.target && w.member in groups[k].members
  {
    var n := |groups| - 1;
    var last := GroupPlan(groups[n].members, groups[n].representative);
    if w in last {
      GroupPlanWrites(groups[n].members, groups[n].representative);
    } else {
      PlanOrigin(groups[..n], w);
      var k: nat :| k < n && w.target == groups[..n][k].representative && w.member != w.target &&
        w.member in groups[..n][k].members;
      assert groups[..n][k] == groups[k];
    }
  }

  lemma {:induction false} PlanMarksOnce(groups: seq<Group>)
    requires Mergeable(groups)
    ensures MarksOnce(Plan(groups))
  {
    if groups != [] {
      var n := |groups| - 1;
      var a, b := Plan(groups[..n]), GroupPlan(groups[n].members, groups[n].representative);
      PlanMarksOnce(groups[..n]);
      GroupPlanMarksOnce(groups[n].members, groups[n].representative);
      GroupPlanWrites(groups[n].members, groups[n].representative);
      forall i: nat, j: nat | i < |a| && j < |b| ensures a[i].member != b[j].member {
        PlanOrigin(groups[..n], a[i]);
        var k: nat :| k < n && a[i].member in groups[..n][k].members;
        assert groups[..n][k] == groups[k];
        assert b[j].member in groups[n].members;
      }
      assert Plan(groups) == a + b;
      assert MarksOnce(a + b);
    }
  }

  /** No chains and no cycles: what a write points at is never itself marked. */
  lemma TargetsAreNeverMarked(groups: seq<Group>, v: Write, w: Write)
    requires Mergeable(groups) && v in Plan(groups) && w in Plan(groups)
    ensures v.target != w.member
  {
    PlanOrigin(groups, v);
    PlanOrigin(groups, w);
    var k: nat :| k < |groups| && v.target == groups[k].representative;
    var m: nat :| m < |groups| && w.target == groups[m].representative && w.member != w.target &&
      w.member in groups[m].members;
    assert groups[k].representative in groups[k].members;
    if k < m {
      assert groups[k].representative !in groups[m].members;
    } else if m < k {
      assert w.member !in groups[k].members;
    }
  }

  // ---- Groups of discovered pairs are mergeable ----

  /** Every link joins two candidates of one profile, at or above the threshold. */
  ghost predicate Accepted(c: seq<Candidate>, links: seq<Link>, t: real) {
    forall k: nat | k < |links| ::
      && links[k].lo < links[k].hi < |c|
      && c[links[k].lo].profile == c[links[k].hi].profile
      && links[k].similarity >= t
  }

  lemma {:induction false} LinkedShareProfile(c: seq<Candidate>, links: seq<Link>, t: real, x: nat, y: nat)
    requires InRange(|c|, links) && x < |c| && Connected(LinkEdges(links), x, y)
    requires Accepted(c, links, t)
    ensures y < |c| && c[y].profile == c[x].profile
  {
    var inside := set z: nat | z < |c| && c[z].profile == c[x].profile;
    forall e | e in LinkEdges(links) ensures e.0 in inside <==> e.1 in inside {
      var k: nat :| k < |links| && (links[k].lo, links[k].hi) == e;
      assert links[k] in links;
    }
    StaysInside(LinkEdges(links), inside, x, y);
  }

  lemma GroupSharesProfile(c: seq<Candidate>, links: seq<Link>, t: real, g: Group, id: MemoryId)
    requires DistinctIds(c) && InRange(|c|, links) && IsGroup(c, links, g) && id in g.members
    requires Accepted(c, links, t)
    ensures SameProfile(c, id, g.representative)
  {
    var x := GroupMeans(c, links, g);
    var comp := Component(|c|, links, x);
    var i: nat :| i in comp && i < |c| && c[i].id == id;
    var j: nat :| j in comp && j < |c| && c[j].id == g.representative;
    LinkedShareProfile(c, links, t, x, i);
    LinkedShareProfile(c, links, t, x, j);
  }

  lemma GroupFacts(c: seq<Candidate>, links: seq<Link>, g: Group)
    requires DistinctIds(c) && InRange(|c|, links) && IsGroup(c, links, g)
    ensures Distinct(g.members) && g.representative in g.members
    ensures forall id | id in g.members :: id in IndexById(c)
  {
    var x := GroupMeans(c, links, g);
    forall id | id in g.members ensures id in IndexById(c) {
      var i: nat :| i in Component(|c|, links, x) && i < |c| && c[i].id == id;
    }
    var j: nat :| j in Component(|c|, links, x) && j < |c| && c[j].id == g.representative;
  }

  lemma GroupsAreMergeable(c: seq<Candidate>, links: seq<Link>, groups: seq<Group>)
    requires DistinctIds(c) && InRange(|c|, links) && Distinct(groups)
    requires forall g | g in groups :: IsGroup(c, links, g)
    ensures Mergeable(groups)
  {
    forall k: nat | k < |groups| ensures Distinct(groups[k].members) && groups[k].representative in groups[k].members {
      assert groups[k] in groups;
      GroupFacts(c, links, groups[k]);
    }
    forall k: nat, m: nat, id | k < m < |groups| && id in groups[k].members ensures id !in groups[m].members {
      assert groups[k] in groups && groups[m] in groups;
      SharedIdSameGroup(c, links, groups[k], groups[m], id);
    }
  }

  lemma SharedIdSameGroup(c: seq<Candidate>, links: seq<Link>, g: Group, h: Group, id: MemoryId)
    requires DistinctIds(c) && InRange(|c|, links) && IsGroup(c, links, g) && IsGroup(c, links, h)
    ensures id in g.members && id in h.members ==> g == h
  {
    if id in g.members && id in h.members {
      GroupFacts(c, links, g);
      MemberMeansComponent(c, links, g, IndexById(c)[id]);
      MemberMeansComponent(c, links, h, IndexById(c)[id]);
    }
  }

  /** Merge safety: whatever prefix of the plan a run gets through, its writes are safe. */
  lemma PlannedWritesAreSafe(c: seq<Candidate>, links: seq<Link>, t: real, groups: seq<Group>, writes: seq<Write>)
    requires DistinctIds(c) && InRange(|c|, links) && Distinct(groups)
    requires forall g | g in groups :: IsGroup(c, links, g)
    requires Accepted(c, links, t)
    requires writes <= Plan(groups)
    ensures SafeWrites(c, writes)
  {
    GroupsAreMergeable(c, links, groups);
    PlanMarksOnce(groups);
    forall i: nat, j: nat | i < |writes| && j < |writes| ensures writes[i].target != writes[j].member {
      assert writes[i] == Plan(groups)[i] && writes[j] == Plan(groups)[j];
      TargetsAreNeverMarked(groups, writes[i], writes[j]);
    }
    forall k: nat | k < |writes| ensures SameProfile(c, writes[k].member, writes[k].target) {
      assert writes[k] == Plan(groups)[k];
      PlanOrigin(groups, writes[k]);
      var m: nat :| m < |groups| && writes[k].target == groups[m].representative &&
        writes[k].member in groups[m].members;
      assert groups[m] in groups;
      GroupSharesProfile(c, links, t, groups[m], writes[k].member);
    }
  }

  lemma DiscoveredAccepted(c: seq<Candidate>, replies: seq<Discovery.Reply>, t: real, pairs: seq<NeighborPair>,
                           edges: seq<Edge>)
    requires DistinctIds(c) && |replies| == |c| && Discovery.Emitted(c, replies, t, pairs, edges)
    ensures Accepted(c, Links(IndexById(c), pairs), t)
  {
    PairsBecomeLinks(c, replies, t, pairs, edges);
    forall k: nat | k < |pairs| ensures Discovery.PairIsAnswer(c, replies, t, pairs[k], edges[k]) {
    }
  }

  // ---- The whole request ----

  const MAX_CANDIDATES := 10_000
  const MAX_NEIGHBORS := 100

  function Min(a: nat, b: nat): nat {
    if a <= b then a else b
  }

  function Take<T>(s: seq<T>, n: nat): seq<T> {
    if |s| <= n then s else s[..n]
  }

  /** The first `limit` groups, in order, of the full graph's components of size two or more. */
  ghost predicate TopComponents(c: seq<Candidate>, replies: seq<Discovery.Reply>, t: real, links: seq<Link>, limit: nat,
                                groups: seq<Group>)
    requires |replies| == |c|
  {
    exists all :: ExactComponents(c, replies, t, links, all) && Sorted(all, GroupLe) && groups == Take(all, limit)
  }

  /** The group describes the links' component of `x`, which lies inside the full graph's. */
  ghost predicate DescribesPart(c: seq<Candidate>, replies: seq<Discovery.Reply>, t: real, links: seq<Link>, g: Group,
                                x: nat)
    requires |replies| == |c|
  {
    && Describes(c, links, g, Component(|c|, links, x))
    && Component(|c|, links, x) <= FullComponent(c, replies, t, x)
  }

  /** Answers connect nothing that the full graph does not. */
  lemma PartsOfComponents(c: seq<Candidate>, replies: seq<Discovery.Reply>, t: real, links: seq<Link>, x: nat)
    requires |replies| == |c| && AnswerLinks(c, replies, t, links)
    ensures Component(|c|, links, x) <= FullComponent(c, replies, t, x)
  {
    var full := Discovery.FullGraph(c, replies, t);
    forall e | e in LinkEdges(links) ensures Connected(full, e.0, e.1) {
      var k: nat :| k < |links| && (links[k].lo, links[k].hi) == e;
      AnswerConnects(c, replies, t, links[k]);
    }
    forall y | y in Component(|c|, links, x) ensures y in FullComponent(c, replies, t, x) {
      ConnectivityCarries(LinkEdges(links), full, x, y);
    }
  }

  lemma AnswerConnects(c: seq<Candidate>, replies: seq<Discovery.Reply>, t: real, l: Link)
    requires |replies| == |c| && LinkIsAnswer(c, replies, t, l)
    ensures Connected(Discovery.FullGraph(c, replies, t), l.lo, l.hi)
  {
    if Named(c, replies, l.lo, l.hi, l.similarity) {
      assert Discovery.Answers(c, replies, t, l.lo, l.hi);
    } else {
      assert Discovery.Answers(c, replies, t, l.hi, l.lo);
    }
    EdgeConnects(Discovery.FullGraph(c, replies, t), l.lo, l.hi);
  }

  /** What the groups rest on: distinct links, each an answer of the oracle. The groups are the leading ones of the
      links' components, each describing its component, which lies inside one of the full graph; when the search was
      whole these are the components of the full graph. */
  ghost predicate Grounded(c: seq<Candidate>, replies: seq<Discovery.Reply>, t: real, limit: nat, whole: bool,
                           groups: seq<Group>, links: seq<Link>)
    requires |replies| == |c|
  {
    && AnswerLinks(c, replies, t, links)
    && TopGroups(c, links, limit, groups)
    && (forall g | g in groups :: exists x: nat | x < |c| :: DescribesPart(c, replies, t, links, g, x))
    && (whole ==> TopComponents(c, replies, t, links, limit, groups))
  }

  ghost predicate SomehowGrounded(c: seq<Candidate>, replies: seq<Discovery.Reply>, t: real, limit: nat, whole: bool,
                                  groups: seq<Group>)
    requires |replies| == |c|
  {
    exists links :: Grounded(c, replies, t, limit, whole, groups, links)
  }

  datatype Found = Found(groups: seq<Group>, capped: bool)

  /** What discovery and grouping hand to merging; `links` are the accepted links the groups come from. */
  ghost predicate WellFound(c: seq<Candidate>, replies: seq<Discovery.Reply>, t: real, budget: nat, limit: nat,
                            f: Found, links: seq<Link>)
    requires |replies| == |c|
  {
    && InRange(|c|, links) && Accepted(c, links, t)
    && Distinct(f.groups) && (forall g | g in f.groups :: IsGroup(c, links, g))
    && (f.capped <==> Discovery.TotalWork(c) > budget)
    && Grounded(c, replies, t, limit, !f.capped, f.groups, links)
  }

  /** Every query made was answered, and unless the search was capped, everybody embedded was asked. */
  ghost predicate WellAsked(c: seq<Candidate>, replies: seq<Discovery.Reply>, capped: bool, calls: seq<nat>) {
    Discovery.Answered(replies, calls) && (!capped ==> Discovery.Called(c, Discovery.Embedded(c), calls))
  }

  lemma FoundIsGrounded(c: seq<Candidate>, replies: seq<Discovery.Reply>, t: real, pairs: seq<NeighborPair>,
                        edges: seq<Edge>, all: seq<Group>, limit: nat, whole: bool)
    requires DistinctIds(c) && |replies| == |c| && Discovery.Emitted(c, replies, t, pairs, edges) &&
             Discovery.NoRepeats(edges)
    requires whole ==> Discovery.SameComponents(Discovery.FullGraph(c, replies, t), Discovery.EdgeSet(edges))
    requires AllGroups(c, Links(IndexById(c), pairs), all) && Sorted(all, GroupLe)
    ensures Grounded(c, replies, t, limit, whole, Take(all, limit), Links(IndexById(c), pairs))
  {
    var links := Links(IndexById(c), pairs);
    DiscoveredLinksDistinct(c, replies, t, pairs, edges);
    LinksInRange(c, pairs);
    TakeKeeps(c, links, all, limit);
    forall g | g in Take(all, limit) ensures exists x: nat | x < |c| :: DescribesPart(c, replies, t, links, g, x) {
      GroupIsPart(c, replies, t, links, g);
    }
    assert TopGroups(c, links, limit, Take(all, limit));
    if whole {
      FoundAreComponents(c, replies, t, pairs, edges, all, limit);
    }
  }

  lemma GroupIsPart(c: seq<Candidate>, replies: seq<Discovery.Reply>, t: real, links: seq<Link>, g: Group)
    requires DistinctIds(c) && |replies| == |c| && InRange(|c|, links) && AnswerLinks(c, replies, t, links) &&
             IsGroup(c, links, g)
    ensures exists x: nat | x < |c| :: DescribesPart(c, replies, t, links, g, x)
  {
    var x := GroupMeans(c, links, g);
    PartsOfComponents(c, replies, t, links, x);
    assert DescribesPart(c, replies, t, links, g, x);
  }

  lemma FoundAreComponents(c: seq<Candidate>, replies: seq<Discovery.Reply>, t: real, pairs: seq<NeighborPair>,
                           edges: seq<Edge>, all: seq<Group>, limit: nat)
    requires DistinctIds(c) && |replies| == |c| && Discovery.Emitted(c, replies, t, pairs, edges)
    requires Discovery.SameComponents(Discovery.FullGraph(c, replies, t), Discovery.EdgeSet(edges))
    requires AllGroups(c, Links(IndexById(c), pairs), all) && Sorted(all, GroupLe)
    ensures TopComponents(c, replies, t, Links(IndexById(c), pairs), limit, Take(all, limit))
  {
    GroupsAreFullComponents(c, replies, t, pairs, edges, all);
  }

  lemma TakeKeeps(c: seq<Candidate>, links: seq<Link>, all: seq<Group>, limit: nat)
    requires AllGroups(c, links, all)
    ensures Distinct(Take(all, limit)) && forall g | g in Take(all, limit) :: IsGroup(c, links, g)
  {
  }

  /** Discovery followed by grouping. */
  method FindGroups(c: seq<Candidate>, replies: seq<Discovery.Reply>, t: real, neighborLimit: nat, limit: nat)
    returns (r: Result<Found>, ghost links: seq<Link>, ghost calls: seq<nat>)
    requires DistinctIds(c) && |replies| == |c|
    ensures Discovery.WithinBudget(c, |c| * neighborLimit, calls)
    ensures r.Failure? ==> Discovery.StopsAtFailure(replies, calls, r.error)
    ensures r.Success? ==> WellFound(c, replies, t, |c| * neighborLimit, limit, r.value, links)
    ensures r.Success? ==> WellAsked(c, replies, r.value.capped, calls)
  {
    links := [];
    var d;
    ghost var edges, skipped;
    d, edges, calls, skipped := Discovery.DiscoverPairs(c, replies, t, neighborLimit);
    if d.Failure? {
      return Failure(d.error), links, calls;
    }
    var groups, all := FindDuplicateGroups(c, d.value.pairs, limit);
    links := Links(IndexById(c), d.value.pairs);
    LinksInRange(c, d.value.pairs);
    DiscoveredAccepted(c, replies, t, d.value.pairs, edges);
    TakeKeeps(c, links, all, limit);
    FoundIsGrounded(c, replies, t, d.value.pairs, edges, all, limit, !d.value.capped);
    assert groups == Take(all, limit);
    r := Success(Found(groups, d.value.capped));
  }

  datatype Limits = Limits(candidateLimit: nat, neighborLimit: nat)

  datatype ConsolidateResult = ConsolidateResult(groups: seq<Group>, merged: bool, candidateCount: nat, capped: bool)

  datatype Outcome = Done(result: ConsolidateResult) | InvalidThreshold | StoreFailed(error: StoreError)

  function Candidates(limits: Limits, listed: seq<Candidate>): (c: seq<Candidate>)
    ensures c <= listed
  {
    Take(listed, Min(limits.candidateLimit, MAX_CANDIDATES))
  }

  function Replies(c: seq<Candidate>, oracle: nat -> Discovery.Reply): (r: seq<Discovery.Reply>)
    ensures |r| == |c| && forall i: nat | i < |c| :: r[i] == oracle(i)
  {
    seq(|c|, i requires 0 <= i < |c| => oracle(i))
  }

  /** The work budget of a request, and whether asking everybody would exceed it. */
  function Budget(limits: Limits, c: seq<Candidate>): nat {
    |c| * Min(limits.neighborLimit, MAX_NEIGHBORS)
  }

  ghost predicate OverWork(limits: Limits, c: seq<Candidate>) {
    |c| >= 2 && Discovery.TotalWork(c) > Budget(limits, c)
  }

  /** A completed request: no query and no write failed; the counts, the cap and the groups are right; the writes are
      exactly the plan for the groups. */
  ghost predicate Reported(limits: Limits, listed: seq<Candidate>, oracle: nat -> Discovery.Reply,
                           store: nat -> WriteReply, t: real, limit: nat, dryRun: bool, result: ConsolidateResult,
                           writes: seq<Write>, calls: seq<nat>)
  {
    var c := Candidates(limits, listed);
    && result.candidateCount == |c|
    && (result.capped <==> |listed| > |c| || OverWork(limits, c))
    && SomehowGrounded(c, Replies(c, oracle), t, limit, !OverWork(limits, c), result.groups)
    && WellAsked(c, Replies(c, oracle), |c| < 2 || OverWork(limits, c), calls)
    && (forall g | g in result.groups :: g.similarity >= t)
    && writes == (if dryRun then [] else Plan(result.groups))
    && Merging(store, 0, |writes|, result.merged)
  }

  /** A failed request: the listing failed, or the last query did, or the last write did; nothing else had failed
      before. */
  ghost predicate FailedAt(limits: Limits, listed: Result<seq<Candidate>>, oracle: nat -> Discovery.Reply,
                           store: nat -> WriteReply, error: StoreError, writes: seq<Write>, calls: seq<nat>)
  {
    if listed.Failure? then error == listed.error && calls == [] && writes == []
    else
      var replies := Replies(Candidates(limits, listed.value), oracle);
      || (Discovery.StopsAtFailure(replies, calls, error) && writes == [])
      || (Discovery.Answered(replies, calls) && StopsAtBroken(store, 0, |writes|, error))
  }

  lemma FewCandidates(c: seq<Candidate>, replies: seq<Discovery.Reply>, t: real, limit: nat)
    requires DistinctIds(c) && |c| < 2 && |replies| == |c|
    ensures Grounded(c, replies, t, limit, true, [], [])
  {
    forall x: nat | x < |c| ensures |FullComponent(c, replies, t, x)| < 2 {
      RangeBound(FullComponent(c, replies, t, x), |c|);
    }
    var none: seq<Group> := [];
    NoGroups(c, []);
    assert AllGroups(c, [], none) && Sorted(none, GroupLe) && none == Take(none, limit);
    assert ExactComponents(c, replies, t, [], none);
  }

  lemma FoundIsSimilar(c: seq<Candidate>, links: seq<Link>, t: real, groups: seq<Group>)
    requires DistinctIds(c) && InRange(|c|, links) && Accepted(c, links, t)
    requires forall g | g in groups :: IsGroup(c, links, g)
    ensures forall g | g in groups :: g.similarity >= t
  {
    forall g | g in groups ensures g.similarity >= t {
      MeanAtLeast(c, links, g, t);
    }
  }

  function Snapshots(c: seq<Candidate>): map<MemoryId, Candidate>
    requires DistinctIds(c)
  {
    map id | id in IndexById(c) :: c[IndexById(c)[id]]
  }

  /** Both snapshots of every planned write are at hand. */
  lemma SnapshotsAtHand(c: seq<Candidate>, links: seq<Link>, groups: seq<Group>)
    requires DistinctIds(c) && InRange(|c|, links) && forall g | g in groups :: IsGroup(c, links, g)
    ensures AllKnown(Snapshots(c), groups)
  {
    forall k: nat | k < |groups| ensures Known(Snapshots(c), groups[k]) {
      assert groups[k] in groups;
      GroupFacts(c, links, groups[k]);
    }
  }

  /** consolidate_memories. `oracle` answers neighbour queries by candidate, `store` the k-th supersession write. */
  method ConsolidateMemories(limits: Limits, listed: Result<seq<Candidate>>, oracle: nat -> Discovery.Reply,
                             store: nat -> WriteReply, t: real, limit: nat, dryRun: bool)
    returns (r: Outcome, writes: seq<Write>, ghost calls: seq<nat>)
    requires listed.Success? ==> DistinctIds(listed.value)
    ensures r.InvalidThreshold? <==> !(0.0 <= t <= 1.0)
    ensures r.InvalidThreshold? || dryRun ==> writes == []
    ensures r.InvalidThreshold? ==> calls == []
    ensures listed.Success? ==> SafeWrites(Candidates(limits, listed.value), writes)
    ensures r.Done? ==> listed.Success?
    ensures r.Done? ==> Reported(limits, listed.value, oracle, store, t, limit, dryRun, r.result, writes, calls)
    ensures r.StoreFailed? ==> FailedAt(limits, listed, oracle, store, r.error, writes, calls)
  {
    writes, calls := [], [];
    if !(0.0 <= t <= 1.0) {
      return InvalidThreshold, writes, calls;
    }
    if listed.Failure? {
      return StoreFailed(listed.error), writes, calls;
    }
    var c := Candidates(limits, listed.value);
    var capped := |listed.value| > |c|;
    if |c| < 2 {
      FewCandidates(c, Replies(c, oracle), t, limit);
      return Done(ConsolidateResult([], false, |c|, capped)), writes, calls;
    }
    var found;
    ghost var links;
    found, links, calls := FindGroups(c, Replies(c, oracle), t, Min(limits.neighborLimit, MAX_NEIGHBORS), limit);
    if found.Failure? {
      return StoreFailed(found.error), writes, calls;
    }
    capped := capped || found.value.capped;
    var groups := found.value.groups;
    FoundIsSimilar(c, links, t, groups);
    if groups == [] || dryRun {
      return Done(ConsolidateResult(groups, false, |c|, capped)), writes, calls;
    }
    SnapshotsAtHand(c, links, groups);
    var merged;
    merged, writes := MergeGroups(groups, Snapshots(c), store);
    PlannedWritesAreSafe(c, links, t, groups, writes);
    if merged.Failure? {
      return StoreFailed(merged.error), writes, calls;
    }
    r := Done(ConsolidateResult(groups, merged.value, |c|, capped));
  }
}

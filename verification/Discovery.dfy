/** The work-budgeted breadth-first discovery of near-duplicate pairs.
    The store's nearest-neighbour query is an oracle: one reply per candidate, neither symmetric nor complete. */
module Discovery {
  import opened Types
  import opened Graph

  type Reply = Result<seq<Neighbor>>

  // ---- The graph the oracle describes ----

  /** Candidate i's reply names candidate j, at or above the threshold and under the same ordered profile. */
  ghost predicate Answers(c: seq<Candidate>, replies: seq<Reply>, t: real, i: nat, j: nat)
    requires |replies| == |c|
  {
    && i < |c| && j < |c| && c[i].embedded && replies[i].Success? && c[i].profile == c[j].profile
    && exists nb | nb in replies[i].value :: nb.id == c[j].id && nb.similarity >= t
  }

  /** Every acceptable answer of every embedded candidate, whether or not the search asks for it. */
  ghost function FullGraph(c: seq<Candidate>, replies: seq<Reply>, t: real): set<Edge>
    requires |replies| == |c|
  {
    set i: nat, j: nat | i < |c| && j < |c| && Answers(c, replies, t, i, j) :: (i, j)
  }

  ghost function EdgeSet(edges: seq<Edge>): set<Edge> {
    set e | e in edges
  }

  /** Each emitted pair is one answer, written with the ids of the two index ends. */
  ghost predicate PairIsAnswer(c: seq<Candidate>, replies: seq<Reply>, t: real, pair: NeighborPair, e: Edge)
    requires |replies| == |c|
  {
    && e.0 < |c| && e.1 < |c| && e.0 != e.1
    && pair.idA == c[e.0].id && pair.idB == c[e.1].id && pair.similarity >= t
    && c[e.0].profile == c[e.1].profile && c[e.0].embedded
    && replies[e.0].Success? && Neighbor(pair.idB, pair.similarity) in replies[e.0].value
  }

  ghost predicate Emitted(c: seq<Candidate>, replies: seq<Reply>, t: real, pairs: seq<NeighborPair>, edges: seq<Edge>)
    requires |replies| == |c|
  {
    && |pairs| == |edges|
    && forall k: nat | k < |pairs| :: PairIsAnswer(c, replies, t, pairs[k], edges[k])
  }

  /** No undirected edge occurs twice. */
  ghost predicate NoRepeats(edges: seq<Edge>) {
    forall i: nat, j: nat | i < j < |edges| :: edges[i] != edges[j] && edges[i] != (edges[j].1, edges[j].0)
  }

  ghost predicate SameComponents(e1: set<Edge>, e2: set<Edge>) {
    forall x: nat, y: nat :: Connected(e1, x, y) <==> Connected(e2, x, y)
  }

  // ---- The work budget ----

  function ProfileIds(c: seq<Candidate>, profile: seq<ContextId>): seq<MemoryId> {
    if c == [] then []
    else
      var last := c[|c| - 1];
      ProfileIds(c[..|c| - 1], profile) + if last.profile == profile then [last.id] else []
  }

  ghost predicate Indexed(c: seq<Candidate>, m: map<seq<ContextId>, seq<MemoryId>>) {
    && (forall i: nat | i < |c| :: c[i].profile in m)
    && (forall p | p in m :: m[p] == ProfileIds(c, p))
    && (forall p | p !in m :: ProfileIds(c, p) == [])
  }

  lemma IndexedStep(c: seq<Candidate>, last: Candidate, m: map<seq<ContextId>, seq<MemoryId>>)
    requires Indexed(c, m)
    ensures Indexed(c + [last], m[last.profile := (if last.profile in m then m[last.profile] else []) + [last.id]])
  {
    assert (c + [last])[..|c|] == c;
  }

  lemma IndexNext(c: seq<Candidate>, k: nat, m: map<seq<ContextId>, seq<MemoryId>>)
    requires k < |c| && Indexed(c[..k], m)
    ensures Indexed(c[..k + 1], m[c[k].profile := (if c[k].profile in m then m[c[k].profile] else []) + [c[k].id]])
  {
    IndexedStep(c[..k], c[k], m);
    assert c[..k + 1] == c[..k] + [c[k]];
  }

  method IndexByProfile(c: seq<Candidate>) returns (byProfile: map<seq<ContextId>, seq<MemoryId>>)
    ensures Indexed(c, byProfile)
  {
    byProfile := map[];
    for k := 0 to |c|
      invariant Indexed(c[..k], byProfile)
    {
      IndexNext(c, k, byProfile);
      var p := c[k].profile;
      byProfile := byProfile[p := (if p in byProfile then byProfile[p] else []) + [c[k].id]];
    }
    assert c[..|c|] == c;
  }

  /** Comparisons one query of candidate i is charged for: the size of its profile class. */
  function Work(c: seq<Candidate>, i: nat): nat
    requires i < |c|
  {
    |ProfileIds(c, c[i].profile)|
  }

  ghost function Charge(c: seq<Candidate>, asked: set<nat>, i: nat): nat
    requires i < |c|
  {
    if i in asked && c[i].embedded then Work(c, i) else 0
  }

  ghost function WorkBelow(c: seq<Candidate>, asked: set<nat>, n: nat): nat
    requires n <= |c|
  {
    if n == 0 then 0 else WorkBelow(c, asked, n - 1) + Charge(c, asked, n - 1)
  }

  ghost function WorkOf(c: seq<Candidate>, asked: set<nat>): nat {
    WorkBelow(c, asked, |c|)
  }

  ghost function Embedded(c: seq<Candidate>): set<nat> {
    set i: nat | i < |c| && c[i].embedded
  }

  /** The work of asking every embedded candidate once. */
  ghost function TotalWork(c: seq<Candidate>): nat {
    WorkOf(c, Embedded(c))
  }

  lemma {:induction false} WorkGrows(c: seq<Candidate>, asked: set<nat>, x: nat, n: nat)
    requires x !in asked && x < |c| && n <= |c|
    ensures WorkBelow(c, asked + {x}, n) == WorkBelow(c, asked, n) + if x < n then Charge(c, {x}, x) else 0
  {
    if n > 0 {
      WorkGrows(c, asked, x, n - 1);
      if x != n - 1 {
        assert Charge(c, asked + {x}, n - 1) == Charge(c, asked, n - 1);
      }
    }
  }

  /** Only embedded candidates are charged. */
  lemma {:induction false} WorkMonotone(c: seq<Candidate>, asked: set<nat>, more: set<nat>, n: nat)
    requires n <= |c| && forall x: nat | x < n && c[x].embedded && x in asked :: x in more
    ensures WorkBelow(c, asked, n) <= WorkBelow(c, more, n)
  {
    if n > 0 {
      WorkMonotone(c, asked, more, n - 1);
    }
  }

  lemma {:induction false} SmallClassesWork(c: seq<Candidate>, limit: nat, asked: set<nat>, n: nat)
    requires n <= |c| && forall i: nat | i < |c| :: Work(c, i) <= limit
    ensures WorkBelow(c, asked, n) <= n * limit
  {
    if n > 0 {
      SmallClassesWork(c, limit, asked, n - 1);
      assert n * limit == (n - 1) * limit + limit;
    }
  }

  /** When no profile class is larger than the neighbour limit, the budget always suffices. */
  lemma SmallClassesFit(c: seq<Candidate>, limit: nat)
    requires forall i: nat | i < |c| :: Work(c, i) <= limit
    ensures TotalWork(c) <= |c| * limit
  {
    SmallClassesWork(c, limit, Embedded(c), |c|);
  }

  ghost function SumOfCalls(c: seq<Candidate>, calls: seq<nat>): nat
    requires forall k: nat | k < |calls| :: calls[k] < |c|
  {
    if calls == [] then 0 else SumOfCalls(c, calls[..|calls| - 1]) + Work(c, calls[|calls| - 1])
  }

  // ---- The search state ----

  /** How the three index sets and the frontier relate while one root's cluster is being grown. */
  ghost predicate Shape(n: nat, clustered: set<nat>, cluster: set<nat>, queried: set<nat>, frontier: seq<nat>) {
    && clustered <= queried
    && (forall q | q in queried :: q < n && (q in clustered || q in cluster))
    && (forall m | m in cluster :: m < n && (m in queried || m in frontier))
    && (forall f | f in frontier :: f in cluster && f !in queried)
    && Distinct(frontier)
  }

  /** Every cluster member hangs on the root through emitted edges. */
  ghost predicate Reached(edges: seq<Edge>, start: nat, cluster: set<nat>) {
    forall m | m in cluster :: Connected(EdgeSet(edges), start, m)
  }

  /** Each emitted edge lies inside the finished clusters or inside the current one. */
  ghost predicate Placed(edges: seq<Edge>, clustered: set<nat>, cluster: set<nat>) {
    forall e | e in edges :: (e.0 in clustered && e.1 in clustered) || (e.0 in cluster && e.1 in cluster)
  }

  /** Candidate q has been asked, and all its answers are connected to it by emitted edges. */
  ghost predicate Settled(c: seq<Candidate>, replies: seq<Reply>, t: real, edges: seq<Edge>, q: nat)
    requires |replies| == |c|
  {
    && (q < |c| && c[q].embedded ==> replies[q].Success?)
    && forall j: nat | Answers(c, replies, t, q, j) :: Connected(EdgeSet(edges), q, j)
  }

  ghost predicate AllSettled(c: seq<Candidate>, replies: seq<Reply>, t: real, edges: seq<Edge>, asked: set<nat>)
    requires |replies| == |c|
  {
    forall q | q in asked :: Settled(c, replies, t, edges, q)
  }

  lemma ReachedGrows(edges: seq<Edge>, e: Edge, start: nat, cluster: set<nat>)
    requires Reached(edges, start, cluster) && e.0 in cluster
    ensures Reached(edges + [e], start, cluster + {e.1})
  {
    var more := EdgeSet(edges + [e]);
    assert e in edges + [e];
    forall m | m in cluster ensures Connected(more, start, m) {
      Monotone(EdgeSet(edges), more, start, m);
    }
    EdgeConnects(more, e.0, e.1);
    Transitive(more, start, e.0, e.1);
  }

  lemma SettledGrows(c: seq<Candidate>, replies: seq<Reply>, t: real, edges: seq<Edge>, more: seq<Edge>,
                     asked: set<nat>)
    requires |replies| == |c| && AllSettled(c, replies, t, edges, asked) && EdgeSet(edges) <= EdgeSet(more)
    ensures AllSettled(c, replies, t, more, asked)
  {
    forall q, j: nat | q in asked && Answers(c, replies, t, q, j) ensures Connected(EdgeSet(more), q, j) {
      assert Settled(c, replies, t, edges, q);
      Monotone(EdgeSet(edges), EdgeSet(more), q, j);
    }
    assert forall q | q in asked :: Settled(c, replies, t, edges, q);
  }

  /** Two members of one cluster are connected through its root. */
  lemma MembersConnected(edges: seq<Edge>, start: nat, cluster: set<nat>, x: nat, y: nat)
    requires Reached(edges, start, cluster) && x in cluster && y in cluster
    ensures Connected(EdgeSet(edges), x, y)
  {
    Symmetric(EdgeSet(edges), start, x);
    Transitive(EdgeSet(edges), x, start, y);
  }

  /** The new edge repeats no earlier one: its source was never clustered before, its target is new to this cluster. */
  lemma NewEdgeIsNew(edges: seq<Edge>, clustered: set<nat>, cluster: set<nat>, e: Edge)
    requires NoRepeats(edges) && Placed(edges, clustered, cluster)
    requires e.0 !in clustered && e.1 !in cluster
    ensures NoRepeats(edges + [e])
  {
    forall i: nat | i < |edges| ensures edges[i] != e && edges[i] != (e.1, e.0) {
      assert edges[i] in edges;
    }
  }

  /** The answer is one the search acts on: known, same profile, at or above the threshold. */
  predicate Acceptable(c: seq<Candidate>, index: map<MemoryId, nat>, t: real, current: nat, nb: Neighbor)
    requires current < |c|
  {
    nb.id in index && index[nb.id] < |c| && c[index[nb.id]].profile == c[current].profile && nb.similarity >= t
  }

  ghost predicate Covered(c: seq<Candidate>, index: map<MemoryId, nat>, t: real, current: nat, neighbors: seq<Neighbor>,
                          cluster: set<nat>)
    requires current < |c|
  {
    forall k: nat | k < |neighbors| :: Acceptable(c, index, t, current, neighbors[k]) ==>
      index[neighbors[k].id] in cluster
  }

  /** Everything that holds of a cluster while it is grown from `start`. */
  ghost predicate Growing(c: seq<Candidate>, replies: seq<Reply>, t: real, clustered: set<nat>, start: nat,
                          queried: set<nat>, cluster: set<nat>, frontier: seq<nat>, pairs: seq<NeighborPair>,
                          edges: seq<Edge>)
    requires |replies| == |c|
  {
    && Shape(|c|, clustered, cluster, queried, frontier)
    && Reached(edges, start, cluster)
    && Placed(edges, clustered, cluster)
    && NoRepeats(edges)
    && Emitted(c, replies, t, pairs, edges)
  }

  lemma EmittingKeepsGrowing(c: seq<Candidate>, replies: seq<Reply>, t: real, clustered: set<nat>, start: nat,
                             queried: set<nat>, cluster: set<nat>, frontier: seq<nat>, pairs: seq<NeighborPair>,
                             edges: seq<Edge>, pair: NeighborPair, e: Edge)
    requires |replies| == |c| && Growing(c, replies, t, clustered, start, queried, cluster, frontier, pairs, edges)
    requires PairIsAnswer(c, replies, t, pair, e) && e.0 in cluster && e.0 !in clustered && e.1 !in cluster
    ensures Growing(c, replies, t, clustered, start, queried, cluster + {e.1},
                    if e.1 in queried then frontier else frontier + [e.1], pairs + [pair], edges + [e])
  {
    NewEdgeIsNew(edges, clustered, cluster, e);
    ReachedGrows(edges, e, start, cluster);
  }

  /** Nothing is lost, and every new member came with one new edge. */
  ghost predicate Extended(cluster0: set<nat>, edges0: seq<Edge>, cluster: set<nat>, edges: seq<Edge>) {
    && cluster0 <= cluster && edges0 <= edges && |edges| - |edges0| == |cluster| - |cluster0|
    && forall k: nat | |edges0| <= k < |edges| :: edges[k].1 in cluster && edges[k].1 !in cluster0
  }

  lemma ExtendedByOne(cluster0: set<nat>, edges0: seq<Edge>, cluster: set<nat>, edges: seq<Edge>, e: Edge)
    requires Extended(cluster0, edges0, cluster, edges) && e.1 !in cluster
    ensures Extended(cluster0, edges0, cluster + {e.1}, edges + [e])
  {
  }

  /** The state of collect_bfs_neighbors after the first `k` answers of `current`. */
  ghost predicate Collecting(c: seq<Candidate>, replies: seq<Reply>, t: real, current: nat, k: nat, clustered: set<nat>,
                             start: nat, queried: set<nat>, cluster0: set<nat>, edges0: seq<Edge>,
                             cluster: set<nat>, frontier: seq<nat>, pairs: seq<NeighborPair>, edges: seq<Edge>)
    requires DistinctIds(c) && |replies| == |c|
  {
    && current < |c| && c[current].embedded && replies[current].Success? && k <= |replies[current].value|
    && current in cluster0 && current !in clustered
    && Growing(c, replies, t, clustered, start, queried, cluster, frontier, pairs, edges)
    && Extended(cluster0, edges0, cluster, edges)
    && Covered(c, IndexById(c), t, current, replies[current].value[..k], cluster)
  }

  lemma CoveredNext(c: seq<Candidate>, index: map<MemoryId, nat>, t: real, current: nat, neighbors: seq<Neighbor>,
                    k: nat, cluster: set<nat>, more: set<nat>)
    requires current < |c| && k < |neighbors| && Covered(c, index, t, current, neighbors[..k], cluster) &&
             cluster <= more
    requires Acceptable(c, index, t, current, neighbors[k]) ==> index[neighbors[k].id] in more
    ensures Covered(c, index, t, current, neighbors[..k + 1], more)
  {
    assert neighbors[..k + 1] == neighbors[..k] + [neighbors[k]];
  }

  lemma CollectSkip(c: seq<Candidate>, replies: seq<Reply>, t: real, current: nat, k: nat, clustered: set<nat>,
                    start: nat, queried: set<nat>, cluster0: set<nat>, edges0: seq<Edge>,
                    cluster: set<nat>, frontier: seq<nat>, pairs: seq<NeighborPair>, edges: seq<Edge>)
    requires DistinctIds(c) && |replies| == |c|
    requires Collecting(c, replies, t, current, k, clustered, start, queried, cluster0, edges0, cluster, frontier,
                        pairs, edges)
    requires k < |replies[current].value|
    requires Acceptable(c, IndexById(c), t, current, replies[current].value[k]) ==>
               IndexById(c)[replies[current].value[k].id] in cluster
    ensures Collecting(c, replies, t, current, k + 1, clustered, start, queried, cluster0, edges0, cluster, frontier,
                       pairs, edges)
  {
    CoveredNext(c, IndexById(c), t, current, replies[current].value, k, cluster, cluster);
  }

  lemma CollectTake(c: seq<Candidate>, replies: seq<Reply>, t: real, current: nat, k: nat, clustered: set<nat>,
                    start: nat, queried: set<nat>, cluster0: set<nat>, edges0: seq<Edge>, cluster: set<nat>,
                    frontier: seq<nat>, pairs: seq<NeighborPair>, edges: seq<Edge>, nb: Neighbor, idx: nat)
    requires DistinctIds(c) && |replies| == |c|
    requires Collecting(c, replies, t, current, k, clustered, start, queried, cluster0, edges0, cluster, frontier,
                        pairs, edges)
    requires k < |replies[current].value| && replies[current].value[k] == nb
    requires nb.id in IndexById(c) && IndexById(c)[nb.id] == idx && c[idx].profile == c[current].profile
    requires idx !in cluster && nb.similarity >= t
    ensures Collecting(c, replies, t, current, k + 1, clustered, start, queried, cluster0, edges0, cluster + {idx},
                       if idx in queried then frontier else frontier + [idx],
                       pairs + [NeighborPair(c[current].id, nb.id, nb.similarity)], edges + [(current, idx)])
  {
    var pair := NeighborPair(c[current].id, nb.id, nb.similarity);
    assert PairIsAnswer(c, replies, t, pair, (current, idx));
    EmittingKeepsGrowing(c, replies, t, clustered, start, queried, cluster, frontier, pairs, edges, pair,
                         (current, idx));
    ExtendedByOne(cluster0, edges0, cluster, edges, (current, idx));
    CoveredNext(c, IndexById(c), t, current, replies[current].value, k, cluster, cluster + {idx});
  }

  /** collect_bfs_neighbors: emits an edge to each acceptable neighbour that is new to the cluster. */
  method CollectNeighbors(c: seq<Candidate>, replies: seq<Reply>, t: real, current: nat,
                          queried: set<nat>, cluster0: set<nat>, frontier0: seq<nat>, pairs0: seq<NeighborPair>,
                          ghost clustered: set<nat>, ghost start: nat, ghost edges0: seq<Edge>)
    returns (cluster: set<nat>, frontier: seq<nat>, pairs: seq<NeighborPair>, ghost edges: seq<Edge>)
    requires DistinctIds(c) && |replies| == |c| && current < |c| && c[current].embedded && replies[current].Success?
    requires current in cluster0 && current !in clustered
    requires Growing(c, replies, t, clustered, start, queried, cluster0, frontier0, pairs0, edges0)
    ensures Growing(c, replies, t, clustered, start, queried, cluster, frontier, pairs, edges)
    ensures Extended(cluster0, edges0, cluster, edges)
    ensures Covered(c, IndexById(c), t, current, replies[current].value, cluster)
  {
    var index := IndexById(c);
    var neighbors := replies[current].value;
    cluster, frontier, pairs, edges := cluster0, frontier0, pairs0, edges0;
    for k := 0 to |neighbors|
      invariant Collecting(c, replies, t, current, k, clustered, start, queried, cluster0, edges0, cluster, frontier,
                           pairs, edges)
    {
      var nb := neighbors[k];
      if nb.id !in index || c[index[nb.id]].profile != c[current].profile || index[nb.id] in cluster ||
        nb.similarity < t {
        CollectSkip(c, replies, t, current, k, clustered, start, queried, cluster0, edges0, cluster, frontier, pairs,
                    edges);
        continue;
      }
      var idx := index[nb.id];
      CollectTake(c, replies, t, current, k, clustered, start, queried, cluster0, edges0, cluster, frontier, pairs,
                  edges, nb, idx);
      pairs, edges := pairs + [NeighborPair(c[current].id, nb.id, nb.similarity)], edges + [(current, idx)];
      cluster := cluster + {idx};
      if idx !in queried {
        frontier := frontier + [idx];
      }
    }
    assert neighbors[..|neighbors|] == neighbors;
  }

  /** Asking `current` settles it: every acceptable answer is now in its cluster. */
  lemma AskingSettles(c: seq<Candidate>, replies: seq<Reply>, t: real, edges: seq<Edge>, start: nat, cluster: set<nat>,
                      current: nat)
    requires DistinctIds(c) && |replies| == |c| && current < |c| && replies[current].Success?
    requires Reached(edges, start, cluster) && current in cluster
    requires Covered(c, IndexById(c), t, current, replies[current].value, cluster)
    ensures Settled(c, replies, t, edges, current)
  {
    forall j: nat | Answers(c, replies, t, current, j) ensures Connected(EdgeSet(edges), current, j) {
      var nb :| nb in replies[current].value && nb.id == c[j].id && nb.similarity >= t;
      var k: nat :| k < |replies[current].value| && replies[current].value[k] == nb;
      assert Acceptable(c, IndexById(c), t, current, replies[current].value[k]);
      MembersConnected(edges, start, cluster, current, j);
    }
  }

  lemma {:induction false} CallAdds(c: seq<Candidate>, calls: seq<nat>, x: nat)
    requires (forall k: nat | k < |calls| :: calls[k] < |c|) && x < |c|
    ensures SumOfCalls(c, calls + [x]) == SumOfCalls(c, calls) + Work(c, x)
  {
    assert (calls + [x])[..|calls|] == calls;
  }

  /** The oracle calls made so far: embedded candidates only, none asked twice, and their work is what was charged. */
  ghost predicate CallsOk(c: seq<Candidate>, queried: set<nat>, calls: seq<nat>, work: nat) {
    && (forall k: nat | k < |calls| :: calls[k] < |c| && c[calls[k]].embedded && calls[k] in queried)
    && Distinct(calls)
    && SumOfCalls(c, calls) == work
  }

  /** Every call was answered. */
  ghost predicate Answered(replies: seq<Reply>, calls: seq<nat>) {
    forall k: nat | k < |calls| :: calls[k] < |replies| && replies[calls[k]].Success?
  }

  /** The last call failed with this error, and no earlier one did. */
  ghost predicate StopsAtFailure(replies: seq<Reply>, calls: seq<nat>, error: StoreError) {
    && calls != [] && Answered(replies, calls[..|calls| - 1])
    && calls[|calls| - 1] < |replies| && replies[calls[|calls| - 1]] == Failure(error)
  }

  /** Every embedded candidate among these was called. */
  ghost predicate Called(c: seq<Candidate>, queried: set<nat>, calls: seq<nat>) {
    forall q: nat | q in queried && q < |c| && c[q].embedded :: q in calls
  }

  /** The calls as a record of the search: all answered, and nobody embedded passed over. */
  ghost predicate Trail(c: seq<Candidate>, replies: seq<Reply>, queried: set<nat>, calls: seq<nat>) {
    Answered(replies, calls) && Called(c, queried, calls)
  }

  lemma TrailGrows(c: seq<Candidate>, replies: seq<Reply>, queried: set<nat>, calls: seq<nat>, current: nat)
    requires Trail(c, replies, queried, calls) && current < |c| == |replies|
    ensures !c[current].embedded ==> Trail(c, replies, queried + {current}, calls)
    ensures replies[current].Success? ==> Trail(c, replies, queried + {current}, calls + [current])
    ensures replies[current].Failure? ==> StopsAtFailure(replies, calls + [current], replies[current].error)
  {
    assert (calls + [current])[..|calls|] == calls && (calls + [current])[|calls|] == current;
  }

  /** What a finished cluster leaves behind; `asked` are the candidates settled so far. */
  ghost predicate Swept(c: seq<Candidate>, replies: seq<Reply>, t: real, clustered: set<nat>, pairs: seq<NeighborPair>,
                        edges: seq<Edge>)
    requires |replies| == |c|
  {
    && (forall q | q in clustered :: q < |c|)
    && Placed(edges, clustered, {})
    && NoRepeats(edges)
    && Emitted(c, replies, t, pairs, edges)
    && AllSettled(c, replies, t, edges, clustered)
  }

  lemma PoppingKeepsGrowing(c: seq<Candidate>, replies: seq<Reply>, t: real, clustered: set<nat>, start: nat,
                            queried: set<nat>, cluster: set<nat>, frontier: seq<nat>, pairs: seq<NeighborPair>,
                            edges: seq<Edge>)
    requires |replies| == |c| && Growing(c, replies, t, clustered, start, queried, cluster, frontier, pairs, edges) &&
             frontier != []
    ensures Growing(c, replies, t, clustered, start, queried + {frontier[0]}, cluster, frontier[1..], pairs, edges)
    ensures frontier[0] < |c| && frontier[0] !in queried && frontier[0] !in clustered && frontier[0] in cluster
  {
  }

  lemma StartsGrowing(c: seq<Candidate>, replies: seq<Reply>, t: real, clustered: set<nat>, start: nat,
                      pairs: seq<NeighborPair>, edges: seq<Edge>)
    requires |replies| == |c| && Swept(c, replies, t, clustered, pairs, edges) && start < |c| && start !in clustered
    ensures Growing(c, replies, t, clustered, start, clustered, {start}, [start], pairs, edges)
  {
    Reflexive(EdgeSet(edges), start);
  }

  lemma ExhaustedIsSwept(c: seq<Candidate>, replies: seq<Reply>, t: real, clustered: set<nat>, start: nat,
                         queried: set<nat>, cluster: set<nat>, pairs: seq<NeighborPair>, edges: seq<Edge>)
    requires |replies| == |c| && Growing(c, replies, t, clustered, start, queried, cluster, [], pairs, edges)
    requires AllSettled(c, replies, t, edges, queried)
    ensures clustered + cluster == queried && Swept(c, replies, t, queried, pairs, edges)
  {
  }

  /** The whole search state between two pops of the frontier. */
  ghost predicate Searching(c: seq<Candidate>, replies: seq<Reply>, t: real, clustered: set<nat>, start: nat,
                            queried: set<nat>, cluster: set<nat>, frontier: seq<nat>, pairs: seq<NeighborPair>,
                            edges: seq<Edge>, calls: seq<nat>, work: nat)
    requires |replies| == |c|
  {
    && Growing(c, replies, t, clustered, start, queried, cluster, frontier, pairs, edges)
    && start in cluster
    && AllSettled(c, replies, t, edges, queried)
    && CallsOk(c, queried, calls, work)
    && Trail(c, replies, queried, calls)
    && work == WorkOf(c, queried)
  }

  /** Asking one more candidate is charged its class size and recorded as one more call. */
  lemma Charged(c: seq<Candidate>, byProfile: map<seq<ContextId>, seq<MemoryId>>, queried: set<nat>, current: nat,
                calls: seq<nat>, work: nat)
    requires CallsOk(c, queried, calls, work) && work == WorkOf(c, queried) && current < |c| && current !in queried
    requires Indexed(c, byProfile) && c[current].embedded
    ensures c[current].profile in byProfile
    ensures var next := work + |byProfile[c[current].profile]|;
            && CallsOk(c, queried + {current}, calls + [current], next)
            && next == WorkOf(c, queried + {current}) <= TotalWork(c)
  {
    WorkGrows(c, queried, current, |c|);
    OneMoreCall(c, queried, current, calls, work);
    OverBudget(c, queried + {current});
  }

  lemma OneMoreCall(c: seq<Candidate>, queried: set<nat>, current: nat, calls: seq<nat>, work: nat)
    requires CallsOk(c, queried, calls, work) && current < |c| && current !in queried && c[current].embedded
    ensures CallsOk(c, queried + {current}, calls + [current], work + Work(c, current))
  {
    CallAdds(c, calls, current);
    forall k: nat | k < |calls| ensures calls[k] != current && calls[k] in queried + {current} {
    }
  }

  lemma NotCharged(c: seq<Candidate>, queried: set<nat>, current: nat, calls: seq<nat>, work: nat)
    requires CallsOk(c, queried, calls, work) && work == WorkOf(c, queried) && current < |c| && current !in queried
    ensures CallsOk(c, queried + {current}, calls, work)
    ensures !c[current].embedded ==> work == WorkOf(c, queried + {current})
  {
    WorkGrows(c, queried, current, |c|);
  }

  datatype Step = Continue | Failed(error: StoreError) | OutOfBudget

  /** What holds when the search stops early: its last query failed, or the budget cannot cover everybody. */
  ghost predicate EndsWell(c: seq<Candidate>, replies: seq<Reply>, t: real, budget: nat, step: Step,
                           pairs: seq<NeighborPair>, edges: seq<Edge>, calls: seq<nat>)
    requires |replies| == |c|
  {
    match step
    case Continue => true
    case Failed(error) => StopsAtFailure(replies, calls, error)
    case OutOfBudget =>
      TotalWork(c) > budget && Answered(replies, calls) && NoRepeats(edges) && Emitted(c, replies, t, pairs, edges)
  }

  /** One round of the inner loop of bfs_discover_pairs, from the popped `current` on. */
  method Visit(c: seq<Candidate>, replies: seq<Reply>, t: real, byProfile: map<seq<ContextId>, seq<MemoryId>>,
               budget: nat, current: nat, queried0: set<nat>, cluster0: set<nat>, frontier0: seq<nat>,
               pairs0: seq<NeighborPair>, work0: nat, ghost clustered: set<nat>, ghost start: nat,
               ghost edges0: seq<Edge>, ghost calls0: seq<nat>)
    returns (step: Step, queried: set<nat>, cluster: set<nat>, frontier: seq<nat>, pairs: seq<NeighborPair>, work: nat,
             ghost edges: seq<Edge>, ghost calls: seq<nat>)
    requires DistinctIds(c) && |replies| == |c| && Indexed(c, byProfile) && current < |c|
    requires current !in queried0 && current in cluster0 && current !in clustered && work0 <= budget
    requires Growing(c, replies, t, clustered, start, queried0 + {current}, cluster0, frontier0, pairs0, edges0)
    requires Searching(c, replies, t, clustered, start, queried0, cluster0, [current] + frontier0, pairs0, edges0,
                       calls0, work0)
    ensures queried == queried0 + {current} && work <= budget && CallsOk(c, queried, calls, work)
    ensures step.Continue? ==> Searching(c, replies, t, clustered, start, queried, cluster, frontier, pairs, edges,
                                         calls, work)
    ensures EndsWell(c, replies, t, budget, step, pairs, edges, calls)
  {
    step, queried, cluster, frontier, pairs, work, edges, calls :=
      Continue, queried0 + {current}, cluster0, frontier0, pairs0, work0, edges0, calls0;
    NotCharged(c, queried0, current, calls, work);
    TrailGrows(c, replies, queried0, calls, current);
    if c[current].embedded {
      Charged(c, byProfile, queried0, current, calls, work);
      var nextWork := work + |byProfile[c[current].profile]|;
      if nextWork > budget {
        return OutOfBudget, queried, cluster, frontier, pairs, work, edges, calls;
      }
      work, calls := nextWork, calls + [current];
      if replies[current].Failure? {
        return Failed(replies[current].error), queried, cluster, frontier, pairs, work, edges, calls;
      }
      cluster, frontier, pairs, edges :=
        CollectNeighbors(c, replies, t, current, queried, cluster, frontier, pairs, clustered, start, edges);
      AskingSettles(c, replies, t, edges, start, cluster, current);
    }
    SettledGrows(c, replies, t, edges0, edges, queried0);
  }

  /** The inner loop of bfs_discover_pairs: grows the cluster of one root until its frontier is empty or the budget is
      spent. `skipped` counts how often the repeated-query guard fires. */
  method GrowCluster(c: seq<Candidate>, replies: seq<Reply>, t: real, byProfile: map<seq<ContextId>, seq<MemoryId>>,
                     budget: nat, start: nat, queried0: set<nat>, pairs0: seq<NeighborPair>, work0: nat,
                     ghost edges0: seq<Edge>, ghost calls0: seq<nat>)
    returns (step: Step, cluster: set<nat>, queried: set<nat>, pairs: seq<NeighborPair>, work: nat,
             ghost edges: seq<Edge>, ghost calls: seq<nat>, ghost skipped: int)
    requires DistinctIds(c) && |replies| == |c| && start < |c| && start !in queried0
    requires Indexed(c, byProfile)
    requires Swept(c, replies, t, queried0, pairs0, edges0)
    requires CallsOk(c, queried0, calls0, work0) && work0 == WorkOf(c, queried0) && work0 <= budget
    requires Trail(c, replies, queried0, calls0)
    ensures skipped == 0
    ensures CallsOk(c, queried, calls, work) && work <= budget
    ensures EndsWell(c, replies, t, budget, step, pairs, edges, calls)
    ensures step.Continue? ==>
              && queried == queried0 + cluster && start in queried
              && Swept(c, replies, t, queried, pairs, edges)
              && Trail(c, replies, queried, calls)
              && work == WorkOf(c, queried)
  {
    step, skipped := Continue, 0;
    queried, pairs, work, edges, calls := queried0, pairs0, work0, edges0, calls0;
    var frontier := [start];
    cluster := {start};
    StartsGrowing(c, replies, t, queried0, start, pairs, edges);
    while step.Continue? && frontier != []
      invariant skipped == 0 && work <= budget && (forall q | q in queried :: q < |c|)
      invariant CallsOk(c, queried, calls, work)
      invariant step.Continue? ==> Searching(c, replies, t, queried0, start, queried, cluster, frontier, pairs, edges,
                                             calls, work)
      invariant EndsWell(c, replies, t, budget, step, pairs, edges, calls)
      decreases |c| - |queried|, |frontier|
    {
      PoppingKeepsGrowing(c, replies, t, queried0, start, queried, cluster, frontier, pairs, edges);
      var current := frontier[0];
      assert frontier == [current] + frontier[1..];
      frontier := frontier[1..];
      RangeBound(queried, |c|);
      if current in queried {
        skipped := skipped + 1;
      } else {
        RangeBound(queried + {current}, |c|);
        assert |queried + {current}| == |queried| + 1;
        step, queried, cluster, frontier, pairs, work, edges, calls :=
          Visit(c, replies, t, byProfile, budget, current, queried, cluster, frontier, pairs, work, queried0, start,
                edges, calls);
      }
    }
    if step.Continue? {
      ExhaustedIsSwept(c, replies, t, queried0, start, queried, cluster, pairs, edges);
    }
  }

  lemma OverBudget(c: seq<Candidate>, queried: set<nat>)
    ensures WorkOf(c, queried) <= TotalWork(c)
  {
    WorkMonotone(c, queried, Embedded(c), |c|);
  }

  datatype Discovered = Discovered(pairs: seq<NeighborPair>, capped: bool)

  /** Once every embedded candidate is settled, the emitted edges have the components of the full graph. */
  lemma SettledEverywhere(c: seq<Candidate>, replies: seq<Reply>, t: real, pairs: seq<NeighborPair>, edges: seq<Edge>,
                          asked: set<nat>)
    requires |replies| == |c| && Emitted(c, replies, t, pairs, edges) && AllSettled(c, replies, t, edges, asked)
    requires Embedded(c) <= asked
    ensures SameComponents(FullGraph(c, replies, t), EdgeSet(edges))
  {
    var full, some := FullGraph(c, replies, t), EdgeSet(edges);
    forall e | e in full ensures Connected(some, e.0, e.1) {
      assert e.0 in Embedded(c) && Settled(c, replies, t, edges, e.0);
    }
    EmittedWithinFull(c, replies, t, pairs, edges);
    forall x: nat, y: nat ensures Connected(full, x, y) <==> Connected(some, x, y) {
      if Connected(full, x, y) {
        ConnectivityCarries(full, some, x, y);
      }
      if Connected(some, x, y) {
        Monotone(some, full, x, y);
      }
    }
  }

  /** Capped or not, nothing is emitted that the full graph does not hold. */
  lemma EmittedWithinFull(c: seq<Candidate>, replies: seq<Reply>, t: real, pairs: seq<NeighborPair>, edges: seq<Edge>)
    requires |replies| == |c| && Emitted(c, replies, t, pairs, edges)
    ensures EdgeSet(edges) <= FullGraph(c, replies, t)
  {
    forall e | e in edges ensures Answers(c, replies, t, e.0, e.1) {
      var k: nat :| k < |edges| && edges[k] == e;
      assert PairIsAnswer(c, replies, t, pairs[k], e);
    }
  }

  lemma FinishedWithinBudget(c: seq<Candidate>, queried: set<nat>)
    requires Embedded(c) <= queried
    ensures TotalWork(c) == WorkOf(c, queried)
  {
    WorkMonotone(c, Embedded(c), queried, |c|);
    OverBudget(c, queried);
  }

  /** Every call asks an embedded candidate, none is asked twice, and the charged work stays within the budget. */
  ghost predicate WithinBudget(c: seq<Candidate>, budget: nat, calls: seq<nat>) {
    && (forall k: nat | k < |calls| :: calls[k] < |c| && c[calls[k]].embedded)
    && Distinct(calls)
    && SumOfCalls(c, calls) <= budget
  }

  /** The search was made properly: it stopped at the first failed query, or every query was answered and, unless the
      run was capped, everybody embedded was asked. */
  ghost predicate Conducted(c: seq<Candidate>, replies: seq<Reply>, r: Result<Discovered>, calls: seq<nat>) {
    match r
    case Failure(error) => StopsAtFailure(replies, calls, error)
    case Success(d) => Answered(replies, calls) && (!d.capped ==> Called(c, Embedded(c), calls))
  }

  /** The result is right: every emitted pair is an acceptable answer and no undirected edge occurs twice; the run is
      capped exactly when asking everybody once would exceed the budget; an uncapped run has the components of the full
      graph. */
  ghost predicate Faithful(c: seq<Candidate>, replies: seq<Reply>, t: real, budget: nat, d: Discovered,
                           edges: seq<Edge>)
    requires |replies| == |c|
  {
    && Emitted(c, replies, t, d.pairs, edges)
    && NoRepeats(edges)
    && (d.capped <==> TotalWork(c) > budget)
    && (!d.capped ==> SameComponents(FullGraph(c, replies, t), EdgeSet(edges)))
  }

  lemma SweptIsFaithful(c: seq<Candidate>, replies: seq<Reply>, t: real, budget: nat, queried: set<nat>,
                        pairs: seq<NeighborPair>, edges: seq<Edge>)
    requires |replies| == |c| && Swept(c, replies, t, queried, pairs, edges) && AskedBelow(c, |c|, queried)
    requires WorkOf(c, queried) <= budget
    ensures Faithful(c, replies, t, budget, Discovered(pairs, false), edges)
  {
    FinishedWithinBudget(c, queried);
    SettledEverywhere(c, replies, t, pairs, edges, queried);
  }

  ghost predicate AskedBelow(c: seq<Candidate>, k: nat, queried: set<nat>)
    requires k <= |c|
  {
    forall i: nat | i < k && c[i].embedded :: i in queried
  }

  lemma AskedStep(c: seq<Candidate>, k: nat, queried: set<nat>, more: set<nat>)
    requires k < |c| && AskedBelow(c, k, queried) && queried <= more && (c[k].embedded ==> k in more)
    ensures AskedBelow(c, k + 1, more)
  {
  }

  lemma StartsSwept(c: seq<Candidate>, replies: seq<Reply>, t: real)
    requires |replies| == |c|
    ensures Swept(c, replies, t, {}, [], []) && CallsOk(c, {}, [], 0) && WorkOf(c, {}) == 0
  {
    NothingAsked(c, |c|);
  }

  /** bfs_discover_pairs. `edges` are the emitted pairs as index edges, `calls` the oracle queries in order, and
      `skipped` counts how often the repeated-query guard fires. */
  method DiscoverPairs(c: seq<Candidate>, replies: seq<Reply>, t: real, neighborLimit: nat)
    returns (r: Result<Discovered>, ghost edges: seq<Edge>, ghost calls: seq<nat>, ghost skipped: int)
    requires DistinctIds(c) && |replies| == |c|
    ensures skipped == 0 && WithinBudget(c, |c| * neighborLimit, calls)
    ensures Conducted(c, replies, r, calls)
    ensures r.Success? ==> Faithful(c, replies, t, |c| * neighborLimit, r.value, edges)
    ensures r.Success? ==> (r.value.capped <==> TotalWork(c) > |c| * neighborLimit)
  {
    var budget := |c| * neighborLimit;
    var byProfile := IndexByProfile(c);
    var clustered: set<nat>, queried: set<nat>, pairs: seq<NeighborPair>, work: nat := {}, {}, [], 0;
    edges, calls, skipped := [], [], 0;
    StartsSwept(c, replies, t);
    for start := 0 to |c|
      invariant clustered == queried && skipped == 0
      invariant Swept(c, replies, t, queried, pairs, edges)
      invariant CallsOk(c, queried, calls, work) && work == WorkOf(c, queried) && work <= budget
      invariant AskedBelow(c, start, queried) && Trail(c, replies, queried, calls)
    {
      if start in clustered || !c[start].embedded {
        AskedStep(c, start, queried, queried);
        continue;
      }
      ghost var before := queried;
      var step, cluster;
      ghost var fired;
      step, cluster, queried, pairs, work, edges, calls, fired :=
        GrowCluster(c, replies, t, byProfile, budget, start, queried, pairs, work, edges, calls);
      skipped := skipped + fired;
      clustered := clustered + cluster;
      assert WithinBudget(c, budget, calls);
      if step.Failed? {
        return Failure(step.error), edges, calls, skipped;
      }
      if step.OutOfBudget? {
        return Success(Discovered(pairs, true)), edges, calls, skipped;
      }
      AskedStep(c, start, before, queried);
    }
    assert WithinBudget(c, budget, calls);
    SweptIsFaithful(c, replies, t, budget, queried, pairs, edges);
    r := Success(Discovered(pairs, false));
  }

  lemma {:induction false} NothingAsked(c: seq<Candidate>, n: nat)
    requires n <= |c|
    ensures WorkBelow(c, {}, n) == 0
  {
    if n > 0 {
      NothingAsked(c, n - 1);
    }
  }
}

# LocalHold: verified models of its algorithmic core

LocalHold is a memory server for agents. This project models the five parts of it that carry non-trivial algorithms and proves
what they promise, for all inputs or over all runs:

- **Duplicate consolidation** (`Discovery`, `UnionFind`, `Grouping`, `Consolidation`, on top of `Graph` and `Sorting`). A
  budgeted breadth-first search queries an asymmetric, truncated nearest-neighbour oracle; in-place union-find clusters the
  sparse edges it emits; the groups are averaged, ranked and merged in the store. The main theorem joins the halves: an
  uncapped run reports exactly the connected components of the full answer graph.
- **Task admission and shutdown** (`BackgroundTasks`, `ShutdownSafety`, `ShutdownTheorems`, `ShutdownRestart`, `ShutdownRuns`).
  A transition system with one step per atomic operation or lock operation and any number of agents; seven inductive
  invariants; exclusion, conservation, no lost wake-up, and exact conditions for what a timed-out shutdown leaves behind.
- **Context policy** (`ContextHierarchy`, `ContextPolicy`). The layered merge, against a specification on the *set* of anchors,
  and the cycle-guarded ancestor walk that picks the most specific ones.
- **Ranking** (`Ordering`, `Fusion`, `Scoring`, `Suppression`). Reciprocal rank fusion through a hash map, composite scoring and
  its deterministic order, and greedy diversity with in-place swap compaction.
- **HTTP sessions** (`Sessions`). The capped session manager with its create lock, activity map, stream guards and reaper.

`dafny verify dfyconfig.toml` checks the project.

## Conventions

The oracle and the store are parameters: `replies[i]` is the answer to the query for candidate `i`, `store(k)` the outcome of
the k-th write, both arbitrary and either may fail. Hash maps are drained in an arbitrary order. The library sort is the
function `Sorting.SortBy`; where the order has no ties, `Sorting.SortedUnique` shows that nothing else could come out.
Similarities, scores and distances are reals; `exp2` and `ln_1p` are parameters with the facts `Scoring.Sound` lists.

Some promises of the sources hold only under a condition. The model states each condition exactly, with a run or an input for
the other side:

- After a timed-out shutdown published its flag, admitted spawns are refused while guards are live if and only if no guard drop
  is between its decrement to zero and its swap, and no spawn had read the open flag before (`RefusedWhilePositiveExactly`;
  `StaleSwapReopensEarly`, `ClearedSpawnStillInserts`). A spawn of the second kind still lands in the set that is then taken.
- Its gates can reopen if and only if a guard is live or a drop is about to swap (`ReopensExactly`). Short of
  another shutdown they are stranded for good, by exactly two steps (`StrandedByExactly`, `StrandedExactly`; `LateDropStrands`, `BackOutStrands`).
- A shutdown called when none is running, after any history of such calls, excludes new work if and only if nobody is
  reopening the gate and, with the reset flag up, no guard is live and no drop is about to swap (`RestartExcludesExactly`;
  `OverlapBreaksExclusion`, `StrandedThenTwoMore`). If all earlier calls found the gate open, that means that this one finds
  it open or the coordinator stranded (`FirstRestartExcludesExactly`).
- A drained shutdown admits no task except a best-effort spawn that had passed its check inside the lock
  (`DrainedExcludesWork`; `BestEffortStillInserts`).
- A stream count equals the live guards if and only if no entry is removed or overwritten under a live guard
  (`ExactExactlyWhenNeverDetached`; `DetachedGuardHidesAStream`), the reaper closes no session under a stream if and only if
  streams balance between its check and its close (`ReaperSparesLiveStreamsExactly`; `ReaperClosesUnderAStream`), and every
  session keeps its activity entry if and only if no removal comes late (`TrackedExactlyWithoutLateRemoval`;
  `LateRemovalHidesASession`).
- On cyclic context hierarchies anchors may discard each other (`CycleRetainsNothing`); when something is retained, and when
  every discarded anchor has a retained one below it, is stated by `SomethingIsRetainedExactly` and `DiscardedAreRefinedExactly`.
- The comment on duplicate suppression says that results adjusted to 0 or less are dropped; of these the code keeps exactly the
  ones without an embedding (`NonPositiveKeptExactly`; `ZeroScoreKept`).

## Model

| member | source | states |
|---|---|---|
| `UnionFind.Find` | src/consolidation.rs:76-84 | Terminates on every reachable parent array (rank climbs strictly along links), returns the root of `i` in the old forest, and path halving leaves every element its root. |
| `UnionFind.HalvingKeepsRoot` | src/consolidation.rs:80 | One halving write keeps the forest shape and every root. |
| `UnionFind.LinkByRank` | src/consolidation.rs:93-100 | The three rank cases of the link: the relation grows by exactly the two trees, and every root keeps a tree of at least 2^rank members. |
| `UnionFind.Union` | src/consolidation.rs:87-101 | The new relation is exactly the old one joined through (a, b), on the state two path-halving finds leave behind; the size invariant is kept. |
| `UnionFind.JoinedIsSmallest` | src/consolidation.rs:87-101 | Every equivalence that contains the old relation and (a, b) contains the joined one: together with `Union`, the result is the smallest such equivalence. |
| `UnionFind.RankIsLogarithmic` | src/consolidation.rs:86-98 | 2^rank never exceeds the number of elements, roots and inner nodes alike, so the rank increment cannot overflow. |
| `Graph.AddingAnEdge` | src/consolidation.rs:163 | Undirected connectivity after adding one edge, stated by old connectivity alone: the independent meaning that `Union` is compared with. |
| `Graph.ConnectivityCarries` | src/engine.rs:1589-1623 | If every edge of one graph joins two connected points of another, all its connected points are connected there. |
| `Discovery.IndexByProfile` | src/engine.rs:1565-1568 | Every ordered profile that occurs is mapped to the ids of exactly its candidates, in listing order. |
| `Discovery.CollectNeighbors` | src/engine.rs:1715-1753 | After one answer list every acceptable neighbour is in the cluster, there are exactly as many new pairs as new members and each ends in one, nothing earlier is lost, and the search invariant is kept. |
| `Discovery.NewEdgeIsNew` | src/engine.rs:1737-1748 | An edge from the unclustered current node to a node outside the cluster repeats no emitted edge in either direction and is no self-edge. |
| `Discovery.Visit` | src/engine.rs:1594-1622 | One turn of the inner loop: the work charged is the size of the profile class, the budget is never exceeded, and a refused turn means the total work really exceeds the budget. |
| `Discovery.GrowCluster` | src/engine.rs:1580-1625 | One root: terminates, the re-query guard never fires, and at exhaustion every member of the cluster is expanded and settled. |
| `Discovery.DiscoverPairs` | src/engine.rs:1555-1632 | For every listing and every (asymmetric, truncated, failing) oracle: each candidate is queried at most once, the charged work stays within candidates times neighbour limit, a failure is that of the last query and no earlier one failed, success means every query was answered and an uncapped run asked every embedded candidate, the run is capped if and only if the summed class sizes exceed the budget, no undirected edge or self-edge repeats, and an uncapped run has exactly the connected components of the full answer graph. |
| `Discovery.SettledEverywhere` | src/engine.rs:1589-1623 | Edges dropped because both ends were already in the cluster do not change any component. |
| `Discovery.EmittedWithinFull` | src/engine.rs:1740-1747 | Every emitted edge is an oracle answer between known candidates of one ordered profile at or above the threshold. |
| `Discovery.SmallClassesFit` | src/engine.rs:1558-1608 | When no profile class is larger than the neighbour limit, the total work fits the budget, so with `DiscoverPairs` the run is never capped. |
| `Grouping.UniteLinks` | src/consolidation.rs:157-166 | The kept links are exactly the pairs with two known, different ends, and the forest relates exactly what those links connect. |
| `Grouping.MembersByRoot` | src/consolidation.rs:169-173 | The map lists under each root exactly the indices of its class, in order, while path halving goes on. |
| `Grouping.SimilaritiesByRoot` | src/consolidation.rs:176-182 | Sum and count per root are those of the links inside that class, every link counted once. |
| `Grouping.DescribesGroup` | src/consolidation.rs:104-123 | What is built for a component of two or more: its ids, sorted and each once; the member that is greatest by effective use time, update time and id; its size; the mean over its links. |
| `Grouping.ComponentHasLink` | src/consolidation.rs:188-189 | A component with two members has a link, so the fallback to 0.0 is never taken. |
| `Grouping.CollectGroups` | src/consolidation.rs:184-192 | Whatever order the map is walked in, each root of a class of two or more gives one group. |
| `Grouping.CollectedIsAll` | src/consolidation.rs:184-192 | The collected groups are exactly those of the connected components with two or more members, each once. |
| `Grouping.SameRepresentativeSameGroup` | src/consolidation.rs:194-199 | Different groups have different representatives, so the sort has no ties. |
| `Grouping.GroupOrderUnique` | src/consolidation.rs:194-199 | There is one sorted list of the groups, whatever order the hash map yields them in. |
| `Grouping.FindDuplicateGroups` | src/consolidation.rs:144-202 | The result is the leading part, up to the limit, of the sorted list of all component groups. |
| `Grouping.TopGroupsUnique` | src/consolidation.rs:194-200 | For given links there is one such list. |
| `Grouping.LinkInOneGroup` | src/consolidation.rs:175-182 | The accepted edges are partitioned over the groups: both ends of each lie in one group and in no other. |
| `Grouping.MeanAtLeast` | src/consolidation.rs:188-189 | The mean of a group is at least the threshold when every link is. |
| `Consolidation.DiscoveredLinksDistinct` | src/engine.rs:1737-1747 | Every link discovery hands over is an answer of one end about the other with that similarity, and the links are pairwise different as undirected edges, so each mean is over distinct edges. |
| `Consolidation.GroupsAreFullComponents` | src/engine.rs:1516-1519 | End to end: with discovery uncapped, the groups are exactly the connected components of size two or more of the full answer graph, each with its sorted ids, its most recent member and the mean over its links. |
| `Consolidation.MergeGroup` | src/engine.rs:1652-1682 | The writes are, in order, one per non-representative member; conflicts, denials and missing rows are skipped; success means that all were made and none broke, and merged that some applied; failure stops at the first broken write with its error, or at a missing snapshot with none broken. |
| `Consolidation.MergeGroups` | src/engine.rs:1638-1650 | The same over all groups in order. |
| `Consolidation.PlanMarksOnce` | src/engine.rs:1663-1672 | No memory is marked twice in one run. |
| `Consolidation.TargetsAreNeverMarked` | src/engine.rs:1663-1672 | No write targets a memory that the same run marks, so no chains or cycles arise. |
| `Consolidation.PlannedWritesAreSafe` | src/engine.rs:1734-1736 | Every prefix of the writes marks once, never marks a target, and pairs memories of identical ordered profile. |
| `Consolidation.SnapshotsAtHand` | src/engine.rs:1530-1533 | Both snapshots of every write are found. |
| `Consolidation.FoundIsGrounded` | src/engine.rs:1516-1519 | The groups rest on distinct links that are answers of the oracle; each describes its component, most recent member and mean included, and lies inside one component of the full graph even when the search was capped. |
| `Consolidation.PartsOfComponents` | src/engine.rs:1740-1747 | Capped or not, links that are answers connect nothing that the full answer graph does not. |
| `Consolidation.FindGroups` | src/engine.rs:1516-1519 | Discovery and clustering together: capped exactly when the work exceeds the budget; success means every query was answered, failure is that of the last query; the groups are the leading sorted ones of distinct answer links, each with representative and mean; uncapped, everybody embedded was asked and they are the leading full components. |
| `Consolidation.ConsolidateMemories` | src/engine.rs:1477-1543 | The whole operation with every exit: threshold outside [0, 1] is refused before any work; dry runs write nothing; writes are always safe even on failure; a failed request failed in the listing, in its last query or in its last write, and nothing had failed before; a completed one had every query answered and no write broken, its count and cap flag mean what they say, every reported group describes a component of distinct answer links (ids, most recent member, mean at or above the threshold) inside one full component, and a run within budget asked everybody embedded and reports the leading full components. |
| `ShutdownSafety.CountStep` | src/background_tasks.rs:87-105 | The counter equals the live guards plus the begins between increment and outcome after every step. |
| `ShutdownSafety.NoUnderflow` | src/background_tasks.rs:94-95 | Whoever is about to decrement is itself counted, so the counter is positive. |
| `ShutdownSafety.Preserved` | src/background_tasks.rs:135-204 | Every step of every agent and of the shutdown call keeps all seven invariants: counter, lock, task sets, gates, drain, wake-up, cleanup. |
| `ShutdownSafety.RunsKeepInv` | src/background_tasks.rs:135-204 | The invariants hold in every state of every interleaving of any number of agents. |
| `ShutdownTheorems.DrainedExcludesWork` | src/background_tasks.rs:143-181 | From the moment the wait sees zero until the gate reopens, in every run: the gate is closed, no guard is live, the set stays empty once taken, and a task enters exactly when a best-effort spawn that holds the lock and saw the gate open inserts before the take. |
| `ShutdownTheorems.TasksAreConserved` | src/background_tasks.rs:111-125 | In every state of every run each spawned task is in exactly one of the shared set, the taken set, joined or dropped. |
| `ShutdownTheorems.TasksMoveForward` | src/background_tasks.rs:153-181 | Over any run tasks only move forward: nothing joined or dropped returns, and the shared set gains new tasks only. |
| `ShutdownTheorems.DroppedOnlyAfterCleanup` | src/background_tasks.rs:154-181 | In every run no step drops a task unless the cleanup of its shutdown has run. |
| `ShutdownTheorems.OnlyNewTasksAfterReopening` | src/background_tasks.rs:179-180 | After a drained shutdown reopens, the shared set holds only tasks spawned after that. |
| `ShutdownSafety.WakeActStep` | src/background_tasks.rs:254-265 | While the waiter is parked without a notification, the count is positive or someone owes a notify, whoever decrements, a rejected begin included. |
| `ShutdownTheorems.QuiescentWaiterIsWoken` | src/background_tasks.rs:185-204 | A parked waiter with no agent counted and none owing a notify can be woken: no wake-up is lost. |
| `ShutdownTheorems.ClosedWhilePositiveExactly` | src/background_tasks.rs:145-146 | After the reset flag is published with the count positive, the admitted-spawn gate stays closed through every run that keeps the count positive, if and only if no guard drop sits between its decrement to zero and its swap. |
| `ShutdownTheorems.ClearedSincePublication` | src/background_tasks.rs:231-240 | After publication, while the count stays positive and no swap was pending, an agent past the check of its admitted spawn was past it already at publication, holds the lock, and the task set is not yet taken. |
| `ShutdownTheorems.LateSpawnsAreTaken` | src/background_tasks.rs:145-160 | In every run an admitted spawn that inserts while the reset flag is up does so inside the lock and before the timed-out shutdown takes the task set. |
| `ShutdownTheorems.RefusedWhilePositiveExactly` | src/background_tasks.rs:231-240 | After publication every admitted spawn is refused through all runs that keep the count positive, if and only if no guard drop has yet to swap and no spawn had already read the open flag. |
| `ShutdownRuns.ClearedSpawnStillInserts` | src/background_tasks.rs:231-240 | A run in which an admitted spawn that read the flag before it was set inserts after publication, with its guard live and no swap pending. |
| `ShutdownRuns.BestEffortStillInserts` | src/background_tasks.rs:115-123 | A run in which a best-effort spawn that saw the gate open inserts after the wait has seen zero. |
| `ShutdownTheorems.SwapLeadsToOpenGates` | src/background_tasks.rs:258-262 | A drop that swapped the flag opens both gates. |
| `ShutdownTheorems.GuardCanDropLast` | src/background_tasks.rs:254-262 | While the flag is up and a guard is live, some continuation makes that guard the last to drop. |
| `ShutdownTheorems.ReopensExactly` | src/background_tasks.rs:143-160 | After publication some run reopens both gates if and only if a guard is live or a drop is about to swap. |
| `ShutdownTheorems.StrandedForever` | src/background_tasks.rs:143-160 | Otherwise the gates stay closed in every run. |
| `ShutdownTheorems.StrandedByExactly` | src/background_tasks.rs:143-160 | The only two steps that strand the gates: publishing with no guard live and no swap pending, and, with the flag up and no swap pending, the last live guard decrementing a count above one. |
| `ShutdownTheorems.BeginsLeftBehind` | src/background_tasks.rs:93-99 | In the second case a rejected begin is still counted and will make the last decrement. |
| `ShutdownTheorems.StrandedExactly` | src/background_tasks.rs:143-160 | Over whole runs: the gates end stranded if and only if one of these two steps was taken. |
| `ShutdownRuns.LateDropStrands` | src/background_tasks.rs:145-146 | A run that strands the gates: the last drop completes before the flag is published. |
| `ShutdownRuns.BackOutStrands` | src/background_tasks.rs:93-99 | A run that strands the gates: the last decrement is made by a rejected begin. |
| `ShutdownRuns.StaleSwapReopensEarly` | src/background_tasks.rs:258-262 | A run in which a drop that reached zero before the shutdown began reopens the gates while another guard is live. |
| `ShutdownRuns.OverlapBreaksExclusion` | src/background_tasks.rs:135-181 | Why one shutdown at a time: a second one started over a published flag can see zero and have a guard go live while it drains. |
| `ShutdownRestart.ShutOverRuns` | src/background_tasks.rs:135-181 | In every run a gate that no running shutdown keeps shut is shut by a published flag or is just being reopened. |
| `ShutdownRestart.RestartExcludesExactly` | src/background_tasks.rs:135-181 | After any history in which shutdowns were called whenever none was running, one more call excludes new work in every run, until it reopens the gate or gives up, if and only if nobody is reopening the gate and, with the reset flag up, no guard is live and no drop is about to swap. |
| `ShutdownRestart.ShutdownExcludesExactly` | src/background_tasks.rs:135-181 | The same for a call made in any state with a right counter and lock: no live guard, no task entering except a best-effort spawn past its check before the take, an empty set after it, if and only if nobody is left to reopen the gate underneath. |
| `ShutdownRestart.HeldOverRuns` | src/background_tasks.rs:141-181 | The invariant behind it: while the call waits and drains, the gate is shut and nobody left can reopen it. |
| `ShutdownRestart.FirstRestartExcludesExactly` | src/background_tasks.rs:135-181 | When every earlier shutdown was called from the open gate, the condition says that the gate is open or the coordinator stranded. |
| `ShutdownRuns.StrandedThenTwoMore` | src/background_tasks.rs:141-181 | A second shutdown of a stranded coordinator reopens the gates and leaves the flag up; a third one from the open gate can then have a guard go live while it drains. |
| `ContextHierarchy.IsAncestor` | src/context.rs:983-997 | Terminates and decides proper ancestry for every finite parent map, cyclic ones included. |
| `ContextHierarchy.AncestryIsTransitive` | src/context.rs:983-997 | Proper ancestry is transitive. |
| `ContextHierarchy.HasDescendant` | src/context.rs:970-972 | Decides whether another active anchor lies below the given one. |
| `ContextHierarchy.AboveACycle` | src/context.rs:983-997 | Everything above a context on a cycle lies on that cycle. |
| `ContextHierarchy.RetainedAreAntichain` | src/context.rs:969-973 | No retained anchor is a proper ancestor of another, in every hierarchy. |
| `ContextHierarchy.DiscardedAreRefinedExactly` | src/context.rs:969-973 | Every discarded anchor has a retained strict descendant, if and only if below every two anchors of one cycle there is an anchor off the cycle. |
| `ContextHierarchy.SomethingIsRetainedExactly` | src/context.rs:969-973 | Something is retained if and only if some anchor shares its cycle with no other anchor. |
| `ContextHierarchy.AcyclicHierarchiesRetain` | src/context.rs:969-973 | In an acyclic hierarchy every discarded anchor has a retained strict descendant, and something is retained whenever any anchor applied. |
| `ContextHierarchy.CycleRetainsNothing` | src/context.rs:969-973 | On a two-context cycle both anchors are discarded. |
| `ContextPolicy.EvaluatePolicy` | src/context.rs:806-936 | The merged policy meets a specification on the set of anchors: every field, every ambiguity and the guidance. |
| `ContextPolicy.OperatorCeilingHolds` | src/context.rs:910-921 | Operator denials and requirements survive every principal and every set of anchors. |
| `ContextPolicy.ExtraAnchorNarrows` | src/context.rs:897-901 | One more anchor never enlarges the scheme or companion sets. |
| `ContextPolicy.AnchorOrderIsIrrelevant` | src/context.rs:866-908 | Reordering or duplicating anchors changes nothing but the order of guidance. |
| `ContextPolicy.MergeAnchorBool` | src/context.rs:1015-1022 | One stated value replaces the inherited one, none or several keep it, and an ambiguity is reported exactly when anchors disagree. |
| `ContextPolicy.MergeAnchorDefault` | src/context.rs:891-896 | The same for the default context. |
| `ContextPolicy.CompanionsNarrow` | src/context.rs:1007-1013 | Intersecting one more layer gives the companions that all stating layers allow. |
| `ContextPolicy.SchemesNarrow` | src/context.rs:861-863 | The same for identity schemes, starting from the built-in set when the operator states none. |
| `ContextPolicy.MergeAnchorSets` | src/context.rs:897-907 | Over all anchors: companion and scheme sets are the intersection of all stating layers, and guidance gains each new text once. |
| `ContextPolicy.MergeCapability` | src/context.rs:881-890 | An operator denial is final, then anchors with denials winning, then principal, operator, default. |
| `ContextPolicy.MergeRequirement` | src/context.rs:868-874 | An operator requirement is final, then agreeing anchors, then principal, operator, default; disagreement is reported. |
| `ContextPolicy.SelectAnchors` | src/context.rs:963-974 | The policies merged are, in order, those of the applicable active anchors that are retained. |
| `ContextPolicy.AnchorsSpeakExactly` | src/context.rs:963-975 | Anchors have a say in the effective policy if and only if some applicable one shares its cycle with no other applicable one. |
| `ContextPolicy.DiscardedAnchorsAreRefined` | src/context.rs:969-973 | Every applicable anchor that has no say has a retained one strictly below it, if and only if below every two applicable anchors of one cycle there is one off the cycle. |
| `ContextPolicy.FirstPolicy` | src/context.rs:955-962 | The first record of the layer and kind, and none exactly when there is no such record. |
| `ContextPolicy.EvaluateEffective` | src/context.rs:947-981 | First matching operator and principal records, most specific anchors, and a kind that is missing or disabled is denied with a notice. |
| `Fusion.Accumulate` | src/fusion.rs:32-46 | After one list every entry has grown by the sum of its shares, kept the first result seen, and recorded the source once. |
| `Fusion.EntriesAreFused` | src/fusion.rs:65-66 | After both lists the entries are exactly the ids of both lists, each with the summed score over all occurrences. |
| `Fusion.Drain` | src/fusion.rs:68-75 | Whatever order the map yields its values in, each id comes out once. |
| `Fusion.Fuse` | src/fusion.rs:53-81 | The result is the leading part, up to the limit, of the sorted list of all fused documents. |
| `Fusion.FusedOrderUnique` | src/fusion.rs:78 | There is one sorted list of all fused documents. |
| `Fusion.TopFusedUnique` | src/fusion.rs:77-80 | So there is one possible output, whatever order the map is drained in. |
| `Fusion.RankContributesItsShare` | src/fusion.rs:34 | In a duplicate-free list the contribution of an id is weight / (k + rank + 1). |
| `Fusion.RankedAboveInBothScoresHigher` | src/fusion.rs:34-41 | Ranked above in both duplicate-free lists under positive weights means a strictly higher score. |
| `Ordering.ValidityOnlyGrows` | src/ordering.rs:14-22 | As time goes on a valid timestamp is never lost, never moves back, and never lies in the future. |
| `Ordering.ScoreOrderIsTotal` | src/ordering.rs:45-51 | The score comparator is a total preorder. |
| `Ordering.DistanceOrderIsTotal` | src/ordering.rs:55-63 | The distance comparator is a total preorder. |
| `Ordering.TiesShareTheId` | src/ordering.rs:45-63 | Both comparators tie only results of one memory. |
| `Scoring.BoundsAreExtremes` | src/scoring.rs:49-56 | The fold yields the least and the greatest distance that occur, and nothing exactly when none does. |
| `Scoring.SeedRetrievalScores` | src/scoring.rs:76-84 | In place, every unset score becomes the normalised one and set scores stay. |
| `Scoring.CloserSeedsHigher` | src/scoring.rs:59-74 | Within one list a closer result never seeds lower; the closest seeds 1 and the farthest 0 unless all are equally far. |
| `Scoring.ApplyCompositeScoring` | src/scoring.rs:100-161 | In place: seed, score, sort, as one function of the old list. |
| `Scoring.InputOrderIsIrrelevant` | src/scoring.rs:100-161 | With distinct ids the ranked list is the same for every permutation of the input. |
| `Scoring.DecayedMass` | src/scoring.rs:17-22 | Decay keeps the mass between zero and its stored value. |
| `Scoring.NewerIsFresher` | src/scoring.rs:31-38 | A later valid update is never less fresh. |
| `Scoring.ActivityIsUnit` | src/scoring.rs:115-116 | Activity lies in [0, 1]. |
| `Scoring.RelevanceIsUnit` | src/scoring.rs:87-92 | The blended relevance lies in [0, 1]. |
| `Scoring.CompositeRange` | src/scoring.rs:127-157 | Under validated settings and unit-interval inputs the score lies between 0 and the weight sum, which is at most 101. |
| `Scoring.RankedScoresInRange` | src/config/mod.rs:1297-1326 | Every score of a ranked list lies in [0, 101]. |
| `Scoring.BetterNeverScoresLower` | src/scoring.rs:127-155 | Dominance: at least as good in every respect never scores lower, whatever the floor and the penalties do. |
| `Scoring.FutureStampsAreIgnored` | src/ordering.rs:9-22 | An update time in the future has no influence: another future value changes neither the score nor the place in the order. |
| `Suppression.SelectAndAdjust` | src/scoring.rs:183-202 | In place: selected positions and adjusted results equal the specification of the pass, although later similarities are read from results already adjusted. |
| `Suppression.Compact` | src/scoring.rs:209-215 | The swaps bring the selected elements to the front in order. |
| `Suppression.ApplyDuplicateSuppression` | src/scoring.rs:171-218 | Selection, swap compaction, truncation and sort equal filtering by the selection and sorting; early return on a non-positive lambda or fewer than two results. |
| `Suppression.GreedyUnique` | src/scoring.rs:183-202 | There is exactly one set of kept positions that obeys the greedy rule. |
| `Suppression.SelectionIsGreedy` | src/scoring.rs:183-202 | The pass selects it: exactly the embedded, scored results lowered to at most 0 are dropped. |
| `Suppression.ScoreAfterPass` | src/scoring.rs:189-195 | An embedded, scored result ends at its old score minus 100 times lambda times its largest similarity to an earlier kept embedded result, floored at 0. |
| `Suppression.NoScoreRises` | src/scoring.rs:193-195 | No score rises, the memory stays, and an unscored result stays unscored. |
| `Suppression.SuppressionMeaning` | src/scoring.rs:171-218 | The output is sorted and is, up to order, the results at the positions of the one greedy selection, each as it ends. |
| `Suppression.NonPositiveKeptExactly` | src/scoring.rs:183-202 | A result that ends at 0 or less is kept if and only if it has no embedding. |
| `Suppression.StartsNonPositive` | src/scoring.rs:183-202 | The same for a result that starts at 0 or less. |
| `Suppression.ZeroScoreKept` | src/scoring.rs:183-188 | An input: of two results at score 0 the one without embedding is kept, the one with embedding dropped. |
| `Sessions.CapKept` | src/http_transport.rs:132-137 | Every step keeps the session count within the cap, and a caller past the capacity check still has room. |
| `Sessions.CapHolds` | src/http_transport.rs:264-270 | In every interleaving of create, restore, close and reap the session count stays within the cap. |
| `Sessions.IdleEntriesCanBeReaped` | src/http_transport.rs:145-161 | In every run an entry counts at most its live stream guards, so an entry without streams can be found stale. |
| `Sessions.ExactUntilDetached` | src/http_transport.rs:243-250 | An exact stream count becomes inexact by removing or overwriting an entry under live guards, and by no other step; a drop on an exact count never saturates. |
| `Sessions.ExactExactlyWhenNeverDetached` | src/http_transport.rs:243-250 | Over whole runs: the count equals the live guards throughout if and only if no step detaches a guard, and then no drop saturates. |
| `Sessions.ReaperSparesLiveStreams` | src/http_transport.rs:175-182 | Where the count is exact, the reaper finds stale only entries without live streams. |
| `Sessions.ReaperSparesLiveStreamsExactly` | src/http_transport.rs:175-183 | Over whole runs that end in the reaper's close: after an exact entry was found stale, the close leaves no live stream of the session behind if and only if as many streams ended as began in between. |
| `Sessions.CloseCanAlwaysRace` | src/http_transport.rs:175-186 | From every state in which a reaper is about to close, some run lets a stream begin first and lose its session. |
| `Sessions.QuietSessionsAreSpared` | src/http_transport.rs:175-183 | In particular it is enough that no stream begins in between. |
| `Sessions.TrackedUntilLateRemoval` | src/http_transport.rs:286-290 | A session loses its entry by a removal that meets a session still or again present, and in no other way. |
| `Sessions.TrackedExactlyWithoutLateRemoval` | src/http_transport.rs:286-290 | Over whole runs: every session has its entry all along, or a creator about to insert it, if and only if no removal comes late. |
| `Sessions.ReaperClosesUnderAStream` | src/http_transport.rs:175-186 | A run in which a stream starts between the reaper's check and its close. |
| `Sessions.DetachedGuardHidesAStream` | src/http_transport.rs:313-325 | A run in which a guard older than its entry hides a live stream from the reaper. |
| `Sessions.LateRemovalHidesASession` | src/http_transport.rs:286-290 | A run in which a late removal leaves a restored session without an entry. |

## Left out

- Weak memory: the atomics use Acquire and Release; the model interleaves their steps under sequential consistency.
- Overlapping shutdowns: two shutdown calls never run at the same time; the guarantees over whole runs are for shutdowns that start from the open gate, and `ShutdownRestart` says which of them a call in any other state still gives.
- ShutdownTheorems.DrainedExcludesWork: a best-effort spawn that had already passed its check inside the lock may still insert before the set is taken, because taking the lock, reading the gate and inserting are separate steps; the task is then in the set that is drained.
- Timing: deadlines and idle timeouts may fire at any moment; the reaper may find any entry without streams stale, and `last_seen` is not modelled.
- ContextPolicy.EvaluatePolicy: trimming of guidance and normalisation of scheme names are parameters, ambiguities are named by field instead of by message, and sets stand for sorted duplicate-free lists.
- Fusion.Accumulate: the map the source mutates through a reference is passed in and returned.
- Scoring.ApplyCompositeScoring: the score breakdown kept for display is not a field of the model.
- Suppression.ApplyDuplicateSuppression: embeddings and cosine similarity are parameters; the shortened vector is a prefix of the array.
- Floating point: rounding, NaN, infinities and the corner cases of `total_cmp` are not modelled; neither is the f32 accumulation in `cosine_similarity`.
- Machine integers: saturating arithmetic on counters and limits is modelled by unbounded integers; counts are bounded far below the width.
- Candidate pool limits (`candidate_pool_limits`, `base_candidate_pool_limit`): plain arithmetic on limits.
- Stores, migrations, backup, embedding orchestration, re-ranker model, HTTP routing and authentication, CLI, configuration parsing: outside the algorithmic core; only the validated ranges of the search settings are used.
- Identity normalisation of URLs, git remotes and fingerprints: rests on library parsers and hashing.

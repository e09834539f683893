/** Search results and the deterministic orders they are sorted by. */
module Ordering {
  import opened Types
  import opened Sorting

  datatype MemoryType = Semantic | Episodic | Procedural

  /** The fields of a memory that ranking reads. Times are in seconds. */
  datatype Memory = Memory(
    id: MemoryId,
    createdAt: int,
    updatedAt: int,
    lastUsedAt: Option<int>,
    memoryType: MemoryType,
    importance: real,
    confidence: real,
    activityMass: real,
    superseded: bool)

  datatype SearchResult = SearchResult(
    memory: Memory,
    distance: Option<real>,
    retrievalScore: Option<real>,
    rerankerScore: Option<real>,
    compositeScore: Option<real>)

  /** valid_updated_at: a timestamp in the future does not count. */
  function ValidUpdatedAt(m: Memory, now: int): (r: Option<int>)
    ensures r.Some? ==> r.value <= now && (r.value == m.updatedAt || (m.updatedAt > now && r.value == m.createdAt))
    ensures r.None? <==> m.updatedAt > now && m.createdAt > now
  {
    if m.updatedAt <= now then Some(m.updatedAt)
    else if m.createdAt <= now then Some(m.createdAt)
    else None
  }

  function ValidLastUsedAt(m: Memory, now: int): (r: Option<int>)
    ensures r.Some? <==> m.lastUsedAt.Some? && m.lastUsedAt.value <= now
  {
    if m.lastUsedAt.Some? && m.lastUsedAt.value <= now then m.lastUsedAt else None
  }

  /** As time goes on, a valid timestamp never gets lost and never moves back. */
  lemma ValidityOnlyGrows(m: Memory, now: int, later: int)
    requires now <= later && ValidUpdatedAt(m, now).Some?
    ensures ValidUpdatedAt(m, later).Some? && ValidUpdatedAt(m, now).value <= ValidUpdatedAt(m, later).value <= later
  {
  }

  /** Descending, with a missing value last. */
  predicate BeforeReal(a: Option<real>, b: Option<real>) {
    a.Some? && (b.None? || a.value > b.value)
  }

  predicate BeforeTime(a: Option<int>, b: Option<int>) {
    a.Some? && (b.None? || a.value > b.value)
  }

  /** cmp_search_result_score_desc, as "sorts no later than". */
  predicate ScoreLe(a: SearchResult, b: SearchResult, now: int) {
    var ta, tb := ValidUpdatedAt(a.memory, now), ValidUpdatedAt(b.memory, now);
    || BeforeReal(a.compositeScore, b.compositeScore)
    || (a.compositeScore == b.compositeScore &&
        (BeforeTime(ta, tb) || (ta == tb && a.memory.id >= b.memory.id)))
  }

  /** cmp_search_result_distance_asc: ascending, with a missing distance last, then id ascending. */
  predicate DistanceLe(a: SearchResult, b: SearchResult) {
    || (a.distance.Some? && (b.distance.None? || a.distance.value < b.distance.value))
    || (a.distance == b.distance && a.memory.id <= b.memory.id)
  }

  function ByScore(now: int): (SearchResult, SearchResult) -> bool {
    (a, b) => ScoreLe(a, b, now)
  }

  lemma ScoreOrderIsTotal(now: int)
    ensures TotalPreorder(ByScore(now))
  {
    forall a, b, c | ByScore(now)(a, b) && ByScore(now)(b, c) ensures ByScore(now)(a, c) {
      assert ScoreLe(a, b, now) && ScoreLe(b, c, now);
    }
    forall a, b ensures ByScore(now)(a, b) || ByScore(now)(b, a) {
      assert ScoreLe(a, b, now) || ScoreLe(b, a, now);
    }
  }

  lemma DistanceOrderIsTotal()
    ensures TotalPreorder(DistanceLe)
  {
  }

  /** Both orders leave no ties between different memories. */
  lemma TiesShareTheId(a: SearchResult, b: SearchResult, now: int)
    ensures ScoreLe(a, b, now) && ScoreLe(b, a, now) ==> a.memory.id == b.memory.id
    ensures DistanceLe(a, b) && DistanceLe(b, a) ==> a.memory.id == b.memory.id
  {
  }

  predicate DistinctResults(s: seq<SearchResult>) {
    forall i: nat, j: nat | i < j < |s| :: s[i].memory.id != s[j].memory.id
  }
}

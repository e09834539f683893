/** Reciprocal rank fusion of two ranked result lists. */
module Fusion {
  import opened Types
  import opened Sorting
  import opened Ordering

  datatype Mode = SemanticSearch | KeywordSearch

  datatype Fused = Fused(result: SearchResult, score: real, sources: seq<Mode>)

  // ---- Specification ----

  /** What rank `rank` (from zero) of a list contributes. */
  function Share(k: nat, rank: nat, weight: real): real {
    weight / ((k + rank + 1) as real)
  }

  predicate Appears(results: seq<SearchResult>, id: MemoryId) {
    exists r | r in results :: r.memory.id == id
  }

  /** The sum over all occurrences of a document in a list. */
  function Contribution(results: seq<SearchResult>, id: MemoryId, k: nat, weight: real): real {
    if results == [] then 0.0
    else
      var n := |results| - 1;
      Contribution(results[..n], id, k, weight) + if results[n].memory.id == id then Share(k, n, weight) else 0.0
  }

  function First(results: seq<SearchResult>, id: MemoryId): (r: SearchResult)
    requires Appears(results, id)
    ensures r in results && r.memory.id == id
  {
    if results[0].memory.id == id then results[0]
    else
      assert Appears(results[1..], id);
      First(results[1..], id)
  }

  datatype Lists = Lists(semantic: seq<SearchResult>, keyword: seq<SearchResult>, k: nat, semanticWeight: real,
                         keywordWeight: real)

  predicate Listed(l: Lists, id: MemoryId) {
    Appears(l.semantic, id) || Appears(l.keyword, id)
  }

  function Score(l: Lists, id: MemoryId): real {
    Contribution(l.semantic, id, l.k, l.semanticWeight) + Contribution(l.keyword, id, l.k, l.keywordWeight)
  }

  /** The fused entry of a listed document. */
  function FusedOf(l: Lists, id: MemoryId): (f: Fused)
    requires Listed(l, id)
    ensures f.result.memory.id == id
  {
    Fused(if Appears(l.semantic, id) then First(l.semantic, id) else First(l.keyword, id),
          Score(l, id),
          (if Appears(l.semantic, id) then [SemanticSearch] else []) +
          (if Appears(l.keyword, id) then [KeywordSearch] else []))
  }

  predicate IsFused(l: Lists, f: Fused) {
    var id := f.result.memory.id;
    Listed(l, id) && f == FusedOf(l, id)
  }

  /** One entry for each document of either list, and no other. */
  ghost predicate AllFused(l: Lists, fs: seq<Fused>) {
    Distinct(fs) && forall f :: f in fs <==> IsFused(l, f)
  }

  /** Score descending, then id descending. */
  predicate FusedLe(a: Fused, b: Fused) {
    a.score > b.score || (a.score == b.score && a.result.memory.id >= b.result.memory.id)
  }

  lemma FusedOrderIsTotal()
    ensures TotalPreorder(FusedLe)
  {
  }

  /** Whatever order the map is walked in, there is one sorted list. */
  lemma FusedOrderUnique(l: Lists, fs: seq<Fused>, gs: seq<Fused>)
    requires AllFused(l, fs) && AllFused(l, gs) && Sorted(fs, FusedLe) && Sorted(gs, FusedLe)
    ensures fs == gs
  {
    DistinctSameMultiset(fs, gs);
    SortedUnique(fs, gs, FusedLe);
  }

  // ---- Dominance ----

  lemma {:induction false} AbsentContributesNothing(results: seq<SearchResult>, id: MemoryId, k: nat, weight: real)
    requires forall i: nat | i < |results| :: results[i].memory.id != id
    ensures Contribution(results, id, k, weight) == 0.0
  {
    if results != [] {
      AbsentContributesNothing(results[..|results| - 1], id, k, weight);
    }
  }

  lemma {:induction false} RankContributesItsShare(results: seq<SearchResult>, rank: nat, k: nat, weight: real)
    requires DistinctResults(results) && rank < |results|
    ensures Contribution(results, results[rank].memory.id, k, weight) == Share(k, rank, weight)
  {
    var n := |results| - 1;
    if rank == n {
      AbsentContributesNothing(results[..n], results[rank].memory.id, k, weight);
    } else {
      RankContributesItsShare(results[..n], rank, k, weight);
    }
  }

  lemma EarlierRanksShareMore(k: nat, i: nat, j: nat, weight: real)
    requires i < j && weight > 0.0
    ensures Share(k, i, weight) > Share(k, j, weight) > 0.0
  {
    var a, b := (k + i + 1) as real, (k + j + 1) as real;
    assert 0.0 < a < b;
    assert weight / a - weight / b == weight * (b - a) / (a * b);
  }

  /** In the list, d is ranked, and e is either ranked later or not at all. */
  ghost predicate Above(results: seq<SearchResult>, d: MemoryId, e: MemoryId) {
    exists i: nat | i < |results| :: results[i].memory.id == d && forall j: nat | j <= i :: results[j].memory.id != e
  }

  lemma AboveContributesMore(results: seq<SearchResult>, d: MemoryId, e: MemoryId, k: nat, weight: real)
    requires DistinctResults(results) && weight > 0.0 && Above(results, d, e)
    ensures Contribution(results, d, k, weight) > Contribution(results, e, k, weight)
  {
    var i: nat :| i < |results| && results[i].memory.id == d && forall j: nat | j <= i :: results[j].memory.id != e;
    RankContributesItsShare(results, i, k, weight);
    if j: nat :| j < |results| && results[j].memory.id == e {
      RankContributesItsShare(results, j, k, weight);
      EarlierRanksShareMore(k, i, j, weight);
    } else {
      AbsentContributesNothing(results, e, k, weight);
      EarlierRanksShareMore(k, i, i + 1, weight);
    }
  }

  /** A document ranked above another in both duplicate-free lists scores strictly higher under positive weights. */
  lemma RankedAboveInBothScoresHigher(l: Lists, d: MemoryId, e: MemoryId)
    requires DistinctResults(l.semantic) && DistinctResults(l.keyword) && l.semanticWeight > 0.0 &&
             l.keywordWeight > 0.0
    requires Above(l.semantic, d, e) && Above(l.keyword, d, e)
    ensures Score(l, d) > Score(l, e)
  {
    AboveContributesMore(l.semantic, d, e, l.k, l.semanticWeight);
    AboveContributesMore(l.keyword, d, e, l.k, l.keywordWeight);
  }

  // ---- The fusion itself ----

  /** What an entry holds after a prefix of one list has been added to what was there before. */
  ghost predicate Grown(before: map<MemoryId, Fused>, results: seq<SearchResult>, k: nat, weight: real, source: Mode,
                        id: MemoryId, entries: map<MemoryId, Fused>)
  {
    && (id in entries <==> id in before || Appears(results, id))
    && (id in entries ==>
          && entries[id].result == (if id in before then before[id].result else First(results, id))
          && entries[id].score ==
             (if id in before then before[id].score else 0.0) + Contribution(results, id, k, weight)
          && entries[id].sources ==
               (if id in before then before[id].sources else []) +
               (if Appears(results, id) && (id in before ==> source !in before[id].sources) then [source] else []))
  }

  ghost predicate Accumulated(before: map<MemoryId, Fused>, results: seq<SearchResult>, k: nat, weight: real,
                              source: Mode, entries: map<MemoryId, Fused>)
  {
    forall id :: Grown(before, results, k, weight, source, id, entries)
  }

  function AddOne(entries: map<MemoryId, Fused>, r: SearchResult, share: real, source: Mode): map<MemoryId, Fused> {
    var id := r.memory.id;
    var e := if id in entries then entries[id] else Fused(r, 0.0, []);
    entries[id := Fused(e.result, e.score + share, if source in e.sources then e.sources else e.sources + [source])]
  }

  lemma AppearsStep(results: seq<SearchResult>, r: SearchResult, id: MemoryId)
    ensures Appears(results + [r], id) <==> Appears(results, id) || r.memory.id == id
    ensures Appears(results, id) ==> First(results + [r], id) == First(results, id)
    ensures !Appears(results, id) && r.memory.id == id ==> First(results + [r], id) == r
  {
    if Appears(results, id) {
      var x :| x in results && x.memory.id == id;
      assert x in results + [r];
    }
    if r.memory.id == id {
      assert r in results + [r];
    }
    if Appears(results + [r], id) {
      FirstStep(results, r, id);
    }
  }

  lemma {:induction false} FirstStep(results: seq<SearchResult>, r: SearchResult, id: MemoryId)
    requires Appears(results + [r], id)
    ensures Appears(results, id) ==> First(results + [r], id) == First(results, id)
    ensures !Appears(results, id) ==> First(results + [r], id) == r
  {
    if results == [] {
      assert results + [r] == [r];
    } else if results[0].memory.id == id {
      assert results[0] in results;
      assert (results + [r])[0] == results[0];
    } else {
      assert (results + [r])[1..] == results[1..] + [r];
      assert (results + [r])[0] == results[0];
      assert Appears(results[1..] + [r], id);
      FirstStep(results[1..], r, id);
      assert Appears(results, id) <==> Appears(results[1..], id) by {
        assert results == [results[0]] + results[1..];
      }
    }
  }

  lemma GrownStep(before: map<MemoryId, Fused>, results: seq<SearchResult>, k: nat, weight: real, source: Mode,
                  entries: map<MemoryId, Fused>, r: SearchResult, id: MemoryId)
    requires Grown(before, results, k, weight, source, id, entries)
    ensures Grown(before, results + [r], k, weight, source, id, AddOne(entries, r, Share(k, |results|, weight), source))
  {
    AppearsStep(results, r, id);
    assert (results + [r])[..|results|] == results;
    var n := |results|;
    assert Contribution(results + [r], id, k, weight) ==
           Contribution(results, id, k, weight) + if r.memory.id == id then Share(k, n, weight) else 0.0;
    if id !in before && !Appears(results, id) {
      AbsentContributesNothing(results, id, k, weight) by {
        forall i: nat | i < |results| ensures results[i].memory.id != id {
          assert results[i] in results;
        }
      }
    }
  }

  lemma AccumulatedStep(before: map<MemoryId, Fused>, results: seq<SearchResult>, k: nat, weight: real, source: Mode,
                        entries: map<MemoryId, Fused>, r: SearchResult)
    requires Accumulated(before, results, k, weight, source, entries)
    ensures Accumulated(before, results + [r], k, weight, source,
                        AddOne(entries, r, Share(k, |results|, weight), source))
  {
    var longer, next := results + [r], AddOne(entries, r, Share(k, |results|, weight), source);
    forall id ensures Grown(before, longer, k, weight, source, id, next) {
      GrownStep(before, results, k, weight, source, entries, r, id);
    }
  }

  /** accumulate_rrf. */
  method Accumulate(before: map<MemoryId, Fused>, results: seq<SearchResult>, k: nat, weight: real, source: Mode)
    returns (entries: map<MemoryId, Fused>)
    ensures Accumulated(before, results, k, weight, source, entries)
  {
    entries := before;
    for rank := 0 to |results|
      invariant Accumulated(before, results[..rank], k, weight, source, entries)
    {
      assert results[..rank + 1] == results[..rank] + [results[rank]];
      AccumulatedStep(before, results[..rank], k, weight, source, entries, results[rank]);
      entries := AddOne(entries, results[rank], Share(k, rank, weight), source);
    }
    assert results[..|results|] == results;
  }

  /** Both lists accumulated one after the other: the entry of every listed document, under its id. */
  lemma EntriesAreFused(l: Lists, some: map<MemoryId, Fused>, entries: map<MemoryId, Fused>, id: MemoryId)
    requires Accumulated(map[], l.semantic, l.k, l.semanticWeight, SemanticSearch, some)
    requires Accumulated(some, l.keyword, l.k, l.keywordWeight, KeywordSearch, entries)
    ensures id in entries <==> Listed(l, id)
    ensures id in entries ==> entries[id] == FusedOf(l, id)
  {
    assert Grown(map[], l.semantic, l.k, l.semanticWeight, SemanticSearch, id, some);
    assert Grown(some, l.keyword, l.k, l.keywordWeight, KeywordSearch, id, entries);
    if !Appears(l.semantic, id) {
      AbsentContributesNothing(l.semantic, id, l.k, l.semanticWeight) by {
        forall i: nat | i < |l.semantic| ensures l.semantic[i].memory.id != id {
          assert l.semantic[i] in l.semantic;
        }
      }
    }
    if !Appears(l.keyword, id) {
      AbsentContributesNothing(l.keyword, id, l.k, l.keywordWeight) by {
        forall i: nat | i < |l.keyword| ensures l.keyword[i].memory.id != id {
          assert l.keyword[i] in l.keyword;
        }
      }
    }
  }

  /** The entries taken out so far, in the arbitrary order the map gives them. */
  ghost predicate Drained(l: Lists, todo: set<MemoryId>, fs: seq<Fused>) {
    && Distinct(fs)
    && forall f :: f in fs <==> IsFused(l, f) && f.result.memory.id !in todo
  }

  method Drain(l: Lists, entries: map<MemoryId, Fused>) returns (fs: seq<Fused>)
    requires forall id :: id in entries <==> Listed(l, id)
    requires forall id | id in entries :: entries[id] == FusedOf(l, id)
    ensures AllFused(l, fs)
  {
    fs := [];
    var todo := entries.Keys;
    while todo != {}
      invariant todo <= entries.Keys
      invariant Drained(l, todo, fs)
      decreases |todo|
    {
      var id :| id in todo;
      fs := fs + [entries[id]];
      todo := todo - {id};
    }
  }

  /** The leading part, up to `limit`, of a sorted list of all fused documents. */
  ghost predicate TopFused(l: Lists, limit: nat, fused: seq<Fused>) {
    exists all :: AllFused(l, all) && Sorted(all, FusedLe) && fused == if |all| <= limit then all else all[..limit]
  }

  /** There is only one such list. */
  lemma TopFusedUnique(l: Lists, limit: nat, fused: seq<Fused>, other: seq<Fused>)
    requires TopFused(l, limit, fused) && TopFused(l, limit, other)
    ensures fused == other
  {
    var fs :| AllFused(l, fs) && Sorted(fs, FusedLe) && fused == if |fs| <= limit then fs else fs[..limit];
    var gs :| AllFused(l, gs) && Sorted(gs, FusedLe) && other == if |gs| <= limit then gs else gs[..limit];
    FusedOrderUnique(l, fs, gs);
  }

  /** reciprocal_rank_fusion: the first `limit` entries of the one sorted list of all fused documents. */
  method Fuse(l: Lists, limit: nat) returns (fused: seq<Fused>)
    ensures TopFused(l, limit, fused)
  {
    var some := Accumulate(map[], l.semantic, l.k, l.semanticWeight, SemanticSearch);
    var entries := Accumulate(some, l.keyword, l.k, l.keywordWeight, KeywordSearch);
    forall id ensures (id in entries <==> Listed(l, id)) && (id in entries ==> entries[id] == FusedOf(l, id)) {
      EntriesAreFused(l, some, entries, id);
    }
    var fs := Drain(l, entries);
    FusedOrderIsTotal();
    SortBySorts(fs, FusedLe);
    var sorted := SortBy(fs, FusedLe);
    DistinctKept(fs, sorted);
    forall f ensures f in sorted <==> IsFused(l, f) {
      SameMembers(fs, sorted, f);
    }
    fused := if |sorted| <= limit then sorted else sorted[..limit];
  }
}

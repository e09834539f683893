/** Composite scoring: min-max seeding of the retrieval score, the weighted composite, and the final order. Reals stand
    for floats; the two transcendental functions are parameters. */
module Scoring {
  import opened Types
  import opened Sorting
  import opened Ordering

  datatype Config = Config(
    relevanceWeight: real, importanceWeight: real, freshnessWeight: real, activityWeight: real, confidenceWeight: real,
    relevanceFloor: real, relevanceFloorPenalty: real, supersededPenalty: real,
    blendWeight: real,
    activityHalfLifeHours: real, activitySaturation: real,
    semanticHalfLifeDays: real, episodicHalfLifeDays: real, proceduralHalfLifeDays: real)

  /** 2^x and ln(1 + x). */
  datatype Math = Math(exp2: real -> real, ln1p: real -> real)

  /** What scoring uses of them: decay is monotone and stays in the unit interval, and the logarithm is positive above
      ln(1) = 0. */
  ghost predicate Sound(m: Math) {
    && (forall x: real :: x <= 0.0 ==> 0.0 <= m.exp2(x) <= 1.0)
    && (forall x: real, y: real :: x <= y ==> m.exp2(x) <= m.exp2(y))
    && (forall x: real :: x > 0.0 ==> m.ln1p(x) > 0.0)
    && m.ln1p(0.0) == 0.0
  }

  const EPSILON: real := 1.0 / 4503599627370496.0
  const TINY: real := 0.000000001

  function Max(a: real, b: real): real {
    if a >= b then a else b
  }

  function Min(a: real, b: real): real {
    if a <= b then a else b
  }

  // ---- Seeding ----

  function WidenBounds(bounds: Option<(real, real)>, distance: Option<real>): Option<(real, real)> {
    if distance.None? then bounds
    else if bounds.None? then Some((distance.value, distance.value))
    else Some((Min(bounds.value.0, distance.value), Max(bounds.value.1, distance.value)))
  }

  /** distance_bounds. */
  function DistanceBounds(s: seq<SearchResult>): Option<(real, real)> {
    if s == [] then None else WidenBounds(DistanceBounds(s[..|s| - 1]), s[|s| - 1].distance)
  }

  /** The bounds are the least and the greatest distance that occurs. */
  ghost predicate AreBounds(s: seq<SearchResult>, bounds: Option<(real, real)>) {
    && (bounds.None? <==> forall r | r in s :: r.distance.None?)
    && (bounds.Some? ==>
          && (exists r | r in s :: r.distance == Some(bounds.value.0))
          && (exists r | r in s :: r.distance == Some(bounds.value.1))
          && (forall r | r in s && r.distance.Some? :: bounds.value.0 <= r.distance.value <= bounds.value.1))
  }

  lemma {:induction false} BoundsAreExtremes(s: seq<SearchResult>)
    ensures AreBounds(s, DistanceBounds(s))
  {
    if s != [] {
      var rest, last := s[..|s| - 1], s[|s| - 1];
      BoundsAreExtremes(rest);
      BoundsWiden(rest, last, DistanceBounds(rest));
      assert s == rest + [last];
    }
  }

  lemma BoundsWiden(s: seq<SearchResult>, last: SearchResult, bounds: Option<(real, real)>)
    requires AreBounds(s, bounds)
    ensures AreBounds(s + [last], WidenBounds(bounds, last.distance))
  {
    assert last in s + [last];
    assert forall r :: r in s + [last] <==> r in s || r == last;
  }

  lemma BoundsDetermined(s: seq<SearchResult>, t: seq<SearchResult>)
    requires multiset(s) == multiset(t)
    ensures DistanceBounds(s) == DistanceBounds(t)
  {
    BoundsAreExtremes(s);
    BoundsAreExtremes(t);
    forall r ensures r in s <==> r in t {
      SameMembers(s, t, r);
    }
  }

  /** normalized_stage_one_score: 1 at the least distance, 0 at the greatest, and flat when there is nothing to
      compare. */
  function StageOne(distance: Option<real>, bounds: Option<(real, real)>): real {
    if distance.Some? && bounds.Some? then
      var span := bounds.value.1 - bounds.value.0;
      if span <= EPSILON then 1.0
      else 1.0 - Min(Max((distance.value - bounds.value.0) / span, 0.0), 1.0)
    else 0.5
  }

  lemma StageOneRange(distance: Option<real>, bounds: Option<(real, real)>)
    ensures 0.0 <= StageOne(distance, bounds) <= 1.0
  {
  }

  function Seed(r: SearchResult, bounds: Option<(real, real)>): SearchResult {
    if r.retrievalScore.Some? then r else r.(retrievalScore := Some(StageOne(r.distance, bounds)))
  }

  function Map<T, U>(f: T -> U, s: seq<T>): (m: seq<U>)
    ensures |m| == |s| && forall i: nat | i < |s| :: m[i] == f(s[i])
  {
    seq(|s|, i requires 0 <= i < |s| => f(s[i]))
  }

  function Seeder(bounds: Option<(real, real)>): SearchResult -> SearchResult {
    (r: SearchResult) => Seed(r, bounds)
  }

  /** seed_retrieval_scores. */
  method SeedRetrievalScores(a: array<SearchResult>)
    modifies a
    ensures a[..] == Map(Seeder(DistanceBounds(old(a[..]))), old(a[..]))
  {
    var bounds := DistanceBounds(a[..]);
    for i := 0 to a.Length
      invariant forall k: nat | k < i :: a[k] == Seed(old(a[k]), bounds)
      invariant forall k: nat | i <= k < a.Length :: a[k] == old(a[k])
    {
      if a[i].retrievalScore.None? {
        a[i] := a[i].(retrievalScore := Some(StageOne(a[i].distance, bounds)));
      }
    }
  }

  // ---- The composite ----

  /** decay_mass. */
  function DecayMass(m: Math, mass: real, lastUsedAt: Option<int>, now: int, halfLifeHours: real): real {
    if lastUsedAt.None? then 0.0
    else mass * m.exp2(-Max((now - lastUsedAt.value) as real / 3600.0, 0.0) / Max(halfLifeHours, TINY))
  }

  function Freshness(m: Math, memory: Memory, now: int, halfLifeDays: real): real {
    var updated := ValidUpdatedAt(memory, now);
    if updated.None? then 0.0
    else m.exp2(-Max((now - updated.value) as real / 86400.0, 0.0) / Max(halfLifeDays, TINY))
  }

  function FreshnessHalfLife(t: MemoryType, c: Config): real {
    match t
    case Semantic => c.semanticHalfLifeDays
    case Episodic => c.episodicHalfLifeDays
    case Procedural => c.proceduralHalfLifeDays
  }

  function Activity(m: Math, memory: Memory, now: int, c: Config): real
    requires Sound(m)
  {
    var mass := DecayMass(m, memory.activityMass, ValidLastUsedAt(memory, now), now,
                          Max(c.activityHalfLifeHours, TINY));
    Min(m.ln1p(mass) / m.ln1p(Max(c.activitySaturation, TINY)), 1.0)
  }

  /** query_relevance: the retrieval score, blended with the reranker's when there is one. */
  function QueryRelevance(r: SearchResult, blend: real): real {
    var stageOne := if r.retrievalScore.Some? then r.retrievalScore.value else 0.0;
    if r.rerankerScore.None? then stageOne else blend * r.rerankerScore.value + (1.0 - blend) * stageOne
  }

  function Weighted(c: Config, q: real, i: real, f: real, a: real, k: real): real {
    c.relevanceWeight * q +
    (c.importanceWeight * i + (c.freshnessWeight * f + (c.activityWeight * a + c.confidenceWeight * k)))
  }

  /** The soft relevance floor. */
  function Floored(c: Config, relevance: real, raw: real): real {
    if relevance < c.relevanceFloor then raw * c.relevanceFloorPenalty else raw
  }

  function Demoted(c: Config, superseded: bool, x: real): real {
    if superseded then x * c.supersededPenalty else x
  }

  function Penalized(c: Config, r: SearchResult, relevance: real, raw: real): real {
    Demoted(c, r.memory.superseded, Floored(c, relevance, raw))
  }

  function Composite(m: Math, c: Config, now: int, r: SearchResult): real
    requires Sound(m)
  {
    var relevance := QueryRelevance(r, c.blendWeight);
    var raw := Weighted(c, relevance, r.memory.importance,
                        Freshness(m, r.memory, now, FreshnessHalfLife(r.memory.memoryType, c)),
                        Activity(m, r.memory, now, c), r.memory.confidence);
    Penalized(c, r, relevance, raw)
  }

  function Rescore(m: Math, c: Config, now: int, r: SearchResult): SearchResult
    requires Sound(m)
  {
    r.(compositeScore := Some(Composite(m, c, now, r)))
  }

  /** Seeding and scoring of one result, given the bounds of its list. */
  function Scorer(m: Math, c: Config, now: int, bounds: Option<(real, real)>): SearchResult -> SearchResult
    requires Sound(m)
  {
    (r: SearchResult) => Rescore(m, c, now, Seed(r, bounds))
  }

  function CompositeRank(m: Math, c: Config, now: int, s: seq<SearchResult>): seq<SearchResult>
    requires Sound(m)
  {
    SortBy(Map(Scorer(m, c, now, DistanceBounds(s)), s), ByScore(now))
  }

  /** apply_composite_scoring: seeds, scores and sorts in place. */
  method ApplyCompositeScoring(m: Math, c: Config, now: int, a: array<SearchResult>)
    requires Sound(m)
    modifies a
    ensures a[..] == CompositeRank(m, c, now, old(a[..]))
  {
    if a.Length == 0 {
      return;
    }
    ghost var s := a[..];
    ghost var bounds := DistanceBounds(s);
    SeedRetrievalScores(a);
    ghost var seeded := a[..];
    for i := 0 to a.Length
      invariant forall k: nat | k < i :: a[k] == Rescore(m, c, now, seeded[k])
      invariant forall k: nat | i <= k < a.Length :: a[k] == seeded[k]
    {
      a[i] := a[i].(compositeScore := Some(Composite(m, c, now, a[i])));
    }
    assert a[..] == Map(Scorer(m, c, now, bounds), s);
    SortInPlace(a, now);
  }

  /** The library sort on the slice. */
  method SortInPlace(a: array<SearchResult>, now: int)
    modifies a
    ensures a[..] == SortBy(old(a[..]), ByScore(now))
  {
    var sorted := SortBy(a[..], ByScore(now));
    forall i | 0 <= i < a.Length {
      a[i] := sorted[i];
    }
    assert a[..] == sorted;
  }

  // ---- The result does not depend on the input order ----

  lemma {:induction false} MapMultiset<T, U>(f: T -> U, s: seq<T>, t: seq<T>)
    requires multiset(s) == multiset(t)
    ensures multiset(Map(f, s)) == multiset(Map(f, t))
    decreases |s|
  {
    assert |s| == |multiset(s)| == |multiset(t)| == |t|;
    if s != [] {
      var n := |s| - 1;
      SameMembers(s, t, s[n]);
      var j: nat :| j < |t| && t[j] == s[n];
      Matched(s, t, n, j);
      MapMultiset(f, Without(s, n), Without(t, j));
      MapWithout(f, s, n);
      MapWithout(f, t, j);
    }
  }

  function Without<T>(t: seq<T>, j: nat): (r: seq<T>)
    requires j < |t|
    ensures |r| == |t| - 1 && forall i: nat | i < |r| :: r[i] == if i < j then t[i] else t[i + 1]
  {
    t[..j] + t[j + 1..]
  }

  lemma Matched<T>(s: seq<T>, t: seq<T>, i: nat, j: nat)
    requires i < |s| && j < |t| && s[i] == t[j]
    requires multiset(s) == multiset(t)
    ensures multiset(Without(s, i)) == multiset(Without(t, j))
  {
    RemoveAt(s, i);
    RemoveAt(t, j);
    assert multiset(Without(s, i)) == multiset(s) - multiset{s[i]};
    assert multiset(Without(t, j)) == multiset(t) - multiset{t[j]};
  }

  lemma MapWithout<T, U>(f: T -> U, t: seq<T>, j: nat)
    requires j < |t|
    ensures multiset(Map(f, t)) == multiset(Map(f, Without(t, j))) + multiset{f(t[j])}
  {
    assert Map(f, Without(t, j)) == Without(Map(f, t), j);
    RemoveAt(Map(f, t), j);
  }

  /** Results of one list that tie are the same result. */
  ghost predicate NoTies(s: seq<SearchResult>, now: int) {
    forall a, b | a in s && b in s && ByScore(now)(a, b) && ByScore(now)(b, a) :: a == b
  }

  lemma ScoringKeepsIds(m: Math, c: Config, now: int, bounds: Option<(real, real)>, s: seq<SearchResult>)
    requires Sound(m)
    requires DistinctResults(s)
    ensures DistinctResults(Map(Scorer(m, c, now, bounds), s))
  {
    var x := Map(Scorer(m, c, now, bounds), s);
    forall i: nat | i < |s| ensures x[i].memory.id == s[i].memory.id {
    }
  }

  lemma DistinctHaveNoTies(s: seq<SearchResult>, t: seq<SearchResult>, now: int)
    requires DistinctResults(s) && multiset(s) == multiset(t)
    ensures NoTies(t, now)
  {
    forall a, b | a in t && b in t && ByScore(now)(a, b) && ByScore(now)(b, a) ensures a == b {
      TiesShareTheId(a, b, now);
      SameMembers(s, t, a);
      SameMembers(s, t, b);
    }
  }

  /** Sorting distinct results gives one list, however they are arranged. */
  lemma SortIgnoresOrder(x: seq<SearchResult>, y: seq<SearchResult>, now: int)
    requires DistinctResults(x) && multiset(x) == multiset(y)
    ensures SortBy(x, ByScore(now)) == SortBy(y, ByScore(now))
  {
    ScoreOrderIsTotal(now);
    SortBySorts(x, ByScore(now));
    SortBySorts(y, ByScore(now));
    DistinctHaveNoTies(x, SortBy(x, ByScore(now)), now);
    SortedUnique(SortBy(x, ByScore(now)), SortBy(y, ByScore(now)), ByScore(now));
  }

  /** Ranking a permutation of the same results gives the same list. */
  lemma InputOrderIsIrrelevant(m: Math, c: Config, now: int, s: seq<SearchResult>, t: seq<SearchResult>)
    requires Sound(m)
    requires DistinctResults(s) && multiset(s) == multiset(t)
    ensures CompositeRank(m, c, now, s) == CompositeRank(m, c, now, t)
  {
    BoundsDetermined(s, t);
    var f := Scorer(m, c, now, DistanceBounds(s));
    MapMultiset(f, s, t);
    ScoringKeepsIds(m, c, now, DistanceBounds(s), s);
    SortIgnoresOrder(Map(f, s), Map(f, t), now);
  }

  // ---- The range of the score ----

  predicate Unit(x: real) {
    0.0 <= x <= 1.0
  }

  function WeightSum(c: Config): real {
    c.relevanceWeight + c.importanceWeight + c.freshnessWeight + c.activityWeight + c.confidenceWeight
  }

  /** The facts configuration validation establishes. */
  predicate Validated(c: Config) {
    && c.relevanceWeight >= 0.0 && c.importanceWeight >= 0.0 && c.freshnessWeight >= 0.0
    && c.activityWeight >= 0.0 && c.confidenceWeight >= 0.0
    && -1.0 <= WeightSum(c) - 100.0 <= 1.0
    && Unit(c.relevanceFloor) && Unit(c.relevanceFloorPenalty) && Unit(c.supersededPenalty) && Unit(c.blendWeight)
  }

  /** The inputs of one result that lie in the unit interval; activity mass only grows from zero. */
  predicate UnitInputs(r: SearchResult) {
    && Unit(r.memory.importance) && Unit(r.memory.confidence) && r.memory.activityMass >= 0.0
    && (r.retrievalScore.Some? ==> Unit(r.retrievalScore.value))
    && (r.rerankerScore.Some? ==> Unit(r.rerankerScore.value))
  }

  /** A share of a weight is at most the weight. */
  function Part(w: real, x: real): (p: real)
    requires w >= 0.0 && Unit(x)
    ensures 0.0 <= p <= w
  {
    w * x
  }

  lemma RatioSign(a: real, b: real)
    requires b > 0.0
    ensures a >= 0.0 ==> a / b >= 0.0
    ensures a <= 0.0 ==> a / b <= 0.0
  {
  }

  lemma DecayIsUnit(m: Math, age: real, halfLife: real)
    requires Sound(m)
    ensures Unit(m.exp2(-Max(age, 0.0) / Max(halfLife, TINY)))
  {
    RatioSign(-Max(age, 0.0), Max(halfLife, TINY));
  }

  lemma FreshnessIsUnit(m: Math, memory: Memory, now: int, halfLifeDays: real)
    requires Sound(m)
    ensures Unit(Freshness(m, memory, now, halfLifeDays))
  {
    var updated := ValidUpdatedAt(memory, now);
    if updated.Some? {
      DecayIsUnit(m, (now - updated.value) as real / 86400.0, halfLifeDays);
    }
  }

  lemma DecayedMass(m: Math, mass: real, lastUsedAt: Option<int>, now: int, halfLifeHours: real)
    requires Sound(m) && mass >= 0.0
    ensures 0.0 <= DecayMass(m, mass, lastUsedAt, now, halfLifeHours) <= mass
  {
    if lastUsedAt.Some? {
      var age := (now - lastUsedAt.value) as real / 3600.0;
      DecayIsUnit(m, age, halfLifeHours);
      var left := Part(mass, m.exp2(-Max(age, 0.0) / Max(halfLifeHours, TINY)));
      assert DecayMass(m, mass, lastUsedAt, now, halfLifeHours) == left;
    }
  }

  lemma ActivityIsUnit(m: Math, memory: Memory, now: int, c: Config)
    requires Sound(m) && memory.activityMass >= 0.0
    ensures Unit(Activity(m, memory, now, c))
  {
    var halfLife := Max(c.activityHalfLifeHours, TINY);
    DecayedMass(m, memory.activityMass, ValidLastUsedAt(memory, now), now, halfLife);
    var mass := DecayMass(m, memory.activityMass, ValidLastUsedAt(memory, now), now, halfLife);
    RatioSign(m.ln1p(mass), m.ln1p(Max(c.activitySaturation, TINY)));
  }

  /** Blending is a convex combination. */
  lemma RelevanceIsUnit(r: SearchResult, blend: real)
    requires UnitInputs(r) && Unit(blend)
    ensures Unit(QueryRelevance(r, blend))
  {
    var stageOne := if r.retrievalScore.Some? then r.retrievalScore.value else 0.0;
    if r.rerankerScore.Some? {
      var reranked, retrieved := Part(blend, r.rerankerScore.value), Part(1.0 - blend, stageOne);
      assert QueryRelevance(r, blend) == reranked + retrieved;
    }
  }

  lemma WeightedRange(c: Config, q: real, i: real, f: real, a: real, k: real)
    requires Validated(c) && Unit(q) && Unit(i) && Unit(f) && Unit(a) && Unit(k)
    ensures 0.0 <= Weighted(c, q, i, f, a, k) <= WeightSum(c)
  {
    var q', i', f', a', k' := Part(c.relevanceWeight, q), Part(c.importanceWeight, i), Part(c.freshnessWeight, f),
                              Part(c.activityWeight, a), Part(c.confidenceWeight, k);
    assert Weighted(c, q, i, f, a, k) == q' + (i' + (f' + (a' + k')));
  }

  lemma PenaltiesOnlyLower(c: Config, r: SearchResult, relevance: real, raw: real)
    requires Validated(c) && raw >= 0.0
    ensures 0.0 <= Penalized(c, r, relevance, raw) <= raw
  {
    var once := Part(raw, c.relevanceFloorPenalty);
    assert Floored(c, relevance, raw) == once || Floored(c, relevance, raw) == raw;
    var twice := Part(Floored(c, relevance, raw), c.supersededPenalty);
  }

  lemma CompositeRange(m: Math, c: Config, now: int, r: SearchResult)
    requires Sound(m) && Validated(c) && UnitInputs(r)
    ensures 0.0 <= Composite(m, c, now, r) <= WeightSum(c) <= 101.0
  {
    var halfLife := FreshnessHalfLife(r.memory.memoryType, c);
    var relevance := QueryRelevance(r, c.blendWeight);
    var freshness, active := Freshness(m, r.memory, now, halfLife), Activity(m, r.memory, now, c);
    RelevanceIsUnit(r, c.blendWeight);
    FreshnessIsUnit(m, r.memory, now, halfLife);
    ActivityIsUnit(m, r.memory, now, c);
    WeightedRange(c, relevance, r.memory.importance, freshness, active, r.memory.confidence);
    PenaltiesOnlyLower(c, r, relevance,
                       Weighted(c, relevance, r.memory.importance, freshness, active, r.memory.confidence));
  }

  /** Every score of a ranked list lies in [0, 101]. */
  lemma RankedScoresInRange(m: Math, c: Config, now: int, s: seq<SearchResult>, r: SearchResult)
    requires Sound(m) && Validated(c)
    requires forall i: nat | i < |s| :: UnitInputs(s[i])
    requires r in CompositeRank(m, c, now, s)
    ensures r.compositeScore.Some? && 0.0 <= r.compositeScore.value <= 101.0
  {
    var bounds := DistanceBounds(s);
    var x := Map(Scorer(m, c, now, bounds), s);
    SameMembers(x, CompositeRank(m, c, now, s), r);
    var i: nat :| i < |x| && x[i] == r;
    StageOneRange(s[i].distance, bounds);
    CompositeRange(m, c, now, Seed(s[i], bounds));
  }

  // ---- What the score rewards ----

  lemma RatioMonotone(a: real, b: real, d: real)
    requires a <= b && d > 0.0
    ensures a / d <= b / d
  {
    RatioSign(b - a, d);
    assert b / d - a / d == (b - a) / d;
  }

  lemma SeedsByDistance(lo: real, d: real, e: real, hi: real)
    requires lo <= d <= e <= hi
    ensures StageOne(Some(d), Some((lo, hi))) >= StageOne(Some(e), Some((lo, hi)))
    ensures d == lo ==> StageOne(Some(d), Some((lo, hi))) == 1.0
    ensures e == hi > lo + EPSILON ==> StageOne(Some(e), Some((lo, hi))) == 0.0
  {
    if hi - lo > EPSILON {
      RatioMonotone(d - lo, e - lo, hi - lo);
    }
  }

  /** Within one list a closer result never seeds lower; the closest seeds 1, and the farthest 0 unless all are equally
      far. */
  lemma CloserSeedsHigher(s: seq<SearchResult>, r: SearchResult, q: SearchResult)
    requires r in s && q in s && r.distance.Some? && q.distance.Some? && r.distance.value <= q.distance.value
    ensures DistanceBounds(s).Some?
    ensures StageOne(r.distance, DistanceBounds(s)) >= StageOne(q.distance, DistanceBounds(s))
    ensures r.distance.value == DistanceBounds(s).value.0 ==> StageOne(r.distance, DistanceBounds(s)) == 1.0
    ensures q.distance.value == DistanceBounds(s).value.1 > DistanceBounds(s).value.0 + EPSILON ==>
              StageOne(q.distance, DistanceBounds(s)) == 0.0
  {
    BoundsAreExtremes(s);
    var bounds := DistanceBounds(s);
    SeedsByDistance(bounds.value.0, r.distance.value, q.distance.value, bounds.value.1);
  }

  /** A later valid update is never less fresh. */
  lemma NewerIsFresher(m: Math, a: Memory, b: Memory, now: int, halfLifeDays: real)
    requires Sound(m) && ValidUpdatedAt(b, now).Some?
    requires ValidUpdatedAt(a, now).Some? ==> ValidUpdatedAt(a, now).value <= ValidUpdatedAt(b, now).value
    ensures Freshness(m, a, now, halfLifeDays) <= Freshness(m, b, now, halfLifeDays)
  {
    FreshnessIsUnit(m, b, now, halfLifeDays);
    var ta, tb := ValidUpdatedAt(a, now), ValidUpdatedAt(b, now);
    if ta.Some? {
      var x, y := -Max((now - ta.value) as real / 86400.0, 0.0), -Max((now - tb.value) as real / 86400.0, 0.0);
      RatioMonotone(x, y, Max(halfLifeDays, TINY));
    }
  }

  lemma PartMonotone(w: real, x: real, y: real) returns (p: real, p': real)
    requires w >= 0.0 && x <= y
    ensures p == w * x && p' == w * y && p <= p'
  {
    p, p' := w * x, w * y;
  }

  lemma Shrunk(x: real, y: real, p: real) returns (a: real, b: real)
    requires 0.0 <= x <= y && Unit(p)
    ensures a == x * p && b == y * p && 0.0 <= a <= b && a <= x && b <= y
  {
    a, b := Part(x, p), Part(y, p);
    assert x * p <= y * p;
  }

  lemma WeightedMonotone(c: Config, q: real, i: real, f: real, a: real, k: real, q': real, i': real, f': real, a': real,
                         k': real)
    requires Validated(c) && q <= q' && i <= i' && f <= f' && a <= a' && k <= k'
    ensures Weighted(c, q, i, f, a, k) <= Weighted(c, q', i', f', a', k')
  {
    var q1, q2 := PartMonotone(c.relevanceWeight, q, q');
    var i1, i2 := PartMonotone(c.importanceWeight, i, i');
    var f1, f2 := PartMonotone(c.freshnessWeight, f, f');
    var a1, a2 := PartMonotone(c.activityWeight, a, a');
    var k1, k2 := PartMonotone(c.confidenceWeight, k, k');
    assert Weighted(c, q, i, f, a, k) == q1 + (i1 + (f1 + (a1 + k1)));
    assert Weighted(c, q', i', f', a', k') == q2 + (i2 + (f2 + (a2 + k2)));
  }

  lemma FlooredMonotone(c: Config, x: real, y: real, raw: real, more: real)
    requires Validated(c) && x <= y && 0.0 <= raw <= more
    ensures 0.0 <= Floored(c, x, raw) <= Floored(c, y, more)
  {
    var a, b := Shrunk(raw, more, c.relevanceFloorPenalty);
  }

  lemma DemotedMonotone(c: Config, superseded: bool, other: bool, x: real, y: real)
    requires Validated(c) && 0.0 <= x <= y && (other ==> superseded)
    ensures 0.0 <= Demoted(c, superseded, x) <= Demoted(c, other, y)
  {
    var a, b := Shrunk(x, y, c.supersededPenalty);
  }

  lemma PenalizedMonotone(c: Config, r: SearchResult, q: SearchResult, x: real, y: real, raw: real, more: real)
    requires Validated(c) && x <= y && 0.0 <= raw <= more && (q.memory.superseded ==> r.memory.superseded)
    ensures Penalized(c, r, x, raw) <= Penalized(c, q, y, more)
  {
    FlooredMonotone(c, x, y, raw, more);
    DemotedMonotone(c, r.memory.superseded, q.memory.superseded, Floored(c, x, raw), Floored(c, y, more));
  }

  /** Dominance: a result that is at least as good in every respect, and superseded only if the other is, never scores
      lower; the relevance floor and the penalties cannot turn the order around. */
  lemma BetterNeverScoresLower(m: Math, c: Config, now: int, r: SearchResult, q: SearchResult)
    requires Sound(m) && Validated(c) && UnitInputs(r) && UnitInputs(q)
    requires QueryRelevance(r, c.blendWeight) <= QueryRelevance(q, c.blendWeight)
    requires r.memory.importance <= q.memory.importance && r.memory.confidence <= q.memory.confidence
    requires Freshness(m, r.memory, now, FreshnessHalfLife(r.memory.memoryType, c))
          <= Freshness(m, q.memory, now, FreshnessHalfLife(q.memory.memoryType, c))
    requires Activity(m, r.memory, now, c) <= Activity(m, q.memory, now, c)
    requires q.memory.superseded ==> r.memory.superseded
    ensures Composite(m, c, now, r) <= Composite(m, c, now, q)
  {
    var fr, ar := Freshness(m, r.memory, now, FreshnessHalfLife(r.memory.memoryType, c)), Activity(m, r.memory, now, c);
    var fq, aq := Freshness(m, q.memory, now, FreshnessHalfLife(q.memory.memoryType, c)), Activity(m, q.memory, now, c);
    var xr, xq := QueryRelevance(r, c.blendWeight), QueryRelevance(q, c.blendWeight);
    RelevanceIsUnit(r, c.blendWeight);
    FreshnessIsUnit(m, r.memory, now, FreshnessHalfLife(r.memory.memoryType, c));
    ActivityIsUnit(m, r.memory, now, c);
    WeightedRange(c, xr, r.memory.importance, fr, ar, r.memory.confidence);
    WeightedMonotone(c, xr, r.memory.importance, fr, ar, r.memory.confidence,
                     xq, q.memory.importance, fq, aq, q.memory.confidence);
    PenalizedMonotone(c, r, q, xr, xq, Weighted(c, xr, r.memory.importance, fr, ar, r.memory.confidence),
                      Weighted(c, xq, q.memory.importance, fq, aq, q.memory.confidence));
  }

  /** A timestamp in the future does not count: its value changes neither the score nor the place in the order. */
  lemma FutureStampsAreIgnored(m: Math, c: Config, now: int, r: SearchResult, later: int, q: SearchResult)
    requires Sound(m) && r.memory.updatedAt > now && later > now
    ensures var r' := r.(memory := r.memory.(updatedAt := later));
            && Composite(m, c, now, r') == Composite(m, c, now, r)
            && (ScoreLe(r', q, now) <==> ScoreLe(r, q, now)) && (ScoreLe(q, r', now) <==> ScoreLe(q, r, now))
  {
  }
}

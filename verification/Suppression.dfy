/** Duplicate suppression: a greedy pass that lowers the score of results close to ones already selected, and compacts
    in place. */
module Suppression {
  import opened Types
  import opened Sorting
  import opened Ordering
  import opened Scoring

  type Embedding = seq<real>

  /** The embeddings at hand, the similarity of two of them, and the strength of the penalty. */
  datatype Diversity = Diversity(
    embeddings: map<MemoryId, Embedding>, cosine: (Embedding, Embedding) -> real, lambda: real)

  predicate Embedded(d: Diversity, r: SearchResult) {
    r.memory.id in d.embeddings
  }

  function Similarity(d: Diversity, r: SearchResult, q: SearchResult): real
    requires Embedded(d, r) && Embedded(d, q)
  {
    d.cosine(d.embeddings[r.memory.id], d.embeddings[q.memory.id])
  }

  // ---- What the pass is meant to compute ----

  /** Increasing positions below `n`. */
  predicate Positions(k: seq<nat>, n: nat) {
    && (forall i: nat | i < |k| :: k[i] < n)
    && (forall i: nat, j: nat | i < j < |k| :: k[i] < k[j])
  }

  /** `v` is the largest similarity of `r` to an embedded result of `kept`, floored at 0. */
  ghost predicate IsMaxSimilarity(d: Diversity, kept: set<SearchResult>, r: SearchResult, v: real)
    requires Embedded(d, r)
  {
    && v >= 0.0
    && (forall q | q in kept && Embedded(d, q) :: Similarity(d, r, q) <= v)
    && (v == 0.0 || exists q :: q in kept && Embedded(d, q) && Similarity(d, r, q) == v)
  }

  function Penalty(d: Diversity, v: real): real {
    d.lambda * v * 100.0
  }

  /** The score `r` is left with when `v` is its largest similarity to what was selected before it. */
  function Lowered(d: Diversity, r: SearchResult, v: real): real
    requires r.compositeScore.Some?
  {
    r.compositeScore.value - Penalty(d, v)
  }

  /** The results of `s` at the kept positions before `i`. */
  function Before(s: seq<SearchResult>, kept: set<nat>, i: nat): set<SearchResult> {
    set j: nat | j < i && j < |s| && j in kept :: s[j]
  }

  /** Exactly the embedded and scored results whose lowered score is not positive are dropped. */
  ghost predicate DropRule(d: Diversity, s: seq<SearchResult>, kept: set<nat>, i: nat)
    requires i < |s|
  {
    i !in kept <==>
      && Embedded(d, s[i]) && s[i].compositeScore.Some?
      && exists v :: IsMaxSimilarity(d, Before(s, kept, i), s[i], v) && Lowered(d, s[i], v) <= 0.0
  }

  /** The greedy selection: every position obeys the rule with respect to the kept positions before it. */
  ghost predicate Greedy(d: Diversity, s: seq<SearchResult>, kept: set<nat>) {
    && (forall i | i in kept :: i < |s|)
    && (forall i: nat | i < |s| :: DropRule(d, s, kept, i))
  }

  lemma MaxSimilarityUnique(d: Diversity, kept: set<SearchResult>, r: SearchResult, v: real, w: real)
    requires Embedded(d, r) && IsMaxSimilarity(d, kept, r, v) && IsMaxSimilarity(d, kept, r, w)
    ensures v == w
  {
  }

  lemma {:induction false} GreedyAgreesBelow(d: Diversity, s: seq<SearchResult>, k: set<nat>, l: set<nat>, n: nat)
    requires Greedy(d, s, k) && Greedy(d, s, l) && n <= |s|
    ensures forall i: nat | i < n :: i in k <==> i in l
  {
    if n > 0 {
      GreedyAgreesBelow(d, s, k, l, n - 1);
      assert Before(s, k, n - 1) == Before(s, l, n - 1);
      assert DropRule(d, s, k, n - 1) && DropRule(d, s, l, n - 1);
    }
  }

  /** There is only one greedy selection. */
  lemma GreedyUnique(d: Diversity, s: seq<SearchResult>, k: set<nat>, l: set<nat>)
    requires Greedy(d, s, k) && Greedy(d, s, l)
    ensures k == l
  {
    GreedyAgreesBelow(d, s, k, l, |s|);
  }

  // ---- The pass ----

  /** The fold over the selected positions. */
  function MaxSimilarity(d: Diversity, s: seq<SearchResult>, k: seq<nat>, r: SearchResult): real
    requires Embedded(d, r) && forall i: nat | i < |k| :: k[i] < |s|
  {
    if k == [] then 0.0
    else
      var v, q := MaxSimilarity(d, s, k[..|k| - 1], r), s[k[|k| - 1]];
      if Embedded(d, q) then Max(v, Similarity(d, r, q)) else v
  }

  /** The result at position `i` after the pass, when `k` was selected before it. */
  function Adjusted(d: Diversity, s: seq<SearchResult>, k: seq<nat>, r: SearchResult): (u: SearchResult)
    requires forall i: nat | i < |k| :: k[i] < |s|
    ensures u.memory == r.memory
  {
    if Embedded(d, r) && r.compositeScore.Some? then
      r.(compositeScore := Some(Lowered(d, r, MaxSimilarity(d, s, k, r))))
    else r
  }

  predicate Keeps(d: Diversity, r: SearchResult) {
    Embedded(d, r) && r.compositeScore.Some? ==> r.compositeScore.value > 0.0
  }

  /** selected_indices after the first `n` results. */
  function Selected(d: Diversity, s: seq<SearchResult>, n: nat): (k: seq<nat>)
    requires n <= |s|
    ensures Positions(k, n)
  {
    if n == 0 then []
    else
      var k := Selected(d, s, n - 1);
      if Keeps(d, Adjusted(d, s, k, s[n - 1])) then k + [n - 1] else k
  }

  function AfterPass(d: Diversity, s: seq<SearchResult>, i: nat): SearchResult
    requires i < |s|
  {
    Adjusted(d, s, Selected(d, s, i), s[i])
  }

  /** The whole pass on a list: adjust, filter by the selection, sort. */
  function Suppress(d: Diversity, s: seq<SearchResult>, now: int): seq<SearchResult> {
    if d.lambda <= 0.0 || |s| < 2 then s else SortBy(Filtered(d, s), ByScore(now))
  }

  function Filtered(d: Diversity, s: seq<SearchResult>): (r: seq<SearchResult>)
    ensures |r| == |Selected(d, s, |s|)|
    ensures forall i: nat | i < |r| :: r[i] == AfterPass(d, s, Selected(d, s, |s|)[i])
  {
    var k := Selected(d, s, |s|);
    seq(|k|, i requires 0 <= i < |k| => AfterPass(d, s, k[i]))
  }

  /** apply_duplicate_suppression. The list is the first `len` elements of `a` afterwards. */
  method ApplyDuplicateSuppression(a: array<SearchResult>, d: Diversity, now: int) returns (len: nat)
    modifies a
    ensures len <= a.Length && a[..len] == Suppress(d, old(a[..]), now)
  {
    if d.lambda <= 0.0 || a.Length < 2 {
      return a.Length;
    }
    ghost var s := a[..];
    var selected := SelectAndAdjust(a, d);
    Compact(a, selected);
    len := |selected|;
    PositionsFit(selected, a.Length);
    assert a[..len] == Filtered(d, s);
    SortPrefix(a, len, now);
  }

  lemma {:induction false} PositionsFit(k: seq<nat>, n: nat)
    requires Positions(k, n)
    ensures |k| <= n
    ensures forall i: nat | i < |k| :: i <= k[i]
  {
    if k != [] {
      var m := |k| - 1;
      PositionsFit(k[..m], k[m]);
      assert forall i: nat | i < m :: k[..m][i] == k[i];
    }
  }

  /** `v` is what the list has become when its first `i` results have been visited. */
  ghost predicate VisitedTo(d: Diversity, s: seq<SearchResult>, v: seq<SearchResult>, i: nat) {
    && i <= |s| == |v|
    && (forall k: nat | k < i :: v[k] == AfterPass(d, s, k))
    && (forall k: nat | i <= k < |s| :: v[k] == s[k])
  }

  method SelectAndAdjust(a: array<SearchResult>, d: Diversity) returns (selected: seq<nat>)
    modifies a
    ensures selected == Selected(d, old(a[..]), a.Length)
    ensures VisitedTo(d, old(a[..]), a[..], a.Length)
  {
    selected := [];
    ghost var s := a[..];
    for i := 0 to a.Length
      invariant VisitedTo(d, s, a[..], i) && selected == Selected(d, s, i)
    {
      selected := VisitNext(a, d, s, i, selected);
    }
  }

  /** One turn of the selection loop, against the list it started from. */
  method VisitNext(a: array<SearchResult>, d: Diversity, ghost s: seq<SearchResult>, i: nat, k: seq<nat>)
    returns (selected: seq<nat>)
    requires i < a.Length && VisitedTo(d, s, a[..], i) && k == Selected(d, s, i)
    modifies a
    ensures VisitedTo(d, s, a[..], i + 1) && selected == Selected(d, s, i + 1)
  {
    ghost var v := a[..];
    selected := AdjustOne(a, d, i, k);
    VisitOne(d, s, v, a[..], i, k);
  }

  lemma VisitOne(d: Diversity, s: seq<SearchResult>, v: seq<SearchResult>, w: seq<SearchResult>, i: nat, k: seq<nat>)
    requires VisitedTo(d, s, v, i) && i < |s| && k == Selected(d, s, i)
    requires w == v[i := Adjusted(d, v, k, v[i])]
    ensures VisitedTo(d, s, w, i + 1)
    ensures Selected(d, s, i + 1) == if Keeps(d, w[i]) then k + [i] else k
  {
    forall k: nat | k < |s| ensures v[k].memory == s[k].memory {
      assert k < i ==> v[k] == AfterPass(d, s, k);
    }
    if Embedded(d, s[i]) {
      SameEmbeddings(d, v, s, k, s[i]);
    }
    assert w[i] == AfterPass(d, s, i);
  }

  /** What one turn does to the list and the selected positions. */
  method AdjustOne(a: array<SearchResult>, d: Diversity, i: nat, k: seq<nat>) returns (selected: seq<nat>)
    requires i < a.Length && Positions(k, i)
    modifies a
    ensures a[..] == old(a[..])[i := Adjusted(d, old(a[..]), k, old(a[i]))]
    ensures selected == if Keeps(d, a[i]) then k + [i] else k
  {
    selected := k;
    if a[i].memory.id !in d.embeddings {
      selected := k + [i];
      return;
    }
    var maxSim := MaxSimilarity(d, a[..], k, a[i]);
    var penalty := Penalty(d, maxSim);
    if a[i].compositeScore.Some? {
      var score := a[i].compositeScore.value - penalty;
      a[i] := a[i].(compositeScore := Some(score));
      if score > 0.0 {
        selected := k + [i];
      }
    } else {
      selected := k + [i];
    }
  }

  /** Similarities read ids only, so scores adjusted earlier do not matter. */
  lemma {:induction false} SameEmbeddings(d: Diversity, s: seq<SearchResult>, t: seq<SearchResult>, k: seq<nat>,
                                          r: SearchResult)
    requires |s| == |t| && forall i: nat | i < |s| :: s[i].memory.id == t[i].memory.id
    requires Embedded(d, r) && forall i: nat | i < |k| :: k[i] < |s|
    ensures MaxSimilarity(d, s, k, r) == MaxSimilarity(d, t, k, r)
  {
    if k != [] {
      SameEmbeddings(d, s, t, k[..|k| - 1], r);
    }
  }

  /** The swaps bring the selected elements to the front, in order. */
  method Compact(a: array<SearchResult>, selected: seq<nat>)
    requires Positions(selected, a.Length)
    modifies a
    ensures |selected| <= a.Length
    ensures forall i: nat | i < |selected| :: a[i] == old(a[selected[i]])
  {
    PositionsFit(selected, a.Length);
    for w := 0 to |selected|
      invariant forall i: nat | i < w :: a[i] == old(a[selected[i]])
      invariant forall i: nat | w <= i < |selected| :: a[selected[i]] == old(a[selected[i]])
    {
      if w != selected[w] {
        a[w], a[selected[w]] := a[selected[w]], a[w];
      }
    }
  }

  method SortPrefix(a: array<SearchResult>, len: nat, now: int)
    requires len <= a.Length
    modifies a
    ensures a[..len] == SortBy(old(a[..len]), ByScore(now))
  {
    var sorted := SortBy(a[..len], ByScore(now));
    forall i | 0 <= i < len {
      a[i] := sorted[i];
    }
    assert a[..len] == sorted;
  }

  // ---- The pass computes the greedy selection ----

  function Chosen(d: Diversity, s: seq<SearchResult>): set<nat> {
    set i: nat | i < |s| && Keeps(d, AfterPass(d, s, i))
  }

  lemma {:induction false} SelectedIsChosen(d: Diversity, s: seq<SearchResult>, n: nat)
    requires n <= |s|
    ensures forall i: nat :: i in Selected(d, s, n) <==> i < n && i in Chosen(d, s)
  {
    if n > 0 {
      SelectedIsChosen(d, s, n - 1);
    }
  }

  function At(s: seq<SearchResult>, k: seq<nat>): set<SearchResult>
    requires forall i: nat | i < |k| :: k[i] < |s|
  {
    set i: nat | i < |k| :: s[k[i]]
  }

  lemma {:induction false} MaxSimilarityIsMax(d: Diversity, s: seq<SearchResult>, k: seq<nat>, r: SearchResult)
    requires Embedded(d, r) && forall i: nat | i < |k| :: k[i] < |s|
    ensures IsMaxSimilarity(d, At(s, k), r, MaxSimilarity(d, s, k, r))
  {
    if k != [] {
      var n := |k| - 1;
      MaxSimilarityIsMax(d, s, k[..n], r);
      assert At(s, k) == At(s, k[..n]) + {s[k[n]]};
    }
  }

  lemma SelectedResults(d: Diversity, s: seq<SearchResult>, i: nat)
    requires i <= |s|
    ensures At(s, Selected(d, s, i)) == Before(s, Chosen(d, s), i)
  {
    SelectedIsChosen(d, s, i);
    var k := Selected(d, s, i);
    forall q | q in Before(s, Chosen(d, s), i) ensures q in At(s, k) {
      var j: nat :| j < i && j in Chosen(d, s) && q == s[j];
      assert j in k;
    }
    forall q | q in At(s, k) ensures q in Before(s, Chosen(d, s), i) {
      var j: nat :| j < |k| && q == s[k[j]];
      assert k[j] in k;
    }
  }

  /** The scored and embedded result at `i` ends at its old score minus the penalty for its closest earlier kept
      result. */
  lemma ScoreAfterPass(d: Diversity, s: seq<SearchResult>, i: nat) returns (v: real)
    requires i < |s| && Embedded(d, s[i]) && s[i].compositeScore.Some?
    ensures IsMaxSimilarity(d, Before(s, Chosen(d, s), i), s[i], v)
    ensures AfterPass(d, s, i) == s[i].(compositeScore := Some(Lowered(d, s[i], v)))
  {
    v := MaxSimilarity(d, s, Selected(d, s, i), s[i]);
    MaxSimilarityIsMax(d, s, Selected(d, s, i), s[i]);
    SelectedResults(d, s, i);
  }

  lemma SelectionIsGreedy(d: Diversity, s: seq<SearchResult>)
    ensures Greedy(d, s, Chosen(d, s))
  {
    forall i: nat | i < |s| ensures DropRule(d, s, Chosen(d, s), i) {
      RuleHolds(d, s, i);
    }
  }

  lemma RuleHolds(d: Diversity, s: seq<SearchResult>, i: nat)
    requires i < |s|
    ensures DropRule(d, s, Chosen(d, s), i)
  {
    if Embedded(d, s[i]) && s[i].compositeScore.Some? {
      var v := ScoreAfterPass(d, s, i);
      assert i in Chosen(d, s) <==> Lowered(d, s[i], v) > 0.0;
      if w :| IsMaxSimilarity(d, Before(s, Chosen(d, s), i), s[i], w) && Lowered(d, s[i], w) <= 0.0 {
        MaxSimilarityUnique(d, Before(s, Chosen(d, s), i), s[i], v, w);
      }
    }
  }

  // ---- What callers get ----

  /** What a result ends as, given the kept positions: untouched, or lowered by the penalty for its closest earlier kept
      result. */
  ghost predicate EndsAs(d: Diversity, s: seq<SearchResult>, kept: set<nat>, i: nat, r: SearchResult)
    requires i < |s|
  {
    if Embedded(d, s[i]) && s[i].compositeScore.Some? then
      exists v :: IsMaxSimilarity(d, Before(s, kept, i), s[i], v) &&
        r == s[i].(compositeScore := Some(Lowered(d, s[i], v)))
    else r == s[i]
  }

  lemma KeptEndAs(d: Diversity, s: seq<SearchResult>, i: nat)
    requires i < |s|
    ensures EndsAs(d, s, Chosen(d, s), i, AfterPass(d, s, i))
  {
    if Embedded(d, s[i]) && s[i].compositeScore.Some? {
      var v := ScoreAfterPass(d, s, i);
    }
  }

  /** No score rises. */
  lemma NoScoreRises(d: Diversity, s: seq<SearchResult>, kept: set<nat>, i: nat, r: SearchResult)
    requires d.lambda > 0.0 && i < |s| && EndsAs(d, s, kept, i, r)
    ensures r.memory == s[i].memory
    ensures s[i].compositeScore.None? ==> r.compositeScore.None?
    ensures s[i].compositeScore.Some? ==> r.compositeScore.Some? && r.compositeScore.value <= s[i].compositeScore.value
  {
    if Embedded(d, s[i]) && s[i].compositeScore.Some? {
      var v :| IsMaxSimilarity(d, Before(s, kept, i), s[i], v) &&
        r == s[i].(compositeScore := Some(Lowered(d, s[i], v)));
      assert d.lambda * v >= 0.0;
    }
  }

  /** Suppression in full: with `kept` the one greedy selection, the output is sorted and is, up to order, the kept
      results as they end. */
  lemma SuppressionMeaning(d: Diversity, s: seq<SearchResult>, now: int, kept: set<nat>)
    returns (k: seq<nat>, ends: seq<SearchResult>)
    requires d.lambda > 0.0 && |s| >= 2 && Greedy(d, s, kept)
    ensures Positions(k, |s|) && |ends| == |k|
    ensures forall i: nat :: i in k <==> i in kept
    ensures forall i: nat | i < |k| :: EndsAs(d, s, kept, k[i], ends[i])
    ensures multiset(Suppress(d, s, now)) == multiset(ends)
    ensures Sorted(Suppress(d, s, now), ByScore(now))
  {
    k, ends := Selected(d, s, |s|), Filtered(d, s);
    SelectionIsGreedy(d, s);
    GreedyUnique(d, s, kept, Chosen(d, s));
    SelectedIsChosen(d, s, |s|);
    forall i: nat | i < |k| ensures EndsAs(d, s, kept, k[i], ends[i]) {
      KeptEndAs(d, s, k[i]);
    }
    ScoreOrderIsTotal(now);
    SortBySorts(ends, ByScore(now));
  }

  // ---- What the rule leaves in ----

  /** Which results with a score of 0 or less stay: exactly those without embedding, whatever the others are. */
  lemma NonPositiveKeptExactly(d: Diversity, s: seq<SearchResult>, i: nat)
    requires i < |s| && AfterPass(d, s, i).compositeScore.Some? && AfterPass(d, s, i).compositeScore.value <= 0.0
    ensures i in Chosen(d, s) <==> !Embedded(d, s[i])
  {
  }

  /** A result that starts at 0 or less stays if and only if it has no embedding. */
  lemma StartsNonPositive(d: Diversity, s: seq<SearchResult>, i: nat)
    requires d.lambda > 0.0 && i < |s| && s[i].compositeScore.Some? && s[i].compositeScore.value <= 0.0
    ensures i in Chosen(d, s) <==> !Embedded(d, s[i])
  {
    KeptEndAs(d, s, i);
    NoScoreRises(d, s, Chosen(d, s), i, AfterPass(d, s, i));
    NonPositiveKeptExactly(d, s, i);
  }

  const AT_ZERO := SearchResult(Memory(0, 0, 0, None, Semantic, 0.0, 0.0, 0.0, false), None, None, None, Some(0.0))

  /** Two results at score 0, one without embedding and one with: the pass keeps the first. */
  lemma ZeroScoreKept(d: Diversity)
    requires d.lambda > 0.0 && d.embeddings == map[1 := []]
    ensures Chosen(d, [AT_ZERO, AT_ZERO.(memory := AT_ZERO.memory.(id := 1))]) == {0}
  {
    var s := [AT_ZERO, AT_ZERO.(memory := AT_ZERO.memory.(id := 1))];
    StartsNonPositive(d, s, 0);
    StartsNonPositive(d, s, 1);
  }
}

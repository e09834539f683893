/** Ancestry in the context hierarchy, and which active anchors count as the most specific ones. */
module ContextHierarchy {
  import opened Types

  datatype ContextRecord = ContextRecord(id: ContextId, parent: Option<ContextId>)

  type Parents = map<ContextId, Option<ContextId>>

  function ById(records: seq<ContextRecord>): Parents {
    if records == [] then map[]
    else
      var last := records[|records| - 1];
      ById(records[..|records| - 1])[last.id := last.parent]
  }

  function ParentOf(p: Parents, x: ContextId): Option<ContextId> {
    if x in p then p[x] else None
  }

  /** The n-th ancestor, counting the context itself as the zeroth. */
  ghost function Up(p: Parents, x: ContextId, n: nat): Option<ContextId> {
    if n == 0 then Some(x)
    else
      var y := Up(p, x, n - 1);
      if y.None? then None else ParentOf(p, y.value)
  }

  ghost predicate ProperAncestor(p: Parents, a: ContextId, d: ContextId) {
    exists n: nat | n >= 1 :: Up(p, d, n) == Some(a)
  }

  // ---- Deciding ancestry, cycles or not ----

  lemma {:induction false} NothingAboveTheTop(p: Parents, x: ContextId, k: nat, n: nat)
    requires k <= n && Up(p, x, k) == None
    ensures Up(p, x, n) == None
    decreases n
  {
    if k < n {
      NothingAboveTheTop(p, x, k, n - 1);
    }
  }

  /** A set that holds the first ancestor and every known parent of its members holds all ancestors. */
  lemma {:induction false} OrbitStaysInside(p: Parents, x: ContextId, inside: set<ContextId>, n: nat)
    requires n >= 1 && Up(p, x, 1).Some? && Up(p, x, 1).value in inside
    requires forall v | v in inside && ParentOf(p, v).Some? :: ParentOf(p, v).value in inside
    ensures Up(p, x, n).Some? ==> Up(p, x, n).value in inside
  {
    if n > 1 {
      OrbitStaysInside(p, x, inside, n - 1);
    }
  }

  ghost function ParentIds(p: Parents): set<ContextId> {
    set x | x in p && p[x].Some? :: p[x].value
  }

  /** What the walk knows after k steps: its cursor is the k-th ancestor, `visited` the ancestors before it, none of
      them `a`. */
  ghost predicate Walked(p: Parents, a: ContextId, d: ContextId, k: nat, cursor: Option<ContextId>,
                         visited: set<ContextId>) {
    && k >= 1 && cursor == Up(p, d, k)
    && a !in visited
    && (forall i: nat | 1 <= i < k :: Up(p, d, i).Some? && Up(p, d, i).value in visited)
    && (forall v | v in visited ::
          ParentOf(p, v) == cursor || (ParentOf(p, v).Some? && ParentOf(p, v).value in visited))
  }

  lemma WalkStep(p: Parents, a: ContextId, d: ContextId, k: nat, x: ContextId, visited: set<ContextId>)
    requires Walked(p, a, d, k, Some(x), visited) && x != a
    ensures Walked(p, a, d, k + 1, ParentOf(p, x), visited + {x})
  {
  }

  lemma WalkEnds(p: Parents, a: ContextId, d: ContextId, k: nat, visited: set<ContextId>)
    requires Walked(p, a, d, k, None, visited)
    ensures !ProperAncestor(p, a, d)
  {
    forall n: nat | n >= 1 ensures Up(p, d, n) != Some(a) {
      if n >= k {
        NothingAboveTheTop(p, d, k, n);
      }
    }
  }

  lemma WalkCycles(p: Parents, a: ContextId, d: ContextId, k: nat, x: ContextId, visited: set<ContextId>)
    requires Walked(p, a, d, k, Some(x), visited) && x in visited
    ensures !ProperAncestor(p, a, d)
  {
    assert k > 1 ==> Up(p, d, 1).value in visited;
    forall n: nat | n >= 1 ensures Up(p, d, n) != Some(a) {
      OrbitStaysInside(p, d, visited, n);
    }
  }

  /** context_is_ancestor: decides proper ancestry in every finite parent map, cyclic ones included. */
  method IsAncestor(records: seq<ContextRecord>, a: ContextId, d: ContextId) returns (r: bool)
    ensures r <==> ProperAncestor(ById(records), a, d)
  {
    var p := ById(records);
    var cursor := ParentOf(p, d);
    var visited: set<ContextId> := {};
    ghost var k := 1;
    assert Up(p, d, 0) == Some(d);
    while cursor.Some?
      invariant Walked(p, a, d, k, cursor, visited)
      invariant visited <= ParentIds(p) && (cursor.Some? ==> cursor.value in ParentIds(p))
      decreases ParentIds(p) - visited, cursor.Some?
    {
      var x := cursor.value;
      if x == a {
        return true;
      }
      if x in visited {
        WalkCycles(p, a, d, k, x, visited);
        return false;
      }
      WalkStep(p, a, d, k, x, visited);
      visited := visited + {x};
      cursor := ParentOf(p, x);
      k := k + 1;
    }
    WalkEnds(p, a, d, k, visited);
    return false;
  }

  // ---- The most specific anchors ----

  lemma {:induction false} UpAdds(p: Parents, x: ContextId, m: nat, n: nat)
    requires Up(p, x, m).Some?
    ensures Up(p, x, m + n) == Up(p, Up(p, x, m).value, n)
  {
    if n > 0 {
      UpAdds(p, x, m, n - 1);
    }
  }

  lemma AncestryIsTransitive(p: Parents, a: ContextId, b: ContextId, c: ContextId)
    requires ProperAncestor(p, a, b) && ProperAncestor(p, b, c)
    ensures ProperAncestor(p, a, c)
  {
    var m: nat :| m >= 1 && Up(p, c, m) == Some(b);
    var n: nat :| n >= 1 && Up(p, b, n) == Some(a);
    UpAdds(p, c, m, n);
    assert Up(p, c, m + n) == Some(a);
  }

  /** Another active anchor lies below this one. */
  ghost predicate Superseded(p: Parents, ids: set<ContextId>, x: ContextId) {
    exists y | y in ids :: y != x && ProperAncestor(p, x, y)
  }

  /** The anchors no other active anchor lies below. */
  ghost function Retained(p: Parents, ids: set<ContextId>): set<ContextId> {
    set x | x in ids && !Superseded(p, ids, x)
  }

  method HasDescendant(records: seq<ContextRecord>, anchors: seq<ContextId>, x: ContextId) returns (r: bool)
    ensures r <==> Superseded(ById(records), (set y | y in anchors), x)
  {
    for k := 0 to |anchors|
      invariant forall i: nat | i < k :: anchors[i] == x || !ProperAncestor(ById(records), x, anchors[i])
    {
      if anchors[k] != x {
        var above := IsAncestor(records, x, anchors[k]);
        if above {
          assert anchors[k] in (set y | y in anchors);
          return true;
        }
      }
    }
    return false;
  }

  /** The retained anchors are an antichain, whatever the hierarchy. */
  lemma RetainedAreAntichain(p: Parents, ids: set<ContextId>, x: ContextId, y: ContextId)
    requires x in Retained(p, ids) && y in Retained(p, ids) && x != y
    ensures !ProperAncestor(p, x, y)
  {
  }

  // ---- When the retained anchors stand for all of them ----

  /** Two contexts on one cycle: each is above the other. */
  ghost predicate Mutual(p: Parents, x: ContextId, y: ContextId) {
    ProperAncestor(p, x, y) && ProperAncestor(p, y, x)
  }

  ghost predicate HasPartner(p: Parents, ids: set<ContextId>, x: ContextId) {
    exists y | y in ids :: y != x && Mutual(p, x, y)
  }

  lemma {:induction false} CycleRepeats(p: Parents, y: ContextId, m: nat, k: nat)
    requires Up(p, y, m) == Some(y)
    ensures Up(p, y, k * m) == Some(y)
  {
    if k > 0 {
      CycleRepeats(p, y, m, k - 1);
      UpAdds(p, y, (k - 1) * m, m);
      assert (k - 1) * m + m == k * m;
    }
  }

  /** Parents are unique, so everything above a context on a cycle is on that cycle. */
  lemma AboveACycle(p: Parents, x: ContextId, y: ContextId)
    requires ProperAncestor(p, y, y) && ProperAncestor(p, x, y)
    ensures ProperAncestor(p, y, x)
  {
    var m: nat :| m >= 1 && Up(p, y, m) == Some(y);
    var n: nat :| n >= 1 && Up(p, y, n) == Some(x);
    CycleRepeats(p, y, m, n + 1);
    assert (n + 1) * m == n * m + m && n * m >= n;
    UpAdds(p, y, n, (n + 1) * m - n);
    assert Up(p, x, (n + 1) * m - n) == Some(y);
  }

  ghost function Below(p: Parents, ids: set<ContextId>, x: ContextId): set<ContextId> {
    set y | y in ids && y != x && ProperAncestor(p, x, y)
  }

  /** Below an anchor without partner no anchor has one, and there are fewer anchors below that one. */
  lemma DownwardsFewer(p: Parents, ids: set<ContextId>, x: ContextId, y: ContextId)
    requires !HasPartner(p, ids, x) && x in ids && y in ids && y != x && ProperAncestor(p, x, y)
    ensures !HasPartner(p, ids, y) && |Below(p, ids, y)| < |Below(p, ids, x)|
  {
    if ProperAncestor(p, y, y) {
      AboveACycle(p, x, y);
      assert false;
    }
    forall z | z in ids && Mutual(p, y, z) ensures false {
      AncestryIsTransitive(p, y, z, y);
    }
    forall z | z in Below(p, ids, y) ensures z in Below(p, ids, x) - {y} {
      AncestryIsTransitive(p, x, y, z);
      assert z == x ==> Mutual(p, x, y);
    }
    SmallerSet(Below(p, ids, y), Below(p, ids, x) - {y});
  }

  /** At or below every anchor without partner something is retained. */
  lemma {:induction false} RetainedBelow(p: Parents, ids: set<ContextId>, x: ContextId) returns (y: ContextId)
    requires x in ids && !HasPartner(p, ids, x)
    ensures y in Retained(p, ids) && (y == x || ProperAncestor(p, x, y))
    decreases |Below(p, ids, x)|
  {
    y := x;
    if Superseded(p, ids, x) {
      var w :| w in ids && w != x && ProperAncestor(p, x, w);
      DownwardsFewer(p, ids, x, w);
      y := RetainedBelow(p, ids, w);
      if y != w {
        AncestryIsTransitive(p, x, w, y);
      }
    }
  }

  /** Something is retained if and only if some anchor shares its cycle with no other anchor. */
  lemma SomethingIsRetainedExactly(p: Parents, ids: set<ContextId>)
    ensures Retained(p, ids) != {} <==> exists x | x in ids :: !HasPartner(p, ids, x)
  {
    if x :| x in Retained(p, ids) {
      assert x in ids && !HasPartner(p, ids, x);
    }
    if x :| x in ids && !HasPartner(p, ids, x) {
      var y := RetainedBelow(p, ids, x);
    }
  }

  /** Every discarded anchor has a retained strict descendant. */
  ghost predicate DiscardedAreRefined(p: Parents, ids: set<ContextId>) {
    forall x | x in ids && Superseded(p, ids, x) :: exists y | y in Retained(p, ids) :: ProperAncestor(p, x, y)
  }

  /** Below every two anchors of one cycle there is an anchor off the cycle. */
  ghost predicate CyclesAreRefined(p: Parents, ids: set<ContextId>) {
    forall x, y | x in ids && y in ids && x != y && Mutual(p, x, y) ::
      exists z | z in ids :: ProperAncestor(p, x, z) && !ProperAncestor(p, z, x)
  }

  lemma RefinedMember(p: Parents, ids: set<ContextId>, x: ContextId) returns (y: ContextId)
    requires CyclesAreRefined(p, ids) && x in ids && Superseded(p, ids, x)
    ensures y in Retained(p, ids) && ProperAncestor(p, x, y)
  {
    if HasPartner(p, ids, x) {
      var z := OffTheCycle(p, ids, x);
      y := RetainedBelow(p, ids, z);
      if y != z {
        AncestryIsTransitive(p, x, z, y);
      }
    } else {
      y := RetainedBelow(p, ids, x);
    }
  }

  lemma OffTheCycle(p: Parents, ids: set<ContextId>, x: ContextId) returns (z: ContextId)
    requires CyclesAreRefined(p, ids) && x in ids && HasPartner(p, ids, x)
    ensures z in ids && ProperAncestor(p, x, z) && !HasPartner(p, ids, z)
  {
    var y :| y in ids && y != x && Mutual(p, x, y);
    z :| z in ids && ProperAncestor(p, x, z) && !ProperAncestor(p, z, x);
    forall w | w in ids && Mutual(p, z, w) ensures false {
      AncestryIsTransitive(p, z, w, z);
      AboveACycle(p, x, z);
    }
  }

  /** Every discarded anchor has a retained strict descendant if and only if every cycle with two anchors on it has an
      anchor below it. */
  lemma DiscardedAreRefinedExactly(p: Parents, ids: set<ContextId>)
    ensures DiscardedAreRefined(p, ids) <==> CyclesAreRefined(p, ids)
  {
    if CyclesAreRefined(p, ids) {
      forall x | x in ids && Superseded(p, ids, x) ensures exists y | y in Retained(p, ids) :: ProperAncestor(p, x, y) {
        var y := RefinedMember(p, ids, x);
      }
    }
    if DiscardedAreRefined(p, ids) {
      forall x, y | x in ids && y in ids && x != y && Mutual(p, x, y)
        ensures exists z | z in ids :: ProperAncestor(p, x, z) && !ProperAncestor(p, z, x)
      {
        assert Superseded(p, ids, x);
        var z :| z in Retained(p, ids) && ProperAncestor(p, x, z);
        RetainedIsOffCycle(p, ids, x, y, z);
      }
    }
  }

  lemma RetainedIsOffCycle(p: Parents, ids: set<ContextId>, x: ContextId, y: ContextId, z: ContextId)
    requires x in ids && y in ids && x != y && Mutual(p, x, y) && z in Retained(p, ids)
    ensures !ProperAncestor(p, z, x)
  {
    assert Superseded(p, ids, x);
    assert z != x && ProperAncestor(p, z, x) ==> Superseded(p, ids, z);
  }

  ghost predicate Acyclic(p: Parents) {
    forall x: ContextId :: !ProperAncestor(p, x, x)
  }

  /** In an acyclic hierarchy both hold for every set of anchors. */
  lemma AcyclicHierarchiesRetain(p: Parents, ids: set<ContextId>)
    requires Acyclic(p)
    ensures DiscardedAreRefined(p, ids) && (ids != {} ==> Retained(p, ids) != {})
  {
    forall x, y | Mutual(p, x, y) ensures false {
      AncestryIsTransitive(p, x, y, x);
    }
    DiscardedAreRefinedExactly(p, ids);
    SomethingIsRetainedExactly(p, ids);
    if x :| x in ids {
      assert !HasPartner(p, ids, x);
    }
  }

  /** On a cycle the anchors discard each other and nothing is retained. */
  lemma CycleRetainsNothing()
    ensures Retained(map[0 := Some(1), 1 := Some(0)], {0, 1}) == {}
  {
    var p: Parents := map[0 := Some(1), 1 := Some(0)];
    assert Up(p, 0, 0) == Some(0) && Up(p, 1, 0) == Some(1);
    assert Up(p, 0, 1) == Some(1) && Up(p, 1, 1) == Some(0);
    assert ProperAncestor(p, 1, 0) && ProperAncestor(p, 0, 1);
    assert Superseded(p, {0, 1}, 0) && Superseded(p, {0, 1}, 1);
  }
}

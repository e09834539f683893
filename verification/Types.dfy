/** Values shared by the modules. */
module Types {

  type MemoryId = nat
  type ContextId = nat

  datatype Option<+T> = None | Some(value: T)

  datatype StoreError = Conflict(reason: string) | Backend(reason: string)

  datatype Result<+T> = Success(value: T) | Failure(error: StoreError)

  /** A listed memory: what consolidation reads of it. `profile` is its ordered list of contexts. */
  datatype Candidate = Candidate(
    id: MemoryId,
    profile: seq<ContextId>,
    embedded: bool,
    updatedAt: int,
    lastUsedAt: Option<int>)

  datatype Neighbor = Neighbor(id: MemoryId, similarity: real)

  datatype NeighborPair = NeighborPair(idA: MemoryId, idB: MemoryId, similarity: real)

  /** Memory ids are primary keys of the store. */
  predicate DistinctIds(c: seq<Candidate>) {
    forall i: nat, j: nat | i < j < |c| :: c[i].id != c[j].id
  }

  predicate Distinct<T(==)>(s: seq<T>) {
    forall i: nat, j: nat | i < j < |s| :: s[i] != s[j]
  }

  /** The id-to-index lookup both halves of consolidation build first. */
  function IndexById(c: seq<Candidate>): (m: map<MemoryId, nat>)
    requires DistinctIds(c)
    ensures forall i: nat | i < |c| :: c[i].id in m && m[c[i].id] == i
    ensures forall id | id in m :: m[id] < |c| && c[m[id]].id == id
  {
    map i: nat | i < |c| :: c[i].id := i
  }

  lemma {:induction false} SmallerSet<T>(a: set<T>, b: set<T>)
    requires a <= b
    ensures |a| <= |b|
  {
    if a != {} {
      var x :| x in a;
      SmallerSet(a - {x}, b - {x});
    }
  }

  lemma {:induction false} RangeBound(s: set<nat>, n: nat)
    requires forall j | j in s :: j < n
    ensures |s| <= n
  {
    if n == 0 {
      assert s == {};
    } else {
      RangeBound(s - {n - 1}, n - 1);
    }
  }
}

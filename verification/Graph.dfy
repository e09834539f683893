/** Undirected graphs over candidate indices, given by a set of index pairs, and connectivity in them. */
module Graph {

  type Edge = (nat, nat)

  /** The two ends are joined by an edge, read in either direction. */
  predicate Adjacent(edges: set<Edge>, x: nat, y: nat) {
    (x, y) in edges || (y, x) in edges
  }

  /** `stops` lists the vertices visited after `x`; the last one is `y`. */
  ghost predicate IsPath(edges: set<Edge>, x: nat, y: nat, stops: seq<nat>)
    decreases |stops|
  {
    if stops == [] then x == y
    else Adjacent(edges, x, stops[0]) && IsPath(edges, stops[0], y, stops[1..])
  }

  ghost predicate Connected(edges: set<Edge>, x: nat, y: nat) {
    exists stops :: IsPath(edges, x, y, stops)
  }

  lemma Reflexive(edges: set<Edge>, x: nat)
    ensures Connected(edges, x, x)
  {
    assert IsPath(edges, x, x, []);
  }

  lemma EdgeConnects(edges: set<Edge>, x: nat, y: nat)
    requires Adjacent(edges, x, y)
    ensures Connected(edges, x, y)
  {
    assert IsPath(edges, y, y, [y][1..]);
    assert IsPath(edges, x, y, [y]);
  }

  lemma {:induction false} PathsCompose(edges: set<Edge>, x: nat, y: nat, z: nat, p: seq<nat>, q: seq<nat>)
    requires IsPath(edges, x, y, p) && IsPath(edges, y, z, q)
    ensures IsPath(edges, x, z, p + q)
    decreases |p|
  {
    if p == [] {
      assert p + q == q;
    } else {
      PathsCompose(edges, p[0], y, z, p[1..], q);
      assert (p + q)[1..] == p[1..] + q;
    }
  }

  lemma Transitive(edges: set<Edge>, x: nat, y: nat, z: nat)
    requires Connected(edges, x, y) && Connected(edges, y, z)
    ensures Connected(edges, x, z)
  {
    var p :| IsPath(edges, x, y, p);
    var q :| IsPath(edges, y, z, q);
    PathsCompose(edges, x, y, z, p, q);
  }

  lemma {:induction false} Symmetric(edges: set<Edge>, x: nat, y: nat)
    requires Connected(edges, x, y)
    ensures Connected(edges, y, x)
  {
    var p :| IsPath(edges, x, y, p);
    PathReverses(edges, x, y, p);
  }

  lemma {:induction false} PathReverses(edges: set<Edge>, x: nat, y: nat, p: seq<nat>)
    requires IsPath(edges, x, y, p)
    ensures Connected(edges, y, x)
    decreases |p|
  {
    if p == [] {
      Reflexive(edges, x);
    } else {
      PathReverses(edges, p[0], y, p[1..]);
      EdgeConnects(edges, p[0], x);
      Transitive(edges, y, p[0], x);
    }
  }

  /** A set that holds `x` and is closed under the edges holds everything connected to `x`. */
  lemma {:induction false} StaysInside(edges: set<Edge>, inside: set<nat>, x: nat, y: nat)
    requires x in inside && Connected(edges, x, y)
    requires forall e | e in edges :: e.0 in inside <==> e.1 in inside
    ensures y in inside
  {
    var p :| IsPath(edges, x, y, p);
    PathStaysInside(edges, inside, x, y, p);
  }

  lemma {:induction false} PathStaysInside(edges: set<Edge>, inside: set<nat>, x: nat, y: nat, p: seq<nat>)
    requires x in inside && IsPath(edges, x, y, p)
    requires forall e | e in edges :: e.0 in inside <==> e.1 in inside
    ensures y in inside
    decreases |p|
  {
    if p != [] {
      assert (x, p[0]) in edges || (p[0], x) in edges;
      PathStaysInside(edges, inside, p[0], y, p[1..]);
    }
  }

  /** If every edge of one graph joins vertices connected in another, connectivity carries over. */
  lemma ConnectivityCarries(edges: set<Edge>, other: set<Edge>, x: nat, y: nat)
    requires forall e | e in edges :: Connected(other, e.0, e.1)
    requires Connected(edges, x, y)
    ensures Connected(other, x, y)
  {
    var p :| IsPath(edges, x, y, p);
    PathCarries(edges, other, x, y, p);
  }

  lemma {:induction false} PathCarries(edges: set<Edge>, other: set<Edge>, x: nat, y: nat, p: seq<nat>)
    requires forall e | e in edges :: Connected(other, e.0, e.1)
    requires IsPath(edges, x, y, p)
    ensures Connected(other, x, y)
    decreases |p|
  {
    if p == [] {
      Reflexive(other, x);
    } else {
      if (x, p[0]) in edges {
        assert Connected(other, (x, p[0]).0, (x, p[0]).1);
      } else {
        assert Connected(other, (p[0], x).0, (p[0], x).1);
        Symmetric(other, p[0], x);
      }
      PathCarries(edges, other, p[0], y, p[1..]);
      Transitive(other, x, p[0], y);
    }
  }

  lemma Monotone(edges: set<Edge>, more: set<Edge>, x: nat, y: nat)
    requires edges <= more && Connected(edges, x, y)
    ensures Connected(more, x, y)
  {
    forall e | e in edges ensures Connected(more, e.0, e.1) {
      EdgeConnects(more, e.0, e.1);
    }
    ConnectivityCarries(edges, more, x, y);
  }

  /** Adding one edge joins exactly the two classes at its ends. */
  lemma {:induction false} AddingAnEdge(edges: set<Edge>, a: nat, b: nat, x: nat, y: nat)
    ensures Connected(edges + {(a, b)}, x, y) <==>
            || Connected(edges, x, y)
            || (Connected(edges, x, a) && Connected(edges, b, y))
            || (Connected(edges, x, b) && Connected(edges, a, y))
  {
    var more := edges + {(a, b)};
    if Connected(more, x, y) {
      var p :| IsPath(more, x, y, p);
      PathThroughNewEdge(edges, a, b, x, y, p);
    }
    EdgeConnects(more, a, b);
    EdgeConnects(more, b, a);
    if Connected(edges, x, y) {
      Monotone(edges, more, x, y);
    }
    if Connected(edges, x, a) && Connected(edges, b, y) {
      Monotone(edges, more, x, a);
      Monotone(edges, more, b, y);
      Transitive(more, x, a, b);
      Transitive(more, x, b, y);
    }
    if Connected(edges, x, b) && Connected(edges, a, y) {
      Monotone(edges, more, x, b);
      Monotone(edges, more, a, y);
      Transitive(more, x, b, a);
      Transitive(more, x, a, y);
    }
  }

  lemma {:induction false} PathThroughNewEdge(edges: set<Edge>, a: nat, b: nat, x: nat, y: nat, p: seq<nat>)
    requires IsPath(edges + {(a, b)}, x, y, p)
    ensures || Connected(edges, x, y)
            || (Connected(edges, x, a) && Connected(edges, b, y))
            || (Connected(edges, x, b) && Connected(edges, a, y))
    decreases |p|
  {
    Reflexive(edges, x);
    if p != [] {
      var z := p[0];
      PathThroughNewEdge(edges, a, b, z, y, p[1..]);
      if Adjacent(edges, x, z) {
        EdgeConnects(edges, x, z);
        if Connected(edges, z, y) {
          Transitive(edges, x, z, y);
        } else if Connected(edges, z, a) && Connected(edges, b, y) {
          Transitive(edges, x, z, a);
        } else {
          Transitive(edges, x, z, b);
        }
      } else {
        // The step uses the new edge, so x is one of its ends and z the other.
        assert (x == a && z == b) || (x == b && z == a);
        Reflexive(edges, z);
      }
    }
  }
}

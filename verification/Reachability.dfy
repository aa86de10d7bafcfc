/** Paths over dependency edges. An edge `(a, b)` says that `a` depends on `b`. */
module Reachability {

  type Edges = set<(nat, nat)>

  ghost predicate IsPath(edges: Edges, path: seq<nat>) {
    forall i | 0 <= i < |path| - 1 :: (path[i], path[i + 1]) in edges
  }

  ghost predicate PathFromTo(edges: Edges, path: seq<nat>, a: nat, b: nat) {
    |path| >= 2 && path[0] == a && path[|path| - 1] == b && IsPath(edges, path)
  }

  /** `a` depends on `b`, directly or through other commands. */
  ghost predicate Reaches(edges: Edges, a: nat, b: nat) {
    exists path :: PathFromTo(edges, path, a, b)
  }

  lemma EdgeReaches(edges: Edges, a: nat, b: nat)
    requires (a, b) in edges
    ensures Reaches(edges, a, b)
  {
    assert PathFromTo(edges, [a, b], a, b);
  }

  lemma ReachesTransitive(edges: Edges, a: nat, b: nat, c: nat)
    requires Reaches(edges, a, b) && Reaches(edges, b, c)
    ensures Reaches(edges, a, c)
  {
    var p :| PathFromTo(edges, p, a, b);
    var q :| PathFromTo(edges, q, b, c);
    var r := p + q[1..];
    forall i | 0 <= i < |r| - 1
      ensures (r[i], r[i + 1]) in edges
    {
      if i < |p| - 1 {
      } else {
        assert r[i] == q[i - |p| + 1];
      }
    }
    assert PathFromTo(edges, r, a, c);
  }

  lemma ReachesMonotone(edges: Edges, more: Edges)
    requires edges <= more
    ensures forall a, b :: Reaches(edges, a, b) ==> Reaches(more, a, b)
  {
    forall a, b | Reaches(edges, a, b)
      ensures Reaches(more, a, b)
    {
      var p :| PathFromTo(edges, p, a, b);
      assert PathFromTo(more, p, a, b);
    }
  }

  /** One edge followed by nothing or by more edges. */
  lemma ReachesVia(edges: Edges, a: nat, b: nat, c: nat)
    requires (a, b) in edges && (b == c || Reaches(edges, b, c))
    ensures Reaches(edges, a, c)
  {
    EdgeReaches(edges, a, b);
    if b != c { ReachesTransitive(edges, a, b, c); }
  }

  /** A path starts with an edge. */
  lemma FirstStep(edges: Edges, a: nat, b: nat) returns (c: nat)
    requires Reaches(edges, a, b)
    ensures (a, c) in edges && (c == b || Reaches(edges, c, b))
  {
    var p :| PathFromTo(edges, p, a, b);
    c := p[1];
    if |p| > 2 { assert PathFromTo(edges, p[1..], c, b); }
  }

  /** A number that falls along every edge falls along every path. */
  lemma ReachesDescends(edges: Edges, rank: map<nat, int>, a: nat, b: nat)
    requires forall e | e in edges :: e.0 in rank && e.1 in rank && rank[e.1] < rank[e.0]
    requires Reaches(edges, a, b)
    ensures a in rank && b in rank && rank[b] < rank[a]
  {
    var p :| PathFromTo(edges, p, a, b);
    PathDescends(edges, rank, p);
  }

  lemma {:induction false} PathDescends(edges: Edges, rank: map<nat, int>, path: seq<nat>)
    requires forall e | e in edges :: e.0 in rank && e.1 in rank && rank[e.1] < rank[e.0]
    requires |path| >= 2 && IsPath(edges, path)
    ensures path[0] in rank && path[|path| - 1] in rank && rank[path[|path| - 1]] < rank[path[0]]
  {
    assert (path[0], path[1]) in edges;
    if |path| > 2 {
      var rest := path[1..];
      forall i | 0 <= i < |rest| - 1
        ensures (rest[i], rest[i + 1]) in edges
      {
        assert (path[i + 1], path[i + 2]) in edges;
      }
      PathDescends(edges, rank, rest);
    }
  }

  /** Paths from a closed set run along the edges of that set. */
  lemma ReachesFrom(edges: Edges, fewer: Edges, from: set<nat>, a: nat, b: nat)
    requires forall x, y :: (x, y) in edges && x in from ==> (x, y) in fewer && y in from
    requires a in from && Reaches(edges, a, b)
    ensures Reaches(fewer, a, b)
  {
    var p :| PathFromTo(edges, p, a, b);
    var i := 0;
    while i < |p| - 1
      invariant 0 <= i < |p| && p[i] in from
      invariant forall j | 0 <= j < i :: (p[j], p[j + 1]) in fewer
    {
      assert (p[i], p[i + 1]) in edges;
      i := i + 1;
    }
    assert PathFromTo(fewer, p, a, b);
  }
}

/** Sequences that respect a dependency relation. */
module Orders {
  import opened Reachability

  ghost predicate RanBefore(order: seq<nat>, k: nat, c: nat)
    requires k <= |order|
  {
    exists i :: 0 <= i < k && order[i] == c
  }

  /** Everything occurs once and after what it depends on. */
  ghost predicate Respects(edges: Edges, order: seq<nat>) {
    && (forall i, j :: 0 <= i < j < |order| ==> order[i] != order[j])
    && (forall k: nat, d: nat :: k < |order| && (order[k], d) in edges ==> RanBefore(order, k, d))
  }

  ghost function Index(order: seq<nat>, k: nat, c: nat): (i: nat)
    requires k <= |order| && RanBefore(order, k, c)
    ensures i < k && order[i] == c
  {
    var i :| 0 <= i < k && order[i] == c;
    i
  }

  /** What an element reaches has run before it. */
  lemma {:induction false} ReachedRanBefore(edges: Edges, order: seq<nat>, k: nat, c: nat) returns (i: nat)
    requires Respects(edges, order) && k < |order| && Reaches(edges, order[k], c)
    ensures i < k && order[i] == c
    decreases k
  {
    var d := FirstStep(edges, order[k], c);
    i := Index(order, k, d);
    if d != c { i := ReachedRanBefore(edges, order, i, c); }
  }

  lemma Appended(edges: Edges, order: seq<nat>, c: nat)
    requires Respects(edges, order) && c !in order && forall d: nat :: (c, d) in edges ==> d in order
    ensures Respects(edges, order + [c])
  {
    var order' := order + [c];
    forall k: nat, d: nat | k < |order'| && (order'[k], d) in edges
      ensures RanBefore(order', k, d)
    {
      var i :| 0 <= i < k && order[i] == d by {
        if k < |order| { assert RanBefore(order, k, d); }
      }
      assert order'[i] == d;
    }
  }

  ghost predicate Descends(edges: Edges, rank: map<nat, int>) {
    forall e | e in edges :: e.0 in rank && e.1 in rank && rank[e.1] < rank[e.0]
  }

  ghost predicate IsClosed(edges: Edges, cs: set<nat>) {
    forall a: nat, b: nat :: (a, b) in edges && a in cs ==> b in cs
  }

  lemma {:induction false} Highest(rank: map<nat, int>, cs: set<nat>) returns (c: nat)
    requires cs != {} && cs <= rank.Keys
    ensures c in cs && forall d :: d in cs ==> rank[d] <= rank[c]
  {
    var x :| x in cs;
    c := x;
    if cs != {x} {
      var y := Highest(rank, cs - {x});
      if rank[y] > rank[x] { c := y; }
    }
  }

  /** A closed set can be put in order. */
  lemma {:induction false} Sorted(edges: Edges, rank: map<nat, int>, cs: set<nat>) returns (order: seq<nat>)
    requires Descends(edges, rank) && cs <= rank.Keys && IsClosed(edges, cs)
    ensures Respects(edges, order) && forall c :: c in order <==> c in cs
    decreases |cs|
  {
    order := [];
    if cs != {} {
      var c := Highest(rank, cs);
      forall a: nat, b: nat | (a, b) in edges && a in cs
        ensures b != c
      {
        assert rank[(a, b).1] < rank[(a, b).0];
      }
      order := Sorted(edges, rank, cs - {c});
      Appended(edges, order, c);
      order := order + [c];
    }
  }
}

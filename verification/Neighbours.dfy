/** Neighbours in a dependency graph. */
module Neighbours {
  import opened Reachability

  /** The elements of a set in some order. */
  method Enumerate(cs: set<nat>) returns (r: seq<nat>)
    ensures forall c :: c in r <==> c in cs
    ensures forall i, j :: 0 <= i < j < |r| ==> r[i] != r[j]
  {
    r := [];
    var rest := cs;
    while rest != {}
      invariant rest <= cs && forall c :: c in r <==> c in cs && c !in rest
      invariant forall i, j :: 0 <= i < j < |r| ==> r[i] != r[j]
      decreases rest
    {
      var c :| c in rest;
      r := r + [c];
      rest := rest - {c};
    }
  }

  lemma {:induction false} SubsetSize(a: set<nat>, b: set<nat>)
    requires a <= b
    ensures |a| <= |b|
  {
    if a != {} {
      var x :| x in a;
      SubsetSize(a - {x}, b - {x});
    }
  }

  /** What `x` depends on, in some order. */
  method Dependencies(edges: Edges, x: nat) returns (r: seq<nat>)
    ensures forall d :: d in r <==> (x, d) in edges
    ensures forall i, j :: 0 <= i < j < |r| ==> r[i] != r[j]
  {
    var ds := set e | e in edges && e.0 == x :: e.1;
    forall d | (x, d) in edges
      ensures d in ds
    {
      assert (x, d).1 == d;
    }
    r := Enumerate(ds);
  }

  /** What depends on `x`, in some order. */
  method Dependents(edges: Edges, x: nat) returns (r: seq<nat>)
    ensures forall d :: d in r <==> (d, x) in edges
    ensures forall i, j :: 0 <= i < j < |r| ==> r[i] != r[j]
  {
    var ds := set e | e in edges && e.1 == x :: e.0;
    forall d | (d, x) in edges
      ensures d in ds
    {
      assert (d, x).0 == d;
    }
    r := Enumerate(ds);
  }
}

/** Graph nodes that hold lists of their dependencies and of their dependents. */
module IntrusiveGraphs {
  import opened Options

  datatype Dependency = Dependency(node: Node, isAnti: bool)

  /** The flag with which `x` is in the list. */
  ghost function Flag(list: seq<Dependency>, x: Node): Option<bool> {
    if list == [] then None
    else if list[|list| - 1].node == x then Some(list[|list| - 1].isAnti)
    else Flag(list[..|list| - 1], x)
  }

  ghost predicate NoDuplicates(list: seq<Dependency>) {
    forall i, j :: 0 <= i < j < |list| ==> list[i].node != list[j].node
  }

  lemma {:induction false} FlagAt(list: seq<Dependency>, i: nat)
    requires NoDuplicates(list) && i < |list|
    ensures Flag(list, list[i].node) == Some(list[i].isAnti)
  {
    if i < |list| - 1 { FlagAt(list[..|list| - 1], i); }
  }

  lemma {:induction false} FlagNone(list: seq<Dependency>, x: Node)
    requires forall i :: 0 <= i < |list| ==> list[i].node != x
    ensures Flag(list, x) == None
  {
    if list != [] { FlagNone(list[..|list| - 1], x); }
  }

  lemma {:induction false} FlagFound(list: seq<Dependency>, x: Node) returns (i: nat)
    requires Flag(list, x).Some?
    ensures i < |list| && list[i].node == x && list[i].isAnti == Flag(list, x).value
  {
    i := |list| - 1;
    if list[i].node != x { i := FlagFound(list[..i], x); }
  }

  function Upgraded(list: seq<Dependency>, i: nat): seq<Dependency>
    requires i < |list|
  {
    list[i := Dependency(list[i].node, false)]
  }

  lemma {:induction false} FlagUpgraded(list: seq<Dependency>, i: nat, x: Node)
    requires NoDuplicates(list) && i < |list|
    ensures Flag(Upgraded(list, i), x) == if x == list[i].node then Some(false) else Flag(list, x)
  {
    var rest := list[..|list| - 1];
    if i == |list| - 1 {
      assert Upgraded(list, i)[..|list| - 1] == rest;
    } else {
      assert Upgraded(list, i)[..|list| - 1] == Upgraded(rest, i);
      FlagUpgraded(rest, i, x);
    }
  }

  function Without(list: seq<Dependency>, i: nat): seq<Dependency>
    requires i < |list|
  {
    list[..i] + list[i + 1..]
  }

  lemma {:induction false} FlagWithout(list: seq<Dependency>, i: nat, x: Node)
    requires NoDuplicates(list) && i < |list|
    ensures NoDuplicates(Without(list, i))
    ensures Flag(Without(list, i), x) == if x == list[i].node then None else Flag(list, x)
  {
    var rest, last := list[..|list| - 1], list[|list| - 1];
    if i == |list| - 1 {
      assert Without(list, i) == rest;
      if x == last.node { FlagNone(rest, x); }
    } else {
      FlagWithout(rest, i, x);
      assert Without(list, i) == Without(rest, i) + [last];
      assert Without(list, i)[..|Without(list, i)| - 1] == Without(rest, i);
    }
  }

  /** `length` is the least number that is not below `own` and exceeds `dependee`. */
  ghost predicate Deeper(length: nat, own: nat, dependee: nat) {
    length >= own && length > dependee && (length == own || length == dependee + 1)
  }

  class Node {
    var dependencies: seq<Dependency>
    var dependents: seq<Dependency>
    var pseudoCriticalPathLength: nat
    ghost var walk: seq<Node>             // a walk along dependencies of that length, as long as none is removed

    constructor ()
      ensures dependencies == [] && dependents == [] && pseudoCriticalPathLength == 0 && walk == [this]
    {
      dependencies, dependents, pseudoCriticalPathLength, walk := [], [], 0, [this];
    }

    /** The position of a node in a list. */
    static method MaybeGetDep(list: seq<Dependency>, x: Node) returns (i: Option<nat>)
      ensures i.Some? ==> i.value < |list| && list[i.value].node == x
      ensures i.None? ==> forall k :: 0 <= k < |list| ==> list[k].node != x
    {
      for k := 0 to |list|
        invariant forall l :: 0 <= l < k ==> list[l].node != x
      {
        if list[k].node == x {
          return Some(k);
        }
      }
      i := None;
    }

    /** Whether `x` is a dependency, of the given kind if one is given. */
    method HasDependency(x: Node, isAnti: Option<bool>) returns (r: bool)
      requires NoDuplicates(dependencies)
      ensures r <==> Flag(dependencies, x).Some? && (isAnti.Some? ==> isAnti == Flag(dependencies, x))
    {
      var i := MaybeGetDep(dependencies, x);
      if i.Some? { FlagAt(dependencies, i.value); } else { FlagNone(dependencies, x); }
      r := i.Some? && (isAnti.None? || dependencies[i.value].isAnti == isAnti.value);
    }

    /** Adds a dependency, or upgrades an anti-dependency; a true dependency stays one. */
    method AddDependency(dep: Node, anti: bool, ghost nodes: set<Node>)
      requires Mirrored(nodes, NetOf(nodes)) && this in nodes && dep in nodes && Flag(dependents, dep).None?
      modifies this`dependencies, this`pseudoCriticalPathLength, this`walk, dep`dependents
      ensures Mirrored(nodes, NetOf(nodes))
      ensures FlagsSet(nodes, old(NetOf(nodes)), NetOf(nodes), this, dep,
                       Some(AddedFlag(old(Flag(dependencies, dep)), anti)))
      ensures Walks(nodes, old(NetOf(nodes))) ==> Walks(nodes, NetOf(nodes))
      ensures old(Flag(dependencies, dep)).Some? ==> pseudoCriticalPathLength == old(pseudoCriticalPathLength)
      ensures old(Flag(dependencies, dep)).None? ==>
                Deeper(pseudoCriticalPathLength, old(pseudoCriticalPathLength), old(dep.pseudoCriticalPathLength))
    {
      hide Flag, ListOk, Mirrored, Walks, FlagsSet;
      ghost var net := NetOf(nodes);
      KnownLists(nodes, net, this);
      var i := MaybeGetDep(dependencies, dep);
      if i.Some? {
        FlagAt(dependencies, i.value);
        if dependencies[i.value].isAnti && !anti {
          Upgrade(dep, i.value, nodes);
        } else {
          NothingSet(nodes, net, this, dep);
        }
        assert SameLengths(nodes, net, NetOf(nodes));
        WalksStay(nodes, net, NetOf(nodes), this, dep, AddedFlag(old(Flag(dependencies, dep)), anti));
      } else {
        FlagNone(dependencies, dep);
        AddNew(dep, anti, nodes);
      }
    }

    method AddNew(dep: Node, anti: bool, ghost nodes: set<Node>)
      requires Mirrored(nodes, NetOf(nodes)) && this in nodes && dep in nodes && Flag(dependencies, dep).None?
      modifies this`dependencies, this`pseudoCriticalPathLength, this`walk, dep`dependents
      ensures Mirrored(nodes, NetOf(nodes)) && FlagsSet(nodes, old(NetOf(nodes)), NetOf(nodes), this, dep, Some(anti))
      ensures Walks(nodes, old(NetOf(nodes))) ==> Walks(nodes, NetOf(nodes))
      ensures Deeper(pseudoCriticalPathLength, old(pseudoCriticalPathLength), old(dep.pseudoCriticalPathLength))
    {
      hide Flag, ListOk, Mirrored, Walks, FlagsSet, NetOf;
      ghost var net := NetOf(nodes);
      Append(dep, anti, nodes);
      ghost var appended := NetOf(nodes);
      WalksStay(nodes, net, appended, this, dep, anti);
      if dep.pseudoCriticalPathLength + 1 > pseudoCriticalPathLength {
        Lengthen(dep, nodes);
        OnlyLength(nodes, net, appended, NetOf(nodes), this, dep, anti);
      }
    }

    method Lengthen(dep: Node, ghost nodes: set<Node>)
      requires this in nodes && dep in nodes
      modifies this`pseudoCriticalPathLength, this`walk
      ensures Lengthened(nodes, old(NetOf(nodes)), NetOf(nodes), this, dep)
      ensures pseudoCriticalPathLength == old(dep.pseudoCriticalPathLength) + 1
    {
      pseudoCriticalPathLength, walk := dep.pseudoCriticalPathLength + 1, [this] + dep.walk;
    }

    method Upgrade(dep: Node, i: nat, ghost nodes: set<Node>)
      requires Mirrored(nodes, NetOf(nodes)) && this in nodes && dep in nodes && i < |dependencies|
      requires dependencies[i] == Dependency(dep, true)
      modifies this`dependencies, dep`dependents
      ensures Mirrored(nodes, NetOf(nodes)) && FlagsSet(nodes, old(NetOf(nodes)), NetOf(nodes), this, dep, Some(false))
    {
      hide Flag, ListOk, Mirrored, FlagsSet;
      ghost var net := NetOf(nodes);
      KnownLists(nodes, net, this);
      KnownLists(nodes, net, dep);
      FlagAt(dependencies, i);
      BothEnds(nodes, net, this, dep);
      ghost var there := FlagFound(dep.dependents, this);
      var j := MaybeGetDep(dep.dependents, this);
      assert j.Some?;
      FlagAt(dep.dependents, j.value);
      assert dep.dependents[j.value].isAnti;
      UpgradedList(nodes, dependencies, i);
      UpgradedList(nodes, dep.dependents, j.value);
      dependencies := dependencies[i := Dependency(dependencies[i].node, false)];
      dep.dependents := dep.dependents[j.value := Dependency(dep.dependents[j.value].node, false)];
      MirrorChanged(nodes, net, NetOf(nodes), this, dep, Some(false));
    }

    method Append(dep: Node, anti: bool, ghost nodes: set<Node>)
      requires Mirrored(nodes, NetOf(nodes)) && this in nodes && dep in nodes && Flag(dependencies, dep).None?
      modifies this`dependencies, dep`dependents
      ensures Mirrored(nodes, NetOf(nodes)) && FlagsSet(nodes, old(NetOf(nodes)), NetOf(nodes), this, dep, Some(anti))
      ensures SameLengths(nodes, old(NetOf(nodes)), NetOf(nodes))
    {
      hide Flag, ListOk, Mirrored, FlagsSet;
      ghost var net := NetOf(nodes);
      KnownLists(nodes, net, this);
      KnownLists(nodes, net, dep);
      BothEnds(nodes, net, this, dep);
      AppendedList(nodes, dependencies, Dependency(dep, anti));
      AppendedList(nodes, dep.dependents, Dependency(this, anti));
      dependencies := dependencies + [Dependency(dep, anti)];
      dep.dependents := dep.dependents + [Dependency(this, anti)];
      MirrorChanged(nodes, net, NetOf(nodes), this, dep, Some(anti));
    }

    method RemoveDependency(dep: Node, ghost nodes: set<Node>)
      requires Mirrored(nodes, NetOf(nodes)) && this in nodes && dep in nodes
      modifies this`dependencies, dep`dependents
      ensures Mirrored(nodes, NetOf(nodes)) && FlagsSet(nodes, old(NetOf(nodes)), NetOf(nodes), this, dep, None)
    {
      hide Flag, ListOk, Mirrored, FlagsSet;
      ghost var net := NetOf(nodes);
      KnownLists(nodes, net, this);
      KnownLists(nodes, net, dep);
      var i := MaybeGetDep(dependencies, dep);
      if i.Some? {
        FlagAt(dependencies, i.value);
        BothEnds(nodes, net, this, dep);
        ghost var there := FlagFound(dep.dependents, this);
        var j := MaybeGetDep(dep.dependents, this);
        assert j.Some?;
        ErasedList(nodes, dependencies, i.value);
        ErasedList(nodes, dep.dependents, j.value);
        dep.dependents := dep.dependents[..j.value] + dep.dependents[j.value + 1..];
        dependencies := dependencies[..i.value] + dependencies[i.value + 1..];
        MirrorChanged(nodes, net, NetOf(nodes), this, dep, None);
      } else {
        FlagNone(dependencies, dep);
        NothingSet(nodes, net, this, dep);
      }
    }

    /** A destroyed node leaves the lists of all its neighbours. */
    method Destroy(ghost nodes: set<Node>)
      requires Mirrored(nodes, NetOf(nodes)) && this in nodes && Flag(dependencies, this).None?
      modifies nodes
      ensures var rest := nodes - {this};
              && Mirrored(rest, NetOf(rest))
              && forall a :: a in rest ==> SameFlags(rest, old(a.dependencies), a.dependencies)
    {
      hide Flag, ListOk, Mirrored, Cleared, SameFlags, LeftOne;
      ghost var net := NetOf(nodes);
      KnownLists(nodes, net, this);
      LeaveDependencies(nodes, net);
      ghost var mid := NetOf(nodes);
      LeaveDependents(nodes, net);
      ghost var net' := NetOf(nodes);
      assert net'.dependencies == mid.dependencies;
      Detached(nodes, nodes - {this}, net, net', NetOf(nodes - {this}), this);
    }

    /** No dependent depends on this node any longer. */
    method LeaveDependencies(ghost nodes: set<Node>, ghost net: Net)
      requires net == NetOf(nodes) && Mirrored(nodes, net) && this in nodes && Flag(dependencies, this).None?
      modifies nodes`dependencies
      ensures LeftOne(nodes, dependents, net.dependencies, NetOf(nodes).dependencies, this)
      ensures dependencies == net.dependencies[this]
    {
      hide Flag, ListOk, Mirrored, Cleared;
      KnownLists(nodes, net, this);
      for k := 0 to |dependents|
        invariant forall x :: x in nodes && (forall l :: 0 <= l < k ==> dependents[l].node != x) ==>
                                                           x.dependencies == net.dependencies[x]
        invariant forall x :: x in nodes ==>
              x.dependencies == net.dependencies[x] || Cleared(nodes, net.dependencies[x], x.dependencies, this)
        invariant forall l :: 0 <= l < k ==>
              dependents[l].node in nodes
                  && Cleared(nodes, net.dependencies[dependents[l].node], dependents[l].node.dependencies, this)
        modifies nodes`dependencies
      {
        var x := dependents[k].node;
        InList(nodes, dependents, k);
        KnownLists(nodes, net, x);
        BothEnds(nodes, net, x, this);
        FlagAt(dependents, k);
        ghost var there := FlagFound(x.dependencies, this);
        var i := MaybeGetDep(x.dependencies, this);
        assert i.Some?;
        ErasedIsCleared(nodes, x.dependencies, i.value, this);
        x.dependencies := x.dependencies[..i.value] + x.dependencies[i.value + 1..];
      }
      forall k | 0 <= k < |dependents|
        ensures dependents[k].node != this
      {
        FlagAt(dependents, k);
        BothEnds(nodes, net, this, this);
      }
    }

    /** This node is no longer listed by its dependencies. */
    method LeaveDependents(ghost nodes: set<Node>, ghost net: Net)
      requires Mirrored(nodes, net) && Known(nodes, net) && this in nodes && dependencies == net.dependencies[this]
      requires Flag(dependencies, this).None?
      requires forall x :: x in nodes ==> x.dependents == net.dependents[x]
      modifies nodes`dependents
      ensures LeftOne(nodes, dependencies, net.dependents, NetOf(nodes).dependents, this)
    {
      hide Flag, ListOk, Mirrored, Cleared;
      KnownLists(nodes, net, this);
      for k := 0 to |dependencies|
        invariant forall x :: x in nodes && (forall l :: 0 <= l < k ==> dependencies[l].node != x) ==>
                                                           x.dependents == net.dependents[x]
        invariant forall x :: x in nodes ==>
              x.dependents == net.dependents[x] || Cleared(nodes, net.dependents[x], x.dependents, this)
        invariant forall l :: 0 <= l < k ==>
              dependencies[l].node in nodes
                  && Cleared(nodes, net.dependents[dependencies[l].node], dependencies[l].node.dependents, this)
        modifies nodes`dependents
      {
        var x := dependencies[k].node;
        InList(nodes, dependencies, k);
        KnownLists(nodes, net, x);
        BothEnds(nodes, net, this, x);
        FlagAt(dependencies, k);
        ghost var there := FlagFound(x.dependents, this);
        var i := MaybeGetDep(x.dependents, this);
        assert i.Some?;
        ErasedIsCleared(nodes, x.dependents, i.value, this);
        x.dependents := x.dependents[..i.value] + x.dependents[i.value + 1..];
      }
    }
  }

  ghost predicate Cleared(nodes: set<Node>, list: seq<Dependency>, list': seq<Dependency>, x: Node) {
    ListOk(nodes, list') && FlagSet(nodes, list, list', x, None)
  }

  lemma InList(nodes: set<Node>, list: seq<Dependency>, k: nat)
    requires ListOk(nodes, list) && k < |list|
    ensures list[k].node in nodes
  {
  }

  lemma ErasedIsCleared(nodes: set<Node>, list: seq<Dependency>, i: nat, x: Node)
    requires ListOk(nodes, list) && i < |list| && list[i].node == x
    ensures Cleared(nodes, list, Without(list, i), x)
  {
    ErasedList(nodes, list, i);
  }

  lemma WithoutNode(nodes: set<Node>, list: seq<Dependency>, x: Node)
    requires ListOk(nodes, list) && Flag(list, x).None?
    ensures ListOk(nodes - {x}, list)
  {
    forall i | 0 <= i < |list|
      ensures list[i].node != x
    {
      FlagAt(list, i);
    }
  }

  ghost predicate SameFlags(nodes: set<Node>, list: seq<Dependency>, list': seq<Dependency>) {
    forall y :: y in nodes ==> Flag(list', y) == Flag(list, y)
  }

  lemma PairStays(nodes: set<Node>, net: Net, net': Net, a: Node, b: Node)
    requires a in nodes && b in nodes && a in net.dependencies && a in net'.dependencies && b in net.dependents
    requires b in net'.dependents
    requires PairOk(net, a, b)
    requires SameFlags(nodes, net.dependencies[a], net'.dependencies[a])
    requires SameFlags(nodes, net.dependents[b], net'.dependents[b])
    ensures PairOk(net', a, b) && Flag(net'.dependencies[a], b) == Flag(net.dependencies[a], b)
  {
    hide Flag;
  }

  lemma DetachedList(nodes: set<Node>, list: seq<Dependency>, list': seq<Dependency>, x: Node)
    requires x in nodes && ListOk(nodes, list)
    requires (Cleared(nodes, list, list', x) || (list' == list && Flag(list, x).None?))
    ensures ListOk(nodes - {x}, list') && SameFlags(nodes - {x}, list, list')
  {
    hide Flag;
    WithoutNode(nodes, list', x);
  }

  /** Whatever a node listed of `x` is gone. */
  ghost predicate Left(nodes: set<Node>, net: Net, net': Net, x: Node)
    requires Known(nodes, net) && Known(nodes, net') && x in nodes
  {
    && LeftOne(nodes, net.dependents[x], net.dependencies, net'.dependencies, x)
    && LeftOne(nodes, net.dependencies[x], net.dependents, net'.dependents, x)
  }

  /** The neighbours have dropped `x` from their lists on one side; nobody else has changed anything but that. */
  ghost predicate LeftOne(nodes: set<Node>, neighbours: seq<Dependency>, before: map<Node, seq<Dependency>>,
                          after: map<Node, seq<Dependency>>, x: Node)
    requires before.Keys == nodes == after.Keys
  {
    && (forall a :: a in nodes ==> after[a] == before[a] || Cleared(nodes, before[a], after[a], x))
    && (forall k :: 0 <= k < |neighbours| ==>
                      neighbours[k].node in nodes
                          && Cleared(nodes, before[neighbours[k].node], after[neighbours[k].node], x))
  }

  lemma Detached(nodes: set<Node>, rest: set<Node>, net: Net, net': Net, last: Net, x: Node)
    requires Mirrored(nodes, net) && Known(nodes, net') && Known(rest, last) && x in nodes && rest == nodes - {x}
    requires forall a :: a in rest ==>
                           last.dependencies[a] == net'.dependencies[a] && last.dependents[a] == net'.dependents[a]
    requires Left(nodes, net, net', x)
    ensures Mirrored(rest, last)
    ensures forall a :: a in rest ==> SameFlags(rest, net.dependencies[a], last.dependencies[a])
  {
    hide Flag, ListOk, Cleared, SameFlags, PairOk, Left;
    forall a | a in rest
      ensures ListOk(rest, last.dependencies[a]) && ListOk(rest, last.dependents[a])
      ensures SameFlags(rest, net.dependencies[a], last.dependencies[a])
      ensures SameFlags(rest, net.dependents[a], last.dependents[a])
    {
      DetachedNode(nodes, net, net', x, a);
    }
    forall a, b | a in rest && b in rest
      ensures PairOk(last, a, b)
    {
      PairStays(rest, net, last, a, b);
    }
  }

  lemma DetachedNode(nodes: set<Node>, net: Net, net': Net, x: Node, a: Node)
    requires Mirrored(nodes, net) && Known(nodes, net') && x in nodes && a in nodes
    requires Left(nodes, net, net', x)
    ensures ListOk(nodes - {x}, net'.dependencies[a]) && ListOk(nodes - {x}, net'.dependents[a])
    ensures SameFlags(nodes - {x}, net.dependencies[a], net'.dependencies[a])
    ensures SameFlags(nodes - {x}, net.dependents[a], net'.dependents[a])
  {
    hide Flag, ListOk, Cleared, SameFlags;
    BothEnds(nodes, net, a, x);
    BothEnds(nodes, net, x, a);
    KnownLists(nodes, net, x);
    if Flag(net.dependents[x], a).Some? { var k := FlagFound(net.dependents[x], a); }
    if Flag(net.dependencies[x], a).Some? { var k := FlagFound(net.dependencies[x], a); }
    DetachedList(nodes, net.dependencies[a], net'.dependencies[a], x);
    DetachedList(nodes, net.dependents[a], net'.dependents[a], x);
  }

  // --------------------------------------------------------------------- lists

  ghost predicate ListOk(nodes: set<Node>, list: seq<Dependency>) {
    NoDuplicates(list) && forall i :: 0 <= i < |list| ==> list[i].node in nodes
  }

  /** Only the flag of `x` has changed. */
  ghost predicate FlagSet(nodes: set<Node>, list: seq<Dependency>, list': seq<Dependency>, x: Node, f: Option<bool>) {
    forall y :: y in nodes ==> Flag(list', y) == if y == x then f else Flag(list, y)
  }

  lemma UpgradedList(nodes: set<Node>, list: seq<Dependency>, i: nat)
    requires ListOk(nodes, list) && i < |list|
    ensures ListOk(nodes, Upgraded(list, i)) && FlagSet(nodes, list, Upgraded(list, i), list[i].node, Some(false))
  {
    forall y | y in nodes
      ensures Flag(Upgraded(list, i), y) == if y == list[i].node then Some(false) else Flag(list, y)
    {
      FlagUpgraded(list, i, y);
    }
  }

  lemma AppendedList(nodes: set<Node>, list: seq<Dependency>, d: Dependency)
    requires ListOk(nodes, list) && d.node in nodes && Flag(list, d.node).None?
    ensures ListOk(nodes, list + [d]) && FlagSet(nodes, list, list + [d], d.node, Some(d.isAnti))
  {
    forall k | 0 <= k < |list|
      ensures list[k].node != d.node
    {
      FlagAt(list, k);
    }
    assert (list + [d])[..|list|] == list;
  }

  lemma ErasedList(nodes: set<Node>, list: seq<Dependency>, i: nat)
    requires ListOk(nodes, list) && i < |list|
    ensures ListOk(nodes, Without(list, i)) && FlagSet(nodes, list, Without(list, i), list[i].node, None)
  {
    forall y | y in nodes
      ensures Flag(Without(list, i), y) == if y == list[i].node then None else Flag(list, y)
    {
      FlagWithout(list, i, y);
    }
    FlagWithout(list, i, list[i].node);
  }

  // -------------------------------------------------------------------- mirror

  /** The contents of all nodes of a graph. */
  datatype Net = Net(dependencies: map<Node, seq<Dependency>>, dependents: map<Node, seq<Dependency>>, length: map<Node,
                     nat>, walk: map<Node, seq<Node>>)

  ghost function NetOf(nodes: set<Node>): Net
    reads nodes
  {
    Net(map n | n in nodes :: n.dependencies, map n | n in nodes :: n.dependents,
        map n | n in nodes :: n.pseudoCriticalPathLength, map n | n in nodes :: n.walk)
  }

  ghost predicate Known(nodes: set<Node>, net: Net) {
    net.dependencies.Keys == nodes && net.dependents.Keys == nodes && net.length.Keys == nodes && net.walk.Keys == nodes
  }

  ghost predicate PairOk(net: Net, a: Node, b: Node)
    requires a in net.dependencies && b in net.dependents
  {
    Flag(net.dependencies[a], b) == Flag(net.dependents[b], a)
  }

  /** Both ends of every dependency know it, with the same flag, and no list names a node twice. */
  ghost predicate Mirrored(nodes: set<Node>, net: Net) {
    && Known(nodes, net)
    && (forall a :: a in nodes ==> ListOk(nodes, net.dependencies[a]) && ListOk(nodes, net.dependents[a]))
    && (forall a, b :: a in nodes && b in nodes ==> PairOk(net, a, b))
  }

  lemma KnownLists(nodes: set<Node>, net: Net, a: Node)
    requires Mirrored(nodes, net) && a in nodes
    ensures a in net.dependencies && a in net.dependents
    ensures ListOk(nodes, net.dependencies[a]) && ListOk(nodes, net.dependents[a])
    ensures NoDuplicates(net.dependencies[a]) && NoDuplicates(net.dependents[a])
  {
  }

  lemma BothEnds(nodes: set<Node>, net: Net, a: Node, b: Node)
    requires Mirrored(nodes, net) && a in nodes && b in nodes
    ensures a in net.dependencies && b in net.dependents && Flag(net.dependencies[a], b) == Flag(net.dependents[b], a)
  {
    assert PairOk(net, a, b);
  }

  function AddedFlag(was: Option<bool>, anti: bool): bool {
    if was.Some? then was.value && anti else anti
  }

  /** The dependency of `a` on `b` is now `f`, and all others are as before. */
  ghost predicate FlagsSet(nodes: set<Node>, net: Net, net': Net, a: Node, b: Node, f: Option<bool>) {
    && Known(nodes, net) && Known(nodes, net')
    && forall x, y :: x in nodes && y in nodes ==> PairSet(net, net', x, y, a, b, f)
  }

  ghost predicate PairSet(net: Net, net': Net, x: Node, y: Node, a: Node, b: Node, f: Option<bool>)
    requires x in net.dependencies && x in net'.dependencies
  {
    Flag(net'.dependencies[x], y) == if x == a && y == b then f else Flag(net.dependencies[x], y)
  }

  lemma NothingSet(nodes: set<Node>, net: Net, a: Node, b: Node)
    requires Known(nodes, net) && a in nodes && b in nodes
    ensures FlagsSet(nodes, net, net, a, b, Flag(net.dependencies[a], b))
  {
  }

  lemma MirrorChanged(nodes: set<Node>, net: Net, net': Net, a: Node, b: Node, f: Option<bool>)
    requires Mirrored(nodes, net) && Known(nodes, net') && a in nodes && b in nodes
    requires forall x :: x in nodes && x != a ==> net'.dependencies[x] == net.dependencies[x]
    requires forall x :: x in nodes && x != b ==> net'.dependents[x] == net.dependents[x]
    requires ListOk(nodes, net'.dependencies[a]) && FlagSet(nodes, net.dependencies[a], net'.dependencies[a], b, f)
    requires ListOk(nodes, net'.dependents[b]) && FlagSet(nodes, net.dependents[b], net'.dependents[b], a, f)
    ensures Mirrored(nodes, net') && FlagsSet(nodes, net, net', a, b, f)
  {
    hide Flag, ListOk;
    forall x, y | x in nodes && y in nodes
      ensures PairOk(net', x, y) && PairSet(net, net', x, y, a, b, f)
    {
      assert PairOk(net, x, y);
    }
  }

  // ------------------------------------------------------- pseudo critical path

  /** Every node has a walk along dependencies that is as long as its pseudo critical path. */
  ghost predicate Walks(nodes: set<Node>, net: Net) {
    && Known(nodes, net)
    && forall n :: n in nodes ==>
                     |net.walk[n]| == net.length[n] + 1 && net.walk[n][0] == n && IsWalk(nodes, net, net.walk[n])
  }

  ghost predicate IsWalk(nodes: set<Node>, net: Net, walk: seq<Node>)
    requires Known(nodes, net)
  {
    && (forall i :: 0 <= i < |walk| ==> walk[i] in nodes)
    && (forall i :: 0 <= i < |walk| - 1 ==> Flag(net.dependencies[walk[i]], walk[i + 1]).Some?)
  }

  ghost predicate SameLengths(nodes: set<Node>, net: Net, net': Net) {
    Known(nodes, net) && Known(nodes, net') && forall n :: n in nodes ==>
          net'.walk[n] == net.walk[n] && net'.length[n] == net.length[n]
  }

  /** Node `a` has got the path of `b` with one step more. */
  ghost predicate Lengthened(nodes: set<Node>, net: Net, net': Net, a: Node, b: Node) {
    && Known(nodes, net) && Known(nodes, net') && a in nodes && b in nodes
    && (forall x :: x in nodes ==>
                      net'.dependencies[x] == net.dependencies[x] && net'.dependents[x] == net.dependents[x])
    && (forall x :: x in nodes && x != a ==> net'.walk[x] == net.walk[x] && net'.length[x] == net.length[x])
    && net'.length[a] == net.length[b] + 1 && net'.walk[a] == [a] + net.walk[b]
  }

  /** A walk stays a walk when dependencies are only added or upgraded. */
  lemma WalkStays(nodes: set<Node>, net: Net, net': Net, a: Node, b: Node, f: bool, walk: seq<Node>)
    requires FlagsSet(nodes, net, net', a, b, Some(f)) && IsWalk(nodes, net, walk)
    ensures IsWalk(nodes, net', walk)
  {
    hide Flag;
    forall i | 0 <= i < |walk| - 1
      ensures Flag(net'.dependencies[walk[i]], walk[i + 1]).Some?
    {
      assert PairSet(net, net', walk[i], walk[i + 1], a, b, Some(f));
    }
  }

  lemma WalksStay(nodes: set<Node>, net: Net, net': Net, a: Node, b: Node, f: bool)
    requires FlagsSet(nodes, net, net', a, b, Some(f))
    requires SameLengths(nodes, net, net')
    ensures Walks(nodes, net) ==> Walks(nodes, net')
  {
    hide IsWalk, FlagsSet, PairSet;
    if Walks(nodes, net) {
      KnownBoth(nodes, net, net', a, b, Some(f));
      forall n | n in nodes
        ensures IsWalk(nodes, net', net.walk[n])
      {
        WalkStays(nodes, net, net', a, b, f, net.walk[n]);
      }
    }
  }

  lemma KnownBoth(nodes: set<Node>, net: Net, net': Net, a: Node, b: Node, f: Option<bool>)
    requires FlagsSet(nodes, net, net', a, b, f)
    ensures Known(nodes, net) && Known(nodes, net')
    ensures a in nodes && b in nodes ==> Flag(net'.dependencies[a], b) == f
  {
    assert a in nodes && b in nodes ==> PairSet(net, net', a, b, a, b, f);
  }

  lemma LongerWalk(nodes: set<Node>, net: Net, net': Net, a: Node, b: Node)
    requires a in nodes && b in nodes && Walks(nodes, net) && Flag(net.dependencies[a], b).Some?
    requires Lengthened(nodes, net, net', a, b)
    ensures Walks(nodes, net')
  {
    hide IsWalk, Flag;
    forall n | n in nodes
      ensures |net'.walk[n]| == net'.length[n] + 1 && net'.walk[n][0] == n && IsWalk(nodes, net', net'.walk[n])
    {
      if n == a {
        Prepended(nodes, net, net', a, b, net.walk[b]);
      } else {
        SameWalk(nodes, net, net', net.walk[n]);
      }
    }
  }

  lemma OnlyLength(nodes: set<Node>, net: Net, appended: Net, net': Net, a: Node, b: Node, f: bool)
    requires Mirrored(nodes, appended) && FlagsSet(nodes, net, appended, a, b, Some(f)) && a in nodes && b in nodes
    requires Walks(nodes, net) ==> Walks(nodes, appended)
    requires Lengthened(nodes, appended, net', a, b)
    ensures Mirrored(nodes, net') && FlagsSet(nodes, net, net', a, b, Some(f))
    ensures (Walks(nodes, net) ==> Walks(nodes, net'))
  {
    hide Flag, ListOk, Walks;
    KnownBoth(nodes, net, appended, a, b, Some(f));
    forall x, y | x in nodes && y in nodes
      ensures PairOk(net', x, y) && PairSet(net, net', x, y, a, b, Some(f))
    {
      assert PairOk(appended, x, y) && PairSet(net, appended, x, y, a, b, Some(f));
    }
    if Walks(nodes, net) { LongerWalk(nodes, appended, net', a, b); }
  }

  lemma SameWalk(nodes: set<Node>, net: Net, net': Net, walk: seq<Node>)
    requires Known(nodes, net) && Known(nodes, net')
    requires (forall x :: x in nodes ==> net'.dependencies[x] == net.dependencies[x]) && IsWalk(nodes, net, walk)
    ensures IsWalk(nodes, net', walk)
  {
  }

  lemma Prepended(nodes: set<Node>, net: Net, net': Net, a: Node, b: Node, rest: seq<Node>)
    requires Known(nodes, net) && Known(nodes, net')
    requires (forall x :: x in nodes ==> net'.dependencies[x] == net.dependencies[x]) && IsWalk(nodes, net, rest)
    requires a in nodes && |rest| > 0 && rest[0] == b && Flag(net.dependencies[a], b).Some?
    ensures IsWalk(nodes, net', [a] + rest)
  {
    hide Flag;
    var w := [a] + rest;
    forall i | 0 < i < |w|
      ensures w[i] == rest[i - 1]
    {
    }
  }
}

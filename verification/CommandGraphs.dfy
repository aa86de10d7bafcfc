/** The command graph as an object: creation, erasure, dependencies, execution fronts. */
module CommandGraphs {
  import opened Grid
  import opened Reachability
  import opened Commands

  function Max(a: nat, b: nat): nat {
    if a < b then b else a
  }

  function Front(fronts: map<nat, set<Cid>>, n: nat): set<Cid> {
    if n in fronts then fronts[n] else {}
  }

  function TaskList(byTask: map<nat, seq<Cid>>, t: nat): seq<Cid> {
    if t in byTask then byTask[t] else []
  }

  function EmptyGraph(): Graph {
    Graph(map[], 0, map[], {}, {}, map[], map[], 0)
  }

  /** The graph after creating a command. */
  function Created(g: Graph, c: Command): Graph {
    g.(commands := g.commands[g.nextCid := c],
       nextCid := g.nextCid + 1,
       byTask := if c.TaskCommand? then g.byTask[c.tid := TaskList(g.byTask, c.tid) + [g.nextCid]] else g.byTask,
       fronts := if c.Nop? then g.fronts else g.fronts[c.nid := Front(g.fronts, c.nid) + {g.nextCid}],
       pathLength := g.pathLength[g.nextCid := 0])
  }

  /** The graph after making `a` depend on `b`; an existing dependency can only be upgraded to a true one. */
  function WithDependency(g: Graph, a: Cid, b: Cid, anti: bool): Graph
    requires a in g.commands && b in g.commands && a in g.pathLength && b in g.pathLength
  {
    var n := g.commands[a].nid;
    var length := if (a, b) in g.edges then g.pathLength[a] else Max(g.pathLength[a], g.pathLength[b] + 1);
    g.(edges := g.edges + {(a, b)},
       trueEdges := if anti then g.trueEdges else g.trueEdges + {(a, b)},
       fronts := g.fronts[n := Front(g.fronts, n) - {b}],
       pathLength := g.pathLength[a := length],
       maxPathLength := Max(g.maxPathLength, length))
  }

  function Without(cs: seq<Cid>, c: Cid): seq<Cid> {
    if cs == [] then [] else if cs[0] == c then cs[1..] else [cs[0]] + Without(cs[1..], c)
  }

  /** The graph after erasing a task command; a destroyed node leaves the lists of all its neighbours. */
  function Erased(g: Graph, c: Cid): Graph
    requires c in g.commands
  {
    var cmd := g.commands[c];
    g.(commands := g.commands - {c},
       byTask := if cmd.TaskCommand? then g.byTask[cmd.tid := Without(TaskList(g.byTask, cmd.tid), c)] else g.byTask,
       edges := (set e | e in g.edges && e.0 != c && e.1 != c),
       trueEdges := (set e | e in g.trueEdges && e.0 != c && e.1 != c),
       fronts := g.fronts[cmd.nid := Front(g.fronts, cmd.nid) - {c}],
       pathLength := g.pathLength - {c})
  }

  lemma {:induction false} WithoutIs(cs: seq<Cid>, c: Cid)
    requires forall i, j :: 0 <= i < j < |cs| ==> cs[i] != cs[j]
    ensures forall d :: d in Without(cs, c) <==> d in cs && d != c
    ensures forall i, j :: 0 <= i < j < |Without(cs, c)| ==> Without(cs, c)[i] != Without(cs, c)[j]
  {
    if cs != [] {
      var rest := cs[1..];
      assert cs == [cs[0]] + rest;
      if cs[0] != c {
        WithoutIs(rest, c);
        assert cs[0] !in rest;
      }
    }
  }

  /** Nothing refers to the command, and what it depends on has other dependents. */
  ghost predicate Dispensable(g: Graph, c: Cid) {
    && (forall a :: a in g.commands && g.commands[a].AwaitPush? && a != c ==> g.commands[a].source != c)
    && (forall d: Cid :: (c, d) in g.edges && d in g.commands && !g.commands[d].Nop? ==>
                           exists a: Cid :: a != c && (a, d) in g.edges)
  }

  /**
    * Erasing a command keeps the graph in order if and only if the command is dispensable: what loses its last
    * dependent does not come back to the execution front.
    */
  lemma EraseKeepsOk(g: Graph, c: Cid)
    requires GraphOk(g) && c in g.commands
    ensures GraphOk(Erased(g, c)) <==> Dispensable(g, c)
  {
    hide CommandsOk, ByTaskOk, EdgesOk, FrontsOk, Erased;
    if Dispensable(g, c) {
      EraseKeepsByTask(g, c);
      ErasedFronts(g, c);
      ErasedRest(g, c);
    } else if a :| a in g.commands && g.commands[a].AwaitPush? && a != c && g.commands[a].source == c {
      SourceErased(g, c, a);
    } else {
      var d: Cid :| && (c, d) in g.edges && d in g.commands && !g.commands[d].Nop?
                    && forall a: Cid :: a != c ==> (a, d) !in g.edges;
      LastDependentErased(g, c, d);
    }
  }

  lemma ErasedRest(g: Graph, c: Cid)
    requires CommandsOk(g) && EdgesOk(g) && c in g.commands && Dispensable(g, c)
    ensures CommandsOk(Erased(g, c)) && EdgesOk(Erased(g, c))
  {
    var g' := Erased(g, c);
    assert forall a: Cid, b: Cid :: (a, b) in g'.edges <==> (a, b) in g.edges && a != c && b != c;
  }

  lemma SourceErased(g: Graph, c: Cid, a: Cid)
    requires c in g.commands && a in g.commands && g.commands[a].AwaitPush? && a != c && g.commands[a].source == c
    ensures !CommandsOk(Erased(g, c))
  {
    var g' := Erased(g, c);
    assert a in g'.commands && !SourceOk(g'.commands, g'.commands[a]);
  }

  lemma LastDependentErased(g: Graph, c: Cid, d: Cid)
    requires FrontsOk(g) && EdgesOk(g) && c in g.commands && (c, d) in g.edges && d in g.commands
    requires !g.commands[d].Nop? && forall a: Cid :: a != c ==> (a, d) !in g.edges
    ensures !FrontsOk(Erased(g, c))
  {
    var g', n := Erased(g, c), g.commands[d].nid;
    assert EdgeOk(g.commands[c], g.commands[d]);
    assert InFront(g', n, d) && !InFront(g, n, d);
    assert d !in Front(g.fronts, n);
  }

  lemma ErasedFronts(g: Graph, c: Cid)
    requires GraphOk(g) && c in g.commands && Dispensable(g, c)
    ensures FrontsOk(Erased(g, c))
  {
    var g' := Erased(g, c);
    assert forall a: Cid, b: Cid :: (a, b) in g'.edges <==> (a, b) in g.edges && a != c && b != c;
    forall n: nat, d: Cid
      ensures InFront(g', n, d) <==> InFront(g, n, d) && d != c
    {
      if d in g.commands && !g.commands[d].Nop? && (c, d) in g.edges {
        var a: Cid :| a != c && (a, d) in g.edges;
        assert a in g.commands && EdgeOk(g.commands[a], g.commands[d]);
      }
    }
    forall n: nat, d: Cid | n in g'.fronts && d in g'.fronts[n]
      ensures d != c && InFront(g, n, d)
    {
      assert n in g.fronts && d in g.fronts[n] && InFront(g, n, d);
    }
  }

  lemma EraseKeepsByTask(g: Graph, c: Cid)
    requires ByTaskOk(g) && c in g.commands
    ensures ByTaskOk(Erased(g, c))
  {
    var g' := Erased(g, c);
    var t := g.commands[c].tid;
    forall u: nat, d: Cid
      ensures IsTaskCommand(g', u, d) <==> IsTaskCommand(g, u, d) && d != c
    {
    }
    if g.commands[c].TaskCommand? {
      assert IsTaskCommand(g, t, c);
      WithoutIs(g.byTask[t], c);
      forall i | 0 <= i < |g'.byTask[t]|
        ensures IsTaskCommand(g', t, g'.byTask[t][i])
      {
        assert g'.byTask[t][i] in g'.byTask[t];
        assert g'.byTask[t][i] in g.byTask[t];
      }
    }
  }

  ghost predicate NewCommandOk(g: Graph, c: Command) {
    && (c.Nop? <==> c.tid == 0)
    && (c.AwaitPush? ==> SourceOk(g.commands, c))
  }

  lemma CreateKeepsOk(g: Graph, c: Command)
    requires GraphOk(g) && NewCommandOk(g, c)
    ensures GraphOk(Created(g, c))
  {
    CreateKeepsByTask(g, c);
    CreateKeepsFronts(g, c);
  }

  lemma CreateKeepsByTask(g: Graph, c: Command)
    requires CommandsOk(g) && ByTaskOk(g)
    ensures ByTaskOk(Created(g, c))
  {
    var g' := Created(g, c);
    if c.TaskCommand? {
      var old' := TaskList(g.byTask, c.tid);
      assert g'.byTask[c.tid] == old' + [g.nextCid];
      forall t, d | IsTaskCommand(g', t, d)
        ensures t in g'.byTask && d in g'.byTask[t]
      {
        if d == g.nextCid {
          assert g'.byTask[t][|old'|] == d;
        } else {
          assert IsTaskCommand(g, t, d);
          if t == c.tid {
            var i :| 0 <= i < |old'| && old'[i] == d;
            assert g'.byTask[t][i] == d;
          }
        }
      }
    } else {
      assert forall t, d :: IsTaskCommand(g', t, d) ==> IsTaskCommand(g, t, d);
    }
  }

  lemma CreateKeepsFronts(g: Graph, c: Command)
    requires CommandsOk(g) && EdgesOk(g) && FrontsOk(g)
    ensures FrontsOk(Created(g, c))
  {
    var g' := Created(g, c);
    forall n, d
      ensures InFront(g', n, d) <==> InFront(g, n, d) || (d == g.nextCid && n == c.nid && !c.Nop?)
    {
      if d == g.nextCid {
        forall e: Cid
          ensures (e, d) !in g'.edges
        {
        }
      }
    }
  }

  lemma DependencyKeepsOk(g: Graph, a: Cid, b: Cid, anti: bool)
    requires GraphOk(g) && a in g.commands && b in g.commands && EdgeOk(g.commands[a], g.commands[b])
    ensures GraphOk(WithDependency(g, a, b, anti))
  {
    var g' := WithDependency(g, a, b, anti);
    assert forall t, d :: IsTaskCommand(g', t, d) <==> IsTaskCommand(g, t, d);
    forall n, d
      ensures InFront(g', n, d) <==> InFront(g, n, d) && d != b
    {
      if d == b {
        assert (a, d) in g'.edges;
      }
    }
  }

  // --------------------------------------------------------------- path lengths

  /** The graph has grown from `base`, and path lengths are in step. */
  ghost predicate Grown(base: Graph, g: Graph) {
    && PathsGrow(base, g)
    && (forall c :: c in g.commands ==> c < g.nextCid && c in g.pathLength && g.pathLength[c] <= g.maxPathLength)
    && (forall e :: e in g.edges ==> e.0 in g.commands && e.1 in g.commands)
    && base.nextCid <= g.nextCid && (forall c :: c in base.commands ==> c < base.nextCid)
  }

  /**
    * `seen` records how deep the dependee of each dependency was when the dependency was added. The path length of a
    * command is one more than the greatest of these numbers, or 0 without dependencies, and the greatest path length is
    * that of some command.
    */
  ghost predicate Measured(g: Graph, seen: map<(Cid, Cid), nat>) {
    && g.pathLength.Keys == g.commands.Keys
    && (forall a: Cid, b: Cid :: (a, b) in g.edges ==> Exceeds(g, seen, a, b))
    && (forall c :: c in g.pathLength && g.pathLength[c] > 0 ==> ByDependency(g, seen, c))
    && (g.maxPathLength > 0 ==> exists c :: c in g.pathLength && g.pathLength[c] == g.maxPathLength)
  }

  ghost predicate Exceeds(g: Graph, seen: map<(Cid, Cid), nat>, a: Cid, b: Cid) {
    && (a, b) in seen && a in g.pathLength && b in g.pathLength
    && seen[(a, b)] <= g.pathLength[b] && seen[(a, b)] < g.pathLength[a]
  }

  ghost predicate ByDependency(g: Graph, seen: map<(Cid, Cid), nat>, c: Cid)
    requires c in g.pathLength
  {
    exists b: Cid :: (c, b) in g.edges && (c, b) in seen && seen[(c, b)] + 1 == g.pathLength[c]
  }

  lemma CreateMeasured(g: Graph, seen: map<(Cid, Cid), nat>, c: Command)
    requires Measured(g, seen)
    requires (forall d :: d in g.commands ==> d < g.nextCid)
    requires forall e :: e in g.edges ==> e.0 in g.commands && e.1 in g.commands
    ensures Measured(Created(g, c), seen)
  {
    var g' := Created(g, c);
    forall a: Cid, b: Cid | (a, b) in g'.edges
      ensures Exceeds(g', seen, a, b)
    {
      assert (a, b).0 in g.commands && (a, b).1 in g.commands;
      assert Exceeds(g, seen, a, b);
    }
    forall d | d in g'.pathLength && g'.pathLength[d] > 0
      ensures ByDependency(g', seen, d)
    {
      assert ByDependency(g, seen, d);
    }
    if g.maxPathLength > 0 {
      var d :| d in g.pathLength && g.pathLength[d] == g.maxPathLength;
      assert d in g'.pathLength && g'.pathLength[d] == g'.maxPathLength;
    }
  }

  lemma DependencyMeasured(g: Graph, seen: map<(Cid, Cid), nat>, a: Cid, b: Cid, anti: bool)
    requires Measured(g, seen) && a in g.commands && b in g.commands && a in g.pathLength && b in g.pathLength && a != b
    ensures var seen' := if (a, b) in g.edges then seen else seen[(a, b) := g.pathLength[b]];
            Measured(WithDependency(g, a, b, anti), seen')
  {
    var g' := WithDependency(g, a, b, anti);
    var seen' := if (a, b) in g.edges then seen else seen[(a, b) := g.pathLength[b]];
    forall x: Cid, y: Cid | (x, y) in g'.edges
      ensures Exceeds(g', seen', x, y)
    {
      if (x, y) in g.edges { assert Exceeds(g, seen, x, y); }
    }
    forall c | c in g'.pathLength && g'.pathLength[c] > 0
      ensures ByDependency(g', seen', c)
    {
      if g'.pathLength[c] == g.pathLength[c] {
        assert ByDependency(g, seen, c);
        var d: Cid :| (c, d) in g.edges && (c, d) in seen && seen[(c, d)] + 1 == g.pathLength[c];
        assert (c, d) in g'.edges && seen'[(c, d)] == seen[(c, d)];
      } else {
        assert (a, b) in g'.edges && seen'[(a, b)] + 1 == g'.pathLength[a];
      }
    }
    DeepestMeasured(g, seen, a, b, anti);
  }

  lemma DeepestMeasured(g: Graph, seen: map<(Cid, Cid), nat>, a: Cid, b: Cid, anti: bool)
    requires Measured(g, seen) && a in g.commands && b in g.commands && a in g.pathLength && b in g.pathLength
    ensures var g' := WithDependency(g, a, b, anti);
            g'.maxPathLength > 0 ==> exists c :: c in g'.pathLength && g'.pathLength[c] == g'.maxPathLength
  {
    var g' := WithDependency(g, a, b, anti);
    if g'.maxPathLength > 0 && g'.pathLength[a] != g'.maxPathLength {
      var c :| c in g.pathLength && g.pathLength[c] == g.maxPathLength;
      assert c in g'.pathLength && g'.pathLength[c] == g'.maxPathLength;
    }
  }

  lemma EraseMeasured(g: Graph, seen: map<(Cid, Cid), nat>, c: Cid)
    requires Measured(g, seen) && c in g.commands && forall e :: e in g.edges ==> e.0 != c && e.1 != c
    ensures Measured(Erased(g, c), seen)
  {
    var g' := Erased(g, c);
    assert g'.edges == g.edges;
    assert forall b: Cid :: (c, b) in g.edges ==> (c, b).0 != c;
    forall a: Cid, b: Cid | (a, b) in g'.edges
      ensures Exceeds(g', seen, a, b)
    {
      assert (a, b).0 != c && (a, b).1 != c && Exceeds(g, seen, a, b);
    }
    forall d | d in g'.pathLength && g'.pathLength[d] > 0
      ensures ByDependency(g', seen, d)
    {
      assert ByDependency(g, seen, d);
    }
    if g.maxPathLength > 0 {
      var d :| d in g.pathLength && g.pathLength[d] == g.maxPathLength;
      assert d in g'.pathLength && g'.pathLength[d] == g'.maxPathLength;
    }
  }

  /** Below command `c` there is a path of `k` dependencies. */
  ghost predicate HasDepth(edges: Edges, c: Cid, k: nat) {
    exists path :: DownFrom(edges, path, c, k)
  }

  ghost predicate DownFrom(edges: Edges, path: seq<Cid>, c: Cid, k: nat) {
    |path| == k + 1 && path[0] == c && IsPath(edges, path)
  }

  /** Path lengths are lengths of paths: each command has one of its length below it, and the greatest is attained. */
  ghost predicate LengthsAreDepths(g: Graph) {
    && g.pathLength.Keys == g.commands.Keys
    && (forall c :: c in g.pathLength ==> HasDepth(g.edges, c, g.pathLength[c]) && g.pathLength[c] <= g.maxPathLength)
    && (g.maxPathLength > 0 ==> exists c :: c in g.pathLength && g.pathLength[c] == g.maxPathLength)
  }

  lemma {:induction false} DepthOf(g: Graph, seen: map<(Cid, Cid), nat>, c: Cid) returns (path: seq<Cid>)
    requires CommandsOk(g) && EdgesOk(g) && Measured(g, seen) && c in g.commands
    ensures DownFrom(g.edges, path, c, g.pathLength[c])
    decreases Rank(g.commands[c])
  {
    if g.pathLength[c] == 0 {
      path := [c];
    } else {
      assert ByDependency(g, seen, c);
      var b: Cid :| (c, b) in g.edges && (c, b) in seen && seen[(c, b)] + 1 == g.pathLength[c];
      assert Exceeds(g, seen, c, b) && EdgeOk(g.commands[c], g.commands[b]);
      var rest := DepthOf(g, seen, b);
      path := OneDeeper(g.edges, c, b, rest, g.pathLength[b], g.pathLength[c] - 1);
    }
  }

  lemma OneDeeper(edges: Edges, c: Cid, b: Cid, rest: seq<Cid>, k: nat, l: nat) returns (path: seq<Cid>)
    requires (c, b) in edges && DownFrom(edges, rest, b, k) && l <= k
    ensures DownFrom(edges, path, c, l + 1)
  {
    path := [c] + rest[..l + 1];
    forall i | 0 <= i < |path| - 1
      ensures (path[i], path[i + 1]) in edges
    {
      if i > 0 { assert (rest[i - 1], rest[i]) in edges; }
    }
  }

  lemma MeasuredAreDepths(g: Graph, seen: map<(Cid, Cid), nat>)
    requires CommandsOk(g) && EdgesOk(g) && Measured(g, seen)
    ensures LengthsAreDepths(g)
  {
    forall c | c in g.pathLength
      ensures HasDepth(g.edges, c, g.pathLength[c])
    {
      var path := DepthOf(g, seen, c);
    }
  }

  lemma GrownFromItself(g: Graph)
    requires CommandsOk(g) && EdgesOk(g)
    ensures Grown(g, g)
  {
  }

  lemma CreateGrows(base: Graph, g: Graph, c: Command)
    requires Grown(base, g)
    ensures Grown(base, Created(g, c))
  {
    var g' := Created(g, c);
    if g.maxPathLength != base.maxPathLength {
      var a: Cid, b: Cid :| Raises(base, g, a, b);
      assert (a, b).0 in g.commands;
      assert Raises(base, g', a, b);
    }
    forall a, b | (a, b) in g'.edges && (a, b) !in base.edges && b in base.commands
      ensures a in g'.pathLength && b in base.pathLength && g'.pathLength[a] > base.pathLength[b]
    {
      assert (a, b).0 in g.commands;
    }
  }

  lemma DependencyGrows(base: Graph, g: Graph, a: Cid, b: Cid, anti: bool)
    requires Grown(base, g) && a in g.commands && b in g.commands
    ensures Grown(base, WithDependency(g, a, b, anti))
  {
    var g' := WithDependency(g, a, b, anti);
    if g'.maxPathLength != base.maxPathLength {
      if g'.maxPathLength == g.maxPathLength {
        var x: Cid, y: Cid :| Raises(base, g, x, y);
        assert Raises(base, g', x, y);
      } else {
        assert (a, b) !in g.edges && Raises(base, g', a, b);
      }
    }
    forall x, y | (x, y) in g'.edges && (x, y) !in base.edges && y in base.commands
      ensures x in g'.pathLength && y in base.pathLength && g'.pathLength[x] > base.pathLength[y]
    {
      if (x, y) in g.edges { assert (x, y).0 in g.commands; }
    }
  }

  lemma EraseGrows(base: Graph, g: Graph, c: Cid)
    requires Grown(base, g) && c in g.commands && c !in base.commands
    requires forall e :: e in g.edges ==> e.0 != c && e.1 != c
    ensures Grown(base, Erased(g, c))
  {
    var g' := Erased(g, c);
    assert g'.edges == g.edges;
    if g.maxPathLength != base.maxPathLength {
      var a: Cid, b: Cid :| Raises(base, g, a, b);
      assert (a, b).0 != c;
      assert Raises(base, g', a, b);
    }
    forall a, b | (a, b) in g'.edges && (a, b) !in base.edges && b in base.commands
      ensures a in g'.pathLength && b in base.pathLength && g'.pathLength[a] > base.pathLength[b]
    {
      assert (a, b).0 != c;
    }
  }

  lemma CreateSteady(base: Graph, g: Graph, seen: map<(Cid, Cid), nat>, c: Command)
    requires Grown(base, g) && Measured(g, seen)
    ensures Grown(base, Created(g, c)) && Measured(Created(g, c), seen)
  {
    hide Created, Measured, PathsGrow;
    CreateGrows(base, g, c);
    CreateMeasured(g, seen, c);
  }

  lemma EraseSteady(base: Graph, g: Graph, seen: map<(Cid, Cid), nat>, c: Cid)
    requires Grown(base, g) && Measured(g, seen) && c in g.commands && c !in base.commands
    requires forall e :: e in g.edges ==> e.0 != c && e.1 != c
    ensures Grown(base, Erased(g, c)) && Measured(Erased(g, c), seen)
  {
    hide Erased, Measured, Grown;
    EraseGrows(base, g, c);
    EraseMeasured(g, seen, c);
  }

  class CommandGraph {
    var commands: map<Cid, Command>
    var nextCid: Cid
    var byTask: map<nat, seq<Cid>>
    var edges: Edges               // the dependency lists of all commands
    var trueEdges: Edges
    var fronts: map<nat, set<Cid>>
    var pathLength: map<Cid, nat>
    var maxPathLength: nat
    ghost var mark: Graph          // an earlier state that path lengths are compared with
    ghost var seen: map<(Cid, Cid), nat>   // path lengths of the dependees when dependencies were added

    ghost function Value(): Graph
      reads this
    {
      Graph(commands, nextCid, byTask, edges, trueEdges, fronts, pathLength, maxPathLength)
    }

    ghost predicate Known(c: Cid)
      reads this
    {
      c in commands && c in pathLength
    }

    ghost predicate Unconnected(c: Cid)
      reads this
    {
      forall e :: e in edges ==> e.0 != c && e.1 != c
    }

    ghost predicate Steady()
      reads this
    {
      Grown(mark, Value()) && Measured(Value(), seen)
    }

    constructor ()
      ensures Value() == EmptyGraph()
    {
      mark, seen := EmptyGraph(), map[];
      commands, nextCid, byTask := map[], 0, map[];
      edges, trueEdges := {}, {};
      fronts, pathLength, maxPathLength := map[], map[], 0;
    }

    ghost method SetMark()
      requires CommandsOk(Value()) && EdgesOk(Value()) && Measured(Value(), seen)
      modifies this`mark
      ensures mark == Value() && Steady()
    {
      GrownFromItself(Value());
      mark := Value();
    }

    method Create(c: Command) returns (cid: Cid)
      modifies this
      ensures cid == old(nextCid)
      ensures Value() == Created(old(Value()), c)
      ensures mark == old(mark) && (old(Steady()) ==> Steady())
    {
      hide Grown, Measured;
      if Steady() { CreateSteady(mark, Value(), seen, c); }
      cid := nextCid;
      nextCid := nextCid + 1;
      commands := commands[cid := c];
      pathLength := pathLength[cid := 0];
      if c.TaskCommand? {
        byTask := byTask[c.tid := TaskList(byTask, c.tid) + [cid]];
      }
      if !c.Nop? {
        fronts := fronts[c.nid := Front(fronts, c.nid) + {cid}];
      }
    }

    /** A destroyed command leaves the lists of its neighbours. The node of the command is read before that. */
    method Erase(c: Cid)
      requires c in commands
      modifies this
      ensures Value() == Erased(old(Value()), c)
      ensures mark == old(mark)
      ensures old(Steady()) && c !in mark.commands && old(Unconnected(c)) ==> Steady()
    {
      hide Grown, Measured;
      if Steady() && c !in mark.commands && Unconnected(c) { EraseSteady(mark, Value(), seen, c); }
      var cmd := commands[c];
      if cmd.TaskCommand? {
        byTask := byTask[cmd.tid := Without(TaskList(byTask, cmd.tid), c)];
      }
      commands := commands - {c};
      pathLength := pathLength - {c};
      edges := set e | e in edges && e.0 != c && e.1 != c;
      trueEdges := set e | e in trueEdges && e.0 != c && e.1 != c;
      fronts := fronts[cmd.nid := Front(fronts, cmd.nid) - {c}];
    }

    method AddDependency(depender: Cid, dependee: Cid, anti: bool)
      requires Known(depender) && Known(dependee)
      requires commands[depender].nid == commands[dependee].nid && depender != dependee
      requires (dependee, depender) !in edges
      modifies this
      ensures Value() == WithDependency(old(Value()), depender, dependee, anti)
      ensures mark == old(mark) && (old(Steady()) ==> Steady())
    {
      hide Grown, Measured, WithDependency;
      if Steady() {
        DependencyGrows(mark, Value(), depender, dependee, anti);
        DependencyMeasured(Value(), seen, depender, dependee, anti);
      }
      seen := if (depender, dependee) in edges then seen else seen[(depender, dependee) := pathLength[dependee]];
      Connect(depender, dependee, anti);
    }

    /** The dependency in the lists, the path lengths and the front. */
    method Connect(depender: Cid, dependee: Cid, anti: bool)
      requires Known(depender) && Known(dependee)
      modifies this`edges, this`trueEdges, this`pathLength, this`maxPathLength, this`fronts
      ensures Value() == WithDependency(old(Value()), depender, dependee, anti)
    {
      ghost var g := WithDependency(Value(), depender, dependee, anti);
      if (depender, dependee) in edges {
        if !anti {
          trueEdges := trueEdges + {(depender, dependee)};
        }
      } else {
        edges := edges + {(depender, dependee)};
        if !anti {
          trueEdges := trueEdges + {(depender, dependee)};
        }
        pathLength := pathLength[depender := Max(pathLength[depender], pathLength[dependee] + 1)];
      }
      var n := commands[depender].nid;
      fronts := fronts[n := Front(fronts, n) - {dependee}];
      maxPathLength := Max(maxPathLength, pathLength[depender]);
      assert edges == g.edges && trueEdges == g.trueEdges;
      assert fronts == g.fronts && pathLength == g.pathLength;
    }
  }
}

/** Commands of the command graph and what they do to buffer cells. */
module Commands {
  import opened Grid
  import opened Reachability

  type Cid = nat

  /** What one command needs: buffer, then access mode, then region. */
  type Requirements = map<nat, map<Mode, set<Cell>>>

  datatype TaskType = Compute | MasterAccess

  /**
    * `tid` is the task during whose construction the command was created (0 for the init commands).
    * A task command carries the requirements that its range mappers give for its execution range.
    * An AWAIT_PUSH carries the range of its source PUSH.
    */
  datatype Command =
    | Nop(nid: nat, tid: nat)
    | Push(nid: nat, tid: nat, target: nat, box: set<Cell>)
    | AwaitPush(nid: nat, tid: nat, source: Cid, box: set<Cell>)
    | TaskCommand(nid: nat, tid: nat, kind: TaskType, reqs: Requirements)
    | Horizon(nid: nat, tid: nat)

  predicate Needs(reqs: Requirements, m: Mode, p: Cell) {
    p.bid in reqs && m in reqs[p.bid] && p in reqs[p.bid][m]
  }

  ghost predicate Consumes(reqs: Requirements, p: Cell) {
    exists m :: IsConsumer(m) && Needs(reqs, m, p)
  }

  ghost predicate Produces(reqs: Requirements, p: Cell) {
    exists m :: IsProducer(m) && Needs(reqs, m, p)
  }

  /** The command reads the cell in the memory of its node. */
  ghost predicate Reads(c: Command, p: Cell) {
    match c
    case Push(_, _, _, box) => p in box
    case TaskCommand(_, _, _, reqs) => Consumes(reqs, p)
    case _ => false
  }

  /** The command overwrites the cell in the memory of its node. */
  ghost predicate Writes(c: Command, p: Cell) {
    match c
    case AwaitPush(_, _, _, box) => p in box
    case TaskCommand(_, _, _, reqs) => Produces(reqs, p)
    case _ => false
  }

  /** The command computes a new version of the cell. */
  ghost predicate Computes(c: Command, p: Cell) {
    c.TaskCommand? && Writes(c, p)
  }

  /**
    * Position of a command in the sequential program: by task, and inside a task PUSH, AWAIT_PUSH, task command,
    * HORIZON.
    */
  function Rank(c: Command): nat {
    match c
    case Nop(_, _) => 0
    case Push(_, tid, _, _) => 4 * tid
    case AwaitPush(_, tid, _, _) => 4 * tid + 1
    case TaskCommand(_, tid, _, _) => 4 * tid + 2
    case Horizon(_, tid) => 4 * tid + 3
  }

  datatype Graph = Graph(
    commands: map<Cid, Command>,
    nextCid: Cid,
    byTask: map<nat, seq<Cid>>,
    edges: Edges,          // (depender, dependee)
    trueEdges: Edges,      // those that are not anti-dependencies
    fronts: map<nat, set<Cid>>,
    pathLength: map<Cid, nat>,
    maxPathLength: nat)

  /** The kinds of edges that command generation creates. */
  predicate EdgeOk(a: Command, b: Command) {
    && a.nid == b.nid
    && !a.Nop?
    && ( || b.tid < a.tid
         || (b.tid == a.tid && a.TaskCommand? && (b.Push? || b.AwaitPush?))
         || (b.tid == a.tid && a.Horizon? && !b.Horizon? && !b.Nop?))
  }

  ghost predicate EdgesOk(g: Graph) {
    && g.trueEdges <= g.edges
    && forall a, b :: (a, b) in g.edges ==> a in g.commands && b in g.commands && EdgeOk(g.commands[a], g.commands[b])
  }

  ghost predicate CommandsOk(g: Graph) {
    && (forall c :: c in g.commands ==> c < g.nextCid && c in g.pathLength && g.pathLength[c] <= g.maxPathLength)
    && (forall c :: c in g.commands ==> (g.commands[c].Nop? <==> g.commands[c].tid == 0))
    && (forall c :: c in g.commands && g.commands[c].AwaitPush? ==> SourceOk(g.commands, g.commands[c]))
  }

  ghost predicate SourceOk(commands: map<Cid, Command>, a: Command)
    requires a.AwaitPush?
  {
    && a.source in commands
    && var b := commands[a.source];
       b.Push? && b.tid == a.tid && b.box == a.box && b.target == a.nid && b.nid != a.nid
  }

  /** `byTask` lists exactly the task commands. */
  ghost predicate ByTaskOk(g: Graph) {
    && (forall t, i :: t in g.byTask && 0 <= i < |g.byTask[t]| ==> IsTaskCommand(g, t, g.byTask[t][i]))
    && (forall t, i, j :: t in g.byTask && 0 <= i < j < |g.byTask[t]| ==> g.byTask[t][i] != g.byTask[t][j])
    && (forall t, c :: IsTaskCommand(g, t, c) ==> t in g.byTask && c in g.byTask[t])
  }

  ghost predicate IsTaskCommand(g: Graph, t: nat, c: Cid) {
    c in g.commands && g.commands[c].TaskCommand? && g.commands[c].tid == t
  }

  ghost predicate InFront(g: Graph, n: nat, c: Cid) {
    && c in g.commands
    && g.commands[c].nid == n
    && !g.commands[c].Nop?
    && forall d :: (d, c) !in g.edges
  }

  /** The execution front of a node is exactly its commands without dependents, leaving out the init command. */
  ghost predicate FrontsOk(g: Graph) {
    && (forall n, c :: n in g.fronts && c in g.fronts[n] ==> InFront(g, n, c))
    && (forall n, c :: InFront(g, n, c) ==> n in g.fronts && c in g.fronts[n])
  }

  ghost predicate GraphOk(g: Graph) {
    CommandsOk(g) && ByTaskOk(g) && EdgesOk(g) && FrontsOk(g)
  }

  /** The new dependency of `a` on `b` goes with the greatest path length. */
  ghost predicate Raises(g: Graph, g': Graph, a: Cid, b: Cid) {
    (a, b) in g'.edges && (a, b) !in g.edges && a in g'.pathLength && g'.pathLength[a] == g'.maxPathLength
  }

  /** Path lengths grow with new dependencies, and the greatest one grows with them only. */
  ghost predicate PathsGrow(g: Graph, g': Graph) {
    && g.maxPathLength <= g'.maxPathLength && g.edges <= g'.edges
    && (forall c :: c in g.commands ==>
                      c in g'.commands && c in g.pathLength && c in g'.pathLength
                          && g.pathLength[c] <= g'.pathLength[c])
    && (forall a, b :: (a, b) in g'.edges && (a, b) !in g.edges && b in g.commands ==>
                         a in g'.pathLength && b in g.pathLength && g'.pathLength[a] > g.pathLength[b])
    && (g'.maxPathLength == g.maxPathLength || exists a: Cid, b: Cid :: Raises(g, g', a, b))
  }

  ghost function Ranks(g: Graph): map<nat, int> {
    map c | c in g.commands :: Rank(g.commands[c])
  }

  lemma ReachesLowerRank(g: Graph, a: Cid, b: Cid)
    requires CommandsOk(g) && EdgesOk(g) && Reaches(g.edges, a, b)
    ensures a in g.commands && b in g.commands && Rank(g.commands[b]) < Rank(g.commands[a])
    ensures g.commands[a].nid == g.commands[b].nid
  {
    ReachesDescends(g.edges, Ranks(g), a, b);
    var p :| PathFromTo(g.edges, p, a, b);
    PathStaysOnNode(g, p);
  }

  lemma {:induction false} PathStaysOnNode(g: Graph, path: seq<Cid>)
    requires EdgesOk(g) && |path| >= 2 && IsPath(g.edges, path)
    ensures path[0] in g.commands && path[|path| - 1] in g.commands
    ensures g.commands[path[0]].nid == g.commands[path[|path| - 1]].nid
  {
    assert (path[0], path[1]) in g.edges;
    if |path| > 2 {
      var rest := path[1..];
      assert forall i | 0 <= i < |rest| - 1 :: (rest[i], rest[i + 1]) == (path[i + 1], path[i + 2]);
      PathStaysOnNode(g, rest);
    }
  }

  /** The command graph has no cycle. */
  lemma Acyclic(g: Graph, a: Cid)
    requires CommandsOk(g) && EdgesOk(g)
    ensures !Reaches(g.edges, a, a)
  {
    if Reaches(g.edges, a, a) {
      ReachesLowerRank(g, a, a);
    }
  }
}

/** Steps of the graph generator: single transfers, reads and writes of one command. */
module GeneratorSteps {
  import opened Grid
  import opened Reachability
  import opened Commands
  import opened CommandGraphs
  import opened GeneratorState
  import opened TaskStep
  import opened TaskProgress
  import opened TaskCompletion
  import opened RegionQueries

  // ------------------------------------------------------------------- lemmas

  lemma PieceIsEntry(lastWriter: map<Cell, Cid>, box: set<Cell>, pieces: seq<Piece<Cell, Cid>>, i: nat)
    requires box <= lastWriter.Keys && Pieces(lastWriter, box, pieces) && i < |pieces|
    ensures pieces[i].value in Entries(lastWriter, box)
  {
    assert PieceOk(lastWriter, box, pieces[i]);
    var p :| p in pieces[i].box;
    assert lastWriter[p] == pieces[i].value;
  }

  lemma PiecesAreEntries(lastWriter: map<Cell, Cid>, box: set<Cell>, pieces: seq<Piece<Cell, Cid>>, ys: set<Cid>)
    requires box <= lastWriter.Keys && Pieces(lastWriter, box, pieces) && ys <= Entries(lastWriter, box)
    requires forall j :: 0 <= j < |pieces| ==> pieces[j].value in ys
    ensures ys == Entries(lastWriter, box)
  {
    forall p | p in box
      ensures lastWriter[p] in ys
    {
      assert InSome(pieces, p);
      var i :| 0 <= i < |pieces| && p in pieces[i].box;
      assert PieceOk(lastWriter, box, pieces[i]);
    }
  }

  lemma ReaderFound(g: Graph, recorded: map<Cid, set<Cell>>, t: nat, req: set<Cell>, e: Cid, d: Cid)
    requires ReadsFrom(g, recorded, t, req, e, d)
    ensures HasReader(g, recorded, t, req, e)
  {
  }

  lemma NoReader(g: Graph, recorded: map<Cid, set<Cell>>, t: nat, req: set<Cell>, e: Cid)
    requires forall d :: !ReadsFrom(g, recorded, t, req, e, d)
    ensures !HasReader(g, recorded, t, req, e)
  {
  }

  lemma EntryTargets(g: Graph, recorded: map<Cid, set<Cell>>, t: nat, req: set<Cell>, init: Cid,
                     lastWriter: map<Cell, Cid>, e: Cid)
    requires req <= lastWriter.Keys && e in Entries(lastWriter, req)
    ensures forall y :: y in g.commands && IsAntiTarget(g, recorded, t, req, init, e, y) ==>
                          y in AntiTargets(g, recorded, t, req, init, lastWriter)
    ensures forall y :: ReadsFrom(g, recorded, t, req, e, y) ==> y in AntiTargets(g, recorded, t, req, init, lastWriter)
  {
    var p :| p in req && lastWriter[p] == e;
  }

  lemma AllTargets(g: Graph, recorded: map<Cid, set<Cell>>, t: nat, req: set<Cell>, init: Cid,
                   lastWriter: map<Cell, Cid>,
                   pieces: seq<Piece<Cell, Cid>>, ys: set<Cid>)
    requires req <= lastWriter.Keys && Pieces(lastWriter, req, pieces)
    requires ys <= AntiTargets(g, recorded, t, req, init, lastWriter)
    requires forall j, y :: && 0 <= j < |pieces| && y in g.commands
                            && IsAntiTarget(g, recorded, t, req, init, pieces[j].value, y) ==>
                              y in ys
    ensures ys == AntiTargets(g, recorded, t, req, init, lastWriter)
  {
    forall y | y in AntiTargets(g, recorded, t, req, init, lastWriter)
      ensures y in ys
    {
      var p :| p in req && IsAntiTarget(g, recorded, t, req, init, lastWriter[p], y);
      assert InSome(pieces, p);
      var i :| 0 <= i < |pieces| && p in pieces[i].box;
      assert PieceOk(lastWriter, req, pieces[i]);
    }
  }

  lemma OneMoreEdge(g0: Graph, g: Graph, x: Cid, ys: set<Cid>, y: Cid, anti: bool)
    requires AddedEdges(g0, g, x, ys, anti) && x in g.commands && y in g.commands && x in g.pathLength
    requires y in g.pathLength
    ensures AddedEdges(g0, WithDependency(g, x, y, anti), x, ys + {y}, anti)
  {
    assert (set z | z in ys + {y} :: (x, z)) == (set z | z in ys :: (x, z)) + {(x, y)};
  }

  lemma NoEdgeYet(g: Graph, anti: bool, x: Cid)
    ensures AddedEdges(g, g, x, {}, anti)
  {
    var none: set<Cid> := {};
    assert (set y | y in none :: (x, y)) == {};
  }

  lemma TrueEdgesAreEdges(g: Graph)
    requires GraphOk(g)
    ensures g.trueEdges <= g.edges
  {
  }

  /** What a dependency of the allowed kind needs is met. */
  lemma EdgeAllowed(g: Graph, a: Cid, b: Cid)
    requires GraphOk(g) && a in g.commands && b in g.commands && EdgeOk(g.commands[a], g.commands[b])
    ensures a in g.pathLength && b in g.pathLength && g.commands[a].nid == g.commands[b].nid && a != b
    ensures (b, a) !in g.edges
  {
  }

  /** A command of the current task may depend on the last writers of its node. */
  lemma EntryEdge(s0: State, c: Command, n: nat, p: Cell)
    requires Before(s0) && n < s0.numNodes && p in s0.sources && c.nid == n && !c.Nop? && s0.lastTid < c.tid
    ensures s0.lastWriter[n][p] in s0.g.commands && EdgeOk(c, s0.g.commands[s0.lastWriter[n][p]])
  {
    assert EntryCovers(s0, n, p);
  }

  // ------------------------------------------------------- one transfer, step by step

  lemma TransferSetup(s0: State, t: nat, s: State, n: nat, c: Cid, box: set<Cell>, src: nat)
    requires Before(s0) && Mid(s0, t, s) && RemoteBox(s0, s, n, c, box, src)
    ensures GraphOk(s.g) && c in s.g.commands && s.g.commands[c].TaskCommand? && s.g.commands[c].tid == t > 0
    ensures s.g.commands[c].nid == n != src
    ensures n in s.init && n in s.lastWriter && src in s.lastWriter && box <= s.lastWriter[n].Keys
    ensures box <= s.lastWriter[src].Keys
    ensures s.g.nextCid !in s.g.commands && s.g.nextCid + 1 !in s.g.commands
    ensures forall y :: y in Entries(s.lastWriter[src], box) ==>
                          y in s.g.commands && EdgeOk(Push(src, t, n, box), s.g.commands[y])
    ensures forall y :: y in Entries(s.lastWriter[n], box) ==> y in s.g.commands
  {
    forall p | p in box
      ensures s.lastWriter[src][p] in s.g.commands && EdgeOk(Push(src, t, n, box), s.g.commands[s.lastWriter[src][p]])
      ensures s.lastWriter[n][p] in s.g.commands
    {
      EntryEdge(s0, Push(src, t, n, box), src, p);
      EntryEdge(s0, s.g.commands[c], n, p);
    }
  }

  /** PUSH `b` has been created, with its dependencies on the senders. */
  ghost predicate PushMade(g: Graph, g': Graph, b: Cid, push: Command, senders: set<Cid>) {
    && g'.commands == g.commands[b := push] && g'.nextCid == b + 1
    && g'.edges == g.edges + (set y | y in senders :: (b, y))
    && g'.trueEdges == g.trueEdges + (set y | y in senders :: (b, y))
    && GraphOk(g')
  }

  /** AWAIT_PUSH `a` has been created, and command `c` depends on it. */
  ghost predicate AwaitMade(g: Graph, g': Graph, a: Cid, await': Command, c: Cid) {
    && g'.commands == g.commands[a := await'] && g'.nextCid == a + 1
    && g'.edges == g.edges + {(c, a)} && g'.trueEdges == g.trueEdges + {(c, a)}
    && GraphOk(g')
  }

  lemma PairMade(s: State, g1: Graph, s2: State, b: Cid, t: nat, n: nat, c: Cid, box: set<Cell>, src: nat,
                 senders: set<Cid>)
    requires b !in s.g.commands && b + 1 !in s.g.commands
    requires PushMade(s.g, g1, b, Push(src, t, n, box), senders)
    requires AwaitMade(g1, s2.g, b + 1, AwaitPush(n, t, b, box), c)
    ensures PairAdded(s.g.commands, s2.g.commands, b, t, src, n, box)
    ensures PairEdges(s, s2, c, b, senders, {})
  {
    var none: set<Cid> := {};
    assert (set y | y in none :: (b + 1, y)) == {};
  }

  lemma PairOrdered(s: State, s2: State, s': State, b: Cid, c: Cid, senders: set<Cid>, antis: set<Cid>)
    requires PairEdges(s, s2, c, b, senders, {}) && AddedEdges(s2.g, s'.g, b + 1, antis, true)
    ensures PairEdges(s, s', c, b, senders, antis)
  {
    var none: set<Cid> := {};
    assert (set y | y in none :: (b + 1, y)) == {};
  }

  lemma AntiReady(s0: State, t: nat, s: State, s2: State, b: Cid, n: nat, c: Cid, box: set<Cell>, src: nat)
    requires b == s.g.nextCid && Before(s0) && AwaitHasReader(s0.g) && Mid(s0, t, s) && RemoteBox(s0, s, n, c, box, src)
    requires s2 == s.(g := s2.g, bufferReads := s.bufferReads[b := box]) && GraphOk(s2.g)
    requires src in s.lastWriter && box <= s.lastWriter[src].Keys && n in s2.lastWriter && n in s2.init
    requires box <= s2.lastWriter[n].Keys
    requires PairAdded(s.g.commands, s2.g.commands, b, t, src, n, box)
    requires PairEdges(s, s2, c, b, Entries(s.lastWriter[src], box), {})
    ensures forall e :: e in Entries(s2.lastWriter[n], box) ==>
                          e in s2.g.commands && (s2.g.commands[e].AwaitPush? ==>
                                                 HasReader(s2.g, s2.bufferReads, t, box, e))
    ensures forall y :: y in AntiTargets(s2.g, s2.bufferReads, t, box, s2.init[n], s2.lastWriter[n]) ==>
                          y in s2.g.commands && EdgeOk(AwaitPush(n, t, b, box), s2.g.commands[y])
  {
    hide *;
    AntiFacts(s0, t, s, s2, b, n, c, box, src);
    AntiEdgesOk(s0, t, s2, b + 1, box);
    EntriesRead(s0, t, s2, n, box);
    TargetsExist(s2.g, s2.bufferReads, t, box, s2.init[n], s2.lastWriter[n]);
  }

  /** The state between the creation of an AWAIT_PUSH and of its anti-dependencies. */
  lemma AntiFacts(s0: State, t: nat, s: State, s2: State, b: Cid, n: nat, c: Cid, box: set<Cell>, src: nat)
    requires b == s.g.nextCid && Before(s0) && Mid(s0, t, s) && RemoteBox(s0, s, n, c, box, src)
    requires s2 == s.(g := s2.g, bufferReads := s.bufferReads[b := box]) && GraphOk(s2.g)
    requires src in s.lastWriter && box <= s.lastWriter[src].Keys
    requires PairAdded(s.g.commands, s2.g.commands, b, t, src, n, box)
    requires PairEdges(s, s2, c, b, Entries(s.lastWriter[src], box), {})
    ensures s0.lastTid < t && Extends(s0, s2, t) && s2.lastWriter == s0.lastWriter && EdgesOk(s2.g)
    ensures ReadsPartial(s0, s2) && PushesFed(s0, s2)
    ensures IsNew(s0, s2, b + 1) && s2.g.commands[b + 1] == AwaitPush(n, t, b, box)
    ensures n < s0.numNodes && n in s2.init && box <= s0.sources.Keys && forall p :: p in box ==> n !in s0.sources[p]
  {
    hide *;
    MidParts(s0, t, s);
    BeforeParts(s0);
    RemoteParts(s0, s, s2, n, c, b, box, src, t);
    TransferNew(s0, t, s, s2, b, src, n, box);
    TransferExtends(s0, t, s, s2, c, b, src, n, box, Entries(s.lastWriter[src], box), {});
    TransferReads(s0, s, s2, b, t, src, n, box);
    NotYetBrought(s0, t, s, n, box);
    TransferPushesFed(s0, s, s2, b, t, src, n, box);
    NewAwait(s0, s, s2, b, t, src, n, box);
    GraphParts(s2.g);
  }

  lemma TargetsExist(g: Graph, recorded: map<Cid, set<Cell>>, t: nat, req: set<Cell>, init: Cid,
                     lastWriter: map<Cell, Cid>)
    requires req <= lastWriter.Keys
    ensures forall y :: y in AntiTargets(g, recorded, t, req, init, lastWriter) ==> y in g.commands
  {
  }

  lemma GraphParts(g: Graph)
    requires GraphOk(g)
    ensures CommandsOk(g) && ByTaskOk(g) && EdgesOk(g) && FrontsOk(g)
  {
  }

  lemma NewAwait(s0: State, s: State, s2: State, b: Cid, t: nat, src: nat, n: nat, box: set<Cell>)
    requires PairAdded(s.g.commands, s2.g.commands, b, t, src, n, box) && b + 1 !in s0.g.commands
    ensures IsNew(s0, s2, b + 1) && s2.g.commands[b + 1] == AwaitPush(n, t, b, box)
  {
  }

  lemma RemoteParts(s0: State, s: State, s2: State, n: nat, c: Cid, b: Cid, box: set<Cell>, src: nat, t: nat)
    requires RemoteBox(s0, s, n, c, box, src) && Domains(s) && s.lastWriter == s0.lastWriter && Domains(s0)
    requires s.numNodes == s0.numNodes
    requires src in s.lastWriter && box <= s.lastWriter[src].Keys
    requires PairEdges(s, s2, c, b, Entries(s.lastWriter[src], box), {})
    ensures OwnCommand(s0, s, c) && n < s0.numNodes && src < s0.numNodes && box <= s0.sources.Keys
    ensures box <= s.sources.Keys
    ensures n in s.init
    ensures forall p :: p in box ==> n !in s.sources[p]
    ensures forall p :: p in box ==> |s0.sources[p]| > 0 && s0.sources[p][0] == src
    ensures forall p :: p in box ==> (b, s0.lastWriter[src][p]) in s2.g.trueEdges
    ensures s.g.trueEdges <= s2.g.trueEdges
  {
    forall p | p in box
      ensures (b, s0.lastWriter[src][p]) in s2.g.trueEdges
    {
      assert s.lastWriter[src][p] in Entries(s.lastWriter[src], box);
    }
  }

  lemma EntriesRead(s0: State, t: nat, s: State, n: nat, req: set<Cell>)
    requires Before(s0) && AwaitHasReader(s0.g) && s0.lastTid < t && Extends(s0, s, t) && s.lastWriter == s0.lastWriter
    requires ReadsPartial(s0, s)
    requires n < s0.numNodes && req <= s0.sources.Keys
    ensures forall e :: e in Entries(s.lastWriter[n], req) ==>
                          e in s.g.commands && (s.g.commands[e].AwaitPush? ==> HasReader(s.g, s.bufferReads, t, req, e))
  {
    forall p | p in req
      ensures var e := s.lastWriter[n][p];
              e in s.g.commands && (s.g.commands[e].AwaitPush? ==> HasReader(s.g, s.bufferReads, t, req, e))
    {
      assert EntryCovers(s0, n, p);
      if s.g.commands[s.lastWriter[n][p]].AwaitPush? { AwaitEntryIsRead(s0, t, s, n, req, p); }
    }
  }

  lemma AntiTargetsSame(g: Graph, g': Graph, recorded: map<Cid, set<Cell>>, t: nat, req: set<Cell>, init: Cid,
                        lastWriter: map<Cell, Cid>)
    requires req <= lastWriter.Keys && g'.commands == g.commands && g'.trueEdges == g.trueEdges
    ensures AntiTargets(g', recorded, t, req, init, lastWriter) == AntiTargets(g, recorded, t, req, init, lastWriter)
  {
    forall e, d
      ensures ReadsFrom(g, recorded, t, req, e, d) <==> ReadsFrom(g', recorded, t, req, e, d)
    {
    }
    assert forall e :: HasReader(g, recorded, t, req, e) <==> HasReader(g', recorded, t, req, e);
    forall y
      ensures y in AntiTargets(g', recorded, t, req, init, lastWriter) <==>
                y in AntiTargets(g, recorded, t, req, init, lastWriter)
    {
      assert forall e :: IsAntiTarget(g, recorded, t, req, init, e, y) <==>
                           IsAntiTarget(g', recorded, t, req, init, e, y);
    }
  }

  ghost predicate OnlyInits(g: Graph, n: nat, init: map<nat, Cid>) {
    && (forall c: nat :: c in g.commands <==> c < n)
    && g.pathLength.Keys == g.commands.Keys
    && (forall c :: c in g.commands ==> g.commands[c] == Nop(c, 0) && g.pathLength[c] == 0)
    && (forall i: nat :: i in init <==> i < n) && (forall i :: i in init ==> init[i] == i)
    && g.nextCid == n && g.maxPathLength == 0
    && g.byTask == map[] && g.edges == {} && g.trueEdges == {} && g.fronts == map[]
  }

  lemma NoInits(g: Graph)
    requires g == EmptyGraph()
    ensures OnlyInits(g, 0, map[])
  {
  }

  lemma InitsMeasured(g: Graph, n: nat, init: map<nat, Cid>, seen: map<(Cid, Cid), nat>)
    requires OnlyInits(g, n, init)
    ensures Measured(g, seen)
  {
  }

  lemma OneMoreInit(g: Graph, n: nat, init: map<nat, Cid>)
    requires OnlyInits(g, n, init)
    ensures OnlyInits(Created(g, Nop(n, 0)), n + 1, init[n := g.nextCid])
  {
  }

  ghost predicate Initial(s: State) {
    && OnlyInits(s.g, s.numNodes, s.init)
    && s.sources == map[] && s.lastTid == 0 && s.prevHorizon == map[] && s.bufferReads == map[] && s.late == {}
    && (forall n: nat :: n in s.lastWriter <==> n < s.numNodes)
    && (forall n: nat :: n in s.lastWriter ==> s.lastWriter[n] == map[])
  }

  lemma InitialFrom(s: State)
    requires OnlyInits(s.g, s.numNodes, s.init)
    requires s.sources == map[] && s.lastTid == 0 && s.prevHorizon == map[] && s.bufferReads == map[] && s.late == {}
    requires forall n: nat :: n in s.lastWriter <==> n < s.numNodes
    requires forall n: nat :: n in s.lastWriter ==> s.lastWriter[n] == map[]
    ensures Initial(s)
  {
  }

  lemma InitialInv(s: State)
    requires Initial(s)
    ensures Inv(s)
  {
    InitialShape(s);
    InitialRest(s);
  }

  lemma InitialShape(s: State)
    requires Initial(s)
    ensures Shape(s)
  {
    assert forall c :: c in s.g.commands ==> s.g.commands[c].Nop?;
  }

  lemma InitialRest(s: State)
    requires OnlyInits(s.g, s.numNodes, s.init) && Domains(s) && s.sources == map[]
    ensures Order(s) && Data(s)
  {
    assert forall c :: c in s.g.commands ==> s.g.commands[c].Nop?;
  }

  // ------------------------------------------------ steps of one command, together with the lists

  ghost predicate PushList(s0: State, s: State, pushes: seq<Cid>) {
    forall b :: b in pushes <==> IsNew(s0, s, b) && s.g.commands[b].Push?
  }

  /** What holds between the steps of a task: the state and the lists of deferred updates and of PUSHes. */
  ghost predicate Working(s0: State, t: nat, s: State, updates: seq<Update>, writes: seq<Written>, pushes: seq<Cid>) {
    Mid(s0, t, s) && ListsOk(s0, s, updates, writes) && PushList(s0, s, pushes)
  }

  ghost predicate Usable(s0: State) {
    Before(s0) && AwaitHasReader(s0.g)
  }

  /** Recording a read. */
  lemma RecordKeepsWorking(s0: State, t: nat, s: State, s': State, c: Cid, req: set<Cell>,
                           updates: seq<Update>, writes: seq<Written>, pushes: seq<Cid>)
    requires Working(s0, t, s, updates, writes, pushes) && OwnCommand(s0, s, c)
    requires s' == s.(bufferReads := s.bufferReads[c := ReadSet(s.bufferReads, c) + req])
    requires forall p :: p in req ==> Reads(s.g.commands[c], p)
    ensures Working(s0, t, s', updates, writes, pushes) && Later(s, s') && req <= ReadSet(s'.bufferReads, c)
    ensures OwnCommand(s0, s', c)
  {
    hide *;
    WorkingParts(s0, t, s, updates, writes, pushes);
    MidParts(s0, t, s);
    RecordPartial(s0, s, s', c, req);
    RecordSame(s0, t, s, s', c, req);
    MidFromParts(s0, t, s');
    ListsSame(s0, s, s', updates, writes, pushes);
    WorkingFromParts(s0, t, s', updates, writes, pushes);
  }

  lemma WorkingParts(s0: State, t: nat, s: State, updates: seq<Update>, writes: seq<Written>, pushes: seq<Cid>)
    requires Working(s0, t, s, updates, writes, pushes)
    ensures Mid(s0, t, s) && ListsOk(s0, s, updates, writes) && PushList(s0, s, pushes)
  {
  }

  lemma WorkingFromParts(s0: State, t: nat, s: State, updates: seq<Update>, writes: seq<Written>, pushes: seq<Cid>)
    requires Mid(s0, t, s) && ListsOk(s0, s, updates, writes) && PushList(s0, s, pushes)
    ensures Working(s0, t, s, updates, writes, pushes)
  {
  }

  lemma RecordPartial(s0: State, s: State, s': State, c: Cid, req: set<Cell>)
    requires ReadsPartial(s0, s) && OwnCommand(s0, s, c)
    requires s' == s.(bufferReads := s.bufferReads[c := ReadSet(s.bufferReads, c) + req])
    requires forall p :: p in req ==> Reads(s.g.commands[c], p)
    ensures ReadsPartial(s0, s') && req <= ReadSet(s'.bufferReads, c) && OwnCommand(s0, s', c)
  {
    assert forall d :: IsNew(s0, s', d) <==> IsNew(s0, s, d);
  }

  lemma RecordSame(s0: State, t: nat, s: State, s': State, c: Cid, req: set<Cell>)
    requires Domains(s0) && Domains(s) && Extends(s0, s, t) && CommandsKnown(s) && PushesFed(s0, s)
    requires AwaitsNeeded(s0, s) && AwaitsOrdered(s0, s)
    requires SourcesGrow(s0, s) && s' == s.(bufferReads := s.bufferReads[c := ReadSet(s.bufferReads, c) + req])
    ensures Domains(s') && Extends(s0, s', t) && CommandsKnown(s') && PushesFed(s0, s') && AwaitsNeeded(s0, s')
    ensures AwaitsOrdered(s0, s')
    ensures SourcesGrow(s0, s') && Later(s, s')
    ensures EdgesJustified(s0, s) ==> EdgesJustified(s0, s')
  {
    if EdgesJustified(s0, s) { JustifiedSame(s0, s, s'); }
    forall a, p | IsNew(s0, s', a) && s'.g.commands[a].AwaitPush? && p in s'.g.commands[a].box
      ensures OrderedAfter(s0, s', a, p)
    {
      assert IsNew(s0, s, a);
      OrderedGrows(s0, s, s', a, p);
    }
    PushesFedGrow(s0, s, s');
    KnownUnchanged(s0, s, s');
    GrowthUnchanged(s0, s, s');
    assert forall d :: IsNew(s0, s', d) <==> IsNew(s0, s, d);
  }

  lemma JustifiedSame(s0: State, s: State, s': State)
    requires EdgesJustified(s0, s) && s'.g == s.g
    ensures EdgesJustified(s0, s')
  {
    hide Justified, DataFlows;
    forall a, b | (a, b) in s'.g.edges && (a, b) !in s0.g.edges
      ensures Justified(s0, s', a, b)
    {
      JustifiedGrows(s0, s, s', a, b);
    }
    forall a, b | (a, b) in s'.g.trueEdges && (a, b) !in s0.g.trueEdges
      ensures DataFlows(s0, s', a, b)
    {
      FlowsGrow(s0, s, s', a, b);
    }
  }

  lemma ListsSame(s0: State, s: State, s': State, updates: seq<Update>, writes: seq<Written>, pushes: seq<Cid>)
    requires ListsOk(s0, s, updates, writes) && PushList(s0, s, pushes)
    requires s'.g.commands == s.g.commands && s'.sources == s.sources
    ensures ListsOk(s0, s', updates, writes) && PushList(s0, s', pushes)
  {
    assert forall d :: IsNew(s0, s', d) <==> IsNew(s0, s, d);
    forall i | 0 <= i < |updates|
      ensures UpdateOk(s0, s', updates[i]) && WriteAfterRead(s', updates[i])
    {
      assert UpdateOk(s0, s, updates[i]);
    }
    forall i | 0 <= i < |writes|
      ensures WriteOk(s0, s', writes[i])
    {
      assert WriteOk(s0, s, writes[i]);
      var c :| OwnCommand(s0, s, c) && s.g.commands[c].nid == writes[i].nid && forall p :: p in writes[i].region ==>
            Computes(s.g.commands[c], p);
      assert OwnCommand(s0, s', c);
    }
  }

  /** Depending on local last writers. */
  lemma LocalKeepsWorking(s0: State, t: nat, s: State, s': State, c: Cid, ys: set<Cid>, anti: bool,
                          updates: seq<Update>, writes: seq<Written>, pushes: seq<Cid>)
    requires Working(s0, t, s, updates, writes, pushes) && OwnCommand(s0, s, c)
    requires s' == s.(g := s'.g) && GraphOk(s'.g) && AddedEdges(s.g, s'.g, c, ys, anti)
    requires forall y :: y in ys ==> Justified(s0, s', c, y) && (anti || DataFlows(s0, s', c, y))
    ensures Working(s0, t, s', updates, writes, pushes) && Later(s, s') && OwnCommand(s0, s', c)
  {
    hide *;
    WorkingParts(s0, t, s, updates, writes, pushes);
    AddedParts(s0, s, s', c, ys, anti);
    AddedEdgesKeepMid(s0, t, s, s', c, ys, anti);
    ListsSame(s0, s, s', updates, writes, pushes);
    WorkingFromParts(s0, t, s', updates, writes, pushes);
  }

  lemma AddedParts(s0: State, s: State, s': State, c: Cid, ys: set<Cid>, anti: bool)
    requires OwnCommand(s0, s, c) && s' == s.(g := s'.g) && AddedEdges(s.g, s'.g, c, ys, anti)
    ensures IsNew(s0, s, c) && s'.g.commands == s.g.commands && Later(s, s') && OwnCommand(s0, s', c)
  {
  }

  /** Receiving a box. */
  lemma TransferKeepsWorking(s0: State, t: nat, s: State, s': State, n: nat, c: Cid, b: Cid, box: set<Cell>, src: nat,
                             updates: seq<Update>, writes: seq<Written>, pushes: seq<Cid>)
    requires Usable(s0) && Working(s0, t, s, updates, writes, pushes) && b == s.g.nextCid
    requires RemoteBox(s0, s, n, c, box, src)
    requires c in s.g.commands && s.g.commands[c].nid == n && n in s.init && n in s.lastWriter && src in s.lastWriter
    requires box <= s.lastWriter[src].Keys && box <= s.lastWriter[n].Keys
    requires Transferred(s, s', t, c, box, src)
    ensures Working(s0, t, s', updates + [Update(n, box, b + 1)], writes, pushes + [b])
    ensures Later(s, s') && OwnCommand(s0, s', c)
    ensures forall p :: p in box ==> c in s'.g.commands && FedFrom(s0, s', c, p)
    ensures s'.sources == SourcesWith(s.sources, box, n)
  {
    hide *;
    WorkingParts(s0, t, s, updates, writes, pushes);
    UsableParts(s0);
    MidParts(s0, t, s);
    BeforeParts(s0);
    TransferKeepsMid(s0, t, s, s', n, c, box, src);
    RemoteBoxParts(s0, t, s, n, c, box, src);
    TransferParts(s0, t, s, s', n, c, b, box, src);
    TransferNew(s0, t, s, s', b, src, n, box);
    TransferLists(s0, t, s, s', n, c, b, box, src, updates, writes);
    TransferPushList(s0, s, s', n, b, box, src, t, pushes);
    TransferLater(s, s', n, b, box, src, t);
    TransferOwn(s0, s, s', c, b, box, src, t, n);
    WorkingFromParts(s0, t, s', updates + [Update(n, box, b + 1)], writes, pushes + [b]);
  }

  lemma UsableParts(s0: State)
    requires Usable(s0)
    ensures Before(s0) && AwaitHasReader(s0.g)
  {
  }

  lemma TransferOwn(s0: State, s: State, s': State, c: Cid, b: Cid, box: set<Cell>, src: nat, t: nat, n: nat)
    requires OwnCommand(s0, s, c) && PairAdded(s.g.commands, s'.g.commands, b, t, src, n, box)
    ensures OwnCommand(s0, s', c)
  {
  }

  lemma TransferLater(s: State, s': State, n: nat, b: Cid, box: set<Cell>, src: nat, t: nat)
    requires PairAdded(s.g.commands, s'.g.commands, b, t, src, n, box) && s.g.edges <= s'.g.edges
    requires s.g.trueEdges <= s'.g.trueEdges
    requires s'.bufferReads == s.bufferReads[b := box] && s'.sources == SourcesWith(s.sources, box, n)
    ensures Later(s, s')
  {
  }

  lemma TransferPushList(s0: State, s: State, s': State, n: nat, b: Cid, box: set<Cell>, src: nat, t: nat,
                         pushes: seq<Cid>)
    requires PushList(s0, s, pushes) && PairAdded(s.g.commands, s'.g.commands, b, t, src, n, box) && b !in s0.g.commands
    ensures PushList(s0, s', pushes + [b])
  {
    forall d
      ensures d in pushes + [b] <==> IsNew(s0, s', d) && s'.g.commands[d].Push?
    {
      assert d in pushes + [b] <==> d in pushes || d == b;
    }
  }

  lemma TransferLists(s0: State, t: nat, s: State, s': State, n: nat, c: Cid, b: Cid, box: set<Cell>, src: nat,
                      updates: seq<Update>, writes: seq<Written>)
    requires ListsOk(s0, s, updates, writes) && PairAdded(s.g.commands, s'.g.commands, b, t, src, n, box)
    requires s'.sources == SourcesWith(s.sources, box, n) && box <= s.sources.Keys && b + 1 !in s0.g.commands
    requires Extends(s0, s, t) && OneWriterPerTask(s.g.commands) && OwnCommand(s0, s, c) && s.g.commands[c].nid == n
    requires forall p :: p in box ==> Reads(s.g.commands[c], p)
    requires forall p :: p in box ==> n !in s.sources[p]
    ensures ListsOk(s0, s', updates + [Update(n, box, b + 1)], writes)
  {
    var updates' := updates + [Update(n, box, b + 1)];
    forall i | 0 <= i < |updates'|
      ensures UpdateOk(s0, s', updates'[i]) && WriteAfterRead(s', updates'[i])
    {
      if i < |updates| { UpdateStays(s0, t, s, s', n, b, box, src, updates[i]); }
    }
    forall i | 0 <= i < |writes|
      ensures WriteOk(s0, s', writes[i])
    {
      WriteStays(s0, t, s, s', n, b, box, src, writes[i]);
    }
    forall a, p | IsNew(s0, s', a) && s'.g.commands[a].AwaitPush? && p in s'.g.commands[a].box
      ensures Listed(updates', a, p)
    {
      if a == b + 1 {
        assert updates'[|updates|].cid == a && p in updates'[|updates|].region;
      } else {
        assert IsNew(s0, s, a);
        ListedLater(updates, updates', a, p);
      }
    }
    forall i, j, m, p | 0 <= i < j < |updates'| && Matches(updates'[i], m, p) && Matches(updates'[j], m, p)
      ensures s'.g.commands[updates'[i].cid].AwaitPush? || s'.g.commands[updates'[j].cid].TaskCommand?
    {
      assert UpdateOk(s0, s, updates[i]) && WriteAfterRead(s, updates[i]);
      if j < |updates| { assert UpdateOk(s0, s, updates[j]); }
    }
  }

  lemma UpdateStays(s0: State, t: nat, s: State, s': State, n: nat, b: Cid, box: set<Cell>, src: nat, u: Update)
    requires UpdateOk(s0, s, u) && WriteAfterRead(s, u) && PairAdded(s.g.commands, s'.g.commands, b, t, src, n, box)
    requires s'.sources == SourcesWith(s.sources, box, n)
    ensures UpdateOk(s0, s', u) && WriteAfterRead(s', u)
  {
  }

  lemma WriteStays(s0: State, t: nat, s: State, s': State, n: nat, b: Cid, box: set<Cell>, src: nat, w: Written)
    requires WriteOk(s0, s, w) && PairAdded(s.g.commands, s'.g.commands, b, t, src, n, box)
    ensures WriteOk(s0, s', w)
  {
    var c :| OwnCommand(s0, s, c) && s.g.commands[c].nid == w.nid && forall p :: p in w.region ==>
                                                                                   Computes(s.g.commands[c], p);
    assert OwnCommand(s0, s', c);
  }

  /** Writing a region: the anti-dependencies are in place and the deferred updates are noted. */
  lemma ProduceKeepsWorking(s0: State, t: nat, s: State, s': State, n: nat, c: Cid, req: set<Cell>,
                            updates: seq<Update>, writes: seq<Written>, pushes: seq<Cid>)
    requires Usable(s0) && Working(s0, t, s, updates, writes, pushes) && OwnCommand(s0, s, c)
    requires s.g.commands[c].nid == n
    requires n < s0.numNodes && n in s.init && n in s.lastWriter && req <= s.lastWriter[n].Keys
    requires req <= s0.sources.Keys
    requires s' == s.(g := s'.g) && GraphOk(s'.g) && s'.g.commands == s.g.commands && s.g.trueEdges <= s'.g.trueEdges
    requires AddedEdges(s.g, s'.g, c, AntiTargets(s.g, s.bufferReads, t, req, s.init[n], s.lastWriter[n]), true)
    requires forall p :: p in req ==> Computes(s.g.commands[c], p)
    requires forall p :: p in req ==> p in s.sources && (n in s.sources[p] || !Reads(s.g.commands[c], p))
    ensures Working(s0, t, s', updates + [Update(n, req, c)], writes + [Written(n, req)], pushes)
    ensures Later(s, s') && OwnCommand(s0, s', c) && Domains(s0)
    ensures CellsWritten(s0, s', updates + [Update(n, req, c)], writes + [Written(n, req)], c, req)
  {
    hide *;
    var antis := AntiTargets(s.g, s.bufferReads, t, req, s.init[n], s.lastWriter[n]);
    ProduceJustified(s0, t, s, s', n, c, req, updates, writes, pushes);
    LocalKeepsWorking(s0, t, s, s', c, antis, true, updates, writes, pushes);
    WorkingParts(s0, t, s', updates, writes, pushes);
    UsableParts(s0);
    BeforeParts(s0);
    MidParts(s0, t, s');
    ProduceParts(s0, s, s', c, antis);
    ProduceLists(s0, t, s', n, c, req, updates, writes);
    WorkingFromParts(s0, t, s', updates + [Update(n, req, c)], writes + [Written(n, req)], pushes);
    AntiTargetsSame(s.g, s'.g, s.bufferReads, t, req, s.init[n], s.lastWriter[n]);
    ProduceWritten(s0, t, s', n, c, req, updates, writes);
  }

  lemma ProduceJustified(s0: State, t: nat, s: State, s': State, n: nat, c: Cid, req: set<Cell>,
                         updates: seq<Update>, writes: seq<Written>, pushes: seq<Cid>)
    requires Working(s0, t, s, updates, writes, pushes) && OwnCommand(s0, s, c) && s.g.commands[c].nid == n
    requires n < s0.numNodes && n in s.init && n in s.lastWriter && req <= s.lastWriter[n].Keys
    requires req <= s0.sources.Keys
    requires s' == s.(g := s'.g) && s'.g.commands == s.g.commands && s.g.trueEdges <= s'.g.trueEdges
    requires forall p :: p in req ==> Computes(s.g.commands[c], p)
    ensures forall y :: y in AntiTargets(s.g, s.bufferReads, t, req, s.init[n], s.lastWriter[n]) ==>
                          Justified(s0, s', c, y)
  {
    hide *;
    WorkingParts(s0, t, s, updates, writes, pushes);
    MidParts(s0, t, s);
    OwnParts(s0, t, s, c, updates, writes, pushes);
    ComputesWrites(s.g.commands[c], req);
    AntisJustified(s0, t, s, c, n, req);
    forall y | y in AntiTargets(s.g, s.bufferReads, t, req, s.init[n], s.lastWriter[n])
      ensures Justified(s0, s', c, y)
    {
      JustifiedGrows(s0, s, s', c, y);
    }
  }

  lemma ComputesWrites(c: Command, req: set<Cell>)
    requires forall p :: p in req ==> Computes(c, p)
    ensures forall p :: p in req ==> Writes(c, p)
  {
  }

  lemma ProduceParts(s0: State, s: State, s': State, c: Cid, antis: set<Cid>)
    requires OwnCommand(s0, s, c) && s' == s.(g := s'.g) && AddedEdges(s.g, s'.g, c, antis, true)
    ensures s'.g.commands == s.g.commands && s'.g.trueEdges == s.g.trueEdges && c in s.g.commands && IsNew(s0, s', c)
    ensures forall y :: y in antis ==> (c, y) in s'.g.edges
  {
  }

  lemma ProduceWritten(s0: State, t: nat, s: State, n: nat, c: Cid, req: set<Cell>, updates: seq<Update>,
                       writes: seq<Written>)
    requires Before(s0) && s0.lastTid < t && Extends(s0, s, t) && s.lastWriter == s0.lastWriter && ReadsPartial(s0, s)
    requires IsNew(s0, s, c) && s.g.commands[c].nid == n < s0.numNodes && n in s.init && req <= s0.sources.Keys
    requires forall y :: y in AntiTargets(s.g, s.bufferReads, t, req, s.init[n], s.lastWriter[n]) ==>
                           (c, y) in s.g.edges
    ensures CellsWritten(s0, s, updates + [Update(n, req, c)], writes + [Written(n, req)], c, req)
  {
    var updates', writes' := updates + [Update(n, req, c)], writes + [Written(n, req)];
    forall p | p in req
      ensures OrderedAfter(s0, s, c, p) && Listed(updates', c, p) && ListedWrite(writes', n, p)
    {
      AntiOrders(s0, t, s, c, req, p);
      assert updates'[|updates|] == Update(n, req, c) && writes'[|writes|] == Written(n, req);
    }
  }

  lemma ProduceLists(s0: State, t: nat, s: State, n: nat, c: Cid, req: set<Cell>, updates: seq<Update>,
                     writes: seq<Written>)
    requires ListsOk(s0, s, updates, writes) && OwnCommand(s0, s, c) && s.g.commands[c].nid == n
    requires forall p :: p in req ==> Computes(s.g.commands[c], p)
    requires forall p :: p in req ==> p in s.sources && (n in s.sources[p] || !Reads(s.g.commands[c], p))
    ensures ListsOk(s0, s, updates + [Update(n, req, c)], writes + [Written(n, req)])
  {
    var updates', writes' := updates + [Update(n, req, c)], writes + [Written(n, req)];
    forall i | 0 <= i < |writes'|
      ensures WriteOk(s0, s, writes'[i])
    {
      if i < |writes| { assert WriteOk(s0, s, writes[i]); }
    }
    forall i | 0 <= i < |updates'|
      ensures UpdateOk(s0, s, updates'[i]) && WriteAfterRead(s, updates'[i])
    {
      if i < |updates| { assert UpdateOk(s0, s, updates[i]); }
    }
    forall a, p | IsNew(s0, s, a) && s.g.commands[a].AwaitPush? && p in s.g.commands[a].box
      ensures Listed(updates', a, p)
    {
      ListedLater(updates, updates', a, p);
    }
  }

  // --------------------------------------------------- what the steps need

  lemma OwnParts(s0: State, t: nat, s: State, c: Cid, updates: seq<Update>, writes: seq<Written>, pushes: seq<Cid>)
    requires Working(s0, t, s, updates, writes, pushes) && OwnCommand(s0, s, c)
    ensures c in s.g.commands && IsNew(s0, s, c) && s.g.commands[c].TaskCommand? && s.g.commands[c].tid == t
    ensures s.g.commands[c].nid < s0.numNodes == s.numNodes && s.g.commands[c].nid in s.init
    ensures s.g.commands[c].nid in s.lastWriter
    ensures Domains(s0) && s.lastWriter[s.g.commands[c].nid].Keys == s.sources.Keys == s0.sources.Keys && GraphOk(s.g)
  {
  }

  lemma LocalReady(s0: State, t: nat, s: State, n: nat, c: Cid, box: set<Cell>, updates: seq<Update>,
                   writes: seq<Written>, pushes: seq<Cid>)
    requires Usable(s0) && Working(s0, t, s, updates, writes, pushes) && OwnCommand(s0, s, c)
    requires s.g.commands[c].nid == n
    requires n in s.lastWriter && box <= s.lastWriter[n].Keys && box <= s0.sources.Keys
    ensures forall y :: y in Entries(s.lastWriter[n], box) ==>
                          y in s.g.commands && EdgeOk(s.g.commands[c], s.g.commands[y])
  {
    hide *;
    WorkingParts(s0, t, s, updates, writes, pushes);
    UsableParts(s0);
    BeforeParts(s0);
    MidParts(s0, t, s);
    OwnParts(s0, t, s, c, updates, writes, pushes);
    EntryEdgesOk(s0, t, s, c, box);
  }

  lemma ProduceReady(s0: State, t: nat, s: State, n: nat, c: Cid, req: set<Cell>, updates: seq<Update>,
                     writes: seq<Written>, pushes: seq<Cid>)
    requires Usable(s0) && Working(s0, t, s, updates, writes, pushes) && OwnCommand(s0, s, c)
    requires s.g.commands[c].nid == n
    requires n in s.init && n in s.lastWriter && req <= s.lastWriter[n].Keys && req <= s0.sources.Keys
    ensures forall e :: e in Entries(s.lastWriter[n], req) ==>
                          e in s.g.commands && (s.g.commands[e].AwaitPush? ==> HasReader(s.g, s.bufferReads, t, req, e))
    ensures forall y :: y in AntiTargets(s.g, s.bufferReads, t, req, s.init[n], s.lastWriter[n]) ==>
                          y in s.g.commands && EdgeOk(s.g.commands[c], s.g.commands[y])
  {
    hide *;
    WorkingParts(s0, t, s, updates, writes, pushes);
    UsableParts(s0);
    BeforeParts(s0);
    MidParts(s0, t, s);
    OwnParts(s0, t, s, c, updates, writes, pushes);
    AntiEdgesOk(s0, t, s, c, req);
    EntriesRead(s0, t, s, n, req);
    TargetsExist(s.g, s.bufferReads, t, req, s.init[n], s.lastWriter[n]);
  }

  lemma RemoteReady(s0: State, t: nat, s: State, n: nat, c: Cid, box: set<Cell>, holders: seq<nat>)
    requires SourceListsOk(s0) && SourcesGrow(s0, s) && OwnCommand(s0, s, c)
    requires s.g.commands[c].nid == n < s0.numNodes == s.numNodes
    requires box != {} && box <= s.sources.Keys && n !in holders
    requires forall p :: p in box ==> Reads(s.g.commands[c], p)
    requires forall p :: p in box ==> s.sources[p] == holders
    ensures |holders| > 0 && RemoteBox(s0, s, n, c, box, holders[0])
  {
    forall p | p in box
      ensures |s0.sources[p]| > 0 && |holders| > 0 && s0.sources[p][0] == holders[0] && holders[0] < s.numNodes
    {
      assert NodesAdded(s0, s, p) && SourceListOk(s0, p);
      assert s0.sources[p][0] in s0.sources[p];
    }
    var p :| p in box;
  }

  lemma RemoteReadyWorking(s0: State, t: nat, s: State, n: nat, c: Cid, box: set<Cell>, holders: seq<nat>,
                           updates: seq<Update>, writes: seq<Written>, pushes: seq<Cid>)
    requires Usable(s0) && Working(s0, t, s, updates, writes, pushes) && OwnCommand(s0, s, c)
    requires s.g.commands[c].nid == n
    requires box != {} && box <= s.sources.Keys && n !in holders
    requires forall p :: p in box ==> Reads(s.g.commands[c], p)
    requires forall p :: p in box ==> s.sources[p] == holders
    ensures |holders| > 0 && RemoteBox(s0, s, n, c, box, holders[0])
  {
    hide *;
    WorkingParts(s0, t, s, updates, writes, pushes);
    UsableParts(s0);
    BeforeParts(s0);
    MidParts(s0, t, s);
    OwnParts(s0, t, s, c, updates, writes, pushes);
    RemoteReady(s0, t, s, n, c, box, holders);
  }

  lemma LocalJustified(s0: State, t: nat, s: State, s': State, n: nat, c: Cid, box: set<Cell>, updates: seq<Update>,
                       writes: seq<Written>, pushes: seq<Cid>)
    requires Working(s0, t, s, updates, writes, pushes) && OwnCommand(s0, s, c) && s.g.commands[c].nid == n
    requires n in s.lastWriter && box <= s.lastWriter[n].Keys && box <= s0.sources.Keys
    requires s'.g.commands == s.g.commands && forall p :: p in box ==> Reads(s.g.commands[c], p)
    ensures forall y :: y in Entries(s.lastWriter[n], box) ==> Justified(s0, s', c, y) && DataFlows(s0, s', c, y)
  {
    EntriesJustified(s0, s', c, n, box);
  }

  lemma FeedLocally(s0: State, t: nat, s: State, s': State, c: Cid, box: set<Cell>, updates: seq<Update>,
                    writes: seq<Written>, pushes: seq<Cid>)
    requires Working(s0, t, s, updates, writes, pushes) && Working(s0, t, s', updates, writes, pushes)
    requires OwnCommand(s0, s, c)
    requires box <= s0.sources.Keys && s.g.commands[c].nid in s.lastWriter
    requires box <= s.lastWriter[s.g.commands[c].nid].Keys && box <= s.sources.Keys
    requires AddedEdges(s.g, s'.g, c, Entries(s.lastWriter[s.g.commands[c].nid], box), false)
    requires forall p :: p in box ==> s.g.commands[c].nid in s.sources[p]
    ensures Domains(s0) && forall p :: p in box ==> c in s'.g.commands && FedFrom(s0, s', c, p)
  {
    LocalFeeds(s0, t, s, s', c, box);
  }

  lemma CellsReadTogether(s0: State, s: State, s': State, c: Cid, done: set<Cell>, box: set<Cell>)
    requires Domains(s0) && c in s.g.commands && c in s'.g.commands && Later(s, s') && CellsRead(s0, s, c, done)
    requires forall p :: p in box ==> FedFrom(s0, s', c, p)
    requires box <= ReadSet(s'.bufferReads, c)
    ensures CellsRead(s0, s', c, done + box)
  {
    CellsReadLater(s0, s, s', c, done);
  }

  lemma LaterParts(s: State, s': State, c: Cid)
    requires Later(s, s') && c in s.g.commands
    ensures c in s'.g.commands && s'.g.commands[c] == s.g.commands[c]
    ensures ReadSet(s.bufferReads, c) <= ReadSet(s'.bufferReads, c)
    ensures s'.sources.Keys == s.sources.Keys
    ensures forall p, n :: p in s.sources && n in s.sources[p] ==> n in s'.sources[p]
  {
  }

  /** The first `i` pieces lie inside `done`, the others outside. */
  ghost predicate DoneTo<V>(pieces: seq<Piece<Cell, V>>, i: nat, done: set<Cell>) {
    && (forall j :: 0 <= j < i && j < |pieces| ==> pieces[j].box <= done)
    && (forall j :: i <= j < |pieces| ==> pieces[j].box !! done)
  }

  lemma PieceParts<V>(m: map<Cell, V>, request: set<Cell>, pieces: seq<Piece<Cell, V>>, i: nat, done: set<Cell>)
    requires Pieces(m, request, pieces) && i < |pieces| && DoneTo(pieces, i, done)
    ensures pieces[i].box != {} && pieces[i].box <= request && pieces[i].box !! done
    ensures forall p :: p in pieces[i].box ==> p in m && m[p] == pieces[i].value
    ensures DoneTo(pieces, i + 1, done + pieces[i].box)
  {
    assert PieceOk(m, request, pieces[i]);
    forall j | i + 1 <= j < |pieces|
      ensures pieces[j].box !! pieces[i].box
    {
    }
    hide Pieces;
    DoneNext(pieces, i, done);
  }

  lemma DoneNext<V>(pieces: seq<Piece<Cell, V>>, i: nat, done: set<Cell>)
    requires i < |pieces| && DoneTo(pieces, i, done)
    requires forall j :: i + 1 <= j < |pieces| ==> pieces[j].box !! pieces[i].box
    ensures DoneTo(pieces, i + 1, done + pieces[i].box)
  {
    var more := done + pieces[i].box;
    forall j | i + 1 <= j < |pieces|
      ensures pieces[j].box !! more
    {
      BothApart(pieces[j].box, done, pieces[i].box);
    }
  }

  lemma BothApart(a: set<Cell>, b: set<Cell>, c: set<Cell>)
    requires a !! b && a !! c
    ensures a !! b + c
  {
  }

  lemma PiecesCover<V>(m: map<Cell, V>, request: set<Cell>, pieces: seq<Piece<Cell, V>>, done: set<Cell>)
    requires Pieces(m, request, pieces) && DoneTo(pieces, |pieces|, done)
    ensures request <= done
  {
    forall p | p in request
      ensures p in done
    {
      assert InSome(pieces, p);
    }
  }

  lemma NothingDone<V>(pieces: seq<Piece<Cell, V>>)
    ensures DoneTo(pieces, 0, {})
  {
  }

  lemma ReadSetIs(recorded: map<Cid, set<Cell>>, c: Cid)
    ensures ReadSet(recorded, c) == if c in recorded then recorded[c] else {}
  {
  }

  lemma NothingRead(s0: State, s: State, c: Cid)
    requires Domains(s0) && c in s.g.commands
    ensures CellsRead(s0, s, c, {})
  {
  }

  // ------------------------------------------------------ all requirements of a command

  ghost predicate ModeDone(reqs: Requirements, b: nat, m: Mode, consumed: set<Cell>, produced: set<Cell>) {
    b in reqs && m in reqs[b] ==>
      && (IsConsumer(m) ==> reqs[b][m] <= consumed)
      && (IsProducer(m) ==> reqs[b][m] <= produced)
  }

  /** Requests lie inside the buffers, and a command does not discard what it also reads. */
  ghost predicate RequirementsOk(reqs: Requirements, cells: set<Cell>) {
    && (forall b, m, p :: b in reqs && m in reqs[b] && p in reqs[b][m] ==> p.bid == b && p in cells)
    && (forall m, m', p :: Needs(reqs, m, p) && Needs(reqs, m', p) && IsConsumer(m') ==> IsConsumer(m))
  }

  lemma ModeParts(c: Command, b: nat, m: Mode, cells: set<Cell>)
    requires c.TaskCommand? && RequirementsOk(c.reqs, cells) && b in c.reqs && m in c.reqs[b]
    ensures c.reqs[b][m] <= cells
    ensures IsConsumer(m) ==> forall p :: p in c.reqs[b][m] ==> Reads(c, p)
    ensures IsProducer(m) ==> forall p :: p in c.reqs[b][m] ==> Computes(c, p)
    ensures !IsConsumer(m) ==> forall p :: p in c.reqs[b][m] ==> !Reads(c, p)
  {
    forall p | p in c.reqs[b][m]
      ensures p in cells && Needs(c.reqs, m, p) && (!IsConsumer(m) ==> !Reads(c, p))
    {
      assert p.bid == b;
    }
  }

  lemma AllModesDone(s0: State, s: State, c: Cid, cells: set<Cell>, consumed: set<Cell>, produced: set<Cell>,
                     updates: seq<Update>, writes: seq<Written>)
    requires Domains(s0) && c in s.g.commands && s.g.commands[c].TaskCommand?
    requires RequirementsOk(s.g.commands[c].reqs, cells)
    requires forall b, m :: b in s.g.commands[c].reqs ==> ModeDone(s.g.commands[c].reqs, b, m, consumed, produced)
    requires CellsRead(s0, s, c, consumed) && CellsWritten(s0, s, updates, writes, c, produced)
    ensures CommandDone(s0, s, updates, writes, c)
  {
    var reqs := s.g.commands[c].reqs;
    forall p | Reads(s.g.commands[c], p)
      ensures p in consumed
    {
      var m :| IsConsumer(m) && Needs(reqs, m, p);
      assert ModeDone(reqs, p.bid, m, consumed, produced);
    }
    forall p | Computes(s.g.commands[c], p)
      ensures p in produced
    {
      var m :| IsProducer(m) && Needs(reqs, m, p);
      assert ModeDone(reqs, p.bid, m, consumed, produced);
    }
  }

  lemma ModeDoneLater(reqs: Requirements, consumed: set<Cell>, produced: set<Cell>, more: set<Cell>, more': set<Cell>)
    requires consumed <= more && produced <= more'
    ensures forall b, m :: ModeDone(reqs, b, m, consumed, produced) ==> ModeDone(reqs, b, m, more, more')
  {
  }

  lemma CellsReadJoin(s0: State, s: State, c: Cid, ps: set<Cell>, qs: set<Cell>)
    requires Domains(s0) && c in s.g.commands && CellsRead(s0, s, c, ps) && CellsRead(s0, s, c, qs)
    ensures CellsRead(s0, s, c, ps + qs)
  {
  }

  lemma CellsWrittenJoin(s0: State, s: State, u: seq<Update>, w: seq<Written>, c: Cid, ps: set<Cell>, qs: set<Cell>)
    requires Domains(s0) && c in s.g.commands && CellsWritten(s0, s, u, w, c, ps) && CellsWritten(s0, s, u, w, c, qs)
    ensures CellsWritten(s0, s, u, w, c, ps + qs)
  {
  }

  lemma NothingWritten(s0: State, s: State, u: seq<Update>, w: seq<Written>, c: Cid)
    requires Domains(s0) && c in s.g.commands
    ensures CellsWritten(s0, s, u, w, c, {})
  {
  }

  /** All modes of all buffers outside `left` are done, and of buffer `b` those at positions below `k`. */
  ghost predicate ModesDone(reqs: Requirements, left: set<nat>, b: nat, k: nat, consumed: set<Cell>,
                            produced: set<Cell>) {
    && (forall d, m :: d in reqs && d !in left && d != b ==> ModeDone(reqs, d, m, consumed, produced))
    && (forall i :: 0 <= i < k && i < |ALL_MODES| ==> ModeDone(reqs, b, ALL_MODES[i], consumed, produced))
  }

  /** What has been read and written stays so, and the cells of one more requirement join it. */
  lemma RequirementDone(s0: State, s: State, s': State, c: Cid, mode: Mode, req: set<Cell>, u: seq<Update>,
                        u': seq<Update>, w: seq<Written>, w': seq<Written>, consumed: set<Cell>, produced: set<Cell>)
    requires Domains(s0) && c in s.g.commands && c in s'.g.commands && Later(s, s') && u <= u' && w <= w'
    requires CellsRead(s0, s, c, consumed) && CellsWritten(s0, s, u, w, c, produced)
    requires IsConsumer(mode) ==> CellsRead(s0, s', c, req)
    requires IsProducer(mode) ==> CellsWritten(s0, s', u', w', c, req)
    ensures CellsRead(s0, s', c, if IsConsumer(mode) then consumed + req else consumed)
    ensures CellsWritten(s0, s', u', w', c, if IsProducer(mode) then produced + req else produced)
  {
    hide Later, CellsRead, CellsWritten, Domains;
    CellsReadLater(s0, s, s', c, consumed);
    CellsWrittenLater(s0, s, s', u, u', w, w', c, produced);
    if IsConsumer(mode) { CellsReadJoin(s0, s', c, consumed, req); }
    if IsProducer(mode) { CellsWrittenJoin(s0, s', u', w', c, produced, req); }
  }

  lemma OneMoreMode(reqs: Requirements, left: set<nat>, b: nat, k: nat, consumed: set<Cell>, produced: set<Cell>,
                    req: set<Cell>)
    requires ModesDone(reqs, left, b, k, consumed, produced) && k < |ALL_MODES|
    requires b in reqs && ALL_MODES[k] in reqs[b] ==> req == reqs[b][ALL_MODES[k]]
    ensures ModesDone(reqs, left, b, k + 1,
                      if IsConsumer(ALL_MODES[k]) then consumed + req else consumed,
                      if IsProducer(ALL_MODES[k]) then produced + req else produced)
  {
    var consumed' := if IsConsumer(ALL_MODES[k]) then consumed + req else consumed;
    var produced' := if IsProducer(ALL_MODES[k]) then produced + req else produced;
    ModeDoneLater(reqs, consumed, produced, consumed', produced');
    forall i | 0 <= i < k + 1
      ensures ModeDone(reqs, b, ALL_MODES[i], consumed', produced')
    {
      if i < k { assert ModeDone(reqs, b, ALL_MODES[i], consumed, produced); }
    }
  }

  lemma BufferDone(reqs: Requirements, left: set<nat>, b: nat, b': nat, consumed: set<Cell>, produced: set<Cell>)
    requires ModesDone(reqs, left, b, |ALL_MODES|, consumed, produced)
    ensures ModesDone(reqs, left - {b'}, b', 0, consumed, produced)
    ensures left == {} ==> forall d, m :: d in reqs ==> ModeDone(reqs, d, m, consumed, produced)
  {
    forall m
      ensures ModeDone(reqs, b, m, consumed, produced)
    {
      var i := ModeIndex(m);
    }
  }

  lemma ModeIndex(m: Mode) returns (i: nat)
    ensures i < |ALL_MODES| && ALL_MODES[i] == m
  {
    i := match m {
      case Atomic => 0
      case DiscardReadWrite => 1
      case DiscardWrite => 2
      case Read => 3
      case ReadWrite => 4
      case Write => 5
    };
  }

  lemma SkipMode(reqs: Requirements, left: set<nat>, b: nat, k: nat, consumed: set<Cell>, produced: set<Cell>)
    requires ModesDone(reqs, left, b, k, consumed, produced) && k < |ALL_MODES| && b in reqs && ALL_MODES[k] !in reqs[b]
    ensures ModesDone(reqs, left, b, k + 1, consumed, produced)
  {
  }

  /** A number that is no buffer of the request. */
  ghost function NoBuffer(reqs: Requirements): (b: nat)
    ensures b !in reqs
  {
    Above(reqs.Keys)
  }

  ghost function Above(ns: set<nat>): (b: nat)
    ensures forall n :: n in ns ==> n < b
  {
    if ns == {} then 0 else
      var n :| n in ns;
      var b := Above(ns - {n});
      assert forall m :: m in ns ==> m == n || m in ns - {n};
      if n < b then b else n + 1
  }

  lemma StartModes(reqs: Requirements, last: nat)
    requires last !in reqs
    ensures ModesDone(reqs, reqs.Keys, last, |ALL_MODES|, {}, {})
  {
  }

  // ------------------------------------------------- PUSHes before overwriting commands

  /** Dependencies of the task's own commands on its PUSHes have been added. */
  ghost predicate PushOrdered(g: Graph, g': Graph, t: nat) {
    && g'.commands == g.commands && g'.nextCid == g.nextCid && g'.trueEdges == g.trueEdges && g.edges <= g'.edges
    && (forall a, b :: (a, b) in g'.edges && (a, b) !in g.edges ==>
                         && a in g.commands && g.commands[a].TaskCommand? && g.commands[a].tid == t
                         && b in g.commands && g.commands[b].Push? && g.commands[b].tid == t
                         && Concerns(g.commands[b], g.commands[a]))
  }

  /** The PUSH comes before the commands of its task that are the last writers of its cells. */
  ghost predicate BeforeWriters(g: Graph, lastWriter: map<nat, map<Cell, Cid>>, t: nat, b: Cid, box: set<Cell>) {
    forall p :: b in g.commands && g.commands[b].nid in lastWriter && p in box && p in lastWriter[g.commands[b].nid] ==>
                  var w := lastWriter[g.commands[b].nid][p];
                  w in g.commands && g.commands[w].TaskCommand? && g.commands[w].tid == t ==> (w, b) in g.edges
  }

  lemma OrderPushStep(g: Graph, g': Graph, t: nat, w: Cid, b: Cid)
    requires GraphOk(g') && PushOrdered(g, g', t) && w in g.commands && b in g.commands
    requires g.commands[w].nid == g.commands[b].nid
    requires g.commands[w].TaskCommand? && g.commands[w].tid == t && g.commands[b].Push? && g.commands[b].tid == t
    requires Concerns(g.commands[b], g.commands[w])
    ensures (b, w) !in g'.edges && (b, w) !in g'.trueEdges && EdgeOk(g'.commands[w], g'.commands[b])
    ensures w in g'.pathLength && b in g'.pathLength
    ensures GraphOk(WithDependency(g', w, b, true)) && PushOrdered(g, WithDependency(g', w, b, true), t)
  {
    DependencyKeepsOk(g', w, b, true);
  }

  lemma BeforeWritersLater(g: Graph, g': Graph, lastWriter: map<nat, map<Cell, Cid>>, t: nat)
    requires g'.commands == g.commands && g.edges <= g'.edges
    ensures forall b, box :: BeforeWriters(g, lastWriter, t, b, box) ==> BeforeWriters(g', lastWriter, t, b, box)
  {
  }

  lemma AllPushesBefore(s0: State, t: nat, s1: State, pushes: seq<Cid>)
    requires Domains(s0) && Domains(s1) && s1.numNodes == s0.numNodes && s1.sources.Keys == s0.sources.Keys
    requires LastWritersUpdated(s0, s1) && OneWriterPerTask(s1.g.commands) && Extends(s0, s1, t) && CommandsKnown(s1)
    requires PushList(s0, s1, pushes)
    requires forall i :: 0 <= i < |pushes| && pushes[i] in s1.g.commands && s1.g.commands[pushes[i]].Push? ==>
                           BeforeWriters(s1.g, s1.lastWriter, t, pushes[i], s1.g.commands[pushes[i]].box)
    ensures PushesBeforeOverwrite(s0, s1)
  {
    hide Computes, OneWriterPerTask, LastWritersUpdated, Domains, CommandsKnown, Extends;
    forall x, b, p | && IsNew(s0, s1, x) && IsNew(s0, s1, b) && s1.g.commands[x].nid == s1.g.commands[b].nid
                     && Computes(s1.g.commands[x], p) && s1.g.commands[b].Push? && p in s1.g.commands[b].box
      ensures (x, b) in s1.g.edges
    {
      assert b in pushes;
      var i :| 0 <= i < |pushes| && pushes[i] == b;
      assert BeforeWriters(s1.g, s1.lastWriter, t, b, s1.g.commands[b].box);
      OverwriterIsEntry(s0, t, s1, x, p);
    }
  }

  lemma OverwriterIsEntry(s0: State, t: nat, s1: State, x: Cid, p: Cell)
    requires Domains(s0) && Domains(s1) && s1.numNodes == s0.numNodes && s1.sources.Keys == s0.sources.Keys
    requires LastWritersUpdated(s0, s1) && OneWriterPerTask(s1.g.commands) && Extends(s0, s1, t) && CommandsKnown(s1)
    requires IsNew(s0, s1, x) && Computes(s1.g.commands[x], p)
    ensures s1.g.commands[x].nid in s1.lastWriter && p in s1.lastWriter[s1.g.commands[x].nid]
    ensures s1.lastWriter[s1.g.commands[x].nid][p] == x
    ensures s1.g.commands[x].TaskCommand? && s1.g.commands[x].tid == t
  {
    var n := s1.g.commands[x].nid;
    assert p in s0.sources && n < s0.numNodes;
    assert WriterUpdated(s0, s1, n, p);
  }

  lemma OrderedParts(g: Graph, g': Graph, t: nat)
    requires PushOrdered(g, g', t)
    ensures g'.commands == g.commands && g'.nextCid == g.nextCid && g'.trueEdges == g.trueEdges && g.edges <= g'.edges
  {
  }

  lemma NoneBefore(g: Graph, lastWriter: map<nat, map<Cell, Cid>>, t: nat, b: Cid)
    ensures BeforeWriters(g, lastWriter, t, b, {})
  {
  }

  lemma PieceBefore(g: Graph, g': Graph, lastWriter: map<nat, map<Cell, Cid>>, t: nat, b: Cid, done: set<Cell>,
                    box: set<Cell>, w: Cid)
    requires BeforeWriters(g, lastWriter, t, b, done) && g'.commands == g.commands && g.edges <= g'.edges
    requires b in g.commands && g.commands[b].nid in lastWriter
    requires forall p :: p in box ==> p in lastWriter[g.commands[b].nid] && lastWriter[g.commands[b].nid][p] == w
    requires w in g.commands && g.commands[w].TaskCommand? && g.commands[w].tid == t ==> (w, b) in g'.edges
    ensures BeforeWriters(g', lastWriter, t, b, done + box)
  {
  }

  // ---------------------------------------------------------- deferred updates

  /** The map with one value on a whole region. */
  function Overwritten<V>(m: map<Cell, V>, region: set<Cell>, v: V): map<Cell, V> {
    map p | p in m :: if p in region then v else m[p]
  }

  lemma OneMoreWrite(src: map<Cell, seq<nat>>, si: map<Cell, seq<nat>>, si': map<Cell, seq<nat>>, writes: seq<Written>,
                     i: nat)
    requires i < |writes| && WritesApplied(src, si, writes, i)
    requires si' == Overwritten(si, writes[i].region, [writes[i].nid])
    ensures WritesApplied(src, si', writes, i + 1)
  {
    forall p | p in src
      ensures || (si'[p] == src[p] && forall k :: 0 <= k < i + 1 ==> p !in writes[k].region)
              || (exists k :: 0 <= k < i + 1 && p in writes[k].region && si'[p] == [writes[k].nid])
    {
      if p !in writes[i].region && exists k :: 0 <= k < i && p in writes[k].region && si[p] == [writes[k].nid] {
        var k :| 0 <= k < i && p in writes[k].region && si[p] == [writes[k].nid];
        assert si'[p] == [writes[k].nid];
      }
    }
  }

  lemma OneMoreUpdate(lw: map<nat, map<Cell, Cid>>, li: map<nat, map<Cell, Cid>>, li': map<nat, map<Cell, Cid>>,
                      updates: seq<Update>, i: nat)
    requires i < |updates| && UpdatesApplied(lw, li, updates, i) && updates[i].nid in li
    requires li' == li[updates[i].nid := Overwritten(li[updates[i].nid], updates[i].region, updates[i].cid)]
    ensures UpdatesApplied(lw, li', updates, i + 1)
  {
    hide UpdateApplied;
    assert forall n :: n in lw ==> li'[n].Keys == li[n].Keys;
    forall n, p | n in lw && p in lw[n]
      ensures UpdateApplied(lw, li', updates, i + 1, n, p)
    {
      CellUpdated(lw, li, li', updates, i, n, p);
    }
  }

  lemma CellUpdated(lw: map<nat, map<Cell, Cid>>, li: map<nat, map<Cell, Cid>>, li': map<nat, map<Cell, Cid>>,
                    updates: seq<Update>, i: nat, n: nat, p: Cell)
    requires i < |updates| && n in lw && n in li && n in li' && p in lw[n] && p in li[n] && p in li'[n]
    requires UpdateApplied(lw, li, updates, i, n, p)
    requires li'[n][p] == if Matches(updates[i], n, p) then updates[i].cid else li[n][p]
    ensures UpdateApplied(lw, li', updates, i + 1, n, p)
  {
    if Matches(updates[i], n, p) {
      assert LastMatch(updates, i + 1, n, p, i);
    } else if k :| LastMatch(updates, i, n, p, k) && li[n][p] == updates[k].cid {
      assert LastMatch(updates, i + 1, n, p, k);
    }
  }

  // ------------------------------------------------------------ end of the task

  lemma CompleteTask(s0: State, t: nat, s: State, s1: State, updates: seq<Update>, writes: seq<Written>,
                     pushes: seq<Cid>)
    requires Usable(s0) && PrevHorizonsOk(s0) && Domains(s0) && Working(s0, t, s, updates, writes, pushes)
    requires AllDone(s0, s, updates, writes)
    requires s1 == s.(g := s1.g, sources := s1.sources, lastWriter := s1.lastWriter) && GraphOk(s1.g)
    requires PushOrdered(s.g, s1.g, t)
    requires WritesApplied(s.sources, s1.sources, writes, |writes|)
    requires UpdatesApplied(s.lastWriter, s1.lastWriter, updates, |updates|)
    requires forall i :: 0 <= i < |pushes| && pushes[i] in s1.g.commands && s1.g.commands[pushes[i]].Push? ==>
                           BeforeWriters(s1.g, s1.lastWriter, t, pushes[i], s1.g.commands[pushes[i]].box)
    ensures TaskProcessed(s0, t, s1)
  {
    hide *;
    WorkingParts(s0, t, s, updates, writes, pushes);
    MidParts(s0, t, s);
    UsableParts(s0);
    BeforeParts(s0);
    OrderedParts(s.g, s1.g, t);
    NewEdgesOwn(s0, t, s, s1);
    AppliedKeys(s, s1, writes);
    FinishDomains(s, s1, updates, writes);
    FinishExtends(s0, t, s, s1);
    KnownUnchanged(s0, s, s1);
    DoneParts(s0, t, s, updates, writes);
    FinishWriters(s0, t, s, s1, updates, writes);
    ListsSamePushes(s0, s, s1, pushes);
    AllPushesBefore(s0, t, s1, pushes);
    FinishedFromParts(s0, t, s, s1, updates, writes);
    FinishTask(s0, t, s, s1, updates, writes);
  }

  lemma ListsSamePushes(s0: State, s: State, s1: State, pushes: seq<Cid>)
    requires PushList(s0, s, pushes) && s1.g.commands == s.g.commands
    ensures PushList(s0, s1, pushes)
  {
    assert forall d :: IsNew(s0, s1, d) <==> IsNew(s0, s, d);
  }

  lemma AppliedKeys(s: State, s1: State, writes: seq<Written>)
    requires WritesApplied(s.sources, s1.sources, writes, |writes|)
    ensures s1.sources.Keys == s.sources.Keys
  {
  }

  lemma NewEdgesOwn(s0: State, t: nat, s: State, s1: State)
    requires s0.lastTid < t && CommandsKnown(s0) && Extends(s0, s, t) && PushOrdered(s.g, s1.g, t)
    ensures OrdersPushes(s0, s, s1)
  {
  }

  lemma FinishedFromParts(s0: State, t: nat, s: State, s1: State, updates: seq<Update>, writes: seq<Written>)
    requires s1 == s.(g := s1.g, sources := s1.sources, lastWriter := s1.lastWriter)
    requires s1.g.commands == s.g.commands && s1.g.nextCid == s.g.nextCid && s.g.edges <= s1.g.edges
    requires s1.g.trueEdges == s.g.trueEdges
    requires GraphOk(s1.g) && PushesBeforeOverwrite(s0, s1)
    requires OrdersPushes(s0, s, s1)
    requires WritesApplied(s.sources, s1.sources, writes, |writes|)
    requires UpdatesApplied(s.lastWriter, s1.lastWriter, updates, |updates|)
    ensures Finished(s0, t, s, s1, updates, writes)
  {
  }

  /** After the updates, every last-writer entry is a command of its node. */
  /** The entry is a command of the node, and it computes the cell if it is a task command of task `t`. */
  ghost predicate EntryKnown(C: map<Cid, Command>, t: nat, e: Cid, n: nat, p: Cell) {
    e in C && C[e].nid == n && (C[e].TaskCommand? && C[e].tid == t ==> Computes(C[e], p))
  }

  lemma EntriesKnown(s0: State, t: nat, s: State, lw: map<nat, map<Cell, Cid>>, updates: seq<Update>,
                     writes: seq<Written>, pushes: seq<Cid>)
    requires Usable(s0) && Working(s0, t, s, updates, writes, pushes)
    requires UpdatesApplied(s.lastWriter, lw, updates, |updates|)
    ensures forall n, p :: n in lw && p in lw[n] ==> EntryKnown(s.g.commands, t, lw[n][p], n, p)
  {
    hide *;
    WorkingParts(s0, t, s, updates, writes, pushes);
    MidParts(s0, t, s);
    UsableParts(s0);
    BeforeParts(s0);
    EntriesKnownFrom(s0, t, s, lw, updates, writes);
  }

  lemma EntriesKnownFrom(s0: State, t: nat, s: State, lw: map<nat, map<Cell, Cid>>, updates: seq<Update>,
                         writes: seq<Written>)
    requires Domains(s0) && EntriesCover(s0) && Extends(s0, s, t) && s.lastWriter == s0.lastWriter
    requires CommandsKnown(s0) && s0.lastTid < t
    requires ListsOk(s0, s, updates, writes) && UpdatesApplied(s.lastWriter, lw, updates, |updates|)
    ensures forall n, p :: n in lw && p in lw[n] ==> EntryKnown(s.g.commands, t, lw[n][p], n, p)
  {
    hide EntriesCover, EntryKnown, CommandsKnown, UpdateOk, WriteAfterRead, WriteOk, Listed;
    forall n, p | n in lw && p in lw[n]
      ensures EntryKnown(s.g.commands, t, lw[n][p], n, p)
    {
      assert UpdateApplied(s.lastWriter, lw, updates, |updates|, n, p);
      if i :| LastMatch(updates, |updates|, n, p, i) && lw[n][p] == updates[i].cid {
        NewEntryKnown(s0, t, s, updates[i], n, p);
      } else {
        OldEntryKnown(s0, t, s, n, p);
      }
    }
  }

  lemma NewEntryKnown(s0: State, t: nat, s: State, u: Update, n: nat, p: Cell)
    requires UpdateOk(s0, s, u) && Matches(u, n, p)
    ensures EntryKnown(s.g.commands, t, u.cid, n, p)
  {
  }

  lemma OldEntryKnown(s0: State, t: nat, s: State, n: nat, p: Cell)
    requires Domains(s0) && EntriesCover(s0) && Extends(s0, s, t) && CommandsKnown(s0) && s0.lastTid < t
    requires n < s0.numNodes && p in s0.sources
    ensures EntryKnown(s.g.commands, t, s0.lastWriter[n][p], n, p)
  {
    assert EntryCovers(s0, n, p);
  }

  lemma UpdatesOnNodes(s0: State, t: nat, s: State, updates: seq<Update>, writes: seq<Written>, pushes: seq<Cid>)
    requires Working(s0, t, s, updates, writes, pushes)
    ensures forall i :: 0 <= i < |updates| ==> updates[i].nid in s.lastWriter
  {
    forall i | 0 <= i < |updates|
      ensures updates[i].nid in s.lastWriter
    {
      assert UpdateOk(s0, s, updates[i]);
    }
  }

  lemma PushParts(s0: State, t: nat, s: State, updates: seq<Update>, writes: seq<Written>, pushes: seq<Cid>, i: nat)
    requires Working(s0, t, s, updates, writes, pushes) && i < |pushes|
    ensures var b := pushes[i];
            && b in s.g.commands && s.g.commands[b].Push? && s.g.commands[b].tid == t
            && s.g.commands[b].nid in s.lastWriter
            && s.g.commands[b].box <= s.lastWriter[s.g.commands[b].nid].Keys
  {
    assert pushes[i] in pushes;
    var b := pushes[i];
    forall p | p in s.g.commands[b].box
      ensures p in s.sources
    {
      assert Reads(s.g.commands[b], p);
    }
  }

  lemma OwnList(s0: State, t: nat, s: State, updates: seq<Update>, writes: seq<Written>, pushes: seq<Cid>)
    requires Usable(s0) && Working(s0, t, s, updates, writes, pushes) && t in s.g.byTask
    ensures forall c :: c in s.g.byTask[t] <==> OwnCommand(s0, s, c)
  {
    forall c
      ensures c in s.g.byTask[t] <==> OwnCommand(s0, s, c)
    {
      assert OwnCommand(s0, s, c) <==> IsTaskCommand(s.g, t, c);
    }
  }

  lemma OwnLater(s0: State, s: State, s': State, c: Cid)
    requires Later(s, s')
    ensures OwnCommand(s0, s, c) <==> OwnCommand(s0, s', c)
    ensures OwnCommand(s0, s, c) ==> c in s.g.commands && c in s'.g.commands && s'.g.commands[c] == s.g.commands[c]
  {
  }

  lemma DoneSoFar(s0: State, s: State, s': State, u: seq<Update>, u': seq<Update>, w: seq<Written>, w': seq<Written>,
                  cs: seq<Cid>, i: nat)
    requires Domains(s0) && Later(s, s') && u <= u' && w <= w' && i < |cs|
    requires forall j :: 0 <= j < i ==> cs[j] in s.g.commands && CommandDone(s0, s, u, w, cs[j])
    requires cs[i] in s'.g.commands && CommandDone(s0, s', u', w', cs[i])
    ensures forall j :: 0 <= j < i + 1 ==> cs[j] in s'.g.commands && CommandDone(s0, s', u', w', cs[j])
  {
    forall j | 0 <= j < i
      ensures cs[j] in s'.g.commands && CommandDone(s0, s', u', w', cs[j])
    {
      assert cs[j] in s'.g.commands;
      DoneLater(s0, s, s', u, u', w, w', cs[j]);
    }
  }

  lemma AllListed(s0: State, s: State, s': State, updates: seq<Update>, writes: seq<Written>, cs: seq<Cid>)
    requires Domains(s0) && Later(s, s') && (forall c :: c in cs <==> OwnCommand(s0, s, c))
    requires forall j :: 0 <= j < |cs| ==> cs[j] in s'.g.commands && CommandDone(s0, s', updates, writes, cs[j])
    ensures AllDone(s0, s', updates, writes)
  {
    forall c | OwnCommand(s0, s', c)
      ensures CommandDone(s0, s', updates, writes, c)
    {
      OwnLater(s0, s, s', c);
      assert c in cs;
    }
  }

  lemma UpdatedKeys(lw: map<nat, map<Cell, Cid>>, lw': map<nat, map<Cell, Cid>>, updates: seq<Update>)
    requires UpdatesApplied(lw, lw', updates, |updates|)
    ensures lw'.Keys == lw.Keys && forall n :: n in lw ==> lw'[n].Keys == lw[n].Keys
  {
  }

  lemma WorkingGraph(s0: State, t: nat, s: State, updates: seq<Update>, writes: seq<Written>, pushes: seq<Cid>)
    requires Working(s0, t, s, updates, writes, pushes)
    ensures GraphOk(s.g) && PushOrdered(s.g, s.g, t)
  {
  }
}

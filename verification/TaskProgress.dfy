/** The state while the commands of a task are being processed. */
module TaskProgress {
  import opened Grid
  import opened Reachability
  import opened Commands
  import opened GeneratorState
  import opened TaskStep

  // ------------------------------------------------- edges added by the helpers

  /** Dependencies of one command have been added, and nothing else happened to the graph. */
  ghost predicate AddedEdges(g: Graph, g': Graph, x: Cid, ys: set<Cid>, anti: bool) {
    && g'.commands == g.commands && g'.nextCid == g.nextCid && g'.byTask == g.byTask
    && g'.edges == g.edges + (set y | y in ys :: (x, y))
    && g'.trueEdges == (if anti then g.trueEdges else g.trueEdges + (set y | y in ys :: (x, y)))
  }

  /** The commands that last wrote some cell of the box. */
  ghost function Entries(lastWriter: map<Cell, Cid>, box: set<Cell>): set<Cid>
    requires box <= lastWriter.Keys
  {
    set p | p in box :: lastWriter[p]
  }

  /**
    * `d` is not a command of task `t` itself and reads, from what `e` wrote, something that is going to be overwritten.
    */
  ghost predicate ReadsFrom(g: Graph, recorded: map<Cid, set<Cell>>, t: nat, req: set<Cell>, e: Cid, d: Cid) {
    && (d, e) in g.trueEdges && d in g.commands
    && !(g.commands[d].TaskCommand? && g.commands[d].tid == t)
    && ReadSet(recorded, d) * req != {}
  }

  ghost predicate HasReader(g: Graph, recorded: map<Cid, set<Cell>>, t: nat, req: set<Cell>, e: Cid) {
    exists d: Cid :: ReadsFrom(g, recorded, t, req, e, d)
  }

  /**
    * Anti-dependencies go to the readers of a last writer, or, if it has none and is not the init command, to the
    * writer.
    */
  ghost predicate IsAntiTarget(g: Graph, recorded: map<Cid, set<Cell>>, t: nat, req: set<Cell>, init: Cid, e: Cid,
                               y: Cid) {
    || ReadsFrom(g, recorded, t, req, e, y)
    || (y == e && e != init && !HasReader(g, recorded, t, req, e))
  }

  ghost function AntiTargets(g: Graph, recorded: map<Cid, set<Cell>>, t: nat, req: set<Cell>, init: Cid,
                             lastWriter: map<Cell, Cid>): set<Cid>
    requires req <= lastWriter.Keys
  {
    set y | y in g.commands && exists p :: p in req && IsAntiTarget(g, recorded, t, req, init, lastWriter[p], y)
  }

  // ------------------------------------------------------- state inside a task

  ghost predicate AwaitsOrdered(s0: State, s: State)
    requires Domains(s0)
  {
    forall a, p :: IsNew(s0, s, a) && s.g.commands[a].AwaitPush? && p in s.g.commands[a].box ==>
                     OrderedAfter(s0, s, a, p)
  }

  ghost predicate SourcesGrow(s0: State, s: State) {
    s.sources.Keys == s0.sources.Keys && forall p :: p in s0.sources ==> NodesAdded(s0, s, p)
  }

  /** Reads are recorded for all commands, but perhaps not yet in full for the task's own. */
  ghost predicate ReadsPartial(s0: State, s: State) {
    && (forall c :: c in s.bufferReads ==> c in s.g.commands)
    && (forall c, p :: c in s.g.commands && p in ReadSet(s.bufferReads, c) ==> Reads(s.g.commands[c], p))
    && (forall c, p :: c in s.g.commands && Reads(s.g.commands[c], p)
                         && !(IsNew(s0, s, c) && s.g.commands[c].TaskCommand?) ==>
                         p in ReadSet(s.bufferReads, c))
  }

  /** What holds at every point while task `t` is processed, relative to the state before it. */
  ghost predicate Mid(s0: State, t: nat, s: State) {
    && s0.lastTid < t == s.lastTid
    && Domains(s0) && Domains(s) && s.lastWriter == s0.lastWriter
    && Extends(s0, s, t)
    && GraphOk(s.g)
    && CommandsKnown(s)
    && OneWriterPerTask(s.g.commands)
    && PushesAwaited(s.g.commands)
    && AwaitHasReader(s.g)
    && PushesFed(s0, s)
    && AwaitsNeeded(s0, s)
    && AwaitsOrdered(s0, s)
    && SourcesGrow(s0, s)
    && ReadsPartial(s0, s)
    && EdgesJustified(s0, s)
  }

  /** What task processing uses of the state before the task. */
  ghost predicate Before(s0: State) {
    Domains(s0) && CommandsKnown(s0) && CommandsOk(s0.g) && EdgesOk(s0.g) && EntriesCover(s0) && SourceListsOk(s0)
  }

  ghost predicate OwnCommand(s0: State, s: State, c: Cid) {
    IsNew(s0, s, c) && s.g.commands[c].TaskCommand?
  }

  /** More edges of new commands keep the facts about the task so far. */
  lemma FactsGrow(s0: State, s: State, s': State)
    requires Domains(s0) && PushesFed(s0, s) && AwaitsOrdered(s0, s) && AwaitHasReader(s.g)
    requires s'.g.commands == s.g.commands && s.g.edges <= s'.g.edges && s.g.trueEdges <= s'.g.trueEdges
    ensures AwaitHasReader(s'.g) && PushesFed(s0, s') && AwaitsOrdered(s0, s')
  {
    forall a | a in s.g.commands && s.g.commands[a].AwaitPush?
      ensures exists c :: FeedsTask(s'.g, a, c)
    {
      var c :| FeedsTask(s.g, a, c);
      assert FeedsTask(s'.g, a, c);
    }
    PushesFedGrow(s0, s, s');
    forall a, p | IsNew(s0, s', a) && s'.g.commands[a].AwaitPush? && p in s'.g.commands[a].box
      ensures OrderedAfter(s0, s', a, p)
    {
      assert IsNew(s0, s, a);
      OrderedGrows(s0, s, s', a, p);
    }
  }

  lemma PushesFedGrow(s0: State, s: State, s': State)
    requires Domains(s0) && PushesFed(s0, s) && s'.g.commands == s.g.commands && s.g.trueEdges <= s'.g.trueEdges
    ensures PushesFed(s0, s')
  {
    forall b, p | IsNew(s0, s', b) && s'.g.commands[b].Push? && p in s'.g.commands[b].box
      ensures && p in s0.sources && |s0.sources[p]| > 0
              && s'.g.commands[b].target < s0.numNodes && s'.g.commands[b].target !in s0.sources[p]
              && s'.g.commands[b].nid == s0.sources[p][0] && s'.g.commands[b].nid < s0.numNodes
              && (b, s0.lastWriter[s'.g.commands[b].nid][p]) in s'.g.trueEdges
    {
      assert IsNew(s0, s, b);
    }
  }

  lemma FedGrows(s0: State, s: State, s': State, c: Cid, p: Cell)
    requires Domains(s0) && c in s.g.commands && FedFrom(s0, s, c, p)
    requires forall d :: d in s.g.commands ==> d in s'.g.commands && s'.g.commands[d] == s.g.commands[d]
    requires s.g.trueEdges <= s'.g.trueEdges
    ensures FedFrom(s0, s', c, p)
  {
    var n := s.g.commands[c].nid;
    if !(n in s0.sources[p] && (c, s0.lastWriter[n][p]) in s.g.trueEdges) {
      var a: Cid :| Brings(s0, s, n, p, a) && (c, a) in s.g.trueEdges;
      assert Brings(s0, s', n, p, a);
    }
  }

  lemma OrderedGrows(s0: State, s: State, s': State, x: Cid, p: Cell)
    requires Domains(s0) && x in s.g.commands && OrderedAfter(s0, s, x, p)
    requires x in s'.g.commands && s'.g.commands[x] == s.g.commands[x] && s.g.edges <= s'.g.edges
    requires s.g.trueEdges <= s'.g.trueEdges
    ensures OrderedAfter(s0, s', x, p)
  {
    var e := s0.lastWriter[s.g.commands[x].nid][p];
    if !s0.g.commands[e].Nop? && (x, e) !in s.g.edges {
      var d: Cid :| (x, d) in s.g.edges && (d, e) in s.g.trueEdges;
      assert (x, d) in s'.g.edges && (d, e) in s'.g.trueEdges;
    }
  }

  lemma AddedEdgesKeepMid(s0: State, t: nat, s: State, s': State, x: Cid, ys: set<Cid>, anti: bool)
    requires Mid(s0, t, s) && s' == s.(g := s'.g) && GraphOk(s'.g)
    requires IsNew(s0, s, x) && AddedEdges(s.g, s'.g, x, ys, anti)
    requires forall y :: y in ys ==> Justified(s0, s', x, y) && (anti || DataFlows(s0, s', x, y))
    ensures Mid(s0, t, s')
  {
    hide *;
    MidParts(s0, t, s);
    AddedGrows(s, s', x, ys, anti);
    FactsGrow(s0, s, s');
    GrowthUnchanged(s0, s, s');
    PartialUnchanged(s0, s, s');
    ExtendsMore(s0, t, s, s', x, ys, anti);
    KnownUnchanged(s0, s, s');
    DomainsUnchanged(s, s');
    JustifiedMore(s0, s, s', x, ys, anti);
    MidFromParts(s0, t, s');
  }

  lemma JustifiedMore(s0: State, s: State, s': State, x: Cid, ys: set<Cid>, anti: bool)
    requires EdgesJustified(s0, s) && AddedEdges(s.g, s'.g, x, ys, anti)
    requires forall y :: y in ys ==> Justified(s0, s', x, y) && (anti || DataFlows(s0, s', x, y))
    ensures EdgesJustified(s0, s')
  {
    hide Justified, DataFlows;
    forall a, b | (a, b) in s'.g.edges && (a, b) !in s0.g.edges
      ensures Justified(s0, s', a, b)
    {
      if (a, b) in s.g.edges { JustifiedGrows(s0, s, s', a, b); }
    }
    forall a, b | (a, b) in s'.g.trueEdges && (a, b) !in s0.g.trueEdges
      ensures DataFlows(s0, s', a, b)
    {
      if (a, b) in s.g.trueEdges { FlowsGrow(s0, s, s', a, b); }
    }
  }

  lemma FlowsGrow(s0: State, s: State, s': State, a: Cid, b: Cid)
    requires DataFlows(s0, s, a, b)
    requires forall d :: d in s.g.commands ==> d in s'.g.commands && s'.g.commands[d] == s.g.commands[d]
    ensures DataFlows(s0, s', a, b)
  {
    var p :| && Reads(s.g.commands[a], p)
             && (IsEntry(s0, s.g.commands[a].nid, p, b) || Brings(s0, s, s.g.commands[a].nid, p, b));
    assert Brings(s0, s, s.g.commands[a].nid, p, b) ==> Brings(s0, s', s.g.commands[a].nid, p, b);
    assert Reads(s'.g.commands[a], p);
  }

  lemma JustifiedGrows(s0: State, s: State, s': State, a: Cid, b: Cid)
    requires Justified(s0, s, a, b)
    requires forall d :: d in s.g.commands ==> d in s'.g.commands && s'.g.commands[d] == s.g.commands[d]
    requires s.g.trueEdges <= s'.g.trueEdges
    ensures Justified(s0, s', a, b)
  {
    if e, p, q :| ReadsOverwritten(s0, s, a, b, e, p, q) {
      assert ReadsOverwritten(s0, s', a, b, e, p, q);
    } else if IsNew(s0, s, b) && Concerns(s.g.commands[b], s.g.commands[a]) {
      assert IsNew(s0, s', b) && Concerns(s'.g.commands[b], s'.g.commands[a]);
    } else {
      var p :| Touches(s0, s.g.commands[a], p, b) && IsEntry(s0, s.g.commands[a].nid, p, b);
      assert Touches(s0, s'.g.commands[a], p, b);
    }
  }

  /** What reads the cells depends on their last writers, from which the data flows. */
  lemma EntriesJustified(s0: State, s: State, x: Cid, n: nat, box: set<Cell>)
    requires Domains(s0) && IsNew(s0, s, x) && s.g.commands[x].nid == n < s0.numNodes && box <= s0.sources.Keys
    requires forall p :: p in box ==> Reads(s.g.commands[x], p)
    ensures forall y :: y in Entries(s0.lastWriter[n], box) ==> Justified(s0, s, x, y) && DataFlows(s0, s, x, y)
  {
    forall y | y in Entries(s0.lastWriter[n], box)
      ensures Justified(s0, s, x, y) && DataFlows(s0, s, x, y)
    {
      var p :| p in box && s0.lastWriter[n][p] == y;
      assert IsEntry(s0, n, p, y) && Touches(s0, s.g.commands[x], p, y);
    }
  }

  /** Anti-dependencies are justified. */
  lemma AntisJustified(s0: State, t: nat, s: State, x: Cid, n: nat, req: set<Cell>)
    requires Domains(s0) && IsNew(s0, s, x) && s.g.commands[x].nid == n < s0.numNodes && n in s.init
    requires req <= s0.sources.Keys
    requires ReadsPartial(s0, s) && s.lastWriter == s0.lastWriter && s.init == s0.init
    requires forall p :: p in req ==> Writes(s.g.commands[x], p)
    ensures forall y :: y in AntiTargets(s.g, s.bufferReads, t, req, s.init[n], s0.lastWriter[n]) ==>
                          Justified(s0, s, x, y)
  {
    forall y | y in AntiTargets(s.g, s.bufferReads, t, req, s.init[n], s0.lastWriter[n])
      ensures Justified(s0, s, x, y)
    {
      var p :| p in req && IsAntiTarget(s.g, s.bufferReads, t, req, s.init[n], s0.lastWriter[n][p], y);
      var e := s0.lastWriter[n][p];
      assert IsEntry(s0, n, p, e);
      if ReadsFrom(s.g, s.bufferReads, t, req, e, y) {
        var q :| q in ReadSet(s.bufferReads, y) * req;
        assert ReadsOverwritten(s0, s, x, y, e, p, q);
      } else {
        assert Touches(s0, s.g.commands[x], p, y);
      }
    }
  }

  lemma AddedGrows(s: State, s': State, x: Cid, ys: set<Cid>, anti: bool)
    requires AddedEdges(s.g, s'.g, x, ys, anti)
    ensures s'.g.commands == s.g.commands && s.g.edges <= s'.g.edges && s.g.trueEdges <= s'.g.trueEdges
  {
  }

  lemma DomainsUnchanged(s: State, s': State)
    requires Domains(s) && s' == s.(g := s'.g)
    ensures Domains(s')
  {
  }

  lemma KnownUnchanged(s0: State, s: State, s': State)
    requires CommandsKnown(s) && AwaitsNeeded(s0, s)
    requires s'.g.commands == s.g.commands && s'.sources.Keys == s.sources.Keys
    requires s'.init == s.init && s'.numNodes == s.numNodes && s'.lastTid == s.lastTid
    ensures CommandsKnown(s') && AwaitsNeeded(s0, s')
  {
    assert forall c :: IsNew(s0, s', c) <==> IsNew(s0, s, c);
  }

  lemma ExtendsMore(s0: State, t: nat, s: State, s': State, x: Cid, ys: set<Cid>, anti: bool)
    requires Extends(s0, s, t) && s' == s.(g := s'.g) && IsNew(s0, s, x) && AddedEdges(s.g, s'.g, x, ys, anti)
    ensures Extends(s0, s', t)
  {
    assert forall c :: IsNew(s0, s', c) <==> IsNew(s0, s, c);
  }

  lemma PartialUnchanged(s0: State, s: State, s': State)
    requires ReadsPartial(s0, s) && s'.bufferReads == s.bufferReads && s'.g.commands == s.g.commands
    ensures ReadsPartial(s0, s')
  {
    assert forall c :: IsNew(s0, s', c) <==> IsNew(s0, s, c);
  }

  lemma GrowthUnchanged(s0: State, s: State, s': State)
    requires SourcesGrow(s0, s) && s'.sources == s.sources && s'.g.commands == s.g.commands
    ensures SourcesGrow(s0, s')
  {
    forall p | p in s0.sources
      ensures NodesAdded(s0, s', p)
    {
      assert NodesAdded(s0, s, p);
      assert forall n, a :: Brings(s0, s', n, p, a) <==> Brings(s0, s, n, p, a);
    }
  }

  // -------------------------------------------------------------- local reads

  /** Dependencies on local last writers are of an allowed kind. */
  lemma EntryEdgesOk(s0: State, t: nat, s: State, x: Cid, box: set<Cell>)
    requires Before(s0) && s0.lastTid < t && Extends(s0, s, t) && s.lastWriter == s0.lastWriter
    requires IsNew(s0, s, x) && s.g.commands[x].nid < s0.numNodes && box <= s0.sources.Keys
    ensures forall y :: y in Entries(s.lastWriter[s.g.commands[x].nid], box) ==>
                          y in s.g.commands && EdgeOk(s.g.commands[x], s.g.commands[y])
  {
    var n := s.g.commands[x].nid;
    forall p | p in box
      ensures var y := s.lastWriter[n][p]; y in s.g.commands && EdgeOk(s.g.commands[x], s.g.commands[y])
    {
      assert EntryCovers(s0, n, p);
    }
  }

  /** Depending on the local last writers feeds a command with the cells that its node holds. */
  lemma LocalFeeds(s0: State, t: nat, s: State, s': State, c: Cid, box: set<Cell>)
    requires Mid(s0, t, s) && Mid(s0, t, s') && OwnCommand(s0, s, c) && box <= s0.sources.Keys
    requires AddedEdges(s.g, s'.g, c, Entries(s.lastWriter[s.g.commands[c].nid], box), false)
    requires forall p :: p in box ==> s.g.commands[c].nid in s.sources[p]
    ensures forall p :: p in box ==> FedFrom(s0, s', c, p)
  {
    var n := s.g.commands[c].nid;
    forall p | p in box
      ensures FedFrom(s0, s', c, p)
    {
      if n in s0.sources[p] {
        FedByEntry(s0, t, s, s', c, box, p);
      } else {
        FedByAwait(s0, t, s, s', c, box, p);
      }
    }
  }

  lemma FedByEntry(s0: State, t: nat, s: State, s': State, c: Cid, box: set<Cell>, p: Cell)
    requires Mid(s0, t, s) && OwnCommand(s0, s, c) && box <= s0.sources.Keys && p in box
    requires AddedEdges(s.g, s'.g, c, Entries(s.lastWriter[s.g.commands[c].nid], box), false)
    requires s.g.commands[c].nid in s0.sources[p]
    ensures c in s'.g.commands && FedFrom(s0, s', c, p)
  {
    hide GraphOk, AwaitHasReader, PushesFed, AwaitsNeeded, AwaitsOrdered, SourcesGrow, ReadsPartial, EdgesJustified;
    hide OneWriterPerTask, PushesAwaited;
    var n := s.g.commands[c].nid;
    assert s.lastWriter[n][p] in Entries(s.lastWriter[n], box);
    assert (c, s.lastWriter[n][p]) in s'.g.trueEdges;
  }

  lemma FedByAwait(s0: State, t: nat, s: State, s': State, c: Cid, box: set<Cell>, p: Cell)
    requires Mid(s0, t, s) && OwnCommand(s0, s, c) && box <= s0.sources.Keys && p in box
    requires AddedEdges(s.g, s'.g, c, Entries(s.lastWriter[s.g.commands[c].nid], box), false)
    requires s.g.commands[c].nid in s.sources[p] && s.g.commands[c].nid !in s0.sources[p]
    ensures c in s'.g.commands && FedFrom(s0, s', c, p)
  {
    var n := s.g.commands[c].nid;
    assert NodesAdded(s0, s, p);
    var a: Cid :| Brings(s0, s, n, p, a);
    FeedsOwn(s0, t, s, a, c);
    assert Brings(s0, s', n, p, a);
  }

  lemma FeedsOwn(s0: State, t: nat, s: State, a: Cid, c: Cid)
    requires Mid(s0, t, s) && IsNew(s0, s, a) && s.g.commands[a].AwaitPush? && OwnCommand(s0, s, c)
    requires s.g.commands[a].nid == s.g.commands[c].nid
    ensures (c, a) in s.g.trueEdges
  {
    AwaitFeedsCommand(s, a, c);
  }

  // ------------------------------------------------------------------- writes

  /** Anti-dependencies are of an allowed kind. */
  lemma AntiEdgesOk(s0: State, t: nat, s: State, x: Cid, req: set<Cell>)
    requires Before(s0) && s0.lastTid < t && Extends(s0, s, t) && s.lastWriter == s0.lastWriter && EdgesOk(s.g)
    requires ReadsPartial(s0, s) && PushesFed(s0, s)
    requires IsNew(s0, s, x) && s.g.commands[x].nid < s0.numNodes && s.g.commands[x].nid in s.init
    requires req <= s0.sources.Keys
    requires s.g.commands[x].TaskCommand?
               || (s.g.commands[x].AwaitPush? && forall p :: p in req ==> s.g.commands[x].nid !in s0.sources[p])
    ensures var n := s.g.commands[x].nid;
            forall y :: y in AntiTargets(s.g, s.bufferReads, t, req, s.init[n], s.lastWriter[n]) ==>
                          EdgeOk(s.g.commands[x], s.g.commands[y])
  {
    hide EdgesOk, ReadsPartial, PushesFed, IsAntiTarget, EdgeOk, EntriesCover, SourceListsOk, CommandsKnown, CommandsOk;
    var n := s.g.commands[x].nid;
    forall y | y in AntiTargets(s.g, s.bufferReads, t, req, s.init[n], s.lastWriter[n])
      ensures EdgeOk(s.g.commands[x], s.g.commands[y])
    {
      var p :| p in req && IsAntiTarget(s.g, s.bufferReads, t, req, s.init[n], s.lastWriter[n][p], y);
      AntiEdgeOk(s0, t, s, x, req, p, y);
    }
  }

  lemma AntiEdgeOk(s0: State, t: nat, s: State, x: Cid, req: set<Cell>, p: Cell, y: Cid)
    requires Before(s0) && s0.lastTid < t && Extends(s0, s, t) && s.lastWriter == s0.lastWriter && EdgesOk(s.g)
    requires ReadsPartial(s0, s) && PushesFed(s0, s) && req <= s0.sources.Keys && p in req && y in s.g.commands
    requires IsNew(s0, s, x) && s.g.commands[x].nid < s0.numNodes && s.g.commands[x].nid in s.init
    requires s.g.commands[x].TaskCommand?
               || (s.g.commands[x].AwaitPush? && forall p :: p in req ==> s.g.commands[x].nid !in s0.sources[p])
    requires var n := s.g.commands[x].nid;
             IsAntiTarget(s.g, s.bufferReads, t, req, s.init[n], s.lastWriter[n][p], y)
    ensures EdgeOk(s.g.commands[x], s.g.commands[y])
  {
    hide Reaches, HasReader, SourceListsOk, CommandsOk;
    var n := s.g.commands[x].nid;
    var e := s.lastWriter[n][p];
    assert EntryCovers(s0, n, p);
    if ReadsFrom(s.g, s.bufferReads, t, req, e, y) {
      assert EdgeOk(s.g.commands[y], s.g.commands[e]);
      var q :| q in ReadSet(s.bufferReads, y) * req;
      assert Reads(s.g.commands[y], q);
      if IsNew(s0, s, y) {
        assert s.g.commands[y].Push? && s.g.commands[y].nid == s0.sources[q][0];
      }
    }
  }

  /** An AWAIT_PUSH that is a last writer has a reader; so it never gets a dependency for want of one. */
  lemma AwaitEntryIsRead(s0: State, t: nat, s: State, n: nat, req: set<Cell>, p: Cell)
    requires Before(s0) && s0.lastTid < t && Extends(s0, s, t) && s.lastWriter == s0.lastWriter && ReadsPartial(s0, s)
    requires AwaitHasReader(s0.g)
    requires n < s0.numNodes && req <= s0.sources.Keys && p in req
    requires s.lastWriter[n][p] in s.g.commands && s.g.commands[s.lastWriter[n][p]].AwaitPush?
    ensures HasReader(s.g, s.bufferReads, t, req, s.lastWriter[n][p])
  {
    hide SourceListsOk, EdgesOk, Reaches, NoDuplicates;
    var e := s.lastWriter[n][p];
    assert EntryCovers(s0, n, p);
    var d :| FeedsTask(s0.g, e, d);
    assert p in ReadSet(s.bufferReads, d) * req;
    assert ReadsFrom(s.g, s.bufferReads, t, req, e, d);
  }

  /** The anti-dependencies order a command after the last writers and their readers. */
  lemma AntiOrders(s0: State, t: nat, s: State, x: Cid, req: set<Cell>, p: Cell)
    requires Before(s0) && s0.lastTid < t && Extends(s0, s, t) && s.lastWriter == s0.lastWriter && ReadsPartial(s0, s)
    requires IsNew(s0, s, x) && s.g.commands[x].nid < s0.numNodes && s.g.commands[x].nid in s.init
    requires req <= s0.sources.Keys && p in req
    requires var n := s.g.commands[x].nid;
             forall y :: y in AntiTargets(s.g, s.bufferReads, t, req, s.init[n], s.lastWriter[n]) ==>
                           (x, y) in s.g.edges
    ensures OrderedAfter(s0, s, x, p)
  {
    var n := s.g.commands[x].nid;
    var e := s.lastWriter[n][p];
    assert EntryCovers(s0, n, p);
    if HasReader(s.g, s.bufferReads, t, req, e) {
      var d: Cid :| ReadsFrom(s.g, s.bufferReads, t, req, e, d);
      assert IsAntiTarget(s.g, s.bufferReads, t, req, s.init[n], e, d);
      assert (x, d) in s.g.edges && (d, e) in s.g.trueEdges;
    } else if e != s.init[n] {
      assert IsAntiTarget(s.g, s.bufferReads, t, req, s.init[n], e, e);
      assert (x, e) in s.g.edges;
    }
    forall r | r in s0.g.commands && (r, e) in s0.g.trueEdges && Reads(s0.g.commands[r], p)
      ensures (x, r) in s.g.edges
    {
      assert p in ReadSet(s.bufferReads, r) * req;
      assert ReadsFrom(s.g, s.bufferReads, t, req, e, r);
      assert IsAntiTarget(s.g, s.bufferReads, t, req, s.init[n], e, r);
    }
  }

  // ---------------------------------------------------------------- transfers

  function SourcesWith(sources: map<Cell, seq<nat>>, box: set<Cell>, n: nat): map<Cell, seq<nat>> {
    map p | p in sources :: if p in box then sources[p] + [n] else sources[p]
  }

  /** PUSH `b` and AWAIT_PUSH `b + 1` are the only new commands. */
  ghost predicate PairAdded(C: map<Cid, Command>, C': map<Cid, Command>, b: Cid, t: nat, src: nat, n: nat,
                            box: set<Cell>) {
    && (forall d :: d in C ==> d in C' && C'[d] == C[d])
    && (forall d :: d in C' ==> d in C || d == b || d == b + 1)
    && b !in C && b + 1 !in C
    && b in C' && C'[b] == Push(src, t, n, box)
    && b + 1 in C' && C'[b + 1] == AwaitPush(n, t, b, box)
  }

  /** Edges that a transfer for command `c` adds to true dependencies and to all dependencies. */
  ghost predicate PairEdges(s: State, s': State, c: Cid, b: Cid, senders: set<Cid>, antis: set<Cid>) {
    && s'.g.nextCid == b + 2
    && s'.g.trueEdges == s.g.trueEdges + (set y | y in senders :: (b, y)) + {(c, b + 1)}
    && s'.g.edges == s.g.edges + (set y | y in senders :: (b, y)) + {(c, b + 1)} + (set y | y in antis :: (b + 1, y))
  }

  /** A box has been sent from `src` to the node of command `c`, by the next two commands. */
  ghost predicate Transferred(s: State, s': State, t: nat, c: Cid, box: set<Cell>, src: nat)
    requires c in s.g.commands && s.g.commands[c].nid in s.init && s.g.commands[c].nid in s.lastWriter
    requires src in s.lastWriter
    requires box <= s.lastWriter[src].Keys && box <= s.lastWriter[s.g.commands[c].nid].Keys
  {
    var n, b := s.g.commands[c].nid, s.g.nextCid;
    && s' == s.(g := s'.g, bufferReads := s.bufferReads[b := box], sources := SourcesWith(s.sources, box, n))
    && PairAdded(s.g.commands, s'.g.commands, b, t, src, n, box)
    && PairEdges(s, s', c, b, Entries(s.lastWriter[src], box),
                 AntiTargets(s'.g, s'.bufferReads, t, box, s.init[n], s.lastWriter[n]))
    && GraphOk(s'.g)
  }

  /** A box that a command reads, that its node lacks, and that other nodes hold. */
  ghost predicate RemoteBox(s0: State, s: State, n: nat, c: Cid, box: set<Cell>, src: nat) {
    && OwnCommand(s0, s, c) && s.g.commands[c].nid == n
    && n < s.numNodes && src < s.numNodes && src != n
    && box != {} && box <= s.sources.Keys && s.sources.Keys == s0.sources.Keys
    && (forall p :: p in box ==> Reads(s.g.commands[c], p) && n !in s.sources[p])
    && (forall p :: p in box ==> |s0.sources[p]| > 0 && s0.sources[p][0] == src)
  }

  lemma TransferNew(s0: State, t: nat, s: State, s': State, b: Cid, src: nat, n: nat, box: set<Cell>)
    requires Extends(s0, s, t) && CommandsOk(s0.g) && CommandsOk(s.g) && b == s.g.nextCid
    requires PairAdded(s.g.commands, s'.g.commands, b, t, src, n, box)
    ensures s0.g.nextCid <= b && b !in s0.g.commands && b + 1 !in s0.g.commands
    ensures forall d :: IsNew(s0, s', d) <==> IsNew(s0, s, d) || d == b || d == b + 1
  {
    assert s0.g.nextCid <= b;
  }

  lemma TransferExtends(s0: State, t: nat, s: State, s': State, c: Cid, b: Cid, src: nat, n: nat, box: set<Cell>,
                        senders: set<Cid>, antis: set<Cid>)
    requires Extends(s0, s, t) && OwnCommand(s0, s, c)
    requires s' == s.(g := s'.g, bufferReads := s'.bufferReads, sources := s'.sources)
    requires PairAdded(s.g.commands, s'.g.commands, b, t, src, n, box) && PairEdges(s, s', c, b, senders, antis)
    requires s0.g.nextCid <= b && b !in s0.g.commands && b + 1 !in s0.g.commands && s'.sources.Keys == s.sources.Keys
    ensures Extends(s0, s', t)
  {
  }

  lemma TransferKnown(s: State, s': State, b: Cid, t: nat, src: nat, n: nat, box: set<Cell>)
    requires CommandsKnown(s) && PairAdded(s.g.commands, s'.g.commands, b, t, src, n, box)
    requires s'.init == s.init && s'.numNodes == s.numNodes && s'.sources.Keys == s.sources.Keys
    requires s'.lastTid == s.lastTid
    requires src < s.numNodes && n < s.numNodes && t <= s.lastTid && box <= s.sources.Keys
    ensures CommandsKnown(s')
  {
  }

  lemma TransferOneWriter(C: map<Cid, Command>, C': map<Cid, Command>, b: Cid, t: nat, src: nat, n: nat, box: set<Cell>)
    requires OneWriterPerTask(C) && PairAdded(C, C', b, t, src, n, box)
    requires forall d, p :: d in C && C[d].AwaitPush? && C[d].tid == t && C[d].nid == n && p in C[d].box ==> p !in box
    ensures OneWriterPerTask(C')
  {
    OneDelivery(C, C', b, t, src, n, box);
    assert forall d :: d in C' && C'[d].TaskCommand? ==> d in C && C'[d] == C[d];
    forall c, d, p | c in C' && d in C' && Computes(C'[c], p) && Computes(C'[d], p) && C'[c].tid == C'[d].tid
      ensures c == d
    {
      assert c in C && d in C;
    }
  }

  lemma OneDelivery(C: map<Cid, Command>, C': map<Cid, Command>, b: Cid, t: nat, src: nat, n: nat, box: set<Cell>)
    requires OneWriterPerTask(C) && PairAdded(C, C', b, t, src, n, box)
    requires forall d, p :: d in C && C[d].AwaitPush? && C[d].tid == t && C[d].nid == n && p in C[d].box ==> p !in box
    ensures forall c, d, p :: && c in C' && d in C' && C'[c].AwaitPush? && C'[d].AwaitPush?
                              && p in C'[c].box && p in C'[d].box && C'[c].tid == C'[d].tid
                                   && C'[c].nid == C'[d].nid ==>
                                c == d
  {
    forall c, d, p | && c in C' && d in C' && C'[c].AwaitPush? && C'[d].AwaitPush?
                     && p in C'[c].box && p in C'[d].box && C'[c].tid == C'[d].tid && C'[c].nid == C'[d].nid
      ensures c == d
    {
      if c in C && d in C { assert C[c].AwaitPush? && C[d].AwaitPush?; }
    }
  }

  lemma TransferPaired(C: map<Cid, Command>, C': map<Cid, Command>, b: Cid, t: nat, src: nat, n: nat, box: set<Cell>)
    requires PushesAwaited(C) && PairAdded(C, C', b, t, src, n, box)
    requires forall a :: a in C && C[a].AwaitPush? ==> C[a].source in C
    ensures PushesAwaited(C')
  {
    forall d | d in C' && C'[d].Push?
      ensures Awaited(C', d)
    {
      if d in C {
        assert Awaited(C, d);
      } else {
        assert C'[b + 1].source == d;
      }
    }
  }

  lemma SourcesExist(g: Graph)
    requires CommandsOk(g)
    ensures forall a :: a in g.commands && g.commands[a].AwaitPush? ==> g.commands[a].source in g.commands
  {
    forall a | a in g.commands && g.commands[a].AwaitPush?
      ensures g.commands[a].source in g.commands
    {
      assert SourceOk(g.commands, g.commands[a]);
    }
  }

  lemma NotYetBrought(s0: State, t: nat, s: State, n: nat, box: set<Cell>)
    requires CommandsKnown(s0) && s0.lastTid < t && Extends(s0, s, t) && SourcesGrow(s0, s) && box <= s0.sources.Keys
    requires forall p :: p in box ==> n !in s.sources[p]
    ensures var C := s.g.commands;
            forall d, p :: d in C && C[d].AwaitPush? && C[d].tid == t && C[d].nid == n && p in C[d].box ==> p !in box
    ensures forall p :: p in box ==> n !in s0.sources[p]
  {
    var C := s.g.commands;
    forall d, p | d in C && C[d].AwaitPush? && C[d].tid == t && C[d].nid == n && p in C[d].box
      ensures p !in box
    {
      assert Brings(s0, s, n, p, d);
      if p in s0.sources { assert NodesAdded(s0, s, p); }
    }
    forall p | p in box
      ensures n !in s0.sources[p]
    {
      assert NodesAdded(s0, s, p);
      if n in s0.sources[p] { PrefixMember(s0.sources[p], s.sources[p], n); }
    }
  }

  lemma PrefixMember(ns: seq<nat>, ms: seq<nat>, n: nat)
    requires ns <= ms && n in ns
    ensures n in ms
  {
    var i :| 0 <= i < |ns| && ns[i] == n;
    assert ms[i] == n;
  }

  lemma TransferPushesFed(s0: State, s: State, s': State, b: Cid, t: nat, src: nat, n: nat, box: set<Cell>)
    requires Domains(s0) && PushesFed(s0, s) && PairAdded(s.g.commands, s'.g.commands, b, t, src, n, box)
    requires s.g.trueEdges <= s'.g.trueEdges
    requires src < s0.numNodes && n < s0.numNodes && box <= s0.sources.Keys
    requires forall p :: p in box ==> |s0.sources[p]| > 0 && s0.sources[p][0] == src && n !in s0.sources[p]
    requires forall p :: p in box ==> (b, s0.lastWriter[src][p]) in s'.g.trueEdges
    ensures PushesFed(s0, s')
  {
    forall d, p | IsNew(s0, s', d) && s'.g.commands[d].Push? && p in s'.g.commands[d].box
      ensures && p in s0.sources && |s0.sources[p]| > 0
              && s'.g.commands[d].target < s0.numNodes && s'.g.commands[d].target !in s0.sources[p]
              && s'.g.commands[d].nid == s0.sources[p][0]
              && s'.g.commands[d].nid < s0.numNodes
              && (d, s0.lastWriter[s'.g.commands[d].nid][p]) in s'.g.trueEdges
    {
      if d != b { assert IsNew(s0, s, d); }
    }
  }

  lemma TransferAwaitsNeeded(s0: State, s: State, s': State, b: Cid, t: nat, src: nat, n: nat, box: set<Cell>)
    requires AwaitsNeeded(s0, s) && PairAdded(s.g.commands, s'.g.commands, b, t, src, n, box)
    requires box != {} && forall p :: p in box ==> p in s0.sources && n !in s0.sources[p]
    ensures AwaitsNeeded(s0, s')
  {
    forall d | IsNew(s0, s', d) && s'.g.commands[d].AwaitPush?
      ensures s'.g.commands[d].box != {}
    {
      if d != b + 1 { assert IsNew(s0, s, d); }
    }
    forall d, p | IsNew(s0, s', d) && s'.g.commands[d].AwaitPush? && p in s'.g.commands[d].box
      ensures p in s0.sources && s'.g.commands[d].nid !in s0.sources[p]
    {
      if d != b + 1 { assert IsNew(s0, s, d); }
    }
  }

  lemma TransferHasReader(s: State, s': State, c: Cid, b: Cid, t: nat, src: nat, n: nat, box: set<Cell>)
    requires AwaitHasReader(s.g) && PairAdded(s.g.commands, s'.g.commands, b, t, src, n, box)
    requires s.g.trueEdges <= s'.g.trueEdges
    requires c in s.g.commands && s.g.commands[c].TaskCommand? && s.g.commands[c].tid == t
    requires (c, b + 1) in s'.g.trueEdges
    requires forall p :: p in box ==> Reads(s.g.commands[c], p)
    ensures AwaitHasReader(s'.g)
  {
    forall d | d in s'.g.commands && s'.g.commands[d].AwaitPush?
      ensures exists e :: FeedsTask(s'.g, d, e)
    {
      if d == b + 1 {
        assert FeedsTask(s'.g, d, c);
      } else {
        var e :| FeedsTask(s.g, d, e);
        assert FeedsTask(s'.g, d, e);
      }
    }
  }

  lemma TransferReads(s0: State, s: State, s': State, b: Cid, t: nat, src: nat, n: nat, box: set<Cell>)
    requires ReadsPartial(s0, s) && PairAdded(s.g.commands, s'.g.commands, b, t, src, n, box)
    requires s'.bufferReads == s.bufferReads[b := box]
    ensures ReadsPartial(s0, s')
  {
    forall c, p | c in s'.g.commands && Reads(s'.g.commands[c], p)
        && !(IsNew(s0, s', c) && s'.g.commands[c].TaskCommand?)
      ensures p in ReadSet(s'.bufferReads, c)
    {
      if c in s.g.commands { assert IsNew(s0, s', c) <==> IsNew(s0, s, c); }
    }
  }

  lemma TransferSources(s0: State, s: State, s': State, b: Cid, t: nat, src: nat, n: nat, box: set<Cell>)
    requires SourcesGrow(s0, s) && PairAdded(s.g.commands, s'.g.commands, b, t, src, n, box)
    requires s'.sources == SourcesWith(s.sources, box, n) && b + 1 !in s0.g.commands
    requires forall p :: p in box && p in s.sources ==> n !in s.sources[p]
    ensures SourcesGrow(s0, s')
  {
    forall p | p in s0.sources
      ensures NodesAdded(s0, s', p)
    {
      assert NodesAdded(s0, s, p);
      TransferSource(s0, s, s', b, t, src, n, box, p);
    }
  }

  lemma TransferSource(s0: State, s: State, s': State, b: Cid, t: nat, src: nat, n: nat, box: set<Cell>, p: Cell)
    requires p in s0.sources && p in s.sources && NodesAdded(s0, s, p) && s'.sources == SourcesWith(s.sources, box, n)
    requires PairAdded(s.g.commands, s'.g.commands, b, t, src, n, box) && b + 1 !in s0.g.commands
    requires p in box ==> n !in s.sources[p]
    ensures NodesAdded(s0, s', p)
  {
    forall m, d | Brings(s0, s', m, p, d)
      ensures m in s'.sources[p]
    {
      if d == b + 1 {
        assert s'.sources[p][|s.sources[p]|] == n;
      } else {
        assert Brings(s0, s, m, p, d);
        PrefixMember(s.sources[p], s'.sources[p], m);
      }
    }
    forall m | m in s'.sources[p]
      ensures m in s0.sources[p] || exists d :: Brings(s0, s', m, p, d)
    {
      if m in s.sources[p] {
        if m !in s0.sources[p] {
          var d :| Brings(s0, s, m, p, d);
          assert Brings(s0, s', m, p, d);
        }
      } else {
        assert Brings(s0, s', m, p, b + 1);
      }
    }
  }

  lemma TransferOrdered(s0: State, t: nat, s: State, s': State, b: Cid, src: nat, n: nat, box: set<Cell>)
    requires Before(s0) && s0.lastTid < t && Extends(s0, s', t) && s'.lastWriter == s0.lastWriter
    requires ReadsPartial(s0, s')
    requires AwaitsOrdered(s0, s) && PairAdded(s.g.commands, s'.g.commands, b, t, src, n, box)
    requires b + 1 !in s0.g.commands
    requires s.g.edges <= s'.g.edges && s.g.trueEdges <= s'.g.trueEdges
    requires n < s0.numNodes && n in s'.init && box <= s0.sources.Keys
    requires forall y :: y in AntiTargets(s'.g, s'.bufferReads, t, box, s'.init[n], s'.lastWriter[n]) ==>
                           (b + 1, y) in s'.g.edges
    ensures AwaitsOrdered(s0, s')
  {
    hide AntiTargets, ReadsPartial, Extends, OrderedAfter, Before, PairAdded, Domains;
    assert Domains(s0) by { BeforeParts(s0); }
    PairIs(s.g.commands, s'.g.commands, b, t, src, n, box);
    forall p | p in box
      ensures OrderedAfter(s0, s', b + 1, p)
    {
      AntiOrders(s0, t, s', b + 1, box, p);
    }
    OthersOrdered(s0, s, s', b + 1);
  }

  lemma PairIs(C: map<Cid, Command>, C': map<Cid, Command>, b: Cid, t: nat, src: nat, n: nat, box: set<Cell>)
    requires PairAdded(C, C', b, t, src, n, box)
    ensures b + 1 in C' && C'[b + 1] == AwaitPush(n, t, b, box)
    ensures forall d :: d in C ==> d in C' && C'[d] == C[d]
    ensures forall d :: d in C' && C'[d].AwaitPush? && d != b + 1 ==> d in C
  {
  }

  lemma OthersOrdered(s0: State, s: State, s': State, a: Cid)
    requires Domains(s0) && AwaitsOrdered(s0, s) && a in s'.g.commands && s'.g.commands[a].AwaitPush?
    requires s.g.edges <= s'.g.edges && s.g.trueEdges <= s'.g.trueEdges
    requires forall d :: d in s.g.commands ==> d in s'.g.commands && s'.g.commands[d] == s.g.commands[d]
    requires forall d :: d in s'.g.commands && s'.g.commands[d].AwaitPush? && d != a ==> d in s.g.commands
    requires forall p :: p in s'.g.commands[a].box ==> OrderedAfter(s0, s', a, p)
    ensures AwaitsOrdered(s0, s')
  {
    hide OrderedAfter, Domains;
    forall d, p | IsNew(s0, s', d) && s'.g.commands[d].AwaitPush? && p in s'.g.commands[d].box
      ensures OrderedAfter(s0, s', d, p)
    {
      if d != a {
        assert IsNew(s0, s, d);
        OrderedGrows(s0, s, s', d, p);
      }
    }
  }

  /** A transfer keeps what holds inside the task and feeds the command. */
  lemma TransferKeepsMid(s0: State, t: nat, s: State, s': State, n: nat, c: Cid, box: set<Cell>, src: nat)
    requires Before(s0) && Mid(s0, t, s) && RemoteBox(s0, s, n, c, box, src) && Transferred(s, s', t, c, box, src)
    ensures Mid(s0, t, s')
    ensures forall p :: p in box ==> FedFrom(s0, s', c, p)
  {
    hide *;
    var b := s.g.nextCid;
    MidParts(s0, t, s);
    BeforeParts(s0);
    RemoteBoxParts(s0, t, s, n, c, box, src);
    TransferParts(s0, t, s, s', n, c, b, box, src);
    TransferNew(s0, t, s, s', b, src, n, box);
    TransferExtends(s0, t, s, s', c, b, src, n, box, Entries(s.lastWriter[src], box),
                    AntiTargets(s'.g, s'.bufferReads, t, box, s.init[n], s.lastWriter[n]));
    TransferKnown(s, s', b, t, src, n, box);
    NotYetBrought(s0, t, s, n, box);
    SourcesExist(s.g);
    TransferPaired(s.g.commands, s'.g.commands, b, t, src, n, box);
    TransferOneWriter(s.g.commands, s'.g.commands, b, t, src, n, box);
    TransferHasReader(s, s', c, b, t, src, n, box);
    TransferReads(s0, s, s', b, t, src, n, box);
    TransferSources(s0, s, s', b, t, src, n, box);
    TransferPushesFed(s0, s, s', b, t, src, n, box);
    TransferAwaitsNeeded(s0, s, s', b, t, src, n, box);
    TransferOrdered(s0, t, s, s', b, src, n, box);
    TransferFeeds(s0, s, s', b, t, src, n, c, box);
    TransferJustified(s0, t, s, s', b, src, n, c, box);
    MidFromParts(s0, t, s');
  }

  lemma TransferJustified(s0: State, t: nat, s: State, s': State, b: Cid, src: nat, n: nat, c: Cid, box: set<Cell>)
    requires Domains(s0) && EdgesJustified(s0, s) && IsNew(s0, s, c) && b !in s0.g.commands && b + 1 !in s0.g.commands
    requires PairAdded(s.g.commands, s'.g.commands, b, t, src, n, box) && ReadsPartial(s0, s')
    requires src < s0.numNodes && n < s0.numNodes && n in s'.init && s'.lastWriter == s0.lastWriter
    requires s'.init == s0.init
    requires box != {} && box <= s0.sources.Keys
    requires s.g.commands[c].nid == n && forall p :: p in box ==> Reads(s.g.commands[c], p)
    requires PairEdges(s, s', c, b, Entries(s0.lastWriter[src], box),
                       AntiTargets(s'.g, s'.bufferReads, t, box, s'.init[n], s0.lastWriter[n]))
    ensures EdgesJustified(s0, s')
  {
    EntriesJustified(s0, s', b, src, box);
    AntisJustified(s0, t, s', b + 1, n, box);
    BroughtFlows(s0, s, s', b, t, src, n, c, box);
    hide Entries, AntiTargets;
    PairJustified(s0, s, s', c, b, Entries(s0.lastWriter[src], box),
                  AntiTargets(s'.g, s'.bufferReads, t, box, s'.init[n], s0.lastWriter[n]));
  }

  lemma PairJustified(s0: State, s: State, s': State, c: Cid, b: Cid, senders: set<Cid>, antis: set<Cid>)
    requires EdgesJustified(s0, s) && PairEdges(s, s', c, b, senders, antis)
    requires forall d :: d in s.g.commands ==> d in s'.g.commands && s'.g.commands[d] == s.g.commands[d]
    requires forall y :: y in senders ==> Justified(s0, s', b, y) && DataFlows(s0, s', b, y)
    requires forall y :: y in antis ==> Justified(s0, s', b + 1, y)
    requires Justified(s0, s', c, b + 1) && DataFlows(s0, s', c, b + 1)
    ensures EdgesJustified(s0, s')
  {
    hide Justified, DataFlows;
    forall x, y | (x, y) in s'.g.edges && (x, y) !in s0.g.edges
      ensures Justified(s0, s', x, y)
    {
      if (x, y) in s.g.edges { JustifiedGrows(s0, s, s', x, y); }
    }
    forall x, y | (x, y) in s'.g.trueEdges && (x, y) !in s0.g.trueEdges
      ensures DataFlows(s0, s', x, y)
    {
      if (x, y) in s.g.trueEdges { FlowsGrow(s0, s, s', x, y); }
    }
  }

  lemma BroughtFlows(s0: State, s: State, s': State, b: Cid, t: nat, src: nat, n: nat, c: Cid, box: set<Cell>)
    requires IsNew(s0, s, c) && b + 1 !in s0.g.commands && PairAdded(s.g.commands, s'.g.commands, b, t, src, n, box)
    requires box != {} && s.g.commands[c].nid == n && forall p :: p in box ==> Reads(s.g.commands[c], p)
    ensures Justified(s0, s', c, b + 1) && DataFlows(s0, s', c, b + 1)
  {
    var p :| p in box;
    assert Brings(s0, s', n, p, b + 1) && Reads(s'.g.commands[c], p);
  }

  lemma BeforeParts(s0: State)
    requires Before(s0)
    ensures Domains(s0) && CommandsKnown(s0) && CommandsOk(s0.g) && EdgesOk(s0.g) && EntriesCover(s0)
    ensures SourceListsOk(s0)
  {
  }

  lemma MidParts(s0: State, t: nat, s: State)
    requires Mid(s0, t, s)
    ensures s0.lastTid < t == s.lastTid && Domains(s0) && Domains(s) && s.lastWriter == s0.lastWriter
    ensures s.init == s0.init && s.numNodes == s0.numNodes && s.sources.Keys == s0.sources.Keys
    ensures Extends(s0, s, t) && GraphOk(s.g) && CommandsOk(s.g) && EdgesOk(s.g)
    ensures CommandsKnown(s) && OneWriterPerTask(s.g.commands) && PushesAwaited(s.g.commands) && AwaitHasReader(s.g)
    ensures PushesFed(s0, s) && AwaitsNeeded(s0, s) && AwaitsOrdered(s0, s) && SourcesGrow(s0, s) && ReadsPartial(s0, s)
    ensures EdgesJustified(s0, s)
  {
  }

  lemma MidFromParts(s0: State, t: nat, s: State)
    requires s0.lastTid < t == s.lastTid && Domains(s0) && Domains(s) && s.lastWriter == s0.lastWriter
    requires Extends(s0, s, t) && GraphOk(s.g)
    requires CommandsKnown(s) && OneWriterPerTask(s.g.commands) && PushesAwaited(s.g.commands) && AwaitHasReader(s.g)
    requires PushesFed(s0, s) && AwaitsNeeded(s0, s) && AwaitsOrdered(s0, s) && SourcesGrow(s0, s)
    requires ReadsPartial(s0, s)
    requires EdgesJustified(s0, s)
    ensures Mid(s0, t, s)
  {
  }

  lemma RemoteBoxParts(s0: State, t: nat, s: State, n: nat, c: Cid, box: set<Cell>, src: nat)
    requires Domains(s0) && Domains(s) && s.lastWriter == s0.lastWriter && s.init == s0.init
    requires s.numNodes == s0.numNodes
    requires Extends(s0, s, t) && RemoteBox(s0, s, n, c, box, src)
    ensures c in s.g.commands && s.g.commands[c].TaskCommand? && s.g.commands[c].tid == t && s.g.commands[c].nid == n
    ensures OwnCommand(s0, s, c) && IsNew(s0, s, c)
    ensures n < s0.numNodes && src < s0.numNodes && n in s.init && n in s.lastWriter && src in s.lastWriter
    ensures box != {} && box <= s0.sources.Keys && box <= s.lastWriter[src].Keys && box <= s.lastWriter[n].Keys
    ensures box <= s.sources.Keys
    ensures forall p :: p in box ==> Reads(s.g.commands[c], p)
    ensures forall p :: p in box ==> n !in s.sources[p]
    ensures forall p :: p in box ==> |s0.sources[p]| > 0 && s0.sources[p][0] == src
  {
  }

  lemma TransferParts(s0: State, t: nat, s: State, s': State, n: nat, c: Cid, b: Cid, box: set<Cell>, src: nat)
    requires b == s.g.nextCid && Domains(s) && s.lastWriter == s0.lastWriter && Domains(s0)
    requires c in s.g.commands && s.g.commands[c].nid == n && n in s.init && n in s.lastWriter && src in s.lastWriter
    requires src in s0.lastWriter
    requires box <= s.lastWriter[src].Keys && box <= s.lastWriter[n].Keys && box <= s.sources.Keys
    requires Transferred(s, s', t, c, box, src)
    ensures s' == s.(g := s'.g, bufferReads := s.bufferReads[b := box], sources := SourcesWith(s.sources, box, n))
    ensures s'.sources.Keys == s.sources.Keys && Domains(s') && GraphOk(s'.g)
    ensures PairAdded(s.g.commands, s'.g.commands, b, t, src, n, box)
    ensures PairEdges(s, s', c, b, Entries(s.lastWriter[src], box),
                      AntiTargets(s'.g, s'.bufferReads, t, box, s.init[n], s.lastWriter[n]))
    ensures s.g.edges <= s'.g.edges && s.g.trueEdges <= s'.g.trueEdges && (c, b + 1) in s'.g.trueEdges
    ensures forall p :: p in box ==> (b, s0.lastWriter[src][p]) in s'.g.trueEdges
    ensures forall y :: y in AntiTargets(s'.g, s'.bufferReads, t, box, s'.init[n], s'.lastWriter[n]) ==>
                          (b + 1, y) in s'.g.edges
  {
    hide GraphOk, AntiTargets;
    forall p | p in box
      ensures (b, s0.lastWriter[src][p]) in s'.g.trueEdges
    {
      assert s.lastWriter[src][p] in Entries(s.lastWriter[src], box);
    }
  }

  lemma TransferFeeds(s0: State, s: State, s': State, b: Cid, t: nat, src: nat, n: nat, c: Cid, box: set<Cell>)
    requires Domains(s0) && PairAdded(s.g.commands, s'.g.commands, b, t, src, n, box) && b + 1 !in s0.g.commands
    requires c in s.g.commands && s.g.commands[c].nid == n && (c, b + 1) in s'.g.trueEdges
    requires n < s0.numNodes && box <= s0.sources.Keys
    ensures forall p :: p in box ==> c in s'.g.commands && FedFrom(s0, s', c, p)
  {
    forall p | p in box
      ensures FedFrom(s0, s', c, p)
    {
      assert Brings(s0, s', n, p, b + 1);
    }
  }
}

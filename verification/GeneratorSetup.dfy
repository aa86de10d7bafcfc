/** Starting a task, adding a buffer, building the horizon of one node. */
module GeneratorSetup {
  import opened Grid
  import opened Reachability
  import opened Commands
  import opened CommandGraphs
  import opened GeneratorState
  import opened TaskStep
  import opened TaskProgress
  import opened TaskCompletion
  import opened GeneratorSteps
  import opened HorizonStep

  // ------------------------------------------------------------------- tasks

  /** One chunk of a task: the node that gets it and what its range mappers require. */
  datatype Chunk = Chunk(nid: nat, reqs: Requirements)

  /**
    * A compute task comes with the requirements of its whole range and with its split; a master-access task runs on
    * node 0.
    */
  datatype Task =
    | ComputeTask(whole: Requirements, chunks: seq<Chunk>)
    | MasterAccessTask(reqs: Requirements)

  function Chunks(task: Task): seq<Chunk> {
    match task
    case ComputeTask(_, chunks) => chunks
    case MasterAccessTask(reqs) => [Chunk(0, reqs)]
  }

  function Kind(task: Task): TaskType {
    if task.ComputeTask? then Compute else MasterAccess
  }

  function ChunkCommand(t: nat, kind: TaskType, chunk: Chunk): Command {
    TaskCommand(chunk.nid, t, kind, chunk.reqs)
  }

  /**
    * What the generator relies on: at least one chunk; at most one chunk per node; requests inside the buffers; no
    * command discards what it also reads; chunks of one task do not write the same cell.
    */
  ghost predicate TaskOk(task: Task, numNodes: nat, cells: set<Cell>) {
    var chunks := Chunks(task);
    && |chunks| > 0
    && (forall i :: 0 <= i < |chunks| ==> chunks[i].nid < numNodes && RequirementsOk(chunks[i].reqs, cells))
    && (forall i, j :: 0 <= i < j < |chunks| ==> chunks[i].nid != chunks[j].nid)
    && (forall i, j, p :: 0 <= i < j < |chunks| && Produces(chunks[i].reqs, p) ==> !Produces(chunks[j].reqs, p))
  }

  /** The new commands are those of the chunks, numbered from `base`; they have no dependencies yet. */
  ghost predicate ChunksMade(g: Graph, g': Graph, t: nat, kind: TaskType, chunks: seq<Chunk>, base: Cid) {
    && g.nextCid <= base && g'.nextCid >= g.nextCid && g'.edges == g.edges && g'.trueEdges == g.trueEdges
    && (forall c :: c in g.commands ==> c in g'.commands && g'.commands[c] == g.commands[c])
    && (forall c :: c in g'.commands ==> c in g.commands || base <= c < base + |chunks|)
    && (forall c :: base <= c < base + |chunks| ==>
                      c in g'.commands && g'.commands[c] == ChunkCommand(t, kind, chunks[c - base]))
    && GraphOk(g')
  }

  lemma NewChunk(g: Graph, g': Graph, t: nat, kind: TaskType, chunks: seq<Chunk>, base: Cid, c: Cid) returns (i: nat)
    requires ChunksMade(g, g', t, kind, chunks, base) && CommandsOk(g) && c in g'.commands && c !in g.commands
    ensures i < |chunks| && c == base + i && g'.commands[c] == ChunkCommand(t, kind, chunks[i])
  {
    i := c - base;
  }

  lemma ChunksApart(s0: State, t: nat, g': Graph, task: Task, base: Cid)
    requires CommandsOk(s0.g) && CommandsKnown(s0) && s0.lastTid < t && OneWriterPerTask(s0.g.commands)
    requires TaskOk(task, s0.numNodes, s0.sources.Keys) && ChunksMade(s0.g, g', t, Kind(task), Chunks(task), base)
    ensures OneWriterPerTask(g'.commands)
  {
    hide CommandsOk, OneWriterPerTask, TaskOk, Computes;
    var C := g'.commands;
    forall c, d | c in C && d in C && c !in s0.g.commands && d !in s0.g.commands && c != d
      ensures C[c].nid != C[d].nid && forall p :: !(Computes(C[c], p) && Computes(C[d], p))
    {
      TwoChunks(s0, t, g', task, base, c, d);
    }
    forall c | c in C && c !in s0.g.commands
      ensures C[c].tid == t && C[c].TaskCommand?
    {
      var i := NewChunk(s0.g, g', t, Kind(task), Chunks(task), base, c);
    }
    OneWriterStill(s0.g.commands, C, t);
  }

  lemma OneWriterStill(C: map<Cid, Command>, C': map<Cid, Command>, t: nat)
    requires OneWriterPerTask(C) && (forall c :: c in C ==> c in C' && C'[c] == C[c] && C[c].tid < t)
    requires forall c :: c in C' && c !in C ==> C'[c].tid == t && C'[c].TaskCommand?
    requires forall c, d :: c in C' && d in C' && c !in C && d !in C && c != d ==>
                              C'[c].nid != C'[d].nid && forall p :: !(Computes(C'[c], p) && Computes(C'[d], p))
    ensures OneWriterPerTask(C')
  {
    hide Computes;
  }

  lemma TwoChunks(s0: State, t: nat, g': Graph, task: Task, base: Cid, c: Cid, d: Cid)
    requires TaskOk(task, s0.numNodes, s0.sources.Keys) && ChunksMade(s0.g, g', t, Kind(task), Chunks(task), base)
    requires CommandsOk(s0.g) && c in g'.commands && d in g'.commands && c !in s0.g.commands && d !in s0.g.commands
    requires c != d
    ensures g'.commands[c].nid != g'.commands[d].nid
    ensures forall p :: !(Computes(g'.commands[c], p) && Computes(g'.commands[d], p))
  {
    var chunks := Chunks(task);
    var i := NewChunk(s0.g, g', t, Kind(task), chunks, base, c);
    var j := NewChunk(s0.g, g', t, Kind(task), chunks, base, d);
    if i < j {
      assert chunks[i].nid != chunks[j].nid;
    } else {
      assert chunks[j].nid != chunks[i].nid;
    }
  }

  lemma ChunksKnown(s0: State, t: nat, s: State, task: Task, base: Cid)
    requires CommandsKnown(s0) && CommandsOk(s0.g) && s0.lastTid < t && s == s0.(g := s.g, lastTid := t)
    requires TaskOk(task, s0.numNodes, s0.sources.Keys) && ChunksMade(s0.g, s.g, t, Kind(task), Chunks(task), base)
    ensures CommandsKnown(s) && Extends(s0, s, t)
    ensures forall c :: IsNew(s0, s, c) ==>
                          s.g.commands[c].TaskCommand? && RequirementsOk(s.g.commands[c].reqs, s.sources.Keys)
  {
    forall c | IsNew(s0, s, c)
      ensures s.g.commands[c].nid < s.numNodes && s.g.commands[c].TaskCommand? && s.g.commands[c].tid == t
      ensures s0.g.nextCid <= c
      ensures RequirementsOk(s.g.commands[c].reqs, s.sources.Keys)
      ensures forall p :: Reads(s.g.commands[c], p) || Writes(s.g.commands[c], p) ==> p in s.sources
    {
      var i := NewChunk(s0.g, s.g, t, Kind(task), Chunks(task), base, c);
      assert RequirementsOk(Chunks(task)[i].reqs, s.sources.Keys);
      NeedsKnown(Chunks(task)[i].reqs, s.sources.Keys);
    }
  }

  lemma NeedsKnown(reqs: Requirements, cells: set<Cell>)
    requires RequirementsOk(reqs, cells)
    ensures forall p :: Consumes(reqs, p) || Produces(reqs, p) ==> p in cells
  {
  }

  lemma StartTask(s0: State, t: nat, s: State, task: Task, base: Cid)
    requires Inv(s0) && s0.lastTid < t && s == s0.(g := s.g, lastTid := t)
    requires TaskOk(task, s0.numNodes, s0.sources.Keys) && ChunksMade(s0.g, s.g, t, Kind(task), Chunks(task), base)
    ensures Usable(s0) && PrevHorizonsOk(s0) && Domains(s0) && Working(s0, t, s, [], [], []) && t in s.g.byTask
    ensures forall c :: OwnCommand(s0, s, c) ==> RequirementsOk(s.g.commands[c].reqs, s.sources.Keys)
  {
    hide *;
    InvParts(s0);
    GraphParts(s0.g);
    ChunksKnown(s0, t, s, task, base);
    ChunksApart(s0, t, s.g, task, base);
    ChunksGraph(s0.g, s.g, t, Kind(task), Chunks(task), base);
    StartPaired(s0, t, s);
    StartFacts(s0, t, s);
    SomeChunk(s0, t, s, task, base);
    NothingToJustify(s0, s);
    MidFromParts(s0, t, s);
    WorkingFromParts(s0, t, s, [], [], []);
  }

  lemma ChunksGraph(g: Graph, g': Graph, t: nat, kind: TaskType, chunks: seq<Chunk>, base: Cid)
    requires ChunksMade(g, g', t, kind, chunks, base)
    ensures GraphOk(g') && g'.edges == g.edges && g'.trueEdges == g.trueEdges
  {
  }

  lemma InvParts(s: State)
    requires Inv(s)
    ensures GraphOk(s.g) && Domains(s) && CommandsKnown(s) && ReadsRecorded(s) && OneWriterPerTask(s.g.commands)
    ensures AwaitHasReader(s.g)
    ensures PushesAwaited(s.g.commands) && PrevHorizonsOk(s) && HorizonsCover(s.g) && EntriesCover(s)
    ensures SourceListsOk(s) && Usable(s)
  {
  }

  lemma SomeChunk(s0: State, t: nat, s: State, task: Task, base: Cid)
    requires TaskOk(task, s0.numNodes, s0.sources.Keys) && ChunksMade(s0.g, s.g, t, Kind(task), Chunks(task), base)
    ensures t in s.g.byTask
    ensures forall c :: OwnCommand(s0, s, c) ==> IsNew(s0, s, c)
  {
    assert IsTaskCommand(s.g, t, base);
  }

  lemma NothingToJustify(s0: State, s: State)
    requires s.g.edges == s0.g.edges && s.g.trueEdges == s0.g.trueEdges
    ensures EdgesJustified(s0, s)
  {
  }

  /** Without PUSHes and AWAIT_PUSHes there is nothing to say about transfers yet. */
  lemma StartFacts(s0: State, t: nat, s: State)
    requires Domains(s0) && s == s0.(g := s.g, lastTid := t) && Extends(s0, s, t) && s.g.edges == s0.g.edges
    requires s.g.trueEdges == s0.g.trueEdges
    requires forall c :: IsNew(s0, s, c) ==> s.g.commands[c].TaskCommand?
    requires AwaitHasReader(s0.g) && ReadsRecorded(s0) && SourceListsOk(s0)
    ensures Domains(s) && AwaitHasReader(s.g) && PushesFed(s0, s) && AwaitsNeeded(s0, s) && AwaitsOrdered(s0, s)
    ensures SourcesGrow(s0, s) && ReadsPartial(s0, s) && ListsOk(s0, s, [], []) && PushList(s0, s, [])
  {
    StartReader(s0, t, s);
    StartSources(s0, t, s);
    StartReads(s0, t, s);
  }

  lemma StartPaired(s0: State, t: nat, s: State)
    requires Extends(s0, s, t) && PushesAwaited(s0.g.commands)
    requires forall c :: IsNew(s0, s, c) ==> s.g.commands[c].TaskCommand?
    ensures PushesAwaited(s.g.commands)
  {
    forall c | c in s.g.commands && (s.g.commands[c].AwaitPush? || s.g.commands[c].Push?)
      ensures c in s0.g.commands
    {
      assert !IsNew(s0, s, c);
    }
    forall b | b in s.g.commands && s.g.commands[b].Push?
      ensures Awaited(s.g.commands, b)
    {
      assert Awaited(s0.g.commands, b);
    }
  }

  lemma StartReader(s0: State, t: nat, s: State)
    requires Extends(s0, s, t) && AwaitHasReader(s0.g)
    requires forall c :: IsNew(s0, s, c) ==> s.g.commands[c].TaskCommand?
    ensures AwaitHasReader(s.g)
  {
    forall a | a in s.g.commands && s.g.commands[a].AwaitPush?
      ensures exists c :: FeedsTask(s.g, a, c)
    {
      assert a in s0.g.commands by { assert !IsNew(s0, s, a); }
      var c :| FeedsTask(s0.g, a, c);
      assert FeedsTask(s.g, a, c);
    }
  }

  lemma StartSources(s0: State, t: nat, s: State)
    requires s.sources == s0.sources && SourceListsOk(s0)
    requires forall c :: IsNew(s0, s, c) ==> s.g.commands[c].TaskCommand?
    ensures SourcesGrow(s0, s)
  {
    forall p | p in s0.sources
      ensures NodesAdded(s0, s, p)
    {
      assert SourceListOk(s0, p);
    }
  }

  lemma StartReads(s0: State, t: nat, s: State)
    requires Extends(s0, s, t) && ReadsRecorded(s0) && s.bufferReads == s0.bufferReads
    requires forall c :: IsNew(s0, s, c) ==> s.g.commands[c].TaskCommand?
    ensures ReadsPartial(s0, s)
  {
    forall c, p | c in s.g.commands && p in ReadSet(s.bufferReads, c)
      ensures Reads(s.g.commands[c], p)
    {
      assert c in s0.g.commands;
    }
    forall c, p | c in s.g.commands && Reads(s.g.commands[c], p) && !(IsNew(s0, s, c) && s.g.commands[c].TaskCommand?)
      ensures p in ReadSet(s.bufferReads, c)
    {
      assert c in s0.g.commands;
    }
  }

  // ------------------------------------------------------------------ buffers

  /** A new buffer: every node holds its initial contents, and the init commands count as its last writers. */
  ghost predicate BufferAdded(s0: State, s1: State, cells: set<Cell>) {
    && s1 == s0.(sources := s1.sources, lastWriter := s1.lastWriter)
    && Domains(s0) && Domains(s1) && s1.sources.Keys == s0.sources.Keys + cells
    && (forall p :: p in s0.sources ==> s1.sources[p] == s0.sources[p])
    && (forall p :: p in cells ==> |s1.sources[p]| == s0.numNodes && forall i :: 0 <= i < s0.numNodes ==>
                                                                                   s1.sources[p][i] == i)
    && (forall n: nat, p :: n < s0.numNodes && p in s0.sources ==> s1.lastWriter[n][p] == s0.lastWriter[n][p])
    && (forall n: nat, p :: n < s0.numNodes && p in cells ==> s1.lastWriter[n][p] == s0.init[n])
  }

  lemma BufferKeepsInv(s0: State, s1: State, cells: set<Cell>)
    requires Inv(s0) && cells !! s0.sources.Keys && s0.numNodes > 0 && BufferAdded(s0, s1, cells)
    ensures Inv(s1)
  {
    BufferOrder(s0, s1, cells);
    BufferData(s0, s1, cells);
  }

  lemma BufferOrder(s0: State, s1: State, cells: set<Cell>)
    requires CommandsKnown(s0) && Domains(s0) && Order(s0) && cells !! s0.sources.Keys && BufferAdded(s0, s1, cells)
    ensures Order(s1)
  {
    hide EntryCovers, ReadersUnderEntry;
    forall n: nat, p | n < s1.numNodes && p in s1.sources
      ensures EntryCovers(s1, n, p) && ((n, p) !in s1.late ==> ReadersUnderEntry(s1, n, p))
    {
      if p in s0.sources {
        OldCellOrder(s0, s1, n, p);
      } else {
        Untouched(s0, p);
        NewCellOrder(s0, s1, n, p);
      }
    }
  }

  lemma OldCellOrder(s0: State, s1: State, n: nat, p: Cell)
    requires Domains(s0) && Domains(s1) && s1.g == s0.g && n < s0.numNodes == s1.numNodes && p in s0.sources
    requires p in s1.sources
    requires s1.lastWriter[n][p] == s0.lastWriter[n][p] && s1.late == s0.late
    requires EntryCovers(s0, n, p) && ((n, p) !in s0.late ==> ReadersUnderEntry(s0, n, p))
    ensures EntryCovers(s1, n, p) && ((n, p) !in s1.late ==> ReadersUnderEntry(s1, n, p))
  {
  }

  lemma NewCellOrder(s0: State, s1: State, n: nat, p: Cell)
    requires Domains(s0) && Domains(s1) && CommandsKnown(s0) && s1.g == s0.g && n < s0.numNodes == s1.numNodes
    requires p in s1.sources
    requires s1.lastWriter[n][p] == s0.init[n]
    requires forall c :: c in s0.g.commands ==> !Reads(s0.g.commands[c], p) && !Writes(s0.g.commands[c], p)
    ensures EntryCovers(s1, n, p) && ReadersUnderEntry(s1, n, p)
  {
  }

  lemma Untouched(s: State, p: Cell)
    requires CommandsKnown(s) && p !in s.sources
    ensures forall c :: c in s.g.commands ==> !Reads(s.g.commands[c], p) && !Writes(s.g.commands[c], p)
  {
  }

  lemma BufferData(s0: State, s1: State, cells: set<Cell>)
    requires CommandsKnown(s0) && Domains(s0) && Data(s0) && cells !! s0.sources.Keys && s0.numNodes > 0
    requires BufferAdded(s0, s1, cells)
    ensures Data(s1)
  {
    forall p | p in s1.sources
      ensures SourceListOk(s1, p)
    {
      if p in s0.sources {
        OldSourceList(s0, s1, p);
      } else {
        Untouched(s0, p);
        NewSourceList(s1, p);
      }
    }
    BufferFed(s0, s1, cells);
  }

  lemma OldSourceList(s0: State, s1: State, p: Cell)
    requires p in s0.sources && p in s1.sources && s1.sources[p] == s0.sources[p] && SourceListOk(s0, p)
    requires s1.g == s0.g && s1.numNodes == s0.numNodes && s1.lastTid == s0.lastTid
    ensures SourceListOk(s1, p)
  {
  }

  lemma NewSourceList(s: State, p: Cell)
    requires p in s.sources && |s.sources[p]| == s.numNodes > 0
    requires forall i :: 0 <= i < s.numNodes ==> s.sources[p][i] == i
    requires forall c :: c in s.g.commands ==> !Reads(s.g.commands[c], p) && !Writes(s.g.commands[c], p)
    ensures SourceListOk(s, p)
  {
    forall n: nat | n < s.numNodes
      ensures n in s.sources[p]
    {
      assert s.sources[p][n] == n;
    }
  }

  lemma BufferFed(s0: State, s1: State, cells: set<Cell>)
    requires CommandsKnown(s0) && SourcesFed(s0) && DeliveryRemembered(s0) && BufferAdded(s0, s1, cells)
    ensures SourcesFed(s1) && DeliveryRemembered(s1)
  {
    forall p, n, c | p in s1.sources && n in s1.sources[p] && c in s1.g.commands && Computes(s1.g.commands[c], p)
      ensures Reflects(s1.g.commands, n, p, s1.g.commands[c].tid, 4 * (s1.lastTid + 1))
    {
      assert p in s0.sources;
    }
    forall a, p | a in s1.g.commands && Holds(s1.g.commands[a], p)
      ensures Remembered(s1, a, p)
    {
      assert Remembered(s0, a, p);
    }
  }

  // ----------------------------------------------------------------- horizons

  /** The horizons of the nodes below `k` are in the graph. */
  ghost predicate HorizonCommands(s0: State, s: State, k: nat) {
    && CommandsStay(s0, s)
    && (forall c :: c in s.g.commands && c !in s0.g.commands ==>
                      && s0.g.nextCid <= c && s.g.commands[c].nid < k
                      && s.g.commands[c] == Horizon(s.g.commands[c].nid, s0.lastTid)
                      && s.g.commands[c].nid in s.prevHorizon && s.prevHorizon[s.g.commands[c].nid] == c)
    && (forall a, b :: (a, b) in s.g.edges && (a, b) !in s0.g.edges ==> OnFront(s0, s, a, b))
    && (forall n: nat :: n < k ==>
                           && n in s.prevHorizon && s.prevHorizon[n] in s.g.commands
                           && s.prevHorizon[n] !in s0.g.commands
                           && s.g.commands[s.prevHorizon[n]].nid == n)
    && (forall n: nat, c: Cid :: n < k && InFront(s0.g, n, c) ==> (s.prevHorizon[n], c) in s.g.edges)
  }

  /** The previous horizons have been applied on the nodes below `k`, and replaced by the new ones. */
  ghost predicate HorizonEntries(s0: State, s: State, k: nat)
    requires Domains(s0) && Domains(s) && s.sources == s0.sources && s.numNodes == s0.numNodes
  {
    && (forall n: nat :: k <= n ==> (n in s.prevHorizon <==> n in s0.prevHorizon))
    && (forall n: nat :: k <= n && n in s0.prevHorizon ==> s.prevHorizon[n] == s0.prevHorizon[n])
    && (forall n: nat, p :: n < s0.numNodes && p in s0.sources ==>
                              s.lastWriter[n][p] == if n < k then Compacted(s0.prevHorizon, n, s0.lastWriter[n][p])
                                  else s0.lastWriter[n][p])
  }

  /** The horizons of the nodes below `k` have been built. */
  ghost predicate HorizonsUpTo(s0: State, s: State, k: nat) {
    && k <= s0.numNodes
    && s == s0.(g := s.g, lastWriter := s.lastWriter, prevHorizon := s.prevHorizon)
    && GraphOk(s.g) && Domains(s0) && Domains(s)
    && HorizonCommands(s0, s, k)
    && HorizonEntries(s0, s, k)
  }

  /** A horizon is on top of the front of its node. */
  ghost predicate HorizonOnTop(g: Graph, g': Graph, n: nat, t: nat, front: set<Cid>) {
    && AddedEdges(Created(g, Horizon(n, t)), g', g.nextCid, front, false) && GraphOk(g')
  }

  lemma FrontUnchanged(s0: State, s: State, k: nat, c: Cid)
    requires HorizonsUpTo(s0, s, k) && EdgesOk(s0.g)
    ensures InFront(s.g, k, c) <==> InFront(s0.g, k, c)
  {
    if InFront(s0.g, k, c) {
      forall d: Cid
        ensures (d, c) !in s.g.edges
      {
      }
    }
  }

  lemma FrontEdges(s0: State, s: State, k: nat, t: nat)
    requires HorizonsUpTo(s0, s, k) && CommandsKnown(s0) && EdgesOk(s0.g) && s0.lastTid == t && k < s0.numNodes
    requires k in s.g.fronts
    requires forall c :: c in s0.g.commands && s0.g.commands[c].Horizon? ==> s0.g.commands[c].tid < t
    ensures forall c :: c in s.g.fronts[k] ==> c in s.g.commands && EdgeOk(Horizon(k, t), s.g.commands[c])
  {
    forall c | c in s.g.fronts[k]
      ensures c in s.g.commands && EdgeOk(Horizon(k, t), s.g.commands[c])
    {
      assert InFront(s.g, k, c);
    }
  }

  lemma OneMoreHorizon(s0: State, s: State, s': State, k: nat)
    requires HorizonsUpTo(s0, s, k) && EdgesOk(s0.g) && CommandsOk(s0.g) && s0.g.nextCid <= s.g.nextCid
    requires k < s0.numNodes && k in s.g.fronts
    requires s' == s.(g := s'.g, lastWriter := s'.lastWriter, prevHorizon := s.prevHorizon[k := s.g.nextCid])
    requires HorizonOnTop(s.g, s'.g, k, s0.lastTid, s.g.fronts[k])
    requires s'.lastWriter.Keys == s.lastWriter.Keys && s'.lastWriter[k].Keys == s.lastWriter[k].Keys
    requires forall n: nat :: n < s0.numNodes && n != k ==> s'.lastWriter[n] == s.lastWriter[n]
    requires forall p :: p in s.lastWriter[k] ==> s'.lastWriter[k][p] == Compacted(s.prevHorizon, k, s.lastWriter[k][p])
    ensures HorizonsUpTo(s0, s', k + 1)
  {
    hide *;
    UpToParts(s0, s, k);
    GraphParts(s.g);
    TopParts(s.g, s'.g, k, s0.lastTid, s.g.fronts[k]);
    HorizonDomains(s, s', k);
    FrontSame(s0, s, k);
    OneMoreCommand(s0, s, s', k, s.g.nextCid);
    OneMoreEntry(s0, s, s', k, s.g.nextCid);
    UpToFromParts(s0, s', k + 1);
  }

  lemma UpToParts(s0: State, s: State, k: nat)
    requires HorizonsUpTo(s0, s, k)
    ensures k <= s0.numNodes == s.numNodes
    ensures s == s0.(g := s.g, lastWriter := s.lastWriter, prevHorizon := s.prevHorizon)
    ensures GraphOk(s.g) && Domains(s0) && Domains(s) && HorizonCommands(s0, s, k) && HorizonEntries(s0, s, k)
    ensures s.sources == s0.sources
  {
  }

  lemma UpToFromParts(s0: State, s: State, k: nat)
    requires k <= s0.numNodes == s.numNodes
    requires s == s0.(g := s.g, lastWriter := s.lastWriter, prevHorizon := s.prevHorizon)
    requires GraphOk(s.g) && Domains(s0) && Domains(s) && HorizonCommands(s0, s, k) && HorizonEntries(s0, s, k)
    ensures HorizonsUpTo(s0, s, k)
  {
  }

  lemma TopParts(g: Graph, g': Graph, n: nat, t: nat, front: set<Cid>)
    requires HorizonOnTop(g, g', n, t, front) && CommandsOk(g)
    ensures GraphOk(g') && g.nextCid !in g.commands && g'.commands == g.commands[g.nextCid := Horizon(n, t)]
    ensures g.edges <= g'.edges && g.trueEdges <= g'.trueEdges
    ensures forall a, b :: (a, b) in g'.edges ==> (a, b) in g.edges || (a == g.nextCid && b in front)
    ensures forall c :: c in front ==> (g.nextCid, c) in g'.edges
  {
  }

  lemma HorizonDomains(s: State, s': State, k: nat)
    requires Domains(s) && k < s.numNodes && s'.numNodes == s.numNodes && s'.init == s.init && s'.sources == s.sources
    requires s'.lastWriter.Keys == s.lastWriter.Keys && s'.lastWriter[k].Keys == s.lastWriter[k].Keys
    requires forall n: nat :: n < s.numNodes && n != k ==> s'.lastWriter[n] == s.lastWriter[n]
    ensures Domains(s')
  {
  }

  lemma FrontSame(s0: State, s: State, k: nat)
    requires HorizonsUpTo(s0, s, k) && EdgesOk(s0.g) && k in s.g.fronts
    ensures forall c: Cid :: InFront(s0.g, k, c) <==> c in s.g.fronts[k]
  {
    forall c: Cid
      ensures InFront(s0.g, k, c) <==> c in s.g.fronts[k]
    {
      FrontUnchanged(s0, s, k, c);
    }
  }

  lemma MoreOnFront(s0: State, s: State, s': State, k: nat, h: Cid)
    requires HorizonCommands(s0, s, k) && h !in s0.g.commands && h !in s.g.commands
    requires s'.g.commands == s.g.commands[h := Horizon(k, s0.lastTid)]
    requires forall a, b :: (a, b) in s'.g.edges ==> (a, b) in s.g.edges || (a == h && InFront(s0.g, k, b))
    ensures forall a, b :: (a, b) in s'.g.edges && (a, b) !in s0.g.edges ==> OnFront(s0, s', a, b)
  {
    hide InFront;
    forall a, b | (a, b) in s'.g.edges && (a, b) !in s0.g.edges
      ensures OnFront(s0, s', a, b)
    {
      if (a, b) in s.g.edges { assert OnFront(s0, s, a, b); }
    }
  }

  lemma MoreFronts(s0: State, s: State, s': State, k: nat, h: Cid)
    requires HorizonCommands(s0, s, k) && s'.prevHorizon == s.prevHorizon[k := h] && s.g.edges <= s'.g.edges
    requires forall c: Cid :: InFront(s0.g, k, c) ==> (h, c) in s'.g.edges
    ensures forall n: nat, c: Cid :: n < k + 1 && InFront(s0.g, n, c) ==>
                                       n in s'.prevHorizon && (s'.prevHorizon[n], c) in s'.g.edges
  {
    hide InFront, OnFront;
    forall n: nat, c: Cid | n < k + 1 && InFront(s0.g, n, c)
      ensures n in s'.prevHorizon && (s'.prevHorizon[n], c) in s'.g.edges
    {
      if n < k { assert (s.prevHorizon[n], c) in s.g.edges; }
    }
  }

  lemma MoreHorizons(s0: State, s: State, s': State, k: nat, h: Cid)
    requires HorizonCommands(s0, s, k) && s'.prevHorizon == s.prevHorizon[k := h] && s0.g.nextCid <= h
    requires h !in s.g.commands
    requires s'.g.commands == s.g.commands[h := Horizon(k, s0.lastTid)]
    ensures forall c :: c in s'.g.commands && c !in s0.g.commands ==>
                          && s0.g.nextCid <= c && s'.g.commands[c].nid < k + 1
                          && s'.g.commands[c] == Horizon(s'.g.commands[c].nid, s0.lastTid)
                          && s'.g.commands[c].nid in s'.prevHorizon && s'.prevHorizon[s'.g.commands[c].nid] == c
  {
    hide InFront, OnFront;
    forall c | c in s'.g.commands && c !in s0.g.commands
      ensures && s0.g.nextCid <= c && s'.g.commands[c].nid < k + 1
              && s'.g.commands[c] == Horizon(s'.g.commands[c].nid, s0.lastTid)
              && s'.g.commands[c].nid in s'.prevHorizon && s'.prevHorizon[s'.g.commands[c].nid] == c
    {
      if c != h { assert c in s.g.commands; }
    }
  }

  lemma OneMoreCommand(s0: State, s: State, s': State, k: nat, h: Cid)
    requires HorizonCommands(s0, s, k) && s'.prevHorizon == s.prevHorizon[k := h] && s0.g.nextCid <= h
    requires h !in s.g.commands
    requires s'.g.commands == s.g.commands[h := Horizon(k, s0.lastTid)]
    requires s.g.edges <= s'.g.edges && s.g.trueEdges <= s'.g.trueEdges
    requires forall a, b :: (a, b) in s'.g.edges ==> (a, b) in s.g.edges || (a == h && InFront(s0.g, k, b))
    requires forall c: Cid :: InFront(s0.g, k, c) ==> (h, c) in s'.g.edges
    ensures HorizonCommands(s0, s', k + 1)
  {
    hide InFront, OnFront;
    assert h !in s0.g.commands;
    MoreOnFront(s0, s, s', k, h);
    MoreFronts(s0, s, s', k, h);
    MoreHorizons(s0, s, s', k, h);
    MorePrevHorizons(s0, s, s', k, h);
    MoreStays(s0, s, s', k, h);
    HorizonCommandsFrom(s0, s', k + 1);
  }

  lemma MorePrevHorizons(s0: State, s: State, s': State, k: nat, h: Cid)
    requires HorizonCommands(s0, s, k) && s'.prevHorizon == s.prevHorizon[k := h] && h !in s0.g.commands
    requires h !in s.g.commands && s'.g.commands == s.g.commands[h := Horizon(k, s0.lastTid)]
    ensures forall n: nat :: n < k + 1 ==>
                               && n in s'.prevHorizon && s'.prevHorizon[n] in s'.g.commands
                               && s'.prevHorizon[n] !in s0.g.commands && s'.g.commands[s'.prevHorizon[n]].nid == n
  {
    hide InFront, OnFront;
  }

  lemma MoreStays(s0: State, s: State, s': State, k: nat, h: Cid)
    requires HorizonCommands(s0, s, k) && h !in s.g.commands
    requires s'.g.commands == s.g.commands[h := Horizon(k, s0.lastTid)]
    requires s.g.edges <= s'.g.edges && s.g.trueEdges <= s'.g.trueEdges
    ensures CommandsStay(s0, s')
  {
    hide InFront, OnFront;
  }

  lemma HorizonCommandsFrom(s0: State, s: State, k: nat)
    requires CommandsStay(s0, s)
    requires forall c :: c in s.g.commands && c !in s0.g.commands ==>
                           && s0.g.nextCid <= c && s.g.commands[c].nid < k
                           && s.g.commands[c] == Horizon(s.g.commands[c].nid, s0.lastTid)
                           && s.g.commands[c].nid in s.prevHorizon && s.prevHorizon[s.g.commands[c].nid] == c
    requires forall a, b :: (a, b) in s.g.edges && (a, b) !in s0.g.edges ==> OnFront(s0, s, a, b)
    requires forall n: nat :: n < k ==>
                                && n in s.prevHorizon && s.prevHorizon[n] in s.g.commands
                                && s.prevHorizon[n] !in s0.g.commands && s.g.commands[s.prevHorizon[n]].nid == n
    requires forall n: nat, c: Cid :: n < k && InFront(s0.g, n, c) ==> (s.prevHorizon[n], c) in s.g.edges
    ensures HorizonCommands(s0, s, k)
  {
    hide InFront, OnFront, CommandsStay;
  }

  lemma OneMoreEntry(s0: State, s: State, s': State, k: nat, h: Cid)
    requires Domains(s0) && Domains(s) && Domains(s') && s.sources == s0.sources == s'.sources
    requires s.numNodes == s0.numNodes == s'.numNodes
    requires HorizonEntries(s0, s, k) && k < s0.numNodes && s'.prevHorizon == s.prevHorizon[k := h]
    requires forall n: nat :: n < s0.numNodes && n != k ==> s'.lastWriter[n] == s.lastWriter[n]
    requires forall p :: p in s.lastWriter[k] ==> s'.lastWriter[k][p] == Compacted(s.prevHorizon, k, s.lastWriter[k][p])
    ensures HorizonEntries(s0, s', k + 1)
  {
    forall n: nat, p | n < s0.numNodes && p in s0.sources
      ensures s'.lastWriter[n][p] == if n < k + 1 then Compacted(s0.prevHorizon, n, s0.lastWriter[n][p])
                else s0.lastWriter[n][p]
    {
      if n == k {
        assert p in s.lastWriter[k] && s.lastWriter[k][p] == s0.lastWriter[k][p];
      } else {
        assert s'.lastWriter[n][p] == s.lastWriter[n][p];
      }
    }
  }

  lemma HorizonsDone(s0: State, s: State, s1: State)
    requires HorizonsUpTo(s0, s, s0.numNodes) && PrevHorizonsOk(s0) && CommandsKnown(s0)
    requires s1 == s.(late := s1.late) && Domains(s0)
    requires forall n: nat, p :: (n, p) in s1.late <==> (n, p) in s0.late || IsLate(s0, n, p)
    ensures HorizonsMade(s0, s1)
  {
    hide InFront, GraphOk, IsLate, CommandsKnown, PrevHorizonsOk, OnFront;
    PrevOnNodes(s0);
    AllAdded(s0, s, s1);
  }

  lemma PrevOnNodes(s0: State)
    requires PrevHorizonsOk(s0) && CommandsKnown(s0)
    ensures forall n :: n in s0.prevHorizon ==> n < s0.numNodes
  {
  }

  lemma AllAdded(s0: State, s: State, s1: State)
    requires Domains(s0) && Domains(s) && s.sources == s0.sources && s.numNodes == s0.numNodes
    requires HorizonCommands(s0, s, s0.numNodes) && HorizonEntries(s0, s, s0.numNodes) && s1.g == s.g
    requires s1.prevHorizon == s.prevHorizon
    requires forall n :: n in s0.prevHorizon ==> n < s0.numNodes
    ensures HorizonsAdded(s0, s1)
  {
    forall a, b | (a, b) in s1.g.edges && (a, b) !in s0.g.edges
      ensures OnFront(s0, s1, a, b)
    {
      assert OnFront(s0, s, a, b);
    }
  }

  lemma StartHorizons(s: State)
    requires GraphOk(s.g) && Domains(s)
    ensures HorizonsUpTo(s, s, 0)
  {
  }

  function CompactedAll(entries: map<Cell, Cid>, prev: Cid): map<Cell, Cid> {
    map p | p in entries :: Max(prev, entries[p])
  }

  lemma NodeDomain(s: State, n: nat)
    requires Domains(s) && n < s.numNodes
    ensures n in s.lastWriter && s.lastWriter[n].Keys == s.sources.Keys
  {
  }

  lemma FreshCid(g: Graph)
    requires GraphOk(g)
    ensures forall c :: c in g.commands ==> c < g.nextCid
    ensures forall e :: e in g.edges ==> e.0 in g.commands && e.1 in g.commands
  {
    forall e | e in g.edges
      ensures e.0 in g.commands && e.1 in g.commands
    {
      assert (e.0, e.1) in g.edges;
    }
  }

  lemma EraseOriginal(g: Graph, g': Graph, c: Cid)
    requires GraphOk(g) && GraphOk(g') && g'.edges == g.edges && g'.trueEdges == g.trueEdges
    requires c !in g.commands && c in g'.commands && g'.commands[c].TaskCommand?
    ensures GraphOk(Erased(g', c)) && Erased(g', c).edges == g.edges && Erased(g', c).trueEdges == g.trueEdges
  {
    FreshCid(g);
    EraseKeepsOk(g', c);
  }

  lemma NoHorizonYet(s0: State, t: nat, s1: State)
    requires TaskProcessed(s0, t, s1) && Inv(s0)
    ensures forall c :: c in s1.g.commands && s1.g.commands[c].Horizon? ==> s1.g.commands[c].tid < t
  {
    forall c | c in s1.g.commands && s1.g.commands[c].Horizon?
      ensures s1.g.commands[c].tid < t
    {
      assert !IsNew(s0, s1, c);
    }
  }

  /** Enough new dependencies have come one after the other since the last horizon. */
  ghost predicate HorizonDue(s: State, prevMax: nat, stepSize: nat) {
    s.g.maxPathLength >= prevMax + stepSize
  }

  /** Some command's path length is at least `k`, and there is such a path below it. */
  ghost predicate IsDeep(g: Graph, k: nat) {
    exists c :: c in g.pathLength && g.pathLength[c] >= k && HasDepth(g.edges, c, g.pathLength[c])
  }

  /** Horizons are due exactly when some command is that deep. */
  lemma DueExactly(s: State, prevMax: nat, stepSize: nat)
    requires LengthsAreDepths(s.g) && s.g.commands != map[]
    ensures HorizonDue(s, prevMax, stepSize) <==> IsDeep(s.g, prevMax + stepSize)
  {
    hide HasDepth;
    if HorizonDue(s, prevMax, stepSize) {
      var c: Cid;
      if s.g.maxPathLength > 0 {
        c :| c in s.g.pathLength && s.g.pathLength[c] == s.g.maxPathLength;
      } else {
        c :| c in s.g.commands;
      }
      assert c in s.g.pathLength && s.g.pathLength[c] >= prevMax + stepSize;
    }
  }

  lemma HasChunks(task: Task, numNodes: nat, cells: set<Cell>)
    requires TaskOk(task, numNodes, cells)
    ensures |Chunks(task)| > 0
  {
  }

  lemma HasCommands(g: Graph, t: nat, task: Task, base: Cid)
    requires CommandsOfTask(g, t, task, base) && |Chunks(task)| > 0
    ensures g.commands != map[]
  {
    assert base in g.commands;
  }

  /** The node has a command other than its init command. */
  ghost predicate HasWork(g: Graph, n: nat) {
    exists c :: c in g.commands && g.commands[c].nid == n && !g.commands[c].Nop?
  }

  ghost predicate OnSomeChunk(task: Task, n: nat) {
    exists i :: 0 <= i < |Chunks(task)| && Chunks(task)[i].nid == n
  }

  lemma WorkHasFront(s: State, n: nat)
    requires GraphOk(s.g) && CommandsKnown(s) && HasWork(s.g, n)
    ensures n in s.g.fronts
  {
    var c :| c in s.g.commands && s.g.commands[c].nid == n && !s.g.commands[c].Nop?;
    var f := BelowFront(s, c);
    assert InFront(s.g, n, f);
  }

  /** A node that had a command or gets a chunk has an execution front. */
  lemma WorkHasFronts(s0: State, t: nat, s: State, task: Task, base: Cid)
    requires Inv(s) && TaskProcessed(s0, t, s) && CommandsOfTask(s.g, t, task, base)
    requires forall n: nat :: n < s.numNodes ==> HasWork(s0.g, n) || OnSomeChunk(task, n)
    ensures forall n: nat :: n < s.numNodes ==> n in s.g.fronts
  {
    hide TaskProcessed, CommandsOfTask, HasWork, OnSomeChunk, GraphOk, CommandsKnown, Inv;
    InvParts(s);
    forall n: nat | n < s.numNodes
      ensures n in s.g.fronts
    {
      if HasWork(s0.g, n) {
        WorkStays(s0, t, s, n);
      } else {
        ChunkIsWork(s, t, task, base, n);
      }
      WorkHasFront(s, n);
    }
  }

  lemma WorkStays(s0: State, t: nat, s: State, n: nat)
    requires TaskProcessed(s0, t, s) && HasWork(s0.g, n)
    ensures HasWork(s.g, n)
  {
    var c :| c in s0.g.commands && s0.g.commands[c].nid == n && !s0.g.commands[c].Nop?;
    assert c in s.g.commands;
  }

  lemma ChunkIsWork(s: State, t: nat, task: Task, base: Cid, n: nat)
    requires CommandsOfTask(s.g, t, task, base) && OnSomeChunk(task, n)
    ensures HasWork(s.g, n)
  {
    var i :| 0 <= i < |Chunks(task)| && Chunks(task)[i].nid == n;
    assert base + i in s.g.commands && s.g.commands[base + i] == ChunkCommand(t, Kind(task), Chunks(task)[i]);
  }

  lemma FreshSince(base: Graph, g: Graph)
    requires Grown(base, g)
    ensures g.nextCid !in base.commands
  {
  }

  lemma GrownPaths(base: Graph, g: Graph)
    requires Grown(base, g)
    ensures PathsGrow(base, g)
  {
  }

  lemma LatePairs(s: State, late: set<(nat, Cell)>)
    requires Domains(s)
    requires late == s.late + (set m: nat, p | m < s.numNodes && p in s.sources && IsLate(s, m, p) :: (m, p))
    ensures forall n: nat, p :: (n, p) in late <==> (n, p) in s.late || IsLate(s, n, p)
  {
  }

  /** The task commands of task `t` are exactly those of its chunks, numbered from `base`. */
  ghost predicate CommandsOfTask(g: Graph, t: nat, task: Task, base: Cid) {
    && (forall c: Cid :: IsTaskCommand(g, t, c) ==> base <= c < base + |Chunks(task)|)
    && (forall c :: base <= c < base + |Chunks(task)| ==>
                      c in g.commands && g.commands[c] == ChunkCommand(t, Kind(task), Chunks(task)[c - base]))
  }

  /** Written out: a master access gets one MASTER_ACCESS command on node 0, a compute task one COMPUTE per chunk. */
  lemma CommandsAre(g: Graph, t: nat, task: Task, base: Cid)
    requires CommandsOfTask(g, t, task, base)
    ensures task.MasterAccessTask? ==>
              forall c: Cid :: IsTaskCommand(g, t, c) <==>
                               c == base && c in g.commands
                                   && g.commands[c] == TaskCommand(0, t, MasterAccess, task.reqs)
    ensures task.ComputeTask? ==>
              && (forall c: Cid :: IsTaskCommand(g, t, c) <==> base <= c < base + |task.chunks|)
              && (forall i: nat :: i < |task.chunks| ==>
                                     && base + i in g.commands
                                     && g.commands[base + i] == TaskCommand(task.chunks[i].nid, t, Compute,
                                                                            task.chunks[i].reqs))
  {
    forall c: Cid | base <= c < base + |Chunks(task)|
      ensures c in g.commands && g.commands[c] == ChunkCommand(t, Kind(task), Chunks(task)[c - base])
    {
    }
  }

  ghost predicate SameTaskCommands(g: Graph, g': Graph) {
    && (forall c :: c in g.commands && g.commands[c].TaskCommand? ==>
                      c in g'.commands && g'.commands[c] == g.commands[c])
    && (forall c :: c in g'.commands && g'.commands[c].TaskCommand? ==>
                      c in g.commands && g'.commands[c] == g.commands[c])
  }

  lemma LaterSameTasks(s: State, s': State)
    requires Later(s, s')
    ensures SameTaskCommands(s.g, s'.g)
  {
  }

  lemma HorizonSameTasks(s: State, s': State)
    requires HorizonsMade(s, s')
    ensures SameTaskCommands(s.g, s'.g)
  {
  }

  lemma SameTasksTransitive(g: Graph, g': Graph, g'': Graph)
    requires SameTaskCommands(g, g') && SameTaskCommands(g', g'')
    ensures SameTaskCommands(g, g'')
  {
  }

  lemma SameCommandsOfTask(g: Graph, g': Graph, t: nat, task: Task, base: Cid)
    requires CommandsOfTask(g, t, task, base) && SameTaskCommands(g, g')
    ensures CommandsOfTask(g', t, task, base)
  {
    forall c: Cid | IsTaskCommand(g', t, c)
      ensures base <= c < base + |Chunks(task)|
    {
      assert IsTaskCommand(g, t, c);
    }
  }

  lemma TaskCommandsAre(s0: State, g: Graph, g': Graph, t: nat, task: Task, base: Cid)
    requires Inv(s0) && s0.lastTid < t && ChunksMade(s0.g, g, t, Kind(task), Chunks(task), base)
    requires SameTaskCommands(g, g')
    ensures CommandsOfTask(g', t, task, base)
  {
    forall c: Cid | IsTaskCommand(g', t, c)
      ensures base <= c < base + |Chunks(task)|
    {
      assert c in g.commands;
      assert c !in s0.g.commands;
    }
    forall c | base <= c < base + |Chunks(task)|
      ensures c in g'.commands && g'.commands[c] == ChunkCommand(t, Kind(task), Chunks(task)[c - base])
    {
      assert g.commands[c].TaskCommand?;
    }
  }

  function WithCells<V>(m: map<Cell, V>, cells: set<Cell>, v: V): map<Cell, V> {
    map p | p in m.Keys + cells :: if p in cells then v else m[p]
  }

  lemma BufferDomains(s: State, s1: State, cells: set<Cell>, all: seq<nat>)
    requires Domains(s) && cells !! s.sources.Keys
    requires s1 == s.(sources := WithCells<seq<nat>>(s.sources, cells, all), lastWriter := s1.lastWriter)
    requires |all| == s.numNodes && forall i :: 0 <= i < |all| ==> all[i] == i
    requires NodesWith(s, s1.lastWriter, cells, s.numNodes)
    ensures BufferAdded(s, s1, cells)
  {
    forall n: nat | n < s1.numNodes
      ensures s1.lastWriter[n].Keys == s1.sources.Keys
    {
      assert s1.lastWriter[n] == WithCells(s.lastWriter[n], cells, s.init[n]);
    }
  }

  lemma SameCommands(g: Graph, g': Graph)
    requires g'.commands == g.commands
    ensures SameTaskCommands(g, g')
  {
  }

  /** While a compute task is split: the first `i` chunks have their commands, and the original is still there. */
  ghost predicate SplitTo(g: Graph, g': Graph, original: Cid, t: nat, chunks: seq<Chunk>, i: nat) {
    && GraphOk(g') && i <= |chunks| && original == g.nextCid && g'.nextCid == original + 1 + i
    && g'.edges == g.edges && g'.trueEdges == g.trueEdges
    && original in g'.commands && g'.commands[original].TaskCommand?
    && (forall c :: c in g.commands ==> c in g'.commands && g'.commands[c] == g.commands[c])
    && (forall c :: c in g'.commands ==> c in g.commands || original <= c < original + 1 + i)
    && (forall c :: original + 1 <= c < original + 1 + i ==>
                      c in g'.commands && g'.commands[c] == ChunkCommand(t, Compute, chunks[c - original - 1]))
  }

  lemma SplitStep(g: Graph, g': Graph, original: Cid, t: nat, chunks: seq<Chunk>, i: nat)
    requires SplitTo(g, g', original, t, chunks, i) && CommandsOk(g) && i < |chunks| && t > 0
    ensures NewCommandOk(g', ChunkCommand(t, Compute, chunks[i]))
    ensures SplitTo(g, Created(g', ChunkCommand(t, Compute, chunks[i])), original, t, chunks, i + 1)
  {
    hide GraphOk;
    CreateKeepsOk(g', ChunkCommand(t, Compute, chunks[i]));
  }

  lemma SplitStart(g: Graph, g': Graph, original: Cid, t: nat, chunks: seq<Chunk>, whole: Requirements)
    requires GraphOk(g) && t > 0 && original == g.nextCid && g' == Created(g, TaskCommand(0, t, Compute, whole))
    ensures SplitTo(g, g', original, t, chunks, 0)
  {
    CreateKeepsOk(g, TaskCommand(0, t, Compute, whole));
  }

  lemma SplitEnd(g: Graph, g': Graph, original: Cid, t: nat, chunks: seq<Chunk>)
    requires GraphOk(g) && SplitTo(g, g', original, t, chunks, |chunks|)
    ensures original in g'.commands && ChunksMade(g, Erased(g', original), t, Compute, chunks, original + 1)
    ensures forall e :: e in g'.edges ==> e.0 != original && e.1 != original
  {
    assert original !in g.commands;
    EraseOriginal(g, g', original);
  }

  /** The last-writer entries after the previous horizon of one node has been applied. */
  function CompactedNode(lastWriter: map<nat, map<Cell, Cid>>, prev: map<nat, Cid>, n: nat): map<nat, map<Cell, Cid>>
    requires n in lastWriter
  {
    if n in prev then lastWriter[n := CompactedAll(lastWriter[n], prev[n])] else lastWriter
  }

  lemma CompactedNodeIs(lastWriter: map<nat, map<Cell, Cid>>, prev: map<nat, Cid>, n: nat)
    requires n in lastWriter
    ensures var lw := CompactedNode(lastWriter, prev, n);
            && lw.Keys == lastWriter.Keys && lw[n].Keys == lastWriter[n].Keys
            && (forall m :: m in lastWriter && m != n ==> lw[m] == lastWriter[m])
            && (forall p :: p in lastWriter[n] ==> lw[n][p] == Compacted(prev, n, lastWriter[n][p]))
  {
  }

  ghost predicate NodesWith(s: State, lw: map<nat, map<Cell, Cid>>, cells: set<Cell>, i: nat)
    requires Domains(s)
  {
    && (forall n: nat :: n in lw <==> n < s.numNodes)
    && (forall n: nat :: n < s.numNodes ==>
                           lw[n] == if n < i then WithCells(s.lastWriter[n], cells, s.init[n]) else s.lastWriter[n])
  }

  lemma OneMoreNode(s: State, lw: map<nat, map<Cell, Cid>>, cells: set<Cell>, i: nat)
    requires Domains(s) && NodesWith(s, lw, cells, i) && i < s.numNodes
    ensures i in lw && i in s.init && NodesWith(s, lw[i := WithCells(lw[i], cells, s.init[i])], cells, i + 1)
  {
    hide WithCells;
  }

  lemma NoNodeYet(s: State, cells: set<Cell>)
    requires Domains(s)
    ensures NodesWith(s, s.lastWriter, cells, 0)
  {
  }
}

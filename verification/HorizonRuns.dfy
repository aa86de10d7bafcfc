/** Runs through the scheduler's interface in which a horizon breaks what it is meant to keep. */
module HorizonRuns {
  import opened Grid
  import opened Reachability
  import opened Commands
  import opened CommandGraphs
  import opened GeneratorState
  import opened TaskStep
  import opened HorizonStep
  import opened GeneratorSteps
  import opened GeneratorSetup
  import opened GraphGenerators
  import opened GeneratorRuns
  import opened SingleNodeView
  import opened FlushOrder
  import opened GraphSerializers
  import opened Schedulers

  const CELL := Cell(0, Point(0, 0, 0))

  function Access(m: Mode): Requirements {
    map[0 := map[m := {CELL}]]
  }

  function OnMaster(m: Mode): Task {
    MasterAccessTask(Access(m))
  }

  function ReadOnBoth(): Task {
    ComputeTask(Access(Read), [Chunk(0, Access(Read)), Chunk(1, Access(Read))])
  }

  lemma AccessIs(m: Mode)
    ensures RequirementsOk(Access(m), {CELL})
    ensures forall p :: Consumes(Access(m), p) <==> IsConsumer(m) && p == CELL
    ensures forall p :: Produces(Access(m), p) <==> IsProducer(m) && p == CELL
  {
    assert forall m', p :: Needs(Access(m), m', p) <==> m' == m && p == CELL;
  }

  lemma TasksAreOk(m: Mode)
    ensures TaskOk(OnMaster(m), 1, {CELL}) && TaskOk(OnMaster(m), 2, {CELL}) && TaskOk(ReadOnBoth(), 2, {CELL})
    ensures forall n: nat :: OnSomeChunk(OnMaster(m), n) <==> n == 0
    ensures forall n: nat :: OnSomeChunk(ReadOnBoth(), n) <==> n < 2
  {
    hide RequirementsOk, Consumes, Produces;
    AccessIs(m);
    AccessIs(Read);
    assert Chunks(OnMaster(m)) == [Chunk(0, Access(m))];
    assert Chunks(ReadOnBoth()) == [Chunk(0, Access(Read)), Chunk(1, Access(Read))];
    assert Chunks(OnMaster(m))[0].nid == 0 && Chunks(ReadOnBoth())[0].nid == 0 && Chunks(ReadOnBoth())[1].nid == 1;
  }

  /** The cell is the only one, and every node holds it. */
  ghost predicate Held(s: State) {
    s.sources.Keys == {CELL} && forall n: nat :: n < s.numNodes ==> n in s.sources[CELL]
  }

  /** Nothing is transferred then: the new commands are those of the chunks. */
  lemma NewCommands(s: State, t: nat, mid: State, task: Task, base: Cid)
    requires Held(s) && Inv(s) && TaskProcessed(s, t, mid) && CommandsOfTask(mid.g, t, task, base)
    ensures forall c: Cid :: IsNew(s, mid, c) <==> base <= c < base + |Chunks(task)|
    ensures forall c: Cid :: IsNew(s, mid, c) ==> mid.g.commands[c].TaskCommand? && mid.g.commands[c].nid < s.numNodes
  {
    hide *;
    InvParts(s);
    GraphParts(s.g);
    TaskParts(s, t, mid);
    ShapeAfter(s, t, mid);
    NoAwait(s, mid);
    OnlyTaskCommands(s, t, mid);
    NewAreChunks(s, t, mid, task, base);
  }

  lemma ShapeAfter(s: State, t: nat, mid: State)
    requires TaskProcessed(s, t, mid)
    ensures CommandsKnown(mid) && PushesAwaited(mid.g.commands)
  {
  }

  lemma OnlyTaskCommands(s: State, t: nat, mid: State)
    requires CommandsOk(s.g) && Extends(s, mid, t) && PushesAwaited(mid.g.commands)
    requires forall a :: IsNew(s, mid, a) ==> !mid.g.commands[a].AwaitPush?
    ensures forall c: Cid :: IsNew(s, mid, c) ==> mid.g.commands[c].TaskCommand?
  {
    forall a | a in mid.g.commands && mid.g.commands[a].AwaitPush?
      ensures mid.g.commands[a].source in s.g.commands
    {
      assert a in s.g.commands && SourceOk(s.g.commands, s.g.commands[a]);
    }
    forall c: Cid | IsNew(s, mid, c)
      ensures mid.g.commands[c].TaskCommand?
    {
      assert mid.g.commands[c].Push? ==> Awaited(mid.g.commands, c);
    }
  }

  lemma NewAreChunks(s: State, t: nat, mid: State, task: Task, base: Cid)
    requires CommandsKnown(s) && CommandsKnown(mid) && s.lastTid < t && mid.numNodes == s.numNodes
    requires Extends(s, mid, t) && CommandsOfTask(mid.g, t, task, base)
    requires forall c: Cid :: IsNew(s, mid, c) ==> mid.g.commands[c].TaskCommand?
    ensures forall c: Cid :: IsNew(s, mid, c) <==> base <= c < base + |Chunks(task)|
    ensures forall c: Cid :: IsNew(s, mid, c) ==> mid.g.commands[c].nid < s.numNodes
  {
    forall c: Cid | IsNew(s, mid, c)
      ensures base <= c < base + |Chunks(task)|
    {
      assert IsTaskCommand(mid.g, t, c);
    }
  }

  lemma AwaitOutside(s: State, mid: State, a: Cid) returns (p: Cell)
    requires AwaitsNeeded(s, mid) && IsNew(s, mid, a) && mid.g.commands[a].AwaitPush?
    ensures p in s.sources && mid.g.commands[a].nid !in s.sources[p]
  {
    p :| p in mid.g.commands[a].box;
  }

  lemma NoAwait(s: State, mid: State)
    requires Held(s) && AwaitsNeeded(s, mid) && CommandsKnown(mid) && mid.numNodes == s.numNodes
    ensures forall a :: IsNew(s, mid, a) ==> !mid.g.commands[a].AwaitPush?
  {
    forall a | IsNew(s, mid, a)
      ensures !mid.g.commands[a].AwaitPush?
    {
      assert mid.g.commands[a].nid in s.sources[CELL];
      if mid.g.commands[a].AwaitPush? {
        var p := AwaitOutside(s, mid, a);
      }
    }
  }

  // ------------------------------------------------------------- depth

  /** The most recent horizon of some node is the deepest command. */
  ghost predicate DeepestIsHorizon(s: State) {
    exists n :: n in s.prevHorizon && s.prevHorizon[n] in s.g.pathLength
                  && s.g.pathLength[s.prevHorizon[n]] == s.g.maxPathLength
  }

  ghost predicate DeepestInFront(s: State) {
    exists n: nat, c: Cid :: n < s.numNodes && InFront(s.g, n, c) && c in s.g.pathLength
                               && s.g.pathLength[c] == s.g.maxPathLength
  }

  lemma DeepestStays(s: State, t: nat, mid: State)
    requires Inv(s) && RunInv(mid) && TaskProcessed(s, t, mid) && PathsGrow(s.g, mid.g)
    requires forall c: Cid :: IsNew(s, mid, c) ==> mid.g.commands[c].TaskCommand? && mid.g.commands[c].nid < s.numNodes
    requires DeepestIsHorizon(s) || mid.g.maxPathLength > s.g.maxPathLength
    ensures DeepestInFront(mid)
  {
    hide TasksFed, PushesFed, WritersOrdered, PushesBeforeOverwrite, SourcesUpdated, LastWritersUpdated, EdgesJustified;
    hide Order, Data;
    hide OneWriterPerTask, PushesAwaited, AwaitHasReader, ReadsRecorded, AwaitsNeeded, CidsByTask;
    if mid.g.maxPathLength > s.g.maxPathLength {
      var a: Cid, b: Cid :| Raises(s.g, mid.g, a, b);
      assert IsNew(s, mid, a) && IsTaskCommand(mid.g, t, a);
      TaskCommandInFront(s, t, mid, a);
    } else {
      var n :| n in s.prevHorizon && s.prevHorizon[n] in s.g.pathLength
          && s.g.pathLength[s.prevHorizon[n]] == s.g.maxPathLength;
      DeepHorizon(s, mid, n);
    }
  }

  lemma DeepHorizon(s: State, mid: State, n: nat)
    requires Domains(mid) && PrevHorizonsOk(mid) && PrevHorizonsUnused(mid) && CommandsOk(mid.g) && PrevHorizonsOk(s)
    requires n < mid.numNodes && mid.prevHorizon == s.prevHorizon && PathsGrow(s.g, mid.g)
    requires mid.g.maxPathLength == s.g.maxPathLength
    requires n in s.prevHorizon && s.prevHorizon[n] in s.g.pathLength
    requires s.g.pathLength[s.prevHorizon[n]] == s.g.maxPathLength
    ensures DeepestInFront(mid)
  {
    var h := mid.prevHorizon[n];
    assert h in s.g.commands && mid.g.pathLength[h] == mid.g.maxPathLength;
    assert InFront(mid.g, n, h);
  }

  /** A horizon on top of the deepest command is deeper. */
  lemma HorizonIsDeeper(mid: State, s: State)
    requires DeepestInFront(mid) && CommandsOk(mid.g) && CommandsOk(s.g) && HorizonsAdded(mid, s)
    requires PathsGrow(mid.g, s.g)
    ensures s.g.maxPathLength > mid.g.maxPathLength && DeepestIsHorizon(s)
  {
    var n: nat, c: Cid :| n < mid.numNodes && InFront(mid.g, n, c) && c in mid.g.pathLength
        && mid.g.pathLength[c] == mid.g.maxPathLength;
    assert (s.prevHorizon[n], c) in s.g.edges;
    assert (s.prevHorizon[n], c) !in mid.g.edges;
    assert s.prevHorizon[n] in s.g.commands;
    assert s.g.pathLength[s.prevHorizon[n]] > mid.g.maxPathLength;
    var a: Cid, b: Cid :| Raises(mid.g, s.g, a, b);
    assert OnFront(mid, s, a, b);
    assert s.prevHorizon[s.g.commands[a].nid] == a;
  }

  /** A command that reads a cell on its node is deeper than the last writer of it. */
  lemma ReaderIsDeep(s: State, t: nat, mid: State, r: Cid)
    requires Held(s) && Domains(s) && TasksFed(s, mid) && EdgesOk(mid.g) && CommandsOk(mid.g) && PathsGrow(s.g, mid.g)
    requires EdgesOk(s.g)
    requires IsNew(s, mid, r) && mid.g.commands[r].TaskCommand? && Reads(mid.g.commands[r], CELL)
    requires mid.g.commands[r].nid < s.numNodes
    requires s.lastWriter[mid.g.commands[r].nid][CELL] in s.g.commands
    requires forall a :: IsNew(s, mid, a) ==> !mid.g.commands[a].AwaitPush?
    ensures mid.g.maxPathLength > 0
  {
    assert FedFrom(s, mid, r, CELL);
  }

  // ------------------------------------------------------------- one task

  /** What the runs keep between tasks: everything about the state, and that the next task is due for horizons. */
  ghost predicate Ready(s: State, prevMax: nat, nodes: nat) {
    && RunInv(s) && Held(s) && s.numNodes == nodes
    && (forall n: nat :: n < nodes ==> s.lastWriter[n][CELL] in s.g.commands)
    && (s.prevHorizon == map[] || (DeepestIsHorizon(s) && s.g.maxPathLength > prevMax))
    && (s.prevHorizon == map[] ==> s.g.maxPathLength == 0 == prevMax)
  }

  lemma FirstReady(s: State, s': State, nodes: nat)
    requires Initial(s) && s.numNodes == nodes > 0 && BufferAdded(s, s', {CELL})
    ensures Ready(s', 0, nodes)
  {
    hide *;
    InitialRunInv(s);
    InitialParts(s);
    BufferKeepsRunInv(s, s', {CELL});
    BufferParts(s, s');
    ReadyAtFirst(s', nodes);
  }

  lemma BufferParts(s: State, s': State)
    requires Initial(s) && BufferAdded(s, s', {CELL})
    ensures Held(s') && Domains(s') && s'.numNodes == s.numNodes && s'.prevHorizon == map[] && s'.g.maxPathLength == 0
    ensures forall n: nat :: n < s'.numNodes ==> s'.lastWriter[n][CELL] in s'.g.commands
  {
    InitsThere(s);
    hide Initial, Domains;
    assert s'.sources.Keys == {CELL};
    forall n: nat | n < s'.numNodes
      ensures n in s'.sources[CELL]
    {
      assert s'.sources[CELL][n] == n;
    }
  }

  lemma InitsThere(s: State)
    requires Initial(s)
    ensures s.sources == map[] && s.prevHorizon == map[] && s.g.maxPathLength == 0
    ensures forall n: nat :: n < s.numNodes ==> n in s.init && s.init[n] in s.g.commands
  {
  }

  lemma ReadyAtFirst(s: State, nodes: nat)
    requires RunInv(s) && Held(s) && Domains(s) && s.numNodes == nodes && s.prevHorizon == map[]
    requires s.g.maxPathLength == 0 && forall n: nat :: n < s.numNodes ==> s.lastWriter[n][CELL] in s.g.commands
    ensures Ready(s, 0, nodes)
  {
    hide RunInv, Held, Domains;
  }

  /** A task that reads the cell on some node makes horizons due, whether it is the first one or not. */
  lemma ReadIsDue(s: State, prevMax: nat, nodes: nat, t: nat, mid: State, task: Task, base: Cid)
    requires Ready(s, prevMax, nodes) && TaskProcessed(s, t, mid) && CommandsOfTask(mid.g, t, task, base)
    requires PathsGrow(s.g, mid.g)
    requires |Chunks(task)| > 0 && forall i :: 0 <= i < |Chunks(task)| ==> Chunks(task)[i].reqs == Access(Read)
    ensures RunInv(mid) && DeepestInFront(mid) && HorizonDue(mid, prevMax, 1)
  {
    hide *;
    ReadyParts(s, prevMax, nodes);
    TaskKeepsRunInv(s, t, mid);
    RunInvParts(s);
    RunInvParts(mid);
    TaskParts(s, t, mid);
    NewCommands(s, t, mid, task, base);
    FirstChunk(mid.g, t, task, base);
    if s.prevHorizon == map[] {
      NoAwait(s, mid);
      ReaderIsDeep(s, t, mid, base);
    }
    DeepestStays(s, t, mid);
    Due(s, mid, prevMax);
  }

  lemma Due(s: State, mid: State, prevMax: nat)
    requires PathsGrow(s.g, mid.g) && (s.g.maxPathLength > prevMax || (mid.g.maxPathLength > 0 == prevMax))
    ensures HorizonDue(mid, prevMax, 1)
  {
  }

  lemma FirstChunk(g: Graph, t: nat, task: Task, base: Cid)
    requires CommandsOfTask(g, t, task, base) && |Chunks(task)| > 0 && Chunks(task)[0].reqs == Access(Read)
    ensures base in g.commands && g.commands[base].TaskCommand? && Reads(g.commands[base], CELL)
  {
    AccessIs(Read);
    assert g.commands[base] == ChunkCommand(t, Kind(task), Chunks(task)[0]);
  }

  lemma ReadyParts(s: State, prevMax: nat, nodes: nat)
    requires Ready(s, prevMax, nodes)
    ensures RunInv(s) && Held(s) && Domains(s) && s.numNodes == nodes
    ensures forall n: nat :: n < nodes ==> s.lastWriter[n][CELL] in s.g.commands
    ensures s.prevHorizon == map[] || (DeepestIsHorizon(s) && s.g.maxPathLength > prevMax)
    ensures s.prevHorizon == map[] ==> s.g.maxPathLength == 0 == prevMax
  {
  }

  lemma RunInvParts(s: State)
    requires RunInv(s)
    ensures Inv(s) && Domains(s) && CommandsKnown(s) && CommandsOk(s.g) && EdgesOk(s.g) && PrevHorizonsOk(s)
    ensures PrevHorizonsUnused(s)
  {
  }

  lemma TaskParts(s: State, t: nat, mid: State)
    requires TaskProcessed(s, t, mid)
    ensures Domains(s) && TasksFed(s, mid) && AwaitsNeeded(s, mid) && s.lastTid < t == mid.lastTid && Extends(s, mid, t)
    ensures mid.numNodes == s.numNodes && mid.prevHorizon == s.prevHorizon
  {
  }

  /** The horizons make the next task ready. */
  lemma HorizonsReady(s: State, prevMax: nat, nodes: nat, t: nat, mid: State, s': State, task: Task, base: Cid)
    requires Ready(s, prevMax, nodes) && TaskProcessed(s, t, mid) && CommandsOfTask(mid.g, t, task, base)
    requires PathsGrow(s.g, mid.g)
    requires |Chunks(task)| > 0 && forall i :: 0 <= i < |Chunks(task)| ==> Chunks(task)[i].reqs == Access(Read)
    requires HorizonsMade(mid, s') && PathsGrow(mid.g, s'.g)
    ensures Ready(s', mid.g.maxPathLength, nodes)
    ensures forall n: nat :: n < nodes ==> mid.lastWriter[n][CELL] == s.lastWriter[n][CELL]
  {
    hide *;
    ReadIsDue(s, prevMax, nodes, t, mid, task, base);
    HorizonKeepsRunInv(mid, s');
    ReadyParts(s, prevMax, nodes);
    RunInvParts(s);
    RunInvParts(mid);
    RunInvParts(s');
    NewCommands(s, t, mid, task, base);
    OnlyReads(s, t, mid, task, base);
    StillHeld(s, t, mid, s');
    HorizonIsDeeper(mid, s');
    ReadyFromParts(mid, s', nodes);
  }

  lemma OnlyReads(s: State, t: nat, mid: State, task: Task, base: Cid)
    requires CommandsOfTask(mid.g, t, task, base)
    requires forall c: Cid :: IsNew(s, mid, c) <==> base <= c < base + |Chunks(task)|
    requires forall i :: 0 <= i < |Chunks(task)| ==> Chunks(task)[i].reqs == Access(Read)
    ensures forall c, p :: IsNew(s, mid, c) ==> !Writes(mid.g.commands[c], p)
  {
    AccessIs(Read);
    forall c: Cid | IsNew(s, mid, c)
      ensures forall p :: !Writes(mid.g.commands[c], p)
    {
      assert mid.g.commands[c] == ChunkCommand(t, Kind(task), Chunks(task)[c - base]);
    }
  }

  lemma StillHeld(s: State, t: nat, mid: State, s': State)
    requires Held(s) && TaskProcessed(s, t, mid) && HorizonsMade(mid, s')
    requires forall c, p :: IsNew(s, mid, c) ==> !Writes(mid.g.commands[c], p)
    ensures Held(mid) && Held(s') && s'.numNodes == mid.numNodes == s.numNodes && HorizonsAdded(mid, s') && Domains(s)
    ensures Domains(mid)
    ensures forall n: nat :: n < s.numNodes ==> mid.lastWriter[n][CELL] == s.lastWriter[n][CELL]
  {
    hide *;
    UpdateParts(s, t, mid);
    MadeParts(mid, s');
    HeldAfterTask(s, mid);
    HeldAfterHorizons(mid, s');
  }

  lemma UpdateParts(s: State, t: nat, mid: State)
    requires TaskProcessed(s, t, mid)
    ensures Domains(s) && Domains(mid) && s.numNodes == mid.numNodes && mid.sources.Keys == s.sources.Keys
    ensures SourcesUpdated(s, mid) && LastWritersUpdated(s, mid)
  {
  }

  lemma MadeParts(mid: State, s': State)
    requires HorizonsMade(mid, s')
    ensures HorizonsAdded(mid, s') && s'.sources == mid.sources && s'.numNodes == mid.numNodes
  {
  }

  lemma HeldAfterTask(s: State, mid: State)
    requires Held(s) && Domains(s) && Domains(mid) && s.numNodes == mid.numNodes && mid.sources.Keys == s.sources.Keys
    requires SourcesUpdated(s, mid) && LastWritersUpdated(s, mid)
    requires forall c, p :: IsNew(s, mid, c) ==> !Writes(mid.g.commands[c], p)
    ensures Held(mid) && forall n: nat :: n < s.numNodes ==> mid.lastWriter[n][CELL] == s.lastWriter[n][CELL]
  {
    forall n: nat | n < s.numNodes
      ensures mid.lastWriter[n][CELL] == s.lastWriter[n][CELL]
    {
      assert WriterUpdated(s, mid, n, CELL);
      var e := mid.lastWriter[n][CELL];
      assert IsNew(s, mid, e) ==> !Writes(mid.g.commands[e], CELL);
    }
    NotComputed(s, mid);
    assert NodesAdded(s, mid, CELL);
    forall n: nat | n < s.numNodes
      ensures n in mid.sources[CELL]
    {
      assert n in s.sources[CELL];
      var i :| 0 <= i < |s.sources[CELL]| && s.sources[CELL][i] == n;
      assert mid.sources[CELL][i] == n;
    }
  }

  lemma NotComputed(s: State, mid: State)
    requires forall c, p :: IsNew(s, mid, c) ==> !Writes(mid.g.commands[c], p)
    ensures !NewlyComputed(s, mid, CELL)
  {
    forall c | IsNew(s, mid, c)
      ensures !Computes(mid.g.commands[c], CELL)
    {
      assert !Writes(mid.g.commands[c], CELL);
    }
  }

  lemma HeldAfterHorizons(mid: State, s': State)
    requires Held(mid) && s'.sources == mid.sources && s'.numNodes == mid.numNodes
    ensures Held(s')
  {
  }

  lemma ReadyFromParts(mid: State, s': State, nodes: nat)
    requires RunInv(s') && Held(s') && s'.numNodes == mid.numNodes == nodes > 0 && HorizonsAdded(mid, s')
    requires DeepestIsHorizon(s') && s'.g.maxPathLength > mid.g.maxPathLength
    ensures Ready(s', mid.g.maxPathLength, nodes)
  {
    hide Order, Data, GraphOk, PrevHorizonsUnused, CidsByTask, OnFront;
    assert 0 in s'.prevHorizon;
    EntriesKnown(s');
  }

  lemma EntriesKnown(s: State)
    requires RunInv(s) && CELL in s.sources
    ensures forall n: nat :: n < s.numNodes ==> s.lastWriter[n][CELL] in s.g.commands
  {
    forall n: nat | n < s.numNodes
      ensures s.lastWriter[n][CELL] in s.g.commands
    {
      assert EntryCovers(s, n, CELL);
    }
  }

  // ------------------------------------------------------------- the late reader

  /** Horizons do not order earlier commands. */
  lemma RaceStays(mid: State, s: State, x: Cid, r: Cid, p: Cell)
    requires Inv(mid) && Inv(s) && HorizonsMade(mid, s) && OverwritesRead(mid.g, x, r, p)
    requires !Reaches(Waits(mid.g), x, r)
    ensures OverwritesRead(s.g, x, r, p) && !Reaches(Waits(s.g), x, r)
  {
    hide Inv, GraphOk, Waits, OverwritesRead;
    InvParts(mid);
    GraphParts(mid.g);
    InvParts(s);
    GraphParts(s.g);
    SameOverwrite(mid, s, x, r, p);
    forall a, b | (a, b) in Waits(s.g) && a in mid.g.commands
      ensures (a, b) in Waits(mid.g) && b in mid.g.commands
    {
      SameWait(mid, s, a, b);
    }
    if Reaches(Waits(s.g), x, r) {
      ReachesFrom(Waits(s.g), Waits(mid.g), mid.g.commands.Keys, x, r);
    }
  }

  lemma SameOverwrite(mid: State, s: State, x: Cid, r: Cid, p: Cell)
    requires CommandsStay(mid, s) && OverwritesRead(mid.g, x, r, p)
    ensures OverwritesRead(s.g, x, r, p) && x in mid.g.commands
  {
  }

  lemma SameWait(mid: State, s: State, a: Cid, b: Cid)
    requires HorizonsAdded(mid, s) && EdgesOk(mid.g) && CommandsOk(mid.g) && (a, b) in Waits(s.g) && a in mid.g.commands
    ensures (a, b) in Waits(mid.g) && b in mid.g.commands
  {
    assert !OnFront(mid, s, a, b);
  }

  /** A task that only reads the cell, which is always followed by horizons. */
  method BuildRead(gen: GraphGenerator, t: nat, task: Task, ghost nodes: nat)
    returns (ghost base: Cid, ghost mid: State)
    requires gen.Valid() && gen.horizonStepSize == 1 && t > gen.lastTid
    requires Ready(gen.S(), gen.prevHorizonCpathMax, nodes)
    requires TaskOk(task, nodes, {CELL}) && gen.bufferStates.Keys == {CELL} && gen.numNodes == nodes
    requires |Chunks(task)| > 0 && forall i :: 0 <= i < |Chunks(task)| ==> Chunks(task)[i].reqs == Access(Read)
    requires forall n: nat :: n < nodes ==> HasWork(gen.cdag.Value(), n) || OnSomeChunk(task, n)
    modifies gen, gen.cdag
    ensures gen.Valid() && gen.horizonStepSize == 1 && gen.lastTid == t
    ensures Ready(gen.S(), gen.prevHorizonCpathMax, nodes)
    ensures gen.bufferStates.Keys == {CELL}
    ensures TaskProcessed(old(gen.S()), t, mid) && CommandsOfTask(mid.g, t, task, base) && RunInv(mid)
    ensures HorizonsMade(mid, gen.S())
    ensures Domains(mid) && Domains(old(gen.S()))
    ensures forall n: nat :: n < nodes ==> mid.lastWriter[n][CELL] == old(gen.bufferLastWriter[n][CELL])
  {
    hide Inv, GraphOk, TaskProcessed, HorizonsMade, CommandsOfTask, TaskOk, Ready, RunInv, PathsGrow, IsRun, Measured;
    hide LengthsAreDepths, HasDepth, IsDeep, HasWork;
    hide OnSomeChunk;
    hide Held, Chunks, Access, Domains;
    ghost var s, prev := gen.S(), gen.prevHorizonCpathMax;
    ReadyParts(s, prev, nodes);
    var ok;
    ok, base, mid := gen.BuildTask(t, task);
    ReadIsDue(s, prev, nodes, t, mid, task, base);
    RunInvParts(mid);
    HorizonsReady(s, prev, nodes, t, mid, gen.S(), task, base);
    KeysStay(s, t, mid, gen.S());
  }

  /**
    * One node, a horizon after every step of depth. The contents of the cell are read by the first task, and by the
    * second one after the first horizon. The second horizon puts the first one in the place of the init command, so
    * that the third task, which overwrites the cell, does not wait for the second reader.
    */
  method OverwriteAfterLateRead() returns (gen: GraphGenerator, ghost x: Cid, ghost r: Cid)
    ensures gen.Valid() && gen.horizonStepSize == 1 && gen.numNodes == 1
    ensures OverwritesRead(gen.cdag.Value(), x, r, CELL) && !Reaches(Waits(gen.cdag.Value()), x, r)
    ensures !View(gen.cdag.Value(), CELL)
  {
    hide Inv, GraphOk, TaskProcessed, HorizonsMade, BufferAdded, Initial, CommandsOfTask, TaskOk, OnMaster, ReadOnBoth;
    hide Ready, RunInv;
    hide PathsGrow, IsRun, Measured, LengthsAreDepths, HasDepth, IsDeep, LateReader, OverwritesRead, Waits, Reaches;
    hide View;
    hide HasWork, OnSomeChunk, Held, Chunks;
    hide Domains;
    TasksAreOk(Read);
    TasksAreOk(DiscardWrite);
    ReadChunks();
    gen := OneCellGenerator(1);
    ghost var s1 := gen.S();
    ghost var base1, mid1 := BuildRead(gen, 1, OnMaster(Read), 1);
    ghost var s2, prev := gen.S(), gen.prevHorizonCpathMax;
    ghost var mid2: State;
    r, mid2 := BuildRead(gen, 2, OnMaster(Read), 1);
    ghost var s3 := gen.S();
    ReadyParts(s2, prev, 1);
    ReadyParts(s3, gen.prevHorizonCpathMax, 1);
    SecondReadIsLate(s1, mid1, s2, mid2, r);
    ghost var mid3: State;
    var ok;
    ok, x, mid3 := gen.BuildTask(3, OnMaster(DiscardWrite));
    OverwriteRaces(mid2, s3, mid3, r, x);
    RaceAtEnd(mid3, gen.S(), x, r);
  }

  method OneCellGenerator(nodes: nat) returns (gen: GraphGenerator)
    requires nodes > 0
    ensures fresh(gen) && fresh(gen.cdag) && gen.Valid() && gen.horizonStepSize == 1 && gen.numNodes == nodes
    ensures gen.lastTid == 0
    ensures gen.bufferStates.Keys == {CELL}
    ensures gen.prevHorizonCmds == map[] && gen.prevHorizonCpathMax == 0 && Ready(gen.S(), 0, nodes)
    ensures forall c :: c in gen.cdag.commands ==> gen.cdag.commands[c].Nop?
  {
    hide Inv, GraphOk, BufferAdded, Initial, Ready, RunInv, IsRun, Measured, LengthsAreDepths, HasDepth, IsDeep;
    var cdag := new CommandGraph();
    gen := new GraphGenerator(nodes, cdag);
    gen.SetHorizonStepSize(1);
    ghost var s0 := gen.S();
    InitialParts(s0);
    gen.AddBuffer({CELL});
    FirstReady(s0, gen.S(), nodes);
    FirstBuffer(s0, gen.S());
  }

  lemma RaceAtEnd(mid: State, s: State, x: Cid, r: Cid)
    requires Inv(mid) && Inv(s) && (s == mid || HorizonsMade(mid, s)) && OverwritesRead(mid.g, x, r, CELL)
    requires !Reaches(Waits(mid.g), x, r)
    ensures OverwritesRead(s.g, x, r, CELL) && !Reaches(Waits(s.g), x, r) && !View(s.g, CELL)
  {
    hide *;
    if s != mid { RaceStays(mid, s, x, r, CELL); }
    WriterFirstIsWrong(s, x, r, CELL);
  }

  lemma ReadChunks()
    ensures |Chunks(OnMaster(Read))| > 0
    ensures forall i :: 0 <= i < |Chunks(OnMaster(Read))| ==> Chunks(OnMaster(Read))[i].reqs == Access(Read)
    ensures |Chunks(ReadOnBoth())| > 0
    ensures forall i :: 0 <= i < |Chunks(ReadOnBoth())| ==> Chunks(ReadOnBoth())[i].reqs == Access(Read)
  {
  }

  lemma InitialParts(s: State)
    requires Initial(s)
    ensures s.sources == map[] && s.lastTid == 0 && forall c :: c in s.g.commands ==> s.g.commands[c].Nop?
  {
  }

  lemma FirstBuffer(s: State, s': State)
    requires Initial(s) && BufferAdded(s, s', {CELL})
    ensures s'.sources.Keys == {CELL} && s'.prevHorizon == map[] && s'.lastTid == 0
  {
  }

  lemma KeysStay(s: State, t: nat, mid: State, s': State)
    requires TaskProcessed(s, t, mid) && HorizonsMade(mid, s')
    ensures s'.sources.Keys == s.sources.Keys && s'.lastTid == t && mid.prevHorizon == s.prevHorizon
  {
  }

  lemma SecondReadIsLate(s1: State, mid1: State, s2: State, mid2: State, r: Cid)
    requires Ready(s1, 0, 1) && s1.prevHorizon == map[] && TaskProcessed(s1, 1, mid1) && HorizonsMade(mid1, s2)
    requires Domains(mid1) && Domains(s1) && mid1.lastWriter[0][CELL] == s1.lastWriter[0][CELL]
    requires RunInv(mid1) && RunInv(s2) && Held(s2) && TaskProcessed(s2, 2, mid2)
    requires CommandsOfTask(mid2.g, 2, OnMaster(Read), r)
    ensures LateReader(mid2, 0, CELL, r)
  {
    hide *;
    ReadChunks();
    RunInvParts(mid1);
    RunInvParts(s2);
    FirstHorizon(s1, mid1, s2);
    NewCommands(s2, 2, mid2, OnMaster(Read), r);
    MasterChunk(Read);
    OnlyReads(s2, 2, mid2, OnMaster(Read), r);
    FirstChunk(mid2.g, 2, OnMaster(Read), r);
    OnNodeZero(s2, mid2, r);
    LateReaderArises(s2, 2, mid2, 0, CELL, r);
  }

  lemma OnNodeZero(s: State, mid: State, r: Cid)
    requires Held(s) && s.numNodes == 1 && IsNew(s, mid, r) && mid.g.commands[r].nid < s.numNodes
    ensures mid.g.commands[r].nid == 0 && CELL in s.sources && 0 in s.sources[CELL]
  {
  }

  /** The first horizon applies nothing. */
  lemma FirstHorizon(s1: State, mid1: State, s2: State)
    requires Ready(s1, 0, 1) && s1.prevHorizon == map[] && TaskProcessed(s1, 1, mid1) && HorizonsMade(mid1, s2)
    requires Domains(mid1) && Domains(s1) && CommandsOk(mid1.g) && mid1.lastWriter[0][CELL] == s1.lastWriter[0][CELL]
    ensures s2.numNodes == 1 && CELL in s2.sources && 0 in s2.prevHorizon && s2.lastWriter[0][CELL] < s2.prevHorizon[0]
  {
    hide PushesFed, WritersOrdered, PushesBeforeOverwrite, EdgesJustified, TasksFed, AwaitsNeeded, SourcesUpdated;
    hide LastWritersUpdated;
    hide RunInv, Shape, GraphOk, OnFront, IsLate, DeepestIsHorizon;
    assert mid1.lastWriter[0][CELL] in mid1.g.commands;
  }

  lemma MasterChunk(m: Mode)
    ensures |Chunks(OnMaster(m))| == 1 && Chunks(OnMaster(m))[0] == Chunk(0, Access(m))
  {
  }

  lemma OverwriteRaces(mid2: State, s3: State, mid3: State, r: Cid, x: Cid)
    requires RunInv(mid2) && LateReader(mid2, 0, CELL, r) && HorizonsMade(mid2, s3) && Held(s3)
    requires TaskProcessed(s3, 3, mid3) && CommandsOfTask(mid3.g, 3, OnMaster(DiscardWrite), x)
    ensures OverwritesRead(mid3.g, x, r, CELL) && !Reaches(Waits(mid3.g), x, r)
  {
    hide *;
    HorizonKeepsRunInv(mid2, s3);
    RunInvParts(s3);
    NewCommands(s3, 3, mid3, OnMaster(DiscardWrite), x);
    MasterChunk(DiscardWrite);
    Overwriter(mid3.g, x);
    LateReaderRaces(mid2, s3, 3, mid3, 0, CELL, r, x);
  }

  lemma Overwriter(g: Graph, x: Cid)
    requires CommandsOfTask(g, 3, OnMaster(DiscardWrite), x)
    ensures x in g.commands && g.commands[x].nid == 0 && Computes(g.commands[x], CELL)
    ensures forall q :: Writes(g.commands[x], q) ==> q == CELL
    ensures forall q :: !Reads(g.commands[x], q)
  {
    AccessIs(DiscardWrite);
    assert g.commands[x] == ChunkCommand(3, MasterAccess, Chunks(OnMaster(DiscardWrite))[0]);
  }

  // ------------------------------------------------------------- the stranded horizon

  /**
    * Flushing task `t` has to emit horizon `h`, but not the earlier horizon `d` that it depends on and that is not
    * flushed.
    */
  ghost predicate FlushBlocked(g: Graph, t: nat, flushed: set<Cid>, h: Cid, d: Cid) {
    && EmittedBy(g, t, h) && (h, d) in g.edges
    && d in g.commands && g.commands[d].Horizon? && 0 < g.commands[d].tid < t && d !in flushed
    && forall x :: (x, d) in g.edges ==> x == h
  }

  /** Whatever commands of the task are emitted in whatever order, the horizon cannot be among them. */
  lemma NeverEmitted(g: Graph, t: nat, log: seq<Packet>, flushed: set<Cid>, more: seq<Packet>, all: set<Cid>, h: Cid,
                     d: Cid)
    requires FlushBlocked(g, t, flushed, h, d) && LogOk(g, log, flushed)
    requires LogOk(g, log + more, all) && forall i :: 0 <= i < |more| ==> EmittedBy(g, t, more[i].cid)
    ensures h !in all
  {
    EmittedOrFlushed(g, t, log, flushed, more, all);
    assert d !in all;
    if h in all { DependencyEmitted(g, log + more, all, h, d); }
  }

  lemma EmittedOrFlushed(g: Graph, t: nat, log: seq<Packet>, flushed: set<Cid>, more: seq<Packet>, all: set<Cid>)
    requires LogOk(g, log, flushed) && LogOk(g, log + more, all)
    requires forall i :: 0 <= i < |more| ==> EmittedBy(g, t, more[i].cid)
    ensures forall c :: c in all ==> c in flushed || EmittedBy(g, t, c)
  {
    forall c | c in all
      ensures c in flushed || EmittedBy(g, t, c)
    {
      assert EmittedBefore(log + more, |log + more|, c);
      var i :| 0 <= i < |log + more| && (log + more)[i].cid == c;
      if i < |log| {
        assert log[i].cid in flushed;
      } else {
        assert more[i - |log|].cid == c;
      }
    }
  }

  lemma DependencyEmitted(g: Graph, log: seq<Packet>, flushed: set<Cid>, c: Cid, d: Cid)
    requires LogOk(g, log, flushed) && c in flushed && (c, d) in g.edges && d in g.commands && !g.commands[d].Nop?
    ensures d in flushed
  {
    assert EmittedBefore(log, |log|, c);
    var i :| 0 <= i < |log| && log[i].cid == c;
    assert PacketOk(g, log, i);
    var j :| 0 <= j < i && log[j].cid == d;
  }

  /**
    * A horizon on node 1 that nothing depends on is below the next horizon of that node, and nothing else comes
    * between.
    */
  lemma NextHorizonBlocked(s: State, t: nat, mid: State, s': State, task: Task, base: Cid, flushed: set<Cid>, d: Cid)
    requires Inv(s) && Inv(s') && Built(s, t, mid, s', true) && CommandsOfTask(s'.g, t, task, base)
    requires OnSomeChunk(task, 1)
    requires RunInv(mid) && 1 in s.prevHorizon && s.prevHorizon[1] == d && d !in flushed && 1 < s.numNodes
    ensures 1 in s'.prevHorizon && FlushBlocked(s'.g, t, flushed, s'.prevHorizon[1], d)
  {
    hide *;
    RunInvParts(mid);
    BuiltIs(s, t, mid, s');
    TaskParts(s, t, mid);
    MadeParts(mid, s');
    InvParts(s);
    NewHorizon(s, t, mid, s', d);
    BuiltHorizons(s, t, mid, s', true, s'.prevHorizon[1]);
    NodeHasChunk(s'.g, t, task, base, 1);
    BlockedFromParts(s'.g, t, flushed, s'.prevHorizon[1], d);
  }

  lemma BuiltIs(s: State, t: nat, mid: State, s': State)
    requires Built(s, t, mid, s', true)
    ensures TaskProcessed(s, t, mid) && HorizonsMade(mid, s')
  {
  }

  lemma NewHorizon(s: State, t: nat, mid: State, s': State, d: Cid)
    requires Domains(mid) && PrevHorizonsOk(mid) && PrevHorizonsUnused(mid) && EdgesOk(mid.g) && CommandsOk(mid.g)
    requires CommandsKnown(s)
    requires Extends(s, mid, t) && PrevHorizonsOk(s) && s.lastTid < t == mid.lastTid && HorizonsAdded(mid, s')
    requires 1 < mid.numNodes
    requires 1 in s.prevHorizon && s.prevHorizon[1] == d
    ensures 1 in s'.prevHorizon && s'.prevHorizon[1] in s'.g.commands
    ensures s'.g.commands[s'.prevHorizon[1]] == Horizon(1, t) && (s'.prevHorizon[1], d) in s'.g.edges
    ensures d in s'.g.commands && s'.g.commands[d].Horizon? && 0 < s'.g.commands[d].tid < t
    ensures forall x :: (x, d) in s'.g.edges ==> x == s'.prevHorizon[1]
  {
    assert InFront(mid.g, 1, d);
    forall x | (x, d) in s'.g.edges
      ensures x == s'.prevHorizon[1]
    {
      assert OnFront(mid, s', x, d);
    }
  }

  lemma BlockedFromParts(g: Graph, t: nat, flushed: set<Cid>, h: Cid, d: Cid)
    requires h in g.commands && g.commands[h] == Horizon(1, t) && HangsOff(g, t, h) && (h, d) in g.edges
    requires d in g.commands && g.commands[d].Horizon? && 0 < g.commands[d].tid < t && d !in flushed
    requires forall x :: (x, d) in g.edges ==> x == h
    ensures FlushBlocked(g, t, flushed, h, d)
  {
  }

  /** Schedules a task that only reads the cell. */
  method ScheduleRead(scheduler: Scheduler, t: nat, task: Task, ghost nodes: nat)
    returns (ghost base: Cid, ghost mid: State)
    requires scheduler.Valid() && scheduler.gen.horizonStepSize == 1 && t > scheduler.gen.lastTid
    requires scheduler.gen.numNodes == nodes
    requires Ready(scheduler.gen.S(), scheduler.gen.prevHorizonCpathMax, nodes)
    requires TaskOk(task, nodes, {CELL}) && scheduler.gen.bufferStates.Keys == {CELL}
    requires |Chunks(task)| > 0 && forall i :: 0 <= i < |Chunks(task)| ==> Chunks(task)[i].reqs == Access(Read)
    requires forall n: nat :: n < nodes ==> HasWork(scheduler.gen.cdag.Value(), n) || OnSomeChunk(task, n)
    modifies scheduler.gen, scheduler.gen.cdag, scheduler.serializer
    ensures scheduler.gen.Valid() && scheduler.gen.horizonStepSize == 1 && scheduler.gen.lastTid == t
    ensures Ready(scheduler.gen.S(), scheduler.gen.prevHorizonCpathMax, nodes)
    ensures scheduler.gen.bufferStates.Keys == {CELL}
    ensures CommandsOfTask(scheduler.gen.cdag.Value(), t, task, base)
    ensures Built(old(scheduler.gen.S()), t, mid, scheduler.gen.S(), true)
    ensures LogOk(scheduler.gen.cdag.Value(), scheduler.serializer.log, scheduler.serializer.flushed)
    ensures forall c :: StrandedHorizon(scheduler.gen.cdag.Value(), t, c) ==> c !in scheduler.serializer.flushed
    ensures (forall n: nat :: n < nodes ==> OnSomeChunk(task, n)) ==> scheduler.Valid()
  {
    hide Inv, GraphOk, TaskProcessed, HorizonsMade, CommandsOfTask, TaskOk, Ready, RunInv, PathsGrow, IsRun, Measured;
    hide LengthsAreDepths, HasDepth, IsDeep, HasWork;
    hide OnSomeChunk;
    hide Held, Chunks, Access, Domains, LogOk, Built, HorizonDue, StrandedHorizon;
    ghost var s, prev := scheduler.gen.S(), scheduler.gen.prevHorizonCpathMax;
    ReadyParts(s, prev, nodes);
    ghost var due;
    var ok;
    ok, base, mid, due := scheduler.Schedule(t, task);
    ghost var s' := scheduler.gen.S();
    ReadIsDue(s, prev, nodes, t, mid, task, base);
    BuiltIs(s, t, mid, s');
    HorizonsReady(s, prev, nodes, t, mid, s', task, base);
    KeysStay(s, t, mid, s');
    StrandedKnown(s'.g, t);
  }

  lemma StrandedKnown(g: Graph, t: nat)
    ensures forall c :: StrandedHorizon(g, t, c) ==> c in g.commands && !g.commands[c].Nop?
  {
  }

  /** The state and what has been emitted when a task on the master node has followed a task on both nodes. */
  method MasterAfterBoth() returns (scheduler: Scheduler, ghost d: Cid)
    ensures fresh(scheduler) && fresh(scheduler.gen) && fresh(scheduler.gen.cdag) && scheduler.gen.numNodes == 2
    ensures scheduler.gen.Valid() && scheduler.gen.horizonStepSize == 1 && scheduler.gen.lastTid == 2
    ensures Ready(scheduler.gen.S(), scheduler.gen.prevHorizonCpathMax, 2) && scheduler.gen.bufferStates.Keys == {CELL}
    ensures LogOk(scheduler.gen.cdag.Value(), scheduler.serializer.log, scheduler.serializer.flushed)
    ensures 1 in scheduler.gen.prevHorizonCmds && scheduler.gen.prevHorizonCmds[1] == d
    ensures StrandedHorizon(scheduler.gen.cdag.Value(), 2, d) && d !in scheduler.serializer.flushed
  {
    hide Inv, GraphOk, CommandsOfTask, TaskOk, OnMaster, ReadOnBoth, Ready, Built, LogOk, IsRun, Measured;
    hide LengthsAreDepths, HasDepth, IsDeep, HasWork, OnSomeChunk;
    hide Chunks, StrandedHorizon;
    TasksAreOk(Read);
    ReadChunks();
    var gen := OneCellGenerator(2);
    var serializer := new GraphSerializer(gen.cdag);
    scheduler := new Scheduler(gen, serializer);
    ghost var base, mid := ScheduleRead(scheduler, 1, ReadOnBoth(), 2);
    WorkOnBoth(gen.S(), base);
    ghost var s := gen.S();
    base, mid := ScheduleRead(scheduler, 2, OnMaster(Read), 2);
    d := Stranded(s, mid, gen.S(), base);
  }

  lemma WorkOnBoth(s: State, base: Cid)
    requires CommandsOfTask(s.g, 1, ReadOnBoth(), base)
    ensures forall n: nat :: n < 2 ==> HasWork(s.g, n)
  {
    hide CommandsOfTask, ReadOnBoth, HasWork, OnSomeChunk;
    TasksAreOk(Read);
    forall n: nat | n < 2
      ensures HasWork(s.g, n)
    {
      ChunkIsWork(s, 1, ReadOnBoth(), base, n);
    }
  }

  lemma Stranded(s: State, mid: State, s': State, base: Cid) returns (d: Cid)
    requires Built(s, 2, mid, s', true) && CommandsOfTask(s'.g, 2, OnMaster(Read), base) && s'.numNodes == 2
    ensures 1 in s'.prevHorizon && s'.prevHorizon[1] == d && StrandedHorizon(s'.g, 2, d)
  {
    hide *;
    TasksAreOk(Read);
    BuiltIs(s, 2, mid, s');
    Schedulers.BuiltParts(s, 2, mid, s');
    NodeHasChunk(s'.g, 2, OnMaster(Read), base, 1);
    PrevHorizonThere(mid, s');
    d := s'.prevHorizon[1];
    HorizonStranded(mid, s', 1);
  }

  lemma PrevHorizonThere(mid: State, s': State)
    requires HorizonsAdded(mid, s') && mid.numNodes == 2
    ensures 1 in s'.prevHorizon
  {
  }

  /**
    * Two nodes, a horizon after every step of depth. The first task runs on both nodes, the second one on the master
    * node only: its horizon on node 1 is stranded. The third task runs on both nodes again; its horizon on node 1
    * cannot be emitted.
    */
  method StrandedHorizonBlocksFlush() returns (scheduler: Scheduler, ghost d: Cid, ghost h: Cid)
    ensures scheduler.gen.Valid() && scheduler.gen.lastTid == 3 && scheduler.gen.numNodes == 2
    ensures LogOk(scheduler.gen.cdag.Value(), scheduler.serializer.log, scheduler.serializer.flushed)
    ensures FlushBlocked(scheduler.gen.cdag.Value(), 3, scheduler.serializer.flushed, h, d)
  {
    hide Inv, GraphOk, TaskProcessed, HorizonsMade, CommandsOfTask, TaskOk, OnMaster, ReadOnBoth, Ready, RunInv, Built;
    hide LogOk;
    hide PathsGrow, IsRun, Measured, LengthsAreDepths, HasDepth, IsDeep, HasWork, OnSomeChunk, Held, Chunks, Domains;
    hide FlushBlocked, StrandedHorizon;
    TasksAreOk(Read);
    ReadChunks();
    scheduler, d := MasterAfterBoth();
    ghost var s := scheduler.gen.S();
    ghost var base, mid := BuildRead(scheduler.gen, 3, ReadOnBoth(), 2);
    ghost var s' := scheduler.gen.S();
    Blocked(s, mid, s', base, scheduler.serializer.log, scheduler.serializer.flushed, d);
    h := s'.prevHorizon[1];
  }

  lemma Blocked(s: State, mid: State, s': State, base: Cid, log: seq<Packet>, flushed: set<Cid>, d: Cid)
    requires Inv(s) && RunInv(mid) && Inv(s') && TaskProcessed(s, 3, mid) && HorizonsMade(mid, s') && s.numNodes == 2
    requires CommandsOfTask(mid.g, 3, ReadOnBoth(), base) && LogOk(s.g, log, flushed)
    requires 1 in s.prevHorizon && s.prevHorizon[1] == d && d !in flushed
    ensures LogOk(s'.g, log, flushed) && 1 in s'.prevHorizon && FlushBlocked(s'.g, 3, flushed, s'.prevHorizon[1], d)
  {
    hide *;
    TasksAreOk(Read);
    RunInvParts(mid);
    BuiltFromParts(s, mid, s');
    BuiltGrows(s, 3, mid, s', true);
    InvParts(s);
    GraphParts(s.g);
    StillLogged(s.g, s'.g, log, flushed);
    HorizonSameTasks(mid, s');
    SameCommandsOfTask(mid.g, s'.g, 3, ReadOnBoth(), base);
    NextHorizonBlocked(s, 3, mid, s', ReadOnBoth(), base, flushed, d);
  }

  lemma BuiltFromParts(s: State, mid: State, s': State)
    requires Inv(mid) && TaskProcessed(s, 3, mid) && HorizonsMade(mid, s')
    ensures Built(s, 3, mid, s', true)
  {
  }

  lemma StillLogged(g: Graph, g': Graph, log: seq<Packet>, flushed: set<Cid>)
    requires LogOk(g, log, flushed) && EdgesOk(g) && Grows(g, g', 3)
    ensures LogOk(g', log, flushed)
  {
    LogStays(g, g', log, flushed);
  }
}

/** The scheduler: builds each task and flushes it right away. */
module Schedulers {
  import opened Grid
  import opened Reachability
  import opened Commands
  import opened CommandGraphs
  import opened GeneratorState
  import opened TaskStep
  import opened HorizonStep
  import opened GeneratorSteps
  import opened GeneratorSetup
  import opened GraphGenerators
  import opened GeneratorRuns
  import opened FlushOrder
  import opened GraphSerializers

  ghost predicate OnNode(g: Graph, t: nat, n: nat) {
    exists c: Cid :: IsTaskCommand(g, t, c) && g.commands[c].nid == n
  }

  /** The last task left a horizon on a node that it has no command on. */
  ghost predicate StrandedHorizon(g: Graph, t: nat, h: Cid) {
    h in g.commands && g.commands[h].Horizon? && g.commands[h].tid == t && !OnNode(g, t, g.commands[h].nid)
  }

  /** A task's commands have no dependents before its horizons are made. */
  lemma TaskCommandInFront(s0: State, t: nat, s: State, c: Cid)
    requires CommandsKnown(s0) && s0.lastTid < t && Extends(s0, s, t) && EdgesOk(s.g) && IsTaskCommand(s.g, t, c)
    ensures InFront(s.g, s.g.commands[c].nid, c)
  {
    forall d: Cid
      ensures (d, c) !in s.g.edges
    {
      if d in s.g.commands && d !in s0.g.commands { assert IsNew(s0, s, d); }
    }
  }

  /** A new horizon depends on the command that the task has on its node, if there is one. */
  lemma HorizonsHangOff(s0: State, t: nat, s: State, s1: State, h: Cid)
    requires CommandsKnown(s0) && s0.lastTid < t == s.lastTid && Extends(s0, s, t) && EdgesOk(s.g) && CommandsKnown(s)
    requires HorizonsAdded(s, s1) && EdgesOk(s1.g) && h in s1.g.commands && s1.g.commands[h].Horizon?
    requires s1.g.commands[h].tid == t
    ensures HangsOff(s1.g, t, h) <==> OnNode(s1.g, t, s1.g.commands[h].nid)
  {
    assert h !in s.g.commands by {
      assert IsNew(s0, s, h) || h in s0.g.commands || h !in s.g.commands;
    }
    var n := s1.g.commands[h].nid;
    if c: Cid :| IsTaskCommand(s1.g, t, c) && s1.g.commands[c].nid == n {
      assert c in s.g.commands;
      TaskCommandInFront(s0, t, s, c);
      assert (h, c) in s1.g.edges;
    }
    if c: Cid :| IsTaskCommand(s1.g, t, c) && (h, c) in s1.g.edges {
      assert EdgeOk(s1.g.commands[h], s1.g.commands[c]);
    }
  }

  /** That happens whenever horizons are made after a task that has no command on some node. */
  lemma HorizonStranded(s: State, s': State, n: nat)
    requires HorizonsAdded(s, s') && n < s.numNodes && !OnNode(s'.g, s.lastTid, n)
    ensures StrandedHorizon(s'.g, s.lastTid, s'.prevHorizon[n])
  {
    assert s'.prevHorizon[n] !in s.g.commands;
  }

  /** Commands and their dependencies stay; new ones belong to task `t`. */
  ghost predicate Grows(g: Graph, g': Graph, t: nat) {
    && (forall c :: c in g.commands ==> c in g'.commands && g'.commands[c] == g.commands[c])
    && g.edges <= g'.edges
    && (forall a, b :: (a, b) in g'.edges && (a, b) !in g.edges ==> a !in g.commands)
    && (forall c :: c in g'.commands && c !in g.commands ==> g'.commands[c].tid == t && !g'.commands[c].Nop?)
  }

  lemma TaskGrows(s: State, t: nat, s': State)
    requires Extends(s, s', t)
    ensures Grows(s.g, s'.g, t)
  {
    forall c | c in s'.g.commands && c !in s.g.commands
      ensures s'.g.commands[c].tid == t && !s'.g.commands[c].Nop?
    {
      assert IsNew(s, s', c);
    }
  }

  lemma HorizonsGrow(s: State, s': State)
    requires HorizonsAdded(s, s')
    ensures Grows(s.g, s'.g, s.lastTid)
  {
    forall a, b | (a, b) in s'.g.edges && (a, b) !in s.g.edges
      ensures a !in s.g.commands
    {
      assert OnFront(s, s', a, b);
    }
  }

  lemma GrowsTwice(g: Graph, g': Graph, g'': Graph, t: nat)
    requires Grows(g, g', t) && Grows(g', g'', t)
    ensures Grows(g, g'', t)
  {
  }

  /** Building a task led from `s` over `mid` to `s'`. */
  ghost predicate Built(s: State, t: nat, mid: State, s': State, due: bool) {
    && Inv(mid) && TaskProcessed(s, t, mid)
    && if due then HorizonsMade(mid, s') else s' == mid
  }

  lemma BuiltGrows(s: State, t: nat, mid: State, s': State, due: bool)
    requires Built(s, t, mid, s', due)
    ensures Grows(s.g, s'.g, t) && s'.lastTid == t
  {
    hide Inv, Grows, Extends, HorizonsAdded;
    TaskGrows(s, t, mid);
    if due {
      HorizonsGrow(mid, s');
      GrowsTwice(s.g, mid.g, s'.g, t);
    }
  }

  /** Horizons of the task just built hang off its command on their node, or are stranded. */
  lemma BuiltHorizons(s: State, t: nat, mid: State, s': State, due: bool, h: Cid)
    requires Inv(s) && Inv(s') && Built(s, t, mid, s', due) && h in s'.g.commands && s'.g.commands[h].Horizon?
    requires s'.g.commands[h].tid == t
    ensures due && (HangsOff(s'.g, t, h) <==> OnNode(s'.g, t, s'.g.commands[h].nid))
  {
    hide HangsOff, OnNode, OneWriterPerTask, PushesAwaited, AwaitHasReader, ReadsRecorded, Order, Data;
    hide SourcesUpdated, EdgesJustified, WritersOrdered, TasksFed, LastWritersUpdated;
    NoHorizonYet(s, t, mid);
    HorizonsHangOff(s, t, mid, s', h);
  }

  lemma NodeHasChunk(g: Graph, t: nat, task: Task, base: Cid, n: nat)
    requires CommandsOfTask(g, t, task, base)
    ensures OnNode(g, t, n) <==> OnSomeChunk(task, n)
  {
    if OnNode(g, t, n) {
      var c: Cid :| IsTaskCommand(g, t, c) && g.commands[c].nid == n;
      assert Chunks(task)[c - base].nid == n;
    }
    if OnSomeChunk(task, n) {
      var i :| 0 <= i < |Chunks(task)| && Chunks(task)[i].nid == n;
      assert base + i in g.commands && IsTaskCommand(g, t, base + i);
    }
  }

  /** A horizon is stranded if and only if horizons were due and the task has no chunk on some node. */
  lemma StrandedExactly(s: State, t: nat, mid: State, s': State, due: bool, task: Task, base: Cid)
    requires Inv(s) && Inv(s') && Built(s, t, mid, s', due) && CommandsOfTask(s'.g, t, task, base)
    ensures (exists h :: StrandedHorizon(s'.g, t, h)) <==>
                           due && exists n: nat :: n < s'.numNodes && !OnSomeChunk(task, n)
  {
    hide Inv, CommandsOfTask, OnSomeChunk, OnNode, HangsOff, TaskProcessed, HorizonsMade;
    if due && exists n: nat :: n < s'.numNodes && !OnSomeChunk(task, n) {
      var n: nat :| n < s'.numNodes && !OnSomeChunk(task, n);
      NodeHasChunk(s'.g, t, task, base, n);
      BuiltParts(s, t, mid, s');
      HorizonStranded(mid, s', n);
    }
    if h :| StrandedHorizon(s'.g, t, h) {
      BuiltHorizons(s, t, mid, s', due, h);
      NodeHasChunk(s'.g, t, task, base, s'.g.commands[h].nid);
      NodeKnown(s', h);
    }
  }

  lemma BuiltParts(s: State, t: nat, mid: State, s': State)
    requires TaskProcessed(s, t, mid) && HorizonsMade(mid, s')
    ensures HorizonsAdded(mid, s') && mid.lastTid == t && mid.numNodes == s'.numNodes
  {
  }

  lemma NodeKnown(s: State, c: Cid)
    requires Inv(s) && c in s.g.commands
    ensures s.g.commands[c].nid < s.numNodes
  {
  }

  lemma ReadyToFlush(s: State, t: nat, s': State, task: Task, base: Cid, log: seq<Packet>, flushed: set<Cid>)
    requires Inv(s) && Inv(s') && s.lastTid < t == s'.lastTid && Grows(s.g, s'.g, t)
    requires CommandsOfTask(s'.g, t, task, base) && |Chunks(task)| > 0
    requires LogOk(s.g, log, flushed) && (forall c :: c in flushed <==> c in s.g.commands && !s.g.commands[c].Nop?)
    ensures JustBuilt(s'.g, t) && LogOk(s'.g, log, flushed)
    ensures forall c :: c in flushed <==> Earlier(s'.g, t, c)
  {
    hide LogOk, OneWriterPerTask, PushesAwaited, AwaitHasReader, ReadsRecorded, Order, Data;
    assert IsTaskCommand(s'.g, t, base);
    LogStays(s.g, s'.g, log, flushed);
  }

  lemma FlushCompletes(g: Graph, t: nat, flushed: set<Cid>)
    requires forall c :: c in g.commands ==> g.commands[c].tid <= t
    requires forall c :: c in flushed <==> Earlier(g, t, c) || EmittedBy(g, t, c)
    requires forall h :: h in g.commands && g.commands[h].Horizon? && g.commands[h].tid == t ==>
                           (HangsOff(g, t, h) <==> OnNode(g, t, g.commands[h].nid))
    ensures forall c :: c in g.commands && !g.commands[c].Nop? ==> (c in flushed <==> !StrandedHorizon(g, t, c))
    ensures forall c :: c in flushed ==> c in g.commands && !g.commands[c].Nop?
  {
    hide HangsOff, OnNode;
  }

  class Scheduler {
    const gen: GraphGenerator
    const serializer: GraphSerializer

    ghost predicate Valid()
      reads this, gen, gen.cdag, serializer
    {
      && gen.Valid() && serializer.cdag == gen.cdag
      && LogOk(gen.cdag.Value(), serializer.log, serializer.flushed)
      && (forall c :: c in serializer.flushed <==> c in gen.cdag.commands && !gen.cdag.commands[c].Nop?)
    }

    constructor (gen: GraphGenerator, serializer: GraphSerializer)
      requires gen.Valid() && (forall c :: c in gen.cdag.commands ==> gen.cdag.commands[c].Nop?)
      requires serializer.cdag == gen.cdag && serializer.log == [] && serializer.flushed == {}
      ensures this.gen == gen && this.serializer == serializer && Valid()
    {
      hide Inv, IsRun, Measured;
      this.gen, this.serializer := gen, serializer;
    }

    /**
      * Every command is flushed, exactly once and after its dependencies, unless it is a stranded horizon. None is if
      * and only if no horizon was due or the task has a chunk on every node.
      */
    method Schedule(t: nat, task: Task) returns (ok: bool, ghost base: Cid, ghost mid: State, ghost due: bool)
      requires Valid() && t > gen.lastTid && TaskOk(task, gen.numNodes, gen.bufferStates.Keys)
      modifies gen, gen.cdag, serializer
      ensures Inv(mid) && TaskProcessed(old(gen.S()), t, mid) && PathsGrow(old(gen.cdag.Value()), mid.g)
      ensures CommandsOfTask(mid.g, t, task, base) && LengthsAreDepths(mid.g)
      ensures due <==> HorizonDue(mid, old(gen.prevHorizonCpathMax), gen.horizonStepSize)
      ensures due <==> IsDeep(mid.g, old(gen.prevHorizonCpathMax) + gen.horizonStepSize)
      ensures gen.horizonStepSize == old(gen.horizonStepSize)
      ensures ok <==> (due ==> forall n: nat :: n < gen.numNodes ==> n in mid.g.fronts)
      ensures (forall n: nat :: n < gen.numNodes ==> HasWork(old(gen.cdag.Value()), n) || OnSomeChunk(task, n)) ==> ok
      ensures ok ==> gen.Valid() && Built(old(gen.S()), t, mid, gen.S(), due)
      ensures ok ==> CommandsOfTask(gen.cdag.Value(), t, task, base)
      ensures ok ==> gen.prevHorizonCpathMax == if due then mid.g.maxPathLength else old(gen.prevHorizonCpathMax)
      ensures ok && due ==> PathsGrow(mid.g, gen.cdag.Value())
      ensures ok ==> LogOk(gen.cdag.Value(), serializer.log, serializer.flushed)
      ensures ok ==> old(serializer.log) <= serializer.log
      ensures ok ==> forall c :: c in gen.cdag.commands && !gen.cdag.commands[c].Nop? ==>
                                   (c in serializer.flushed <==> !StrandedHorizon(gen.cdag.Value(), t, c))
      ensures ok ==> (Valid() <==> (due ==> forall n: nat :: n < gen.numNodes ==> OnSomeChunk(task, n)))
    {
      hide Inv, CommandsOfTask, LogOk, Grows, StrandedHorizon, OnNode, HangsOff, JustBuilt, TaskOk, IsRun;
      hide TaskProcessed, HorizonsMade;
      hide PathsGrow, HasWork, OnSomeChunk, Measured, LengthsAreDepths, HasDepth, IsDeep;
      ghost var s := gen.S();
      HasChunks(task, gen.numNodes, gen.bufferStates.Keys);
      due := false;
      ok, base, mid := gen.BuildTask(t, task);
      due := HorizonDue(mid, old(gen.prevHorizonCpathMax), gen.horizonStepSize);
      if ok {
        ghost var s' := gen.S();
        BuiltGrows(s, t, mid, s', due);
        ReadyToFlush(s, t, s', task, base, serializer.log, serializer.flushed);
        serializer.Flush(t);
        AllButStranded(s, t, mid, s', due, task, base, serializer.flushed);
      }
    }
  }

  lemma AllButStranded(s: State, t: nat, mid: State, s': State, due: bool, task: Task, base: Cid, flushed: set<Cid>)
    requires Inv(s) && Inv(s') && Built(s, t, mid, s', due) && CommandsOfTask(s'.g, t, task, base) && s'.lastTid == t
    requires forall c :: c in flushed <==> Earlier(s'.g, t, c) || EmittedBy(s'.g, t, c)
    ensures forall c :: c in s'.g.commands && !s'.g.commands[c].Nop? ==>
                          (c in flushed <==> !StrandedHorizon(s'.g, t, c))
    ensures (forall c :: c in flushed <==> c in s'.g.commands && !s'.g.commands[c].Nop?) <==>
            (due ==> forall n: nat :: n < s'.numNodes ==> OnSomeChunk(task, n))
  {
    hide Inv, CommandsOfTask, OnNode, HangsOff, Built, OnSomeChunk;
    forall h | h in s'.g.commands && s'.g.commands[h].Horizon? && s'.g.commands[h].tid == t
      ensures HangsOff(s'.g, t, h) <==> OnNode(s'.g, t, s'.g.commands[h].nid)
    {
      BuiltHorizons(s, t, mid, s', due, h);
    }
    KnownTids(s');
    FlushCompletes(s'.g, t, flushed);
    StrandedExactly(s, t, mid, s', due, task, base);
  }

  lemma KnownTids(s: State)
    requires Inv(s)
    ensures forall c :: c in s.g.commands ==> s.g.commands[c].tid <= s.lastTid
  {
  }
}

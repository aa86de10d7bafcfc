/** The graph generator: turns tasks into commands, transfers and dependencies. */
module GraphGenerators {
  import opened Grid
  import opened Reachability
  import opened Commands
  import opened CommandGraphs
  import opened GeneratorState
  import opened TaskStep
  import opened TaskProgress
  import opened TaskCompletion
  import opened RegionQueries
  import opened GeneratorSteps
  import opened HorizonStep
  import opened GeneratorSetup
  import opened GeneratorRuns
  import opened SingleNodeView

  class GraphGenerator {
    const numNodes: nat
    const cdag: CommandGraph
    var horizonStepSize: nat
    var prevHorizonCpathMax: nat
    var prevHorizonCmds: map<nat, Cid>                 // no entry before the first horizon
    var bufferStates: map<Cell, seq<nat>>              // where valid data is, per cell
    var commandBufferReads: map<Cid, set<Cell>>
    var initCid: map<nat, Cid>
    var bufferLastWriter: map<nat, map<Cell, Cid>>     // per node
    ghost var lastTid: nat
    ghost var late: set<(nat, Cell)>
    ghost var history: seq<State>                      // all states so far

    ghost function S(): State
      reads this, cdag
    {
      State(cdag.Value(), numNodes, initCid, bufferStates, bufferLastWriter, commandBufferReads, prevHorizonCmds,
            lastTid, late)
    }

    /** The invariant holds, and the states so far are a run. */
    ghost predicate Valid()
      reads this, cdag
    {
      && Inv(S()) && IsRun(history) && history[|history| - 1] == S()
      && Measured(cdag.Value(), cdag.seen)
    }

    /** Single-node view of what this generator has built. */
    lemma ReadsCurrentVersion(p: Cell)
      requires Valid() && OnTime(history, |history| - 1, p)
      ensures View(cdag.Value(), p)
    {
      hide Inv, IsRun, OnTime, View, Measured;
      NotEmpty(history);
      RunReadsCurrentVersion(history, |history| - 1, p);
    }

    /** Path lengths, which decide when horizons are made, are lengths of paths in the graph built so far. */
    lemma Depths()
      requires Valid()
      ensures LengthsAreDepths(cdag.Value())
    {
      hide Inv, IsRun, Measured, CommandsOk, EdgesOk, LengthsAreDepths, GraphOk;
      InvParts(S());
      GraphParts(cdag.Value());
      MeasuredAreDepths(cdag.Value(), cdag.seen);
    }

    /** One init command per node stands for host-initialised contents. */
    constructor (numNodes: nat, cdag: CommandGraph)
      requires cdag.Value() == EmptyGraph() && numNodes > 0
      modifies cdag
      ensures this.numNodes == numNodes && this.cdag == cdag && horizonStepSize == 4
      ensures Valid() && Initial(S()) && prevHorizonCpathMax == 0
    {
      this.numNodes := numNodes;
      this.cdag := cdag;
      horizonStepSize, prevHorizonCpathMax := 4, 0;
      prevHorizonCmds, bufferStates, commandBufferReads, initCid, bufferLastWriter := map[], map[], map[], map[], map[];
      lastTid, late, history := 0, {}, [];
      new;
      hide Inv, OnlyInits, IsRun, Initial, Created, Measured;
      NoInits(cdag.Value());
      CreateInitCommands();
      StartHistory();
    }

    ghost method StartHistory()
      requires OnlyInits(cdag.Value(), numNodes, initCid) && numNodes > 0 && lastTid == 0 && late == {}
      requires bufferStates == map[] && prevHorizonCmds == map[] && commandBufferReads == map[]
      requires forall n: nat :: n in bufferLastWriter <==> n < numNodes
      requires forall n: nat :: n in bufferLastWriter ==> bufferLastWriter[n] == map[]
      modifies this`history
      ensures Valid() && Initial(S())
    {
      hide Inv, OnlyInits, IsRun, Initial, Measured;
      InitialFrom(S());
      InitsMeasured(cdag.Value(), numNodes, initCid, cdag.seen);
      InitialInv(S());
      InitialRun(S());
      history := [S()];
    }

    method CreateInitCommands()
      requires OnlyInits(cdag.Value(), 0, initCid) && bufferLastWriter == map[]
      modifies this`initCid, this`bufferLastWriter, cdag
      ensures OnlyInits(cdag.Value(), numNodes, initCid)
      ensures forall n: nat :: n in bufferLastWriter <==> n < numNodes
      ensures forall n: nat :: n in bufferLastWriter ==> bufferLastWriter[n] == map[]
    {
      hide OnlyInits, Created, Grown, Measured;
      for i := 0 to numNodes
        invariant OnlyInits(cdag.Value(), i, initCid)
        invariant forall n: nat :: n in bufferLastWriter <==> n < i
        invariant forall n: nat :: n in bufferLastWriter ==> bufferLastWriter[n] == map[]
      {
        OneMoreInit(cdag.Value(), i, initCid);
        var cid := cdag.Create(Nop(i, 0));
        initCid := initCid[i := cid];
        bufferLastWriter := bufferLastWriter[i := map[]];
      }
    }

    method SetHorizonStepSize(stepSize: nat)
      requires Valid()
      modifies this`horizonStepSize
      ensures Valid() && horizonStepSize == stepSize
    {
      hide Inv, IsRun, Measured;
      horizonStepSize := stepSize;
    }

    /** One more dependency of `x`, besides those on `done`. */
    method Depend(x: Cid, y: Cid, anti: bool, ghost g0: Graph, ghost done: set<Cid>)
      requires GraphOk(cdag.Value()) && x in cdag.commands && y in cdag.commands
      requires EdgeOk(cdag.commands[x], cdag.commands[y])
      requires AddedEdges(g0, cdag.Value(), x, done, anti)
      modifies cdag
      ensures cdag.mark == old(cdag.mark) && (old(cdag.Steady()) ==> cdag.Steady())
      ensures GraphOk(cdag.Value()) && AddedEdges(g0, cdag.Value(), x, done + {y}, anti)
    {
      hide GraphOk, AddedEdges, EdgeOk, WithDependency, Grown, Measured;
      EdgeAllowed(cdag.Value(), x, y);
      DependencyKeepsOk(cdag.Value(), x, y, anti);
      OneMoreEdge(g0, cdag.Value(), x, done, y, anti);
      cdag.AddDependency(x, y, anti);
    }

    method AddDependenciesForBox(x: Cid, n: nat, box: set<Cell>)
      requires GraphOk(cdag.Value()) && x in cdag.commands && n in bufferLastWriter && box <= bufferLastWriter[n].Keys
      requires forall y :: y in Entries(bufferLastWriter[n], box) ==>
                             y in cdag.commands && EdgeOk(cdag.commands[x], cdag.commands[y])
      modifies cdag
      ensures cdag.mark == old(cdag.mark) && (old(cdag.Steady()) ==> cdag.Steady())
      ensures GraphOk(cdag.Value())
      ensures AddedEdges(old(cdag.Value()), cdag.Value(), x, Entries(bufferLastWriter[n], box), false)
    {
      hide GraphOk, Pieces, Entries, Grown, Measured;
      var sources := RegionValues(bufferLastWriter[n], box);
      ghost var g0, done: set<Cid> := cdag.Value(), {};
      NoEdgeYet(g0, false, x);
      for i := 0 to |sources|
        invariant cdag.mark == old(cdag.mark) && (old(cdag.Steady()) ==> cdag.Steady())
        invariant GraphOk(cdag.Value())
        invariant AddedEdges(g0, cdag.Value(), x, done, false)
        invariant done <= Entries(bufferLastWriter[n], box)
        invariant forall j :: 0 <= j < i ==> sources[j].value in done
      {
        var y := sources[i].value;
        PieceIsEntry(bufferLastWriter[n], box, sources, i);
        Depend(x, y, false, g0, done);
        done := done + {y};
      }
      PiecesAreEntries(bufferLastWriter[n], box, sources, done);
    }

    /** Orders a writing command after what reads some cell of the region from the last writer `e`. */
    method OrderAfterReaders(t: nat, req: set<Cell>, x: Cid, e: Cid, ghost g0: Graph, ghost before: set<Cid>)
      returns (hasDependents: bool, ghost done: set<Cid>)
      requires GraphOk(cdag.Value()) && x in cdag.commands && e in cdag.commands
      requires AddedEdges(g0, cdag.Value(), x, before, true)
      requires forall d :: ReadsFrom(g0, commandBufferReads, t, req, e, d) ==>
                             EdgeOk(cdag.commands[x], cdag.commands[d])
      modifies cdag
      ensures cdag.mark == old(cdag.mark) && (old(cdag.Steady()) ==> cdag.Steady())
      ensures GraphOk(cdag.Value()) && AddedEdges(g0, cdag.Value(), x, done, true)
      ensures hasDependents <==> HasReader(g0, commandBufferReads, t, req, e)
      ensures forall d :: d in done <==> d in before || ReadsFrom(g0, commandBufferReads, t, req, e, d)
    {
      hide GraphOk, EdgeOk, Grown, Measured, HasReader;
      TrueEdgesAreEdges(cdag.Value());
      hasDependents, done := false, before;
      var dependents := set d | d in cdag.commands && (d, e) in cdag.edges;
      while dependents != {}
        invariant cdag.mark == old(cdag.mark) && (old(cdag.Steady()) ==> cdag.Steady())
        invariant GraphOk(cdag.Value()) && AddedEdges(g0, cdag.Value(), x, done, true) && dependents <= g0.commands.Keys
        invariant forall d :: d in done ==> d in before || ReadsFrom(g0, commandBufferReads, t, req, e, d)
        invariant before <= done
        invariant forall d :: ReadsFrom(g0, commandBufferReads, t, req, e, d) ==> d in dependents || d in done
        invariant hasDependents ==> HasReader(g0, commandBufferReads, t, req, e)
        invariant !hasDependents ==> forall d :: ReadsFrom(g0, commandBufferReads, t, req, e, d) ==> d in dependents
      {
        var d :| d in dependents;
        dependents := dependents - {d};
        if (d, e) !in cdag.trueEdges {
          continue;  // an anti-dependent
        }
        if cdag.commands[d].TaskCommand? && cdag.commands[d].tid == t {
          continue;  // a command of the same task
        }
        var commandReads := if d in commandBufferReads then commandBufferReads[d] else {};
        if commandReads * req != {} {
          hasDependents := true;
          ReaderFound(g0, commandBufferReads, t, req, e, d);
          Depend(x, d, true, g0, done);
          done := done + {d};
        }
      }
      if !hasDependents { NoReader(g0, commandBufferReads, t, req, e); }
    }

    /** Orders a writing command after the last writers of the region and after what reads from them. */
    method GenerateAntiDependencies(t: nat, n: nat, req: set<Cell>, x: Cid)
      requires GraphOk(cdag.Value()) && x in cdag.commands && n in initCid && n in bufferLastWriter
      requires req <= bufferLastWriter[n].Keys
      requires forall e :: e in Entries(bufferLastWriter[n], req) ==>
                             e in cdag.commands && (cdag.commands[e].AwaitPush? ==>
                                                    HasReader(cdag.Value(), commandBufferReads, t, req, e))
      requires forall y :: y in AntiTargets(cdag.Value(), commandBufferReads, t, req, initCid[n],
                                            bufferLastWriter[n]) ==>
                             y in cdag.commands && EdgeOk(cdag.commands[x], cdag.commands[y])
      modifies cdag
      ensures cdag.mark == old(cdag.mark) && (old(cdag.Steady()) ==> cdag.Steady())
      ensures GraphOk(cdag.Value())
      ensures AddedEdges(old(cdag.Value()), cdag.Value(), x,
                         AntiTargets(old(cdag.Value()), commandBufferReads, t, req, initCid[n], bufferLastWriter[n]),
                             true)
    {
      hide GraphOk, Pieces, Entries, AntiTargets, EdgeOk, ReadsFrom, HasReader, Grown, Measured;
      var lastWriters := RegionValues(bufferLastWriter[n], req);
      ghost var g0, done: set<Cid> := cdag.Value(), {};
      ghost var targets := AntiTargets(g0, commandBufferReads, t, req, initCid[n], bufferLastWriter[n]);
      NoEdgeYet(g0, true, x);
      for i := 0 to |lastWriters|
        invariant cdag.mark == old(cdag.mark) && (old(cdag.Steady()) ==> cdag.Steady())
        invariant GraphOk(cdag.Value()) && AddedEdges(g0, cdag.Value(), x, done, true)
        invariant done <= targets
        invariant forall j, y :: && 0 <= j < i && y in g0.commands
                                 && IsAntiTarget(g0, commandBufferReads, t, req, initCid[n], lastWriters[j].value,
                                                 y) ==>
                                   y in done
      {
        var e := lastWriters[i].value;
        PieceIsEntry(bufferLastWriter[n], req, lastWriters, i);
        EntryTargets(g0, commandBufferReads, t, req, initCid[n], bufferLastWriter[n], e);
        var hasDependents;
        hasDependents, done := OrderAfterReaders(t, req, x, e, g0, done);
        if !hasDependents && e != initCid[n] {
          assert IsAntiTarget(g0, commandBufferReads, t, req, initCid[n], e, e);
          Depend(x, e, true, g0, done);
          done := done + {e};
          assert !cdag.commands[e].AwaitPush?;
        }
      }
      AllTargets(g0, commandBufferReads, t, req, initCid[n], bufferLastWriter[n], lastWriters, done);
    }

    method CreatePush(t: nat, n: nat, box: set<Cell>, src: nat) returns (b: Cid)
      requires GraphOk(cdag.Value()) && t > 0 && src in bufferLastWriter && box <= bufferLastWriter[src].Keys
      requires cdag.nextCid !in cdag.commands
      requires forall y :: y in Entries(bufferLastWriter[src], box) ==>
                             y in cdag.commands && EdgeOk(Push(src, t, n, box), cdag.commands[y])
      modifies this`commandBufferReads, cdag
      ensures cdag.mark == old(cdag.mark) && (old(cdag.Steady()) ==> cdag.Steady())
      ensures b == old(cdag.nextCid) && commandBufferReads == old(commandBufferReads)[b := box]
      ensures PushMade(old(cdag.Value()), cdag.Value(), b, Push(src, t, n, box), Entries(bufferLastWriter[src], box))
    {
      hide GraphOk, Entries, Grown, Measured;
      CreateKeepsOk(cdag.Value(), Push(src, t, n, box));
      b := cdag.Create(Push(src, t, n, box));
      commandBufferReads := commandBufferReads[b := box];
      AddDependenciesForBox(b, src, box);
    }

    method CreateAwaitPush(t: nat, n: nat, c: Cid, b: Cid, box: set<Cell>) returns (a: Cid)
      requires GraphOk(cdag.Value()) && SourceOk(cdag.commands, AwaitPush(n, t, b, box)) && t > 0
      requires cdag.nextCid !in cdag.commands && c in cdag.commands
      requires cdag.commands[c].TaskCommand? && cdag.commands[c].tid == t && cdag.commands[c].nid == n
      modifies cdag
      ensures cdag.mark == old(cdag.mark) && (old(cdag.Steady()) ==> cdag.Steady())
      ensures a == old(cdag.nextCid) && AwaitMade(old(cdag.Value()), cdag.Value(), a, AwaitPush(n, t, b, box), c)
    {
      hide GraphOk, SourceOk, Grown, Measured;
      CreateKeepsOk(cdag.Value(), AwaitPush(n, t, b, box));
      a := cdag.Create(AwaitPush(n, t, b, box));
      EdgeAllowed(cdag.Value(), c, a);
      DependencyKeepsOk(cdag.Value(), c, a, false);
      cdag.AddDependency(c, a, false);
    }

    /** Sends a box from the original producer to the node of the command that reads it. */
    method TransferBox(t: nat, n: nat, c: Cid, box: set<Cell>, src: nat, ghost s0: State) returns (b: Cid)
      requires Before(s0) && AwaitHasReader(s0.g) && Mid(s0, t, S()) && RemoteBox(s0, S(), n, c, box, src)
      modifies this`commandBufferReads, this`bufferStates, cdag
      ensures cdag.mark == old(cdag.mark) && (old(cdag.Steady()) ==> cdag.Steady())
      ensures b == old(cdag.nextCid)
      ensures old(c in S().g.commands && S().g.commands[c].nid == n && n in S().init && n in S().lastWriter
                  && src in S().lastWriter
                  && box <= S().lastWriter[src].Keys && box <= S().lastWriter[n].Keys)
      ensures Transferred(old(S()), S(), t, c, box, src)
    {
      hide GraphOk, Mid, Before, RemoteBox, Entries, AntiTargets, HasReader, AwaitHasReader, PairAdded, PairEdges;
      hide Grown, Measured;
      ghost var s := S();
      TransferSetup(s0, t, s, n, c, box, src);
      ghost var senders := Entries(s.lastWriter[src], box);
      b := CreatePush(t, n, box, src);
      ghost var g1 := cdag.Value();
      var a := CreateAwaitPush(t, n, c, b, box);
      ghost var s2 := S();
      PairMade(s, g1, s2, b, t, n, c, box, src, senders);
      AntiReady(s0, t, s, s2, b, n, c, box, src);
      GenerateAntiDependencies(t, n, box, a);
      AntiTargetsSame(s2.g, cdag.Value(), commandBufferReads, t, box, initCid[n], bufferLastWriter[n]);
      bufferStates := SourcesWith(bufferStates, box, n);
      PairOrdered(s, s2, S(), b, c, senders, AntiTargets(s2.g, s2.bufferReads, t, box, s.init[n], s.lastWriter[n]));
    }

    /** One piece that a command reads: depends on its local writers, or has the data sent. */
    method ConsumePiece(t: nat, n: nat, c: Cid, box: set<Cell>, holders: seq<nat>, updates: seq<Update>,
                        pushes: seq<Cid>,
                        ghost writes: seq<Written>, ghost s0: State)
      returns (updates': seq<Update>, pushes': seq<Cid>)
      requires Usable(s0) && Working(s0, t, S(), updates, writes, pushes) && OwnCommand(s0, S(), c)
      requires cdag.commands[c].nid == n
      requires box != {} && box <= bufferStates.Keys
      requires forall p :: p in box ==> Reads(cdag.commands[c], p)
      requires forall p :: p in box ==> bufferStates[p] == holders
      modifies this`commandBufferReads, this`bufferStates, cdag
      ensures cdag.mark == old(cdag.mark) && (old(cdag.Steady()) ==> cdag.Steady())
      ensures Working(s0, t, S(), updates', writes, pushes') && updates <= updates' && Later(old(S()), S())
      ensures OwnCommand(s0, S(), c)
      ensures Domains(s0) && bufferStates.Keys == old(bufferStates).Keys
      ensures forall p :: p in box ==> n in bufferStates[p] && FedFrom(s0, S(), c, p)
      ensures forall p :: p in bufferStates && p !in box ==> bufferStates[p] == old(bufferStates)[p]
    {
      hide Working, Usable, GraphOk, Entries, FedFrom, Later, Domains, AddedEdges, RemoteBox, Transferred, Mid, Before;
      hide AwaitHasReader, ListsOk, PushList, OwnCommand, Reads, Grown, Measured;
      ghost var s := S();
      OwnParts(s0, t, s, c, updates, writes, pushes);
      updates', pushes' := updates, pushes;
      if n in holders {
        LocalReady(s0, t, s, n, c, box, updates, writes, pushes);
        AddDependenciesForBox(c, n, box);
        AddedGrows(s, S(), c, Entries(s.lastWriter[n], box), false);
        LocalJustified(s0, t, s, S(), n, c, box, updates, writes, pushes);
        LocalKeepsWorking(s0, t, s, S(), c, Entries(s.lastWriter[n], box), false, updates, writes, pushes);
        FeedLocally(s0, t, s, S(), c, box, updates, writes, pushes);
      } else {
        RemoteReadyWorking(s0, t, s, n, c, box, holders, updates, writes, pushes);
        UsableParts(s0);
        WorkingParts(s0, t, s, updates, writes, pushes);
        var b := TransferBox(t, n, c, box, holders[0], s0);
        TransferKeepsWorking(s0, t, s, S(), n, c, b, box, holders[0], updates, writes, pushes);
        updates', pushes' := updates + [Update(n, box, b + 1)], pushes + [b];
      }
    }

    /** Records that the command reads the region. */
    method RecordReads(t: nat, c: Cid, req: set<Cell>, ghost updates: seq<Update>, ghost pushes: seq<Cid>,
                       ghost writes: seq<Written>, ghost s0: State)
      requires Working(s0, t, S(), updates, writes, pushes) && OwnCommand(s0, S(), c)
      requires req <= bufferStates.Keys && forall p :: p in req ==> Reads(cdag.commands[c], p)
      modifies this`commandBufferReads
      ensures Working(s0, t, S(), updates, writes, pushes) && Later(old(S()), S()) && OwnCommand(s0, S(), c)
      ensures req <= ReadSet(commandBufferReads, c)
    {
      hide Working, Later, ReadSet, OwnCommand, Reads;
      ghost var s := S();
      OwnParts(s0, t, s, c, updates, writes, pushes);
      ReadSetIs(commandBufferReads, c);
      var recorded := if c in commandBufferReads then commandBufferReads[c] else {};
      commandBufferReads := commandBufferReads[c := recorded + req];
      RecordKeepsWorking(s0, t, s, S(), c, req, updates, writes, pushes);
    }

    /** Reads of one command in one buffer and mode. */
    method ConsumeRegion(t: nat, n: nat, c: Cid, req: set<Cell>, updates: seq<Update>, pushes: seq<Cid>,
                         ghost writes: seq<Written>, ghost s0: State)
      returns (updates': seq<Update>, pushes': seq<Cid>)
      requires Usable(s0) && Working(s0, t, S(), updates, writes, pushes) && OwnCommand(s0, S(), c)
      requires cdag.commands[c].nid == n
      requires req <= bufferStates.Keys && forall p :: p in req ==> Reads(cdag.commands[c], p)
      modifies this`commandBufferReads, this`bufferStates, cdag
      ensures cdag.mark == old(cdag.mark) && (old(cdag.Steady()) ==> cdag.Steady())
      ensures Working(s0, t, S(), updates', writes, pushes') && updates <= updates' && Later(old(S()), S())
      ensures OwnCommand(s0, S(), c)
      ensures Domains(s0) && CellsRead(s0, S(), c, req)
      ensures forall p :: p in req ==> p in bufferStates && n in bufferStates[p]
    {
      hide Working, Usable, Pieces, FedFrom, Later, Domains, CellsRead, ReadSet, OwnCommand, Reads, GraphOk, DoneTo;
      hide Grown, Measured;
      ghost var s := S();
      OwnParts(s0, t, s, c, updates, writes, pushes);
      RecordReads(t, c, req, updates, pushes, writes, s0);
      updates', pushes' := updates, pushes;
      var holders := RegionValues(bufferStates, req);
      ghost var done: set<Cell> := {};
      NothingRead(s0, S(), c);
      NothingDone(holders);
      for i := 0 to |holders|
        invariant cdag.mark == old(cdag.mark) && (old(cdag.Steady()) ==> cdag.Steady())
        invariant Working(s0, t, S(), updates', writes, pushes') && updates <= updates' && Later(s, S())
        invariant OwnCommand(s0, S(), c)
        invariant c in cdag.commands && cdag.commands[c] == s.g.commands[c] && req <= ReadSet(commandBufferReads, c)
        invariant bufferStates.Keys == s.sources.Keys
        invariant done <= req && CellsRead(s0, S(), c, done)
        invariant DoneTo(holders, i, done)
        invariant forall p :: p in done ==> n in bufferStates[p]
        invariant forall p :: p in bufferStates && p !in done ==> bufferStates[p] == s.sources[p]
      {
        ghost var si := S();
        PieceParts(s.sources, req, holders, i, done);
        updates', pushes' := ConsumePiece(t, n, c, holders[i].box, holders[i].value, updates', pushes', writes, s0);
        LaterParts(si, S(), c);
        LaterTransitive(s, si, S());
        CellsReadTogether(s0, si, S(), c, done, holders[i].box);
        done := done + holders[i].box;
      }
      PiecesCover(s.sources, req, holders, done);
      assert done == req;
    }

    /** One buffer and access mode of one command. */
    method ProcessRequirement(t: nat, n: nat, c: Cid, mode: Mode, req: set<Cell>,
                              updates: seq<Update>, writes: seq<Written>, pushes: seq<Cid>, ghost s0: State)
      returns (updates': seq<Update>, writes': seq<Written>, pushes': seq<Cid>)
      requires Usable(s0) && Working(s0, t, S(), updates, writes, pushes) && OwnCommand(s0, S(), c)
      requires cdag.commands[c].nid == n
      requires req <= bufferStates.Keys
      requires IsConsumer(mode) ==> forall p :: p in req ==> Reads(cdag.commands[c], p)
      requires IsProducer(mode) ==> forall p :: p in req ==> Computes(cdag.commands[c], p)
      requires !IsConsumer(mode) ==> forall p :: p in req ==> !Reads(cdag.commands[c], p)
      modifies this`commandBufferReads, this`bufferStates, cdag
      ensures cdag.mark == old(cdag.mark) && (old(cdag.Steady()) ==> cdag.Steady())
      ensures Working(s0, t, S(), updates', writes', pushes') && Later(old(S()), S()) && OwnCommand(s0, S(), c)
      ensures updates <= updates' && writes <= writes' && Domains(s0)
      ensures IsConsumer(mode) ==> CellsRead(s0, S(), c, req)
      ensures IsProducer(mode) ==> CellsWritten(s0, S(), updates', writes', c, req)
    {
      hide Working, Usable, GraphOk, Later, Domains, CellsRead, CellsWritten, OwnCommand, Reads, Computes, AntiTargets;
      hide Entries, HasReader, AddedEdges, Grown, Measured;
      ghost var s := S();
      OwnParts(s0, t, s, c, updates, writes, pushes);
      updates', writes', pushes' := updates, writes, pushes;
      LaterRefl(s);
      if req == {} {
        NothingRead(s0, s, c);
        NothingWritten(s0, s, updates, writes, c);
        return;
      }
      if IsConsumer(mode) {
        updates', pushes' := ConsumeRegion(t, n, c, req, updates, pushes, writes, s0);
        LaterParts(s, S(), c);
      }
      if IsProducer(mode) {
        ghost var s1 := S();
        OwnParts(s0, t, s1, c, updates', writes, pushes');
        ProduceReady(s0, t, s1, n, c, req, updates', writes, pushes');
        GenerateAntiDependencies(t, n, req, c);
        AddedGrows(s1, S(), c, AntiTargets(s1.g, s1.bufferReads, t, req, s1.init[n], s1.lastWriter[n]), true);
        ProduceKeepsWorking(s0, t, s1, S(), n, c, req, updates', writes, pushes');
        LaterTransitive(s, s1, S());
        OwnParts(s0, t, S(), c, updates' + [Update(n, req, c)], writes + [Written(n, req)], pushes');
        if IsConsumer(mode) { CellsReadLater(s0, s1, S(), c, req); }
        updates', writes' := updates' + [Update(n, req, c)], writes + [Written(n, req)];
      }
    }

    /** All modes of one buffer that a command accesses, in the order of `ALL_MODES`. */
    method ProcessBuffer(t: nat, n: nat, c: Cid, b: nat, updates: seq<Update>, writes: seq<Written>, pushes: seq<Cid>,
                         ghost s0: State,
                         ghost left: set<nat>, ghost consumed: set<Cell>, ghost produced: set<Cell>)
      returns (updates': seq<Update>, writes': seq<Written>, pushes': seq<Cid>, ghost consumed': set<Cell>,
               ghost produced': set<Cell>)
      requires Usable(s0) && Working(s0, t, S(), updates, writes, pushes) && OwnCommand(s0, S(), c)
      requires cdag.commands[c].nid == n && Domains(s0)
      requires RequirementsOk(cdag.commands[c].reqs, bufferStates.Keys) && b in cdag.commands[c].reqs
      requires CellsRead(s0, S(), c, consumed) && CellsWritten(s0, S(), updates, writes, c, produced)
      requires ModesDone(cdag.commands[c].reqs, left, b, 0, consumed, produced)
      modifies this`commandBufferReads, this`bufferStates, cdag
      ensures cdag.mark == old(cdag.mark) && (old(cdag.Steady()) ==> cdag.Steady())
      ensures Working(s0, t, S(), updates', writes', pushes') && Later(old(S()), S()) && OwnCommand(s0, S(), c)
      ensures updates <= updates' && writes <= writes' && cdag.commands[c] == old(cdag.commands[c])
      ensures bufferStates.Keys == old(bufferStates.Keys)
      ensures CellsRead(s0, S(), c, consumed') && CellsWritten(s0, S(), updates', writes', c, produced')
      ensures ModesDone(cdag.commands[c].reqs, left, b, |ALL_MODES|, consumed', produced')
    {
      hide Working, Usable, Later, Domains, CellsRead, CellsWritten, OwnCommand, Reads, Computes, ModesDone;
      hide RequirementsOk, GraphOk, Grown, Measured;
      ghost var s := S();
      OwnParts(s0, t, s, c, updates, writes, pushes);
      LaterRefl(s);
      var reqs := cdag.commands[c].reqs;
      updates', writes', pushes', consumed', produced' := updates, writes, pushes, consumed, produced;
      for i := 0 to |ALL_MODES|
        invariant cdag.mark == old(cdag.mark) && (old(cdag.Steady()) ==> cdag.Steady())
        invariant Working(s0, t, S(), updates', writes', pushes') && Later(s, S()) && OwnCommand(s0, S(), c)
        invariant updates <= updates' && writes <= writes' && c in cdag.commands && cdag.commands[c] == s.g.commands[c]
        invariant bufferStates.Keys == s.sources.Keys
        invariant CellsRead(s0, S(), c, consumed') && CellsWritten(s0, S(), updates', writes', c, produced')
        invariant ModesDone(reqs, left, b, i, consumed', produced')
      {
        var mode := ALL_MODES[i];
        if mode in reqs[b] {
          ghost var si, u, w := S(), updates', writes';
          var req := reqs[b][mode];
          ModeParts(cdag.commands[c], b, mode, bufferStates.Keys);
          updates', writes', pushes' := ProcessRequirement(t, n, c, mode, req, updates', writes', pushes', s0);
          LaterParts(si, S(), c);
          LaterTransitive(s, si, S());
          OneMoreMode(reqs, left, b, i, consumed', produced', req);
          RequirementDone(s0, si, S(), c, mode, req, u, updates', w, writes', consumed', produced');
          consumed' := if IsConsumer(mode) then consumed' + req else consumed';
          produced' := if IsProducer(mode) then produced' + req else produced';
        } else {
          SkipMode(reqs, left, b, i, consumed', produced');
        }
      }
    }

    /** All buffers that a command accesses. */
    method ProcessCommand(t: nat, c: Cid, updates: seq<Update>, writes: seq<Written>, pushes: seq<Cid>, ghost s0: State)
      returns (updates': seq<Update>, writes': seq<Written>, pushes': seq<Cid>)
      requires Usable(s0) && Working(s0, t, S(), updates, writes, pushes) && OwnCommand(s0, S(), c) && Domains(s0)
      requires RequirementsOk(cdag.commands[c].reqs, bufferStates.Keys)
      modifies this`commandBufferReads, this`bufferStates, cdag
      ensures cdag.mark == old(cdag.mark) && (old(cdag.Steady()) ==> cdag.Steady())
      ensures Working(s0, t, S(), updates', writes', pushes') && Later(old(S()), S())
      ensures updates <= updates' && writes <= writes' && c in cdag.commands
      ensures bufferStates.Keys == old(bufferStates.Keys)
      ensures CommandDone(s0, S(), updates', writes', c)
    {
      hide Working, Usable, Later, Domains, CellsRead, CellsWritten, OwnCommand, ModesDone, RequirementsOk, CommandDone;
      hide GraphOk, Grown, Measured;
      ghost var s := S();
      OwnParts(s0, t, s, c, updates, writes, pushes);
      LaterRefl(s);
      var n := cdag.commands[c].nid;
      var reqs := cdag.commands[c].reqs;
      updates', writes', pushes' := updates, writes, pushes;
      var buffers := reqs.Keys;
      ghost var consumed: set<Cell>, produced: set<Cell>, last: nat := {}, {}, NoBuffer(reqs);
      NothingRead(s0, S(), c);
      NothingWritten(s0, S(), updates, writes, c);
      StartModes(reqs, last);
      while buffers != {}
        invariant cdag.mark == old(cdag.mark) && (old(cdag.Steady()) ==> cdag.Steady())
        invariant buffers <= reqs.Keys
        invariant Working(s0, t, S(), updates', writes', pushes') && Later(s, S()) && OwnCommand(s0, S(), c)
        invariant updates <= updates' && writes <= writes' && c in cdag.commands && cdag.commands[c] == s.g.commands[c]
        invariant bufferStates.Keys == s.sources.Keys
        invariant CellsRead(s0, S(), c, consumed) && CellsWritten(s0, S(), updates', writes', c, produced)
        invariant ModesDone(reqs, buffers, last, |ALL_MODES|, consumed, produced)
      {
        var b :| b in buffers;
        ghost var si := S();
        BufferDone(reqs, buffers, last, b, consumed, produced);
        buffers := buffers - {b};
        updates', writes', pushes', consumed, produced :=
          ProcessBuffer(t, n, c, b, updates', writes', pushes', s0, buffers, consumed, produced);
        LaterTransitive(s, si, S());
        OwnParts(s0, t, S(), c, updates', writes', pushes');
        last := b;
      }
      BufferDone(reqs, buffers, last, last, consumed, produced);
      AllModesDone(s0, S(), c, bufferStates.Keys, consumed, produced, updates', writes');
    }

    method ApplyWrites(writes: seq<Written>)
      modifies this`bufferStates
      ensures WritesApplied(old(bufferStates), bufferStates, writes, |writes|)
    {
      ghost var before := bufferStates;
      for i := 0 to |writes|
        invariant WritesApplied(before, bufferStates, writes, i)
      {
        var w := writes[i];
        ghost var si := bufferStates;
        bufferStates := Overwritten(bufferStates, w.region, [w.nid]);
        OneMoreWrite(before, si, bufferStates, writes, i);
      }
    }

    method ApplyUpdates(updates: seq<Update>)
      requires forall i :: 0 <= i < |updates| ==> updates[i].nid in bufferLastWriter
      modifies this`bufferLastWriter
      ensures UpdatesApplied(old(bufferLastWriter), bufferLastWriter, updates, |updates|)
    {
      ghost var before := bufferLastWriter;
      for i := 0 to |updates|
        invariant UpdatesApplied(before, bufferLastWriter, updates, i)
      {
        var u := updates[i];
        ghost var si := bufferLastWriter;
        bufferLastWriter := bufferLastWriter[u.nid := Overwritten(bufferLastWriter[u.nid], u.region, u.cid)];
        OneMoreUpdate(before, si, bufferLastWriter, updates, i);
      }
    }

    /** A PUSH and a command that overwrites the pushed data in the same task: the command waits. */
    method OrderPush(t: nat, b: Cid, ghost g0: Graph)
      requires GraphOk(cdag.Value()) && PushOrdered(g0, cdag.Value(), t)
      requires b in cdag.commands && cdag.commands[b].Push? && cdag.commands[b].tid == t
      requires cdag.commands[b].nid in bufferLastWriter
      requires cdag.commands[b].box <= bufferLastWriter[cdag.commands[b].nid].Keys
      requires forall p :: p in cdag.commands[b].box ==>
                             EntryKnown(cdag.commands, t, bufferLastWriter[cdag.commands[b].nid][p],
                                        cdag.commands[b].nid, p)
      modifies cdag
      ensures cdag.mark == old(cdag.mark) && (old(cdag.Steady()) ==> cdag.Steady())
      ensures GraphOk(cdag.Value()) && PushOrdered(g0, cdag.Value(), t) && cdag.commands == old(cdag.commands)
      ensures old(cdag.edges) <= cdag.edges
      ensures BeforeWriters(cdag.Value(), bufferLastWriter, t, b, cdag.commands[b].box)
    {
      hide GraphOk, Pieces, DoneTo, BeforeWriters, PushOrdered, Grown, Measured;
      var n, box := cdag.commands[b].nid, cdag.commands[b].box;
      OrderedParts(g0, cdag.Value(), t);
      var lastWriters := RegionValues(bufferLastWriter[n], box);
      ghost var done: set<Cell>, g := {}, cdag.Value();
      NothingDone(lastWriters);
      NoneBefore(g, bufferLastWriter, t, b);
      for i := 0 to |lastWriters|
        invariant cdag.mark == old(cdag.mark) && (old(cdag.Steady()) ==> cdag.Steady())
        invariant GraphOk(cdag.Value()) && PushOrdered(g0, cdag.Value(), t) && cdag.commands == g.commands
        invariant g.edges <= cdag.edges
        invariant DoneTo(lastWriters, i, done) && done <= box
        invariant BeforeWriters(cdag.Value(), bufferLastWriter, t, b, done)
      {
        var w := lastWriters[i].value;
        PieceParts(bufferLastWriter[n], box, lastWriters, i, done);
        ghost var p :| p in lastWriters[i].box;
        assert EntryKnown(cdag.commands, t, w, n, p);
        OrderedParts(g0, cdag.Value(), t);
        ghost var gi := cdag.Value();
        if cdag.commands[w].TaskCommand? && cdag.commands[w].tid == t {
          OrderPushStep(g0, cdag.Value(), t, w, b);
          if (b, w) !in cdag.trueEdges {  // the PUSH never has a true dependency on a command of its own task
            cdag.AddDependency(w, b, true);
          }
        }
        PieceBefore(gi, cdag.Value(), bufferLastWriter, t, b, done, lastWriters[i].box, w);
        done := done + lastWriters[i].box;
      }
      PiecesCover(bufferLastWriter[n], box, lastWriters, done);
      assert done == box;
    }

    /** Processes every command of the task against the state before the task, then applies the deferred updates. */
    method ProcessTaskDataRequirements(t: nat, ghost s0: State)
      requires Usable(s0) && PrevHorizonsOk(s0) && Domains(s0) && Working(s0, t, S(), [], [], []) && t in cdag.byTask
      requires forall c :: OwnCommand(s0, S(), c) ==> RequirementsOk(cdag.commands[c].reqs, bufferStates.Keys)
      modifies this`commandBufferReads, this`bufferStates, this`bufferLastWriter, cdag
      ensures cdag.mark == old(cdag.mark) && (old(cdag.Steady()) ==> cdag.Steady())
      ensures TaskProcessed(s0, t, S()) && SameTaskCommands(old(cdag.Value()), cdag.Value())
    {
      hide Usable, PrevHorizonsOk, Domains, Working, OwnCommand, RequirementsOk, SameTaskCommands, TaskProcessed, Later;
      hide CommandDone, AllDone, GraphOk, Grown, Measured;
      hide WritesApplied, UpdatesApplied, PushOrdered, BeforeWriters;
      ghost var s := S();
      var taskCommands := cdag.byTask[t];
      OwnList(s0, t, s, [], [], []);
      LaterRefl(s);
      var updates: seq<Update>, writes: seq<Written>, pushes: seq<Cid> := [], [], [];
      for i := 0 to |taskCommands|
        invariant cdag.mark == old(cdag.mark) && (old(cdag.Steady()) ==> cdag.Steady())
        invariant Working(s0, t, S(), updates, writes, pushes) && Later(s, S()) && bufferStates.Keys == s.sources.Keys
        invariant forall j :: 0 <= j < i ==>
              taskCommands[j] in cdag.commands && CommandDone(s0, S(), updates, writes, taskCommands[j])
      {
        var c := taskCommands[i];
        ghost var si, u, w := S(), updates, writes;
        OwnLater(s0, s, si, c);
        updates, writes, pushes := ProcessCommand(t, c, updates, writes, pushes, s0);
        LaterTransitive(s, si, S());
        DoneSoFar(s0, si, S(), u, updates, w, writes, taskCommands, i);
      }
      AllListed(s0, s, S(), updates, writes, taskCommands);
      ghost var sa := S();
      LaterSameTasks(s, sa);
      FinishCommands(t, updates, writes, pushes, s0);
      SameCommands(sa.g, cdag.Value());
      SameTasksTransitive(s.g, sa.g, cdag.Value());
    }

    method FinishCommands(t: nat, updates: seq<Update>, writes: seq<Written>, pushes: seq<Cid>, ghost s0: State)
      requires Usable(s0) && PrevHorizonsOk(s0) && Domains(s0) && Working(s0, t, S(), updates, writes, pushes)
      requires AllDone(s0, S(), updates, writes)
      modifies this`bufferStates, this`bufferLastWriter, cdag
      ensures cdag.mark == old(cdag.mark) && (old(cdag.Steady()) ==> cdag.Steady())
      ensures TaskProcessed(s0, t, S()) && cdag.commands == old(cdag.commands)
    {
      hide Usable, PrevHorizonsOk, Domains, Working, TaskProcessed, AllDone, GraphOk, WritesApplied, UpdatesApplied;
      hide PushOrdered, BeforeWriters, Grown, Measured;
      ghost var s := S();
      ApplyWrites(writes);
      UpdatesOnNodes(s0, t, s, updates, writes, pushes);
      ApplyUpdates(updates);
      EntriesKnown(s0, t, s, bufferLastWriter, updates, writes, pushes);
      UpdatedKeys(s.lastWriter, bufferLastWriter, updates);
      WorkingGraph(s0, t, s, updates, writes, pushes);
      for i := 0 to |pushes|
        invariant cdag.mark == old(cdag.mark) && (old(cdag.Steady()) ==> cdag.Steady())
        invariant GraphOk(cdag.Value()) && PushOrdered(s.g, cdag.Value(), t) && cdag.commands == s.g.commands
        invariant forall j :: 0 <= j < i && pushes[j] in cdag.commands && cdag.commands[pushes[j]].Push? ==>
                                BeforeWriters(cdag.Value(), bufferLastWriter, t, pushes[j],
                                              cdag.commands[pushes[j]].box)
        modifies cdag
      {
        ghost var gi := cdag.Value();
        PushParts(s0, t, s, updates, writes, pushes, i);
        OrderPush(t, pushes[i], s.g);
        BeforeWritersLater(gi, cdag.Value(), bufferLastWriter, t);
      }
      CompleteTask(s0, t, s, S(), updates, writes, pushes);
    }

    /** Registers the cells of a new buffer. */
    method AddBuffer(cells: set<Cell>)
      requires Valid() && cells !! bufferStates.Keys
      modifies this`bufferStates, this`bufferLastWriter, this`history
      ensures Valid() && BufferAdded(old(S()), S(), cells) && history == old(history) + [S()]
    {
      hide Inv, GraphOk, BufferAdded, NodesWith, Domains, WithCells, IsRun, Step, CommandsKnown, Measured;
      HasNodes(history);
      ghost var s := S();
      InvParts(s);
      var allNodes: seq<nat> := seq(numNodes, i => i);
      bufferStates := WithCells<seq<nat>>(bufferStates, cells, allNodes);
      InitialiseLastWriters(cells, s);
      BufferDomains(s, S(), cells, allNodes);
      BufferKeepsInv(s, S(), cells);
      BufferStep(s, S(), cells);
      Record();
    }

    method InitialiseLastWriters(cells: set<Cell>, ghost s: State)
      requires Domains(s) && initCid == s.init && bufferLastWriter == s.lastWriter && numNodes == s.numNodes
      modifies this`bufferLastWriter
      ensures NodesWith(s, bufferLastWriter, cells, numNodes)
    {
      hide NodesWith, Domains, WithCells;
      NoNodeYet(s, cells);
      for i := 0 to numNodes
        invariant NodesWith(s, bufferLastWriter, cells, i)
      {
        OneMoreNode(s, bufferLastWriter, cells, i);
        bufferLastWriter := bufferLastWriter[i := WithCells(bufferLastWriter[i], cells, initCid[i])];
      }
    }

    /** Appends the current state, one step after the last one, to the states so far. */
    ghost method Record()
      requires IsRun(history) && Step(history[|history| - 1], S()) && Inv(S()) && Measured(cdag.Value(), cdag.seen)
      modifies this`history
      ensures Valid() && history == old(history) + [S()]
    {
      hide Inv, IsRun, Step, Measured;
      OneMoreState(history, S());
      history := history + [S()];
    }

    /** The commands of a task: one for the whole task, replaced by one per chunk if the task is split. */
    method CreateCommands(t: nat, task: Task) returns (base: Cid)
      requires GraphOk(cdag.Value()) && t > 0 && cdag.Steady()
      modifies cdag
      ensures cdag.mark == old(cdag.mark) && cdag.Steady()
      ensures ChunksMade(old(cdag.Value()), cdag.Value(), t, Kind(task), Chunks(task), base)
    {
      hide GraphOk, SplitTo, Grown, Measured;
      ghost var g := cdag.Value();
      FreshCid(g);
      FreshSince(cdag.mark, g);
      match task
      case MasterAccessTask(reqs) =>
        CreateKeepsOk(cdag.Value(), TaskCommand(0, t, MasterAccess, reqs));
        base := cdag.Create(TaskCommand(0, t, MasterAccess, reqs));
      case ComputeTask(whole, chunks) =>
        var original := cdag.Create(TaskCommand(0, t, Compute, whole));
        SplitStart(g, cdag.Value(), original, t, chunks, whole);
        base := Split(t, chunks, original, g);
    }

    /** Replaces the original command of a compute task by one command per chunk. */
    method Split(t: nat, chunks: seq<Chunk>, original: Cid, ghost g: Graph) returns (base: Cid)
      requires GraphOk(g) && t > 0 && SplitTo(g, cdag.Value(), original, t, chunks, 0)
      requires cdag.Steady() && original !in cdag.mark.commands
      modifies cdag
      ensures cdag.mark == old(cdag.mark) && cdag.Steady()
      ensures ChunksMade(g, cdag.Value(), t, Compute, chunks, base)
    {
      hide GraphOk, SplitTo, ChunksMade, NewCommandOk, CommandsOk, Grown, Measured, Created, Erased;
      base := original + 1;
      GraphParts(g);
      for i := 0 to |chunks|
        invariant cdag.mark == old(cdag.mark) && cdag.Steady()
        invariant SplitTo(g, cdag.Value(), original, t, chunks, i)
      {
        SplitStep(g, cdag.Value(), original, t, chunks, i);
        var c := cdag.Create(ChunkCommand(t, Compute, chunks[i]));
      }
      SplitEnd(g, cdag.Value(), original, t, chunks);
      cdag.Erase(original);
    }

    predicate ShouldGenerateHorizon()
      reads this, cdag
    {
      cdag.maxPathLength >= prevHorizonCpathMax + horizonStepSize
    }

    /** A horizon on top of the execution front of one node. */
    method BuildHorizon(n: nat, t: nat) returns (h: Cid)
      requires GraphOk(cdag.Value()) && t > 0 && n in cdag.fronts
      requires forall c :: c in cdag.fronts[n] ==> c in cdag.commands && EdgeOk(Horizon(n, t), cdag.commands[c])
      modifies cdag
      ensures cdag.mark == old(cdag.mark) && (old(cdag.Steady()) ==> cdag.Steady())
      ensures h == old(cdag.nextCid) && HorizonOnTop(old(cdag.Value()), cdag.Value(), n, t, old(cdag.fronts[n]))
      ensures cdag.nextCid > old(cdag.nextCid)
      ensures forall m :: m != n ==> (m in cdag.fronts <==> m in old(cdag.fronts))
    {
      hide GraphOk, Grown, Measured;
      var front := cdag.fronts[n];
      ghost var all, frontsBefore := front, cdag.fronts;
      CreateKeepsOk(cdag.Value(), Horizon(n, t));
      FreshCid(cdag.Value());
      h := cdag.Create(Horizon(n, t));
      ghost var g1 := cdag.Value();
      NoEdgeYet(g1, false, h);
      while front != {}
        invariant cdag.mark == old(cdag.mark) && (old(cdag.Steady()) ==> cdag.Steady())
        invariant front <= all && GraphOk(cdag.Value()) && AddedEdges(g1, cdag.Value(), h, all - front, false)
        invariant forall m :: m != n ==> (m in cdag.fronts <==> m in frontsBefore)
      {
        var c :| c in front;
        EdgeAllowed(cdag.Value(), h, c);
        DependencyKeepsOk(cdag.Value(), h, c, false);
        OneMoreEdge(g1, cdag.Value(), h, all - front, c, false);
        cdag.AddDependency(h, c, false);
        assert all - (front - {c}) == all - front + {c};
        front := front - {c};
      }
      assert all - front == all;
    }

    /** The horizon of one node, with the previous one applied to the node's last-writer entries. */
    method HorizonForNode(n: nat, t: nat, ghost s0: State)
      requires HorizonsUpTo(s0, S(), n) && n < numNodes && n in cdag.fronts && s0.g.nextCid <= cdag.nextCid
      requires t == s0.lastTid > 0
      requires CommandsKnown(s0) && CommandsOk(s0.g) && EdgesOk(s0.g)
      requires forall c :: c in s0.g.commands && s0.g.commands[c].Horizon? ==> s0.g.commands[c].tid < t
      modifies this`bufferLastWriter, this`prevHorizonCmds, cdag
      ensures cdag.mark == old(cdag.mark) && (old(cdag.Steady()) ==> cdag.Steady())
      ensures HorizonsUpTo(s0, S(), n + 1) && s0.g.nextCid <= cdag.nextCid
      ensures forall m :: m != n ==> (m in cdag.fronts <==> m in old(cdag.fronts))
    {
      hide GraphOk, Domains, HorizonsUpTo, HorizonOnTop, CommandsKnown, CommandsOk, EdgesOk, EdgeOk, CompactedNode;
      hide HorizonCommands, HorizonEntries, Grown, Measured;
      ghost var s := S();
      UpToParts(s0, s, n);
      FrontEdges(s0, s, n, t);
      NodeDomain(s, n);
      var h := BuildHorizon(n, t);
      bufferLastWriter := CompactedNode(bufferLastWriter, prevHorizonCmds, n);
      CompactedNodeIs(s.lastWriter, s.prevHorizon, n);
      prevHorizonCmds := prevHorizonCmds[n := h];
      OneMoreHorizon(s0, s, S(), n);
    }

    /** One horizon per node; fails, like the lookup of a missing front, if some node never had a command. */
    method GenerateHorizon(t: nat) returns (ok: bool)
      requires Valid() && t == lastTid > 0
      requires forall c :: c in cdag.commands && cdag.commands[c].Horizon? ==> cdag.commands[c].tid < t
      modifies this`prevHorizonCpathMax, this`bufferLastWriter, this`prevHorizonCmds, this`late, this`history, cdag
      ensures ok <==> forall n: nat :: n < numNodes ==> n in old(cdag.fronts)
      ensures ok ==> Valid() && HorizonsMade(old(S()), S()) && PathsGrow(old(cdag.Value()), cdag.Value())
      ensures ok ==> history == old(history) + [S()] && prevHorizonCpathMax == old(cdag.maxPathLength)
    {
      hide Inv, GraphOk, HorizonsMade, IsRun, Step, CommandsOk, EdgesOk, Grown, Measured, PathsGrow, CommandsKnown;
      hide Domains;
      prevHorizonCpathMax := cdag.maxPathLength;
      ghost var s0 := S();
      InvParts(s0);
      GraphParts(s0.g);
      cdag.SetMark();
      ok := HorizonOnEveryNode(t);
      if ok {
        GrownPaths(cdag.mark, cdag.Value());
        HorizonIsStep(s0, S());
        Record();
      }
    }

    method HorizonOnEveryNode(t: nat) returns (ok: bool)
      requires Inv(S()) && t == lastTid > 0 && cdag.Steady()
      requires forall c :: c in cdag.commands && cdag.commands[c].Horizon? ==> cdag.commands[c].tid < t
      modifies this`bufferLastWriter, this`prevHorizonCmds, this`late, cdag
      ensures cdag.mark == old(cdag.mark) && cdag.Steady()
      ensures ok <==> forall n: nat :: n < numNodes ==> n in old(cdag.fronts)
      ensures ok ==> Inv(S()) && HorizonsMade(old(S()), S())
    {
      hide Inv, GraphOk, Domains, HorizonsUpTo, HorizonsMade, CommandsKnown, CommandsOk, EdgesOk, Grown, Measured;
      hide PrevHorizonsOk, IsLate;
      ghost var s0 := S();
      InvParts(s0);
      GraphParts(s0.g);
      StartHorizons(s0);
      for n := 0 to numNodes
        invariant HorizonsUpTo(s0, S(), n) && s0.g.nextCid <= cdag.nextCid
        invariant forall m :: m >= n ==> (m in cdag.fronts <==> m in s0.g.fronts)
        invariant forall m: nat :: m < n ==> m in s0.g.fronts
        invariant cdag.mark == old(cdag.mark) && cdag.Steady()
        modifies this`bufferLastWriter, this`prevHorizonCmds, cdag
      {
        if n !in cdag.fronts {
          return false;
        }
        HorizonForNode(n, t, s0);
      }
      ok := true;
      NoteLateReaders(s0);
    }

    /** Notes which readers the horizons have been applied past. */
    ghost method NoteLateReaders(s0: State)
      requires Inv(s0) && HorizonsUpTo(s0, S(), s0.numNodes) && late == s0.late
      modifies this`late
      ensures HorizonsMade(s0, S()) && Inv(S())
    {
      hide Inv, GraphOk, Domains, HorizonsUpTo, HorizonsMade, CommandsKnown, PrevHorizonsOk, IsLate;
      InvParts(s0);
      ghost var s := S();
      UpToParts(s0, s, s0.numNodes);
      late := late + (set m: nat, p | m < s0.numNodes && p in s0.sources && IsLate(s0, m, p) :: (m, p));
      LatePairs(s0, late);
      HorizonsDone(s0, s, S());
      HorizonKeepsInv(s0, S());
    }

    /** The commands of a task with their transfers and dependencies. */
    method BuildCommands(t: nat, task: Task) returns (ghost base: Cid)
      requires Valid() && t > lastTid && TaskOk(task, numNodes, bufferStates.Keys)
      modifies this`commandBufferReads, this`bufferStates, this`bufferLastWriter, this`lastTid, this`history, cdag
      ensures Valid() && lastTid == t && TaskProcessed(old(S()), t, S()) && PathsGrow(old(cdag.Value()), cdag.Value())
      ensures CommandsOfTask(cdag.Value(), t, task, base) && history == old(history) + [S()]
    {
      hide Inv, GraphOk, TaskOk, TaskProcessed, CommandsOfTask, IsRun, Step, CommandsOk, EdgesOk, Grown, Measured;
      hide PathsGrow;
      hide CommandsKnown, Domains;
      ghost var s0 := S();
      InvParts(s0);
      GraphParts(s0.g);
      cdag.SetMark();
      base := ProcessTask(t, task);
      GrownPaths(cdag.mark, cdag.Value());
      TaskIsStep(s0, t, S());
      Record();
    }

    method ProcessTask(t: nat, task: Task) returns (ghost base: Cid)
      requires Inv(S()) && t > lastTid && TaskOk(task, numNodes, bufferStates.Keys) && cdag.Steady()
      modifies this`commandBufferReads, this`bufferStates, this`bufferLastWriter, this`lastTid, cdag
      ensures Inv(S()) && lastTid == t && TaskProcessed(old(S()), t, S()) && CommandsOfTask(cdag.Value(), t, task, base)
      ensures cdag.mark == old(cdag.mark) && cdag.Steady()
    {
      hide Inv, GraphOk, TaskOk, Working, TaskProcessed, ChunksMade, Domains, Usable, SameTaskCommands, CommandsOfTask;
      hide CommandsOk, EdgesOk, Grown, Measured, PrevHorizonsOk, CommandsKnown;
      ghost var s0 := S();
      InvParts(s0);
      var first := CreateCommands(t, task);
      base := first;
      lastTid := t;
      ghost var sc := S();
      StartTask(s0, t, sc, task, first);
      ProcessTaskDataRequirements(t, s0);
      TaskKeepsInv(s0, t, S());
      TaskCommandsAre(s0, sc.g, cdag.Value(), t, task, first);
    }

    /**
      * Builds the commands of a task, leading to state `mid`, and then horizons if the graph has become deep enough.
      * It fails only if a horizon is due and some node never had a command.
      */
    method BuildTask(t: nat, task: Task) returns (ok: bool, ghost base: Cid, ghost mid: State)
      requires Valid() && t > lastTid && TaskOk(task, numNodes, bufferStates.Keys)
      modifies this`commandBufferReads, this`bufferStates, this`bufferLastWriter, this`lastTid, this`history
      modifies this`prevHorizonCpathMax, this`prevHorizonCmds, this`late, cdag
      ensures Inv(mid) && TaskProcessed(old(S()), t, mid) && CommandsOfTask(mid.g, t, task, base)
      ensures PathsGrow(old(cdag.Value()), mid.g) && LengthsAreDepths(mid.g)
      ensures HorizonDue(mid, old(prevHorizonCpathMax), horizonStepSize) <==>
                IsDeep(mid.g, old(prevHorizonCpathMax) + horizonStepSize)
      ensures ok <==> (HorizonDue(mid, old(prevHorizonCpathMax), horizonStepSize) ==>
                         forall n: nat :: n < numNodes ==> n in mid.g.fronts)
      ensures (forall n: nat :: n < numNodes ==> HasWork(old(cdag.Value()), n) || OnSomeChunk(task, n)) ==> ok
      ensures ok ==> Valid() && CommandsOfTask(cdag.Value(), t, task, base)
      ensures ok && HorizonDue(mid, old(prevHorizonCpathMax), horizonStepSize) ==>
                && HorizonsMade(mid, S()) && PathsGrow(mid.g, cdag.Value())
                && prevHorizonCpathMax == mid.g.maxPathLength && history == old(history) + [mid, S()]
      ensures ok && !HorizonDue(mid, old(prevHorizonCpathMax), horizonStepSize) ==>
                S() == mid && prevHorizonCpathMax == old(prevHorizonCpathMax) && history == old(history) + [mid]
    {
      hide Inv, GraphOk, TaskOk, TaskProcessed, HorizonsMade, Domains, SameTaskCommands, CommandsOfTask, IsRun, HasWork;
      hide OnSomeChunk, PathsGrow, Measured, LengthsAreDepths, HasDepth, IsDeep;
      ghost var s0 := S();
      HasChunks(task, numNodes, bufferStates.Keys);
      base := BuildCommands(t, task);
      mid := S();
      Depths();
      HasCommands(mid.g, t, task, base);
      DueExactly(mid, prevHorizonCpathMax, horizonStepSize);
      if forall n: nat :: n < numNodes ==>
                            HasWork(s0.g, n) || OnSomeChunk(task, n) { WorkHasFronts(s0, t, mid, task, base); }
      ok := true;
      if ShouldGenerateHorizon() {
        NoHorizonYet(s0, t, mid);
        ok := GenerateHorizon(t);
        if ok {
          HorizonSameTasks(mid, S());
          SameCommandsOfTask(mid.g, cdag.Value(), t, task, base);
        }
      }
    }
  }
}

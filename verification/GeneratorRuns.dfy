/** What holds in every run of the graph generator. */
module GeneratorRuns {
  import opened Grid
  import opened Reachability
  import opened Commands
  import opened GeneratorState
  import opened TaskStep
  import opened HorizonStep
  import opened GeneratorSteps
  import opened GeneratorSetup
  import opened SingleNodeView

  // ---------------------------------------------------------------------- runs

  /**
    * A buffer is added, a task is processed, or horizons are made. The effect of a task includes the shape of the new
    * state; `GraphGenerator.BuildCommands` establishes it, and the states of a generator are a run in this sense.
    */
  ghost predicate Step(s: State, s': State) {
    || (exists cells :: cells !! s.sources.Keys && BufferAdded(s, s', cells))
    || (exists t :: TaskProcessed(s, t, s'))
    || HorizonsMade(s, s')
  }

  ghost predicate IsRun(states: seq<State>) {
    && |states| > 0 && Initial(states[0]) && states[0].numNodes > 0
    && forall i :: 0 <= i < |states| - 1 ==> Step(states[i], states[i + 1])
  }

  lemma InitialRun(s: State)
    requires Initial(s) && s.numNodes > 0
    ensures IsRun([s])
  {
  }

  lemma OneMoreState(states: seq<State>, s: State)
    requires IsRun(states) && Step(states[|states| - 1], s)
    ensures IsRun(states + [s])
  {
    hide Step, Initial;
  }

  lemma BufferStep(s: State, s': State, cells: set<Cell>)
    requires cells !! s.sources.Keys && BufferAdded(s, s', cells)
    ensures Step(s, s')
  {
  }

  lemma TaskIsStep(s: State, t: nat, s': State)
    requires TaskProcessed(s, t, s')
    ensures Step(s, s')
  {
  }

  lemma HorizonIsStep(s: State, s': State)
    requires HorizonsMade(s, s')
    ensures Step(s, s')
  {
  }

  /** Command ids grow with the tasks, and the horizons of a task are its youngest commands. */
  ghost predicate CidsByTask(g: Graph) {
    forall c, d :: c in g.commands && d in g.commands && c < d ==>
                     && g.commands[c].tid <= g.commands[d].tid
                     && (g.commands[c].Horizon? && g.commands[c].tid == g.commands[d].tid ==> g.commands[d].Horizon?)
  }

  /** The most recent horizon of a node is no last-writer entry yet, and nothing depends on it. */
  ghost predicate PrevHorizonsUnused(s: State)
    requires Domains(s)
  {
    && (forall n, a :: n in s.prevHorizon ==> (a, s.prevHorizon[n]) !in s.g.edges)
    && (forall n: nat, p :: n in s.prevHorizon && n < s.numNodes && p in s.sources ==>
                              s.lastWriter[n][p] != s.prevHorizon[n])
  }

  ghost predicate RunInv(s: State) {
    Inv(s) && s.numNodes > 0 && CidsByTask(s.g) && PrevHorizonsUnused(s)
  }

  lemma InitialRunInv(s: State)
    requires Initial(s) && s.numNodes > 0
    ensures RunInv(s)
  {
    InitialInv(s);
    assert forall c :: c in s.g.commands ==> s.g.commands[c].tid == 0 && s.g.commands[c].Nop?;
  }

  lemma BufferKeepsRunInv(s: State, s': State, cells: set<Cell>)
    requires RunInv(s) && cells !! s.sources.Keys && BufferAdded(s, s', cells)
    ensures RunInv(s')
  {
    BufferKeepsInv(s, s', cells);
    BufferKeepsUnused(s, s', cells);
  }

  lemma BufferKeepsUnused(s: State, s': State, cells: set<Cell>)
    requires Domains(s) && CommandsKnown(s) && PrevHorizonsOk(s) && PrevHorizonsUnused(s) && BufferAdded(s, s', cells)
    ensures PrevHorizonsUnused(s')
  {
    hide CommandsKnown, PrevHorizonsOk;
    forall n: nat, p | n in s'.prevHorizon && n < s'.numNodes && p in s'.sources
      ensures s'.lastWriter[n][p] != s'.prevHorizon[n]
    {
      if p in s.sources {
        assert s'.lastWriter[n][p] == s.lastWriter[n][p];
      } else {
        assert s'.lastWriter[n][p] == s.init[n];
        InitIsNoHorizon(s, n);
      }
    }
  }

  lemma InitIsNoHorizon(s: State, n: nat)
    requires CommandsKnown(s) && PrevHorizonsOk(s) && n in s.init && n in s.prevHorizon
    ensures s.init[n] != s.prevHorizon[n]
  {
  }

  lemma TaskKeepsRunInv(s: State, t: nat, s': State)
    requires RunInv(s) && TaskProcessed(s, t, s')
    ensures RunInv(s')
  {
    TaskKeepsInv(s, t, s');
    TaskKeepsCids(s, t, s');
    TaskKeepsUnused(s, t, s');
  }

  lemma TaskKeepsCids(s: State, t: nat, s': State)
    requires CommandsOk(s.g) && CommandsKnown(s) && s.lastTid < t && CidsByTask(s.g) && Extends(s, s', t)
    ensures CidsByTask(s'.g)
  {
    forall c, d | c in s'.g.commands && d in s'.g.commands && c < d
      ensures && s'.g.commands[c].tid <= s'.g.commands[d].tid
              && (s'.g.commands[c].Horizon? && s'.g.commands[c].tid == s'.g.commands[d].tid ==>
                  s'.g.commands[d].Horizon?)
    {
      if c !in s.g.commands { assert IsNew(s, s', c); }
      if d !in s.g.commands { assert IsNew(s, s', d); }
    }
  }

  lemma TaskKeepsUnused(s: State, t: nat, s': State)
    requires Domains(s) && Domains(s') && CommandsKnown(s) && EntriesCover(s) && PrevHorizonsOk(s)
    requires PrevHorizonsUnused(s)
    requires Extends(s, s', t) && EdgesJustified(s, s') && LastWritersUpdated(s, s')
    ensures PrevHorizonsUnused(s')
  {
    forall n, a: Cid | n in s'.prevHorizon
      ensures (a, s'.prevHorizon[n]) !in s'.g.edges
    {
      assert (a, s.prevHorizon[n]) !in s.g.edges;
      NoEntry(s, n);
      NotJustified(s, s', s.prevHorizon[n], a);
    }
    PrevHorizonsNoEntries(s, t, s');
  }

  lemma PrevHorizonsNoEntries(s: State, t: nat, s': State)
    requires Domains(s) && Domains(s') && PrevHorizonsOk(s) && PrevHorizonsUnused(s)
    requires Extends(s, s', t) && LastWritersUpdated(s, s')
    ensures forall n: nat, p :: n in s'.prevHorizon && n < s'.numNodes && p in s'.sources ==>
                                  s'.lastWriter[n][p] != s'.prevHorizon[n]
  {
    forall n: nat, p | n in s'.prevHorizon && n < s'.numNodes && p in s'.sources
      ensures s'.lastWriter[n][p] != s'.prevHorizon[n]
    {
      assert WriterUpdated(s, s', n, p);
    }
  }

  lemma NoEntry(s: State, n: nat)
    requires Domains(s) && EntriesCover(s) && PrevHorizonsOk(s) && PrevHorizonsUnused(s) && n in s.prevHorizon
    ensures forall m: nat, p :: !IsEntry(s, m, p, s.prevHorizon[n])
  {
    forall m: nat, p
      ensures !IsEntry(s, m, p, s.prevHorizon[n])
    {
      if p in s.sources && m < s.numNodes { assert EntryCovers(s, m, p); }
    }
  }

  /** No command of a task has a reason to depend on a horizon that is no last-writer entry. */
  lemma NotJustified(s: State, s': State, h: Cid, a: Cid)
    requires h in s.g.commands && h in s'.g.commands && s'.g.commands[h].Horizon?
    requires forall m: nat, p :: !IsEntry(s, m, p, h)
    ensures !Justified(s, s', a, h)
  {
    hide IsEntry, Writes;
  }

  lemma HorizonKeepsRunInv(s: State, s': State)
    requires RunInv(s) && HorizonsMade(s, s')
    ensures RunInv(s')
  {
    HorizonKeepsInv(s, s');
    HorizonKeepsCids(s, s');
    HorizonKeepsUnused(s, s');
  }

  lemma HorizonKeepsCids(s: State, s': State)
    requires CommandsOk(s.g) && CommandsKnown(s) && CidsByTask(s.g) && HorizonsAdded(s, s')
    ensures CidsByTask(s'.g)
  {
  }

  lemma HorizonKeepsUnused(s: State, s': State)
    requires Domains(s) && CommandsOk(s.g) && EdgesOk(s.g) && EntriesCover(s) && PrevHorizonsOk(s)
    requires HorizonsMade(s, s')
    ensures PrevHorizonsUnused(s')
  {
    hide CommandsOk, EdgesOk, EntriesCover, PrevHorizonsOk, GraphOk, HorizonsAdded, IsLate;
    NothingOnHorizons(s, s');
    forall n: nat, p | n in s'.prevHorizon && n < s'.numNodes && p in s'.sources
      ensures s'.lastWriter[n][p] != s'.prevHorizon[n]
    {
      EntryIsOlder(s, s', n, p);
    }
  }

  lemma NothingOnHorizons(s: State, s': State)
    requires EdgesOk(s.g) && HorizonsAdded(s, s')
    ensures forall n, a: Cid :: n in s'.prevHorizon ==> (a, s'.prevHorizon[n]) !in s'.g.edges
  {
    forall n, a: Cid | n in s'.prevHorizon
      ensures (a, s'.prevHorizon[n]) !in s'.g.edges
    {
      assert n < s.numNodes && s'.prevHorizon[n] !in s.g.commands;
      assert (a, s'.prevHorizon[n]) !in s.g.edges;
      assert !OnFront(s, s', a, s'.prevHorizon[n]);
    }
  }

  lemma EntryIsOlder(s: State, s': State, n: nat, p: Cell)
    requires Domains(s) && Domains(s') && EntriesCover(s) && PrevHorizonsOk(s) && HorizonsAdded(s, s')
    requires n < s.numNodes == s'.numNodes && p in s.sources && p in s'.sources
    requires s'.lastWriter[n][p] == Compacted(s.prevHorizon, n, s.lastWriter[n][p])
    ensures n in s'.prevHorizon && s'.lastWriter[n][p] != s'.prevHorizon[n]
  {
    hide OnFront, InFront, Reaches;
    assert EntryCovers(s, n, p);
  }

  lemma StepKeepsRunInv(s: State, s': State)
    requires RunInv(s) && Step(s, s')
    ensures RunInv(s')
  {
    if cells :| cells !! s.sources.Keys && BufferAdded(s, s', cells) {
      BufferKeepsRunInv(s, s', cells);
    } else if t :| TaskProcessed(s, t, s') {
      TaskKeepsRunInv(s, t, s');
    } else {
      HorizonKeepsRunInv(s, s');
    }
  }

  /** Every state of every run satisfies the invariant. */
  lemma {:induction false} EveryRun(states: seq<State>, i: nat)
    requires IsRun(states) && i < |states|
    ensures RunInv(states[i])
  {
    if i == 0 {
      InitialRunInv(states[0]);
    } else {
      EveryRun(states, i - 1);
      assert Step(states[i - 1], states[i]);
      StepKeepsRunInv(states[i - 1], states[i]);
    }
  }

  /** Some horizon before state `i` was applied past a late reader of the cell on the node. */
  ghost predicate PassedLate(states: seq<State>, i: nat, n: nat, p: Cell) {
    exists j :: 0 <= j < i && j < |states| - 1 && PassesLate(states[j], states[j + 1], n, p)
  }

  /** No horizon has been applied past a late reader of the cell. */
  ghost predicate OnTime(states: seq<State>, i: nat, p: Cell) {
    forall n: nat :: !PassedLate(states, i, n, p)
  }

  ghost predicate PassesLate(s: State, s': State, n: nat, p: Cell) {
    HorizonsMade(s, s') && IsLate(s, n, p)
  }

  /** The cells recorded as late are those. */
  lemma {:induction false} LateMeansPassed(states: seq<State>, i: nat, n: nat, p: Cell)
    requires IsRun(states) && i < |states| && (n, p) in states[i].late
    ensures PassedLate(states, i, n, p)
  {
    hide Initial, IsLate, HorizonsAdded, TaskProcessed;
    if i == 0 {
      StartsOnTime(states[0], n, p);
    } else {
      var s, s' := states[i - 1], states[i];
      assert Step(s, s');
      if (n, p) in s.late {
        LateMeansPassed(states, i - 1, n, p);
      } else {
        LateStep(s, s', n, p);
        assert PassesLate(states[i - 1], states[i - 1 + 1], n, p);
      }
    }
  }

  lemma StartsOnTime(s: State, n: nat, p: Cell)
    requires Initial(s)
    ensures (n, p) !in s.late
  {
  }

  lemma LateStep(s: State, s': State, n: nat, p: Cell)
    requires Step(s, s') && (n, p) !in s.late && (n, p) in s'.late
    ensures PassesLate(s, s', n, p)
  {
    hide IsLate, HorizonsAdded, Shape, Order, Data, EdgesJustified, SourcesUpdated;
  }

  /**
    * Single-node view of a whole run: for every cell that no horizon was applied past a late reader of, every legal
    * execution of the commands of all nodes reads what the sequential program reads.
    */
  lemma RunReadsCurrentVersion(states: seq<State>, i: nat, p: Cell)
    requires IsRun(states) && i < |states| && OnTime(states, i, p)
    ensures View(states[i].g, p)
  {
    hide IsRun, PassedLate, RunInv, Inv, View, ReadersOrdered;
    EveryRun(states, i);
    RunInvIs(states[i]);
    forall n: nat
      ensures (n, p) !in states[i].late
    {
      if (n, p) in states[i].late { LateMeansPassed(states, i, n, p); }
    }
    OnTimeOrdered(states[i], p);
    ViewExact(states[i], p);
  }

  lemma RunInvIs(s: State)
    requires RunInv(s)
    ensures Inv(s) && s.numNodes > 0 && CidsByTask(s.g) && Domains(s) && PrevHorizonsUnused(s)
  {
  }

  /** In every run the view of a cell holds exactly when its writers wait for the earlier readers. */
  lemma RunViewExact(states: seq<State>, i: nat, p: Cell)
    requires IsRun(states) && i < |states|
    ensures View(states[i].g, p) <==> ReadersOrdered(states[i].g, p)
  {
    hide *;
    EveryRun(states, i);
    RunInvIs(states[i]);
    ViewExact(states[i], p);
  }

  /**
    * Conflicting commands of one node are ordered: a command comes after the earlier writers of what it accesses, and a
    * writer after the earlier readers unless a horizon was applied past a late reader of the cell on the node.
    */
  lemma RunConflictOrder(states: seq<State>, i: nat)
    requires IsRun(states) && i < |states|
    ensures var g := states[i].g;
            && WritersFirst(g)
            && forall w, r, p :: OverwritesRead(g, w, r, p) && !PassedLate(states, i, g.commands[w].nid, p) ==>
                                   Reaches(g.edges, w, r)
  {
    hide IsRun, PassedLate, Shape, Data, PrevHorizonsUnused, CidsByTask, WritersFirst, Reads, Writes, Reaches;
    EveryRun(states, i);
    var s := states[i];
    forall w, r, p | OverwritesRead(s.g, w, r, p) && !PassedLate(states, i, s.g.commands[w].nid, p)
      ensures Reaches(s.g.edges, w, r)
    {
      if (s.g.commands[w].nid, p) in s.late { LateMeansPassed(states, i, s.g.commands[w].nid, p); }
    }
  }

  /**
    * What a node has read or been sent is sent to it again only after a write, and a PUSH leaves from the node that
    * computed the version it sends.
    */
  lemma RunDeliversOnce(states: seq<State>, i: nat)
    requires IsRun(states) && i < |states|
    ensures var C := states[i].g.commands;
            PushesFromProducer(C) && PushesAwaited(C) && DeliveredOnce(C) && OneWriterPerTask(C)
  {
    hide IsRun, Order, PrevHorizonsUnused, CidsByTask, PushesFromProducer, PushesAwaited, ReadersFed, SourcesFed;
    hide SourceListsOk;
    hide DeliveredOnce, OneWriterPerTask, DeliveryRemembered;
    EveryRun(states, i);
  }

  /** In every run the command graph is acyclic and every dependency stays on one node. */
  lemma RunAcyclic(states: seq<State>, i: nat, a: Cid, b: Cid)
    requires IsRun(states) && i < |states| && Reaches(states[i].g.edges, a, b)
    ensures a != b && a in states[i].g.commands && b in states[i].g.commands
    ensures states[i].g.commands[a].nid == states[i].g.commands[b].nid
  {
    hide IsRun, Order, Data, PrevHorizonsUnused, CidsByTask;
    EveryRun(states, i);
    ReachesLowerRank(states[i].g, a, b);
  }

  lemma HasNodes(states: seq<State>)
    requires IsRun(states)
    ensures states[|states| - 1].numNodes > 0
  {
    hide IsRun, Inv, PrevHorizonsUnused, CidsByTask;
    NotEmpty(states);
    EveryRun(states, |states| - 1);
  }

  lemma NotEmpty(states: seq<State>)
    requires IsRun(states)
    ensures |states| > 0
  {
  }

  // ------------------------------------------------- horizons and late readers

  /** What was created after a horizon and reads comes later in the sequential program. */
  lemma AfterHorizon(g: Graph, h: Cid, r: Cid, p: Cell)
    requires CidsByTask(g) && h in g.commands && g.commands[h].Horizon? && r in g.commands && h < r
    requires Reads(g.commands[r], p)
    ensures Rank(g.commands[h]) < Rank(g.commands[r])
  {
  }

  /** Only a new horizon depends on the horizon that has just been applied. */
  lemma OnlyHorizonsDepend(s0: State, s1: State, n: nat, b: Cid)
    requires Domains(s0) && PrevHorizonsUnused(s0) && HorizonsMade(s0, s1)
    requires n in s0.prevHorizon && (b, s0.prevHorizon[n]) in s1.g.edges
    ensures b in s1.g.commands && b !in s0.g.commands && s1.g.commands[b].Horizon?
  {
    assert (b, s0.prevHorizon[n]) !in s0.g.edges;
    assert OnFront(s0, s1, b, s0.prevHorizon[n]);
  }

  /** Applying the previous horizon leaves the readers of a cell covered exactly when none of them is late. */
  lemma CompactionExact(s0: State, s1: State, n: nat, p: Cell)
    requires RunInv(s0) && HorizonsMade(s0, s1) && n < s0.numNodes && p in s0.sources && ReadersUnderEntry(s0, n, p)
    ensures ReadersUnderEntry(s1, n, p) <==> !IsLate(s0, n, p)
  {
    if r :| LateReader(s0, n, p, r) {
      LateReaderUncovered(s0, s1, n, p, r);
    } else {
      CoveredAfter(s0, s1, n, p);
    }
  }

  lemma CoveredAfter(s0: State, s1: State, n: nat, p: Cell)
    requires RunInv(s0) && HorizonsMade(s0, s1) && n < s0.numNodes && p in s0.sources && ReadersUnderEntry(s0, n, p)
    requires !IsLate(s0, n, p)
    ensures ReadersUnderEntry(s1, n, p)
  {
    ReachesMonotone(s0.g.edges, s1.g.edges);
    hide Reaches, IsLate, HorizonsCover, OnFront, GraphOk, PrevHorizonsUnused, CidsByTask, Data, WritersFirst;
    hide ReadersFirst;
    hide OneWriterPerTask, PushesAwaited, AwaitHasReader, ReadsRecorded;
    assert EntryCovers(s0, n, p);
    assert CommandsOk(s0.g) && EdgesOk(s0.g) by { GraphParts(s0.g); }
    forall r | r in s1.g.commands && s1.g.commands[r].nid == n && Reads(s1.g.commands[r], p)
      ensures var e := s1.lastWriter[n][p]; r == e || (r, e) in s1.g.trueEdges || Reaches(s1.g.edges, e, r)
    {
      assert r in s0.g.commands;
      StillUnder(s0, n, p, r);
    }
  }

  lemma LateReaderUncovered(s0: State, s1: State, n: nat, p: Cell, r: Cid)
    requires RunInv(s0) && HorizonsMade(s0, s1) && LateReader(s0, n, p, r)
    ensures !ReadersUnderEntry(s1, n, p)
  {
    var h := s0.prevHorizon[n];
    HorizonKeepsRunInv(s0, s1);
    AfterHorizon(s1.g, h, r, p);
    if Reaches(s1.g.edges, h, r) { ReachesLowerRank(s1.g, h, r); }
    if (r, h) in s1.g.edges { OnlyHorizonsDepend(s0, s1, n, r); }
  }

  /** A task that reads data which its node has held since before the last horizon is a late reader. */
  lemma LateReaderArises(s: State, t: nat, s': State, n: nat, p: Cell, r: Cid)
    requires RunInv(s) && TaskProcessed(s, t, s')
    requires n in s.prevHorizon && n < s.numNodes && p in s.sources && n in s.sources[p]
    requires s.lastWriter[n][p] < s.prevHorizon[n]
    requires IsNew(s, s', r) && s'.g.commands[r].TaskCommand? && s'.g.commands[r].nid == n && Reads(s'.g.commands[r], p)
    requires forall c :: IsNew(s, s', c) && s'.g.commands[c].nid == n ==> !Writes(s'.g.commands[c], p)
    ensures LateReader(s', n, p, r)
  {
    hide OneWriterPerTask, AwaitHasReader, ReadsRecorded, Order, Data, GraphOk, SourcesUpdated, EdgesJustified;
    hide WritersOrdered;
    assert CommandsOk(s.g) by { InvParts(s); }
    StaysLate(s, t, s', n, p, r);
  }

  lemma StaysLate(s: State, t: nat, s': State, n: nat, p: Cell, r: Cid)
    requires Domains(s) && Domains(s') && CommandsOk(s.g) && PrevHorizonsOk(s)
    requires Extends(s, s', t) && TasksFed(s, s') && AwaitsNeeded(s, s') && LastWritersUpdated(s, s')
    requires n in s.prevHorizon && n < s.numNodes && p in s.sources && n in s.sources[p]
    requires s.lastWriter[n][p] < s.prevHorizon[n]
    requires IsNew(s, s', r) && s'.g.commands[r].TaskCommand? && s'.g.commands[r].nid == n && Reads(s'.g.commands[r], p)
    requires forall c :: IsNew(s, s', c) && s'.g.commands[c].nid == n ==> !Writes(s'.g.commands[c], p)
    ensures LateReader(s', n, p, r)
  {
    assert FedFrom(s, s', r, p);
    assert WriterUpdated(s, s', n, p);
  }

  /**
    * After compaction past a late reader, a command that only overwrites its cell does not wait for it, and some legal
    * execution reads what it should not.
    */
  lemma LateReaderRaces(s0: State, s1: State, t: nat, s2: State, n: nat, p: Cell, r: Cid, x: Cid)
    requires RunInv(s0) && LateReader(s0, n, p, r) && HorizonsMade(s0, s1) && TaskProcessed(s1, t, s2)
    requires IsNew(s1, s2, x) && s2.g.commands[x].nid == n && Computes(s2.g.commands[x], p)
    requires forall c :: IsNew(s1, s2, c) ==> c == x
    requires forall q :: Writes(s2.g.commands[x], q) ==> q == p
    requires forall q :: !Reads(s2.g.commands[x], q)
    ensures OverwritesRead(s2.g, x, r, p) && !Reaches(Waits(s2.g), x, r) && !View(s2.g, p)
  {
    hide *;
    HorizonKeepsRunInv(s0, s1);
    TaskKeepsRunInv(s1, t, s2);
    RunInvIs(s0);
    RunInvIs(s1);
    RunInvIs(s2);
    InvParts(s0);
    InvParts(s1);
    InvParts(s2);
    GraphParts(s1.g);
    GraphParts(s2.g);
    RaceParts(s0, s1, t, s2, n, p, r);
    var h := s0.prevHorizon[n];
    forall b: Cid | (b, h) in s1.g.edges
      ensures b in s1.g.commands && s1.g.commands[b].Horizon?
    {
      OnlyHorizonsDepend(s0, s1, n, b);
    }
    AfterHorizon(s2.g, h, r, p);
    RaceAt(s1, t, s2, n, p, h, r, x);
    WriterFirstIsWrong(s2, x, r, p);
  }

  lemma RaceParts(s0: State, s1: State, t: nat, s2: State, n: nat, p: Cell, r: Cid)
    requires Domains(s0) && PrevHorizonsOk(s0) && LateReader(s0, n, p, r) && HorizonsMade(s0, s1)
    requires TaskProcessed(s1, t, s2)
    ensures n in s0.prevHorizon && s1.lastTid < t && Extends(s1, s2, t) && EdgesJustified(s1, s2)
    ensures var h := s0.prevHorizon[n];
            && IsEntry(s1, n, p, h) && h < r && h in s1.g.commands && r in s1.g.commands && h in s2.g.commands
            && r in s2.g.commands
            && s2.g.commands[h] == s1.g.commands[h] && s2.g.commands[r] == s1.g.commands[r]
            && s1.g.commands[h].Horizon? && s1.g.commands[r].nid == n && Reads(s1.g.commands[r], p)
  {
    hide OnFront, EdgesJustified, SourcesUpdated, WritersOrdered, TasksFed, PushesFed, LastWritersUpdated, AwaitsNeeded;
    hide OneWriterPerTask, PushesAwaited, AwaitHasReader, ReadsRecorded, GraphOk, PushesBeforeOverwrite, CommandsKnown;
  }

  lemma RaceAt(s1: State, t: nat, s2: State, n: nat, p: Cell, h: Cid, r: Cid, x: Cid)
    requires IsEntry(s1, n, p, h) && h in s1.g.commands && s1.g.commands[h].Horizon?
    requires forall b: Cid :: (b, h) in s1.g.edges ==> b in s1.g.commands && s1.g.commands[b].Horizon?
    requires s1.lastTid < t && CommandsKnown(s1) && Extends(s1, s2, t) && EdgesJustified(s1, s2) && EdgesOk(s1.g)
    requires EdgesOk(s2.g) && CommandsOk(s2.g)
    requires r in s1.g.commands && s1.g.commands[r].nid == n && Reads(s1.g.commands[r], p)
    requires h in s2.g.commands && r in s2.g.commands && Rank(s2.g.commands[h]) < Rank(s2.g.commands[r])
    requires IsNew(s1, s2, x) && s2.g.commands[x].nid == n && Computes(s2.g.commands[x], p)
    requires forall c :: IsNew(s1, s2, c) ==> c == x
    requires forall q :: Writes(s2.g.commands[x], q) ==> q == p
    requires forall q :: !Reads(s2.g.commands[x], q)
    ensures OverwritesRead(s2.g, x, r, p) && !Reaches(Waits(s2.g), x, r)
  {
    RanksApart(s1, t, s2, r, x);
    if Reaches(Waits(s2.g), x, r) {
      var b := FirstStep(Waits(s2.g), x, r);
      assert (x, b) in s2.g.edges;
      OnlyOnHorizon(s1, t, s2, n, p, h, x, b);
      WaitsDescend(s2.g);
      if b != r { ReachesDescends(Waits(s2.g), Ranks(s2.g), b, r); }
    }
  }

  /** The overwriting command depends on nothing but the applied horizon. */
  lemma OnlyOnHorizon(s1: State, t: nat, s2: State, n: nat, p: Cell, h: Cid, x: Cid, b: Cid)
    requires IsEntry(s1, n, p, h) && h in s1.g.commands
    requires forall c :: (c, h) in s1.g.edges ==> c in s1.g.commands && s1.g.commands[c].Horizon?
    requires Extends(s1, s2, t) && EdgesJustified(s1, s2) && EdgesOk(s1.g) && s2.g.trueEdges <= s2.g.edges
    requires IsNew(s1, s2, x) && s2.g.commands[x].nid == n && s2.g.commands[x].TaskCommand?
    requires forall c :: IsNew(s1, s2, c) ==> c == x
    requires forall q :: Writes(s2.g.commands[x], q) ==> q == p
    requires forall q :: !Reads(s2.g.commands[x], q)
    requires (x, b) in s2.g.edges
    ensures b == h
  {
    hide Reads, Writes;
    assert (x, b) !in s1.g.edges;
    assert Justified(s1, s2, x, b);
    if e, p', q :| ReadsOverwritten(s1, s2, x, b, e, p', q) {
      NoReaderOfHorizon(s1, t, s2, h, x, b, q);
    }
  }

  lemma NoReaderOfHorizon(s1: State, t: nat, s2: State, h: Cid, x: Cid, b: Cid, q: Cell)
    requires forall c :: (c, h) in s1.g.edges ==> c in s1.g.commands && s1.g.commands[c].Horizon?
    requires Extends(s1, s2, t) && (forall c :: IsNew(s1, s2, c) ==> c == x)
    requires (b, h) in s2.g.edges && b in s2.g.commands && b != x
    ensures !Reads(s2.g.commands[b], q)
  {
    assert !IsNew(s1, s2, b);
  }
}

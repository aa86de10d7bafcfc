/** What processing one task does to the state, and that it keeps the invariant. */
module TaskStep {
  import opened Grid
  import opened Reachability
  import opened Commands
  import opened GeneratorState

  ghost predicate IsNew(s0: State, s1: State, c: Cid) {
    c in s1.g.commands && c !in s0.g.commands
  }

  /** Only commands of task `t` are added, and only they get new dependencies. */
  ghost predicate Extends(s0: State, s1: State, t: nat) {
    && (forall c :: c in s0.g.commands ==> c in s1.g.commands && s1.g.commands[c] == s0.g.commands[c])
    && (forall c :: IsNew(s0, s1, c) ==>
                      && s0.g.nextCid <= c && s1.g.commands[c].tid == t
                      && (s1.g.commands[c].Push? || s1.g.commands[c].AwaitPush? || s1.g.commands[c].TaskCommand?))
    && s0.g.nextCid <= s1.g.nextCid
    && s0.g.edges <= s1.g.edges
    && s0.g.trueEdges <= s1.g.trueEdges
    && (forall a, b :: (a, b) in s1.g.edges && (a, b) !in s0.g.edges ==> a !in s0.g.commands)
    && s1.numNodes == s0.numNodes && s1.init == s0.init && s1.prevHorizon == s0.prevHorizon && s1.late == s0.late
    && s1.sources.Keys == s0.sources.Keys
  }

  /**
    * A reading command depends on the local last writer if the node holds the newest data, and else on the AWAIT_PUSH
    * that brings it.
    */
  ghost predicate FedFrom(s0: State, s1: State, c: Cid, p: Cell)
    requires Domains(s0) && c in s1.g.commands
  {
    var n := s1.g.commands[c].nid;
    && n < s0.numNodes && p in s0.sources
    && ( || (n in s0.sources[p] && (c, s0.lastWriter[n][p]) in s1.g.trueEdges)
         || (exists a: Cid :: Brings(s0, s1, n, p, a) && (c, a) in s1.g.trueEdges))
  }

  /** `a` is a new AWAIT_PUSH that brings the cell to node `n`. */
  ghost predicate Brings(s0: State, s1: State, n: nat, p: Cell, a: Cid) {
    IsNew(s0, s1, a) && s1.g.commands[a].AwaitPush? && s1.g.commands[a].nid == n && p in s1.g.commands[a].box
  }

  ghost predicate TasksFed(s0: State, s1: State)
    requires Domains(s0)
  {
    forall c, p :: IsNew(s0, s1, c) && s1.g.commands[c].TaskCommand? && Reads(s1.g.commands[c], p) ==>
                     FedFrom(s0, s1, c, p)
  }

  ghost predicate PushesFed(s0: State, s1: State)
    requires Domains(s0)
  {
    forall b, p :: IsNew(s0, s1, b) && s1.g.commands[b].Push? && p in s1.g.commands[b].box ==>
                     && p in s0.sources && |s0.sources[p]| > 0
                     && s1.g.commands[b].target < s0.numNodes && s1.g.commands[b].target !in s0.sources[p]
                     && s1.g.commands[b].nid == s0.sources[p][0]
                     && s1.g.commands[b].nid < s0.numNodes
                     && (b, s0.lastWriter[s1.g.commands[b].nid][p]) in s1.g.trueEdges
  }

  ghost predicate AwaitsNeeded(s0: State, s1: State) {
    && (forall a :: IsNew(s0, s1, a) && s1.g.commands[a].AwaitPush? ==> s1.g.commands[a].box != {})
    && (forall a, p :: IsNew(s0, s1, a) && s1.g.commands[a].AwaitPush? && p in s1.g.commands[a].box ==>
                         p in s0.sources && s1.g.commands[a].nid !in s0.sources[p])
  }

  /** A writing command is ordered after the last writer of the cell and after those that read from it. */
  ghost predicate OrderedAfter(s0: State, s1: State, x: Cid, p: Cell)
    requires Domains(s0) && x in s1.g.commands
  {
    var n := s1.g.commands[x].nid;
    && n < s0.numNodes && p in s0.sources
    && var e := s0.lastWriter[n][p];
    && e in s0.g.commands
    && (s0.g.commands[e].Nop? || (x, e) in s1.g.edges
        || exists d: Cid :: (x, d) in s1.g.edges && (d, e) in s1.g.trueEdges)
    && forall r :: r in s0.g.commands && (r, e) in s0.g.trueEdges && Reads(s0.g.commands[r], p) ==> (x, r) in s1.g.edges
  }

  ghost predicate WritersOrdered(s0: State, s1: State)
    requires Domains(s0)
  {
    forall x, p :: IsNew(s0, s1, x) && Writes(s1.g.commands[x], p) ==> OrderedAfter(s0, s1, x, p)
  }

  /** A task command that overwrites what its own task pushes away waits for the PUSH. */
  ghost predicate PushesBeforeOverwrite(s0: State, s1: State) {
    forall x, b, p :: IsNew(s0, s1, x) && IsNew(s0, s1, b) && s1.g.commands[x].nid == s1.g.commands[b].nid
                      && Computes(s1.g.commands[x], p) && s1.g.commands[b].Push? && p in s1.g.commands[b].box ==>
                        (x, b) in s1.g.edges
  }

  ghost predicate IsEntry(s0: State, n: nat, p: Cell, b: Cid) {
    p in s0.sources && n in s0.lastWriter && p in s0.lastWriter[n] && b == s0.lastWriter[n][p]
  }

  /** `b` reads from a last writer of what `a` overwrites, and reads some of what `a` overwrites. */
  ghost predicate ReadsOverwritten(s0: State, s1: State, a: Cid, b: Cid, e: Cid, p: Cell, q: Cell)
    requires a in s1.g.commands
  {
    && Writes(s1.g.commands[a], p) && IsEntry(s0, s1.g.commands[a].nid, p, e)
    && (b, e) in s1.g.trueEdges && b in s1.g.commands
    && Writes(s1.g.commands[a], q) && Reads(s1.g.commands[b], q)
  }

  /** The transfer `b` brings what `a` reads, or sends away what `a` overwrites. */
  ghost predicate Concerns(b: Command, a: Command) {
    || (b.AwaitPush? && exists p :: p in b.box && Reads(a, p))
    || (b.Push? && exists p :: p in b.box && Computes(a, p))
  }

  /** The command reads the cell, or it overwrites the cell and `b` is not the init command. */
  ghost predicate Touches(s0: State, a: Command, p: Cell, b: Cid) {
    Reads(a, p) || (Writes(a, p) && a.nid in s0.init && b != s0.init[a.nid])
  }

  /**
    * The reasons for a dependency: a last writer of a touched cell, a transfer of the task, or a reader of what is
    * overwritten.
    */
  ghost predicate Justified(s0: State, s1: State, a: Cid, b: Cid) {
    && IsNew(s0, s1, a)
    && ( || (exists p :: Touches(s0, s1.g.commands[a], p, b) && IsEntry(s0, s1.g.commands[a].nid, p, b))
         || (IsNew(s0, s1, b) && Concerns(s1.g.commands[b], s1.g.commands[a]))
         || (exists e, p, q :: ReadsOverwritten(s0, s1, a, b, e, p, q)))
  }

  /** `a` reads a cell of which `b` is the last writer on the node, or which `b` brings there. */
  ghost predicate DataFlows(s0: State, s1: State, a: Cid, b: Cid) {
    && IsNew(s0, s1, a)
    && exists p :: && Reads(s1.g.commands[a], p)
                   && (IsEntry(s0, s1.g.commands[a].nid, p, b) || Brings(s0, s1, s1.g.commands[a].nid, p, b))
  }

  /** No dependency is added without a reason, and no true one without data that flows. */
  ghost predicate EdgesJustified(s0: State, s1: State) {
    && (forall a, b :: (a, b) in s1.g.edges && (a, b) !in s0.g.edges ==> Justified(s0, s1, a, b))
    && (forall a, b :: (a, b) in s1.g.trueEdges && (a, b) !in s0.g.trueEdges ==> DataFlows(s0, s1, a, b))
  }

  ghost predicate NewlyComputed(s0: State, s1: State, p: Cell) {
    exists c :: IsNew(s0, s1, c) && Computes(s1.g.commands[c], p)
  }

  ghost predicate SourcesUpdated(s0: State, s1: State)
  {
    && s1.sources.Keys == s0.sources.Keys
    && (forall c, p :: IsNew(s0, s1, c) && Computes(s1.g.commands[c], p) ==>
                         p in s1.sources && s1.sources[p] == [s1.g.commands[c].nid])
    && (forall p :: p in s0.sources && !NewlyComputed(s0, s1, p) ==> NodesAdded(s0, s1, p))
  }

  ghost predicate NodesAdded(s0: State, s1: State, p: Cell)
    requires p in s0.sources && p in s1.sources
  {
    && s0.sources[p] <= s1.sources[p]
    && NoDuplicates(s1.sources[p])
    && (forall m :: m in s1.sources[p] ==> m in s0.sources[p] || exists a :: Brings(s0, s1, m, p, a))
    && (forall m, a :: Brings(s0, s1, m, p, a) ==> m in s1.sources[p])
  }

  ghost predicate WriterUpdated(s0: State, s1: State, n: nat, p: Cell)
    requires Domains(s0) && Domains(s1) && n < s0.numNodes == s1.numNodes && p in s0.sources && p in s1.sources
  {
    var e := s1.lastWriter[n][p];
    || (IsNew(s0, s1, e) && s1.g.commands[e].nid == n && Computes(s1.g.commands[e], p))
    || ((forall c :: IsNew(s0, s1, c) && s1.g.commands[c].nid == n ==> !Computes(s1.g.commands[c], p))
                       && Brings(s0, s1, n, p, e))
    || ((forall c :: IsNew(s0, s1, c) && s1.g.commands[c].nid == n ==> !Writes(s1.g.commands[c], p))
                       && e == s0.lastWriter[n][p])
  }

  ghost predicate LastWritersUpdated(s0: State, s1: State)
    requires Domains(s0) && Domains(s1) && s0.numNodes == s1.numNodes && s1.sources.Keys == s0.sources.Keys
  {
    forall n: nat, p :: n < s0.numNodes && p in s0.sources ==> WriterUpdated(s0, s1, n, p)
  }

  /** The effect of one task. */
  ghost predicate TaskProcessed(s0: State, t: nat, s1: State)
  {
    && s0.lastTid < t == s1.lastTid
    && Extends(s0, s1, t)
    && Shape(s1)
    && Domains(s0)
    && TasksFed(s0, s1)
    && PushesFed(s0, s1)
    && AwaitsNeeded(s0, s1)
    && WritersOrdered(s0, s1)
    && PushesBeforeOverwrite(s0, s1)
    && SourcesUpdated(s0, s1)
    && LastWritersUpdated(s0, s1)
    && EdgesJustified(s0, s1)
  }

  // ------------------------------------------------------------------ order

  lemma RanksApart(s0: State, t: nat, s1: State, a: Cid, b: Cid)
    requires CommandsKnown(s0) && Extends(s0, s1, t) && s0.lastTid < t
    requires a in s0.g.commands && IsNew(s0, s1, b)
    ensures Rank(s1.g.commands[a]) < 4 * t <= Rank(s1.g.commands[b])
  {
  }

  /** A node's init command depends on nothing. */
  lemma NopReachesNothing(g: Graph, a: Cid, b: Cid)
    requires CommandsOk(g) && EdgesOk(g) && a in g.commands && g.commands[a].Nop?
    ensures !Reaches(g.edges, a, b)
  {
    if Reaches(g.edges, a, b) { ReachesLowerRank(g, a, b); }
  }

  lemma WriterReachesEntry(s0: State, t: nat, s1: State, x: Cid, p: Cell)
    requires Domains(s0) && EdgesOk(s1.g) && WritersOrdered(s0, s1)
    requires IsNew(s0, s1, x) && Writes(s1.g.commands[x], p)
    ensures s1.g.commands[x].nid < s0.numNodes && p in s0.sources
    ensures var e := s0.lastWriter[s1.g.commands[x].nid][p];
            e in s0.g.commands && (s0.g.commands[e].Nop? || Reaches(s1.g.edges, x, e))
  {
    assert OrderedAfter(s0, s1, x, p);
    var e := s0.lastWriter[s1.g.commands[x].nid][p];
    if !s0.g.commands[e].Nop? {
      if (x, e) in s1.g.edges {
        EdgeReaches(s1.g.edges, x, e);
      } else {
        var d :| (x, d) in s1.g.edges && (d, e) in s1.g.trueEdges;
        EdgeReaches(s1.g.edges, d, e);
        ReachesVia(s1.g.edges, x, d, e);
      }
    }
  }

  lemma WriterReachesOldWriter(s0: State, t: nat, s1: State, x: Cid, p: Cell, w: Cid)
    requires Domains(s0) && EdgesOk(s1.g) && WritersOrdered(s0, s1) && s0.g.edges <= s1.g.edges
    requires CommandsKnown(s0) && CommandsOk(s0.g) && EdgesOk(s0.g) && EntriesCover(s0)
    requires IsNew(s0, s1, x) && Writes(s1.g.commands[x], p)
    requires w in s0.g.commands && Writes(s0.g.commands[w], p) && s0.g.commands[w].nid == s1.g.commands[x].nid
    ensures Reaches(s1.g.edges, x, w)
  {
    WriterReachesEntry(s0, t, s1, x, p);
    var n := s1.g.commands[x].nid;
    var e := s0.lastWriter[n][p];
    assert EntryCovers(s0, n, p);
    if s0.g.commands[e].Nop? { NopReachesNothing(s0.g, e, w); }
    ReachesMonotone(s0.g.edges, s1.g.edges);
    if w != e { ReachesTransitive(s1.g.edges, x, e, w); }
  }

  lemma ReaderReachesOldWriter(s0: State, t: nat, s1: State, r: Cid, p: Cell, w: Cid)
    requires Domains(s0) && s0.g.edges <= s1.g.edges && s1.g.trueEdges <= s1.g.edges
    requires EntriesCover(s0)
    requires IsNew(s0, s1, r) && s1.g.commands[r].nid < s0.numNodes && p in s0.sources
    requires (r, s0.lastWriter[s1.g.commands[r].nid][p]) in s1.g.trueEdges
    requires w in s0.g.commands && Writes(s0.g.commands[w], p) && s0.g.commands[w].nid == s1.g.commands[r].nid
    ensures Reaches(s1.g.edges, r, w)
  {
    var n := s1.g.commands[r].nid;
    var e := s0.lastWriter[n][p];
    assert EntryCovers(s0, n, p);
    ReachesMonotone(s0.g.edges, s1.g.edges);
    ReachesVia(s1.g.edges, r, e, w);
  }

  lemma WriterReachesOldReader(s0: State, t: nat, s1: State, x: Cid, p: Cell, r: Cid)
    requires Domains(s0) && EdgesOk(s1.g) && WritersOrdered(s0, s1) && s0.g.edges <= s1.g.edges
    requires CommandsKnown(s0) && CommandsOk(s0.g) && EdgesOk(s0.g) && ReadersCovered(s0)
    requires IsNew(s0, s1, x) && Writes(s1.g.commands[x], p) && (s1.g.commands[x].nid, p) !in s0.late
    requires r in s0.g.commands && Reads(s0.g.commands[r], p) && s0.g.commands[r].nid == s1.g.commands[x].nid
    ensures Reaches(s1.g.edges, x, r)
  {
    WriterReachesEntry(s0, t, s1, x, p);
    var n := s1.g.commands[x].nid;
    var e := s0.lastWriter[n][p];
    assert ReadersUnderEntry(s0, n, p);
    assert OrderedAfter(s0, s1, x, p);
    ReachesMonotone(s0.g.edges, s1.g.edges);
    if r == e {
    } else if (r, e) in s0.g.trueEdges {
      EdgeReaches(s1.g.edges, x, r);
    } else {
      if s0.g.commands[e].Nop? { NopReachesNothing(s0.g, e, r); }
      ReachesTransitive(s1.g.edges, x, e, r);
    }
  }

  ghost predicate OneCommandEach(s: State) {
    Domains(s) && EdgesOk(s.g) && OneWriterPerTask(s.g.commands) && AwaitHasReader(s.g)
  }

  /** The AWAIT_PUSHes of a task feed the one command that the task has on their node. */
  lemma AwaitFeedsCommand(s1: State, a: Cid, c: Cid)
    requires OneCommandEach(s1)
    requires a in s1.g.commands && s1.g.commands[a].AwaitPush?
    requires c in s1.g.commands && s1.g.commands[c].TaskCommand?
    requires s1.g.commands[c].tid == s1.g.commands[a].tid && s1.g.commands[c].nid == s1.g.commands[a].nid
    ensures (c, a) in s1.g.trueEdges
  {
    var d :| FeedsTask(s1.g, a, d);
    assert EdgeOk(s1.g.commands[d], s1.g.commands[a]);
    assert d == c;
  }

  /** No node pushes away and receives the same cell in one task. */
  lemma PushAndAwaitApart(s0: State, t: nat, s1: State, b: Cid, a: Cid, p: Cell)
    requires Domains(s0) && PushesFed(s0, s1) && AwaitsNeeded(s0, s1)
    requires IsNew(s0, s1, b) && s1.g.commands[b].Push? && p in s1.g.commands[b].box
    requires IsNew(s0, s1, a) && s1.g.commands[a].AwaitPush? && p in s1.g.commands[a].box
    ensures s1.g.commands[a].nid != s1.g.commands[b].nid
  {
    assert s1.g.commands[b].nid == s0.sources[p][0];
    assert s1.g.commands[a].nid !in s0.sources[p];
  }

  lemma KeepsHorizonsCover(s0: State, t: nat, s1: State)
    requires HorizonsCover(s0.g) && CommandsOk(s0.g) && Extends(s0, s1, t)
    ensures HorizonsCover(s1.g)
  {
    ReachesMonotone(s0.g.edges, s1.g.edges);
  }

  lemma KeepsWritersFirst(s0: State, t: nat, s1: State)
    requires s0.lastTid < t && Domains(s0) && Extends(s0, s1, t) && OneCommandEach(s1)
    requires CommandsKnown(s0) && CommandsOk(s0.g) && EdgesOk(s0.g) && EntriesCover(s0) && WritersFirst(s0.g)
    requires WritersOrdered(s0, s1) && TasksFed(s0, s1) && PushesFed(s0, s1)
    ensures WritersFirst(s1.g)
  {
    hide *;
    forall a, w, p | WriteFirst(s1.g, a, w, p)
      ensures Reaches(s1.g.edges, a, w)
    {
      FirstWriterReached(s0, t, s1, a, w, p);
    }
    WritersFirstFrom(s1.g);
  }

  /** `w` writes a cell on the node of `a` before `a` accesses it. */
  ghost predicate WriteFirst(g: Graph, a: Cid, w: Cid, p: Cell) {
    && a in g.commands && w in g.commands && g.commands[a].nid == g.commands[w].nid
    && Rank(g.commands[w]) < Rank(g.commands[a])
    && Writes(g.commands[w], p) && (Reads(g.commands[a], p) || Writes(g.commands[a], p))
  }

  lemma WritersFirstFrom(g: Graph)
    requires forall a, w, p :: WriteFirst(g, a, w, p) ==> Reaches(g.edges, a, w)
    ensures WritersFirst(g)
  {
    hide Reaches;
    forall a, w, p | && a in g.commands && w in g.commands && g.commands[a].nid == g.commands[w].nid
                     && Rank(g.commands[w]) < Rank(g.commands[a])
                     && Writes(g.commands[w], p) && (Reads(g.commands[a], p) || Writes(g.commands[a], p))
      ensures Reaches(g.edges, a, w)
    {
      assert WriteFirst(g, a, w, p);
    }
  }

  lemma FirstWriterReached(s0: State, t: nat, s1: State, a: Cid, w: Cid, p: Cell)
    requires s0.lastTid < t && Domains(s0) && Extends(s0, s1, t) && OneCommandEach(s1)
    requires CommandsKnown(s0) && CommandsOk(s0.g) && EdgesOk(s0.g) && EntriesCover(s0) && WritersFirst(s0.g)
    requires WritersOrdered(s0, s1) && TasksFed(s0, s1) && PushesFed(s0, s1) && WriteFirst(s1.g, a, w, p)
    ensures Reaches(s1.g.edges, a, w)
  {
    ReachesMonotone(s0.g.edges, s1.g.edges);
    hide Reaches, WritersOrdered, TasksFed, PushesFed, EntriesCover, OneWriterPerTask, AwaitHasReader;
    if a in s0.g.commands {
      if w !in s0.g.commands { RanksApart(s0, t, s1, a, w); }
    } else if w in s0.g.commands {
      NewAfterOldWriter(s0, t, s1, a, w, p);
    } else {
      NewAfterNewWriter(s0, t, s1, a, w, p);
    }
  }

  lemma NewAfterNewWriter(s0: State, t: nat, s1: State, a: Cid, w: Cid, p: Cell)
    requires Extends(s0, s1, t) && OneCommandEach(s1)
    requires IsNew(s0, s1, a) && IsNew(s0, s1, w) && s1.g.commands[a].nid == s1.g.commands[w].nid
    requires Rank(s1.g.commands[w]) < Rank(s1.g.commands[a]) && Writes(s1.g.commands[w], p)
    ensures Reaches(s1.g.edges, a, w)
  {
    AwaitFeedsCommand(s1, w, a);
    EdgeReaches(s1.g.edges, a, w);
  }

  lemma NewAfterOldWriter(s0: State, t: nat, s1: State, a: Cid, w: Cid, p: Cell)
    requires Domains(s0) && EdgesOk(s1.g) && Extends(s0, s1, t)
    requires CommandsKnown(s0) && CommandsOk(s0.g) && EdgesOk(s0.g) && EntriesCover(s0)
    requires WritersOrdered(s0, s1) && TasksFed(s0, s1) && PushesFed(s0, s1)
    requires IsNew(s0, s1, a) && w in s0.g.commands && s1.g.commands[a].nid == s0.g.commands[w].nid
    requires Writes(s0.g.commands[w], p) && (Reads(s1.g.commands[a], p) || Writes(s1.g.commands[a], p))
    ensures Reaches(s1.g.edges, a, w)
  {
    if Writes(s1.g.commands[a], p) {
      WriterReachesOldWriter(s0, t, s1, a, p, w);
    } else if s1.g.commands[a].Push? {
      ReaderReachesOldWriter(s0, t, s1, a, p, w);
    } else {
      assert FedFrom(s0, s1, a, p);
      FedAfterOldWriter(s0, t, s1, a, w, p);
    }
  }

  lemma FedAfterOldWriter(s0: State, t: nat, s1: State, a: Cid, w: Cid, p: Cell)
    requires Domains(s0) && EdgesOk(s1.g) && WritersOrdered(s0, s1) && s0.g.edges <= s1.g.edges
    requires CommandsKnown(s0) && CommandsOk(s0.g) && EdgesOk(s0.g) && EntriesCover(s0)
    requires IsNew(s0, s1, a) && FedFrom(s0, s1, a, p)
    requires w in s0.g.commands && s1.g.commands[a].nid == s0.g.commands[w].nid && Writes(s0.g.commands[w], p)
    ensures Reaches(s1.g.edges, a, w)
  {
    var n := s1.g.commands[a].nid;
    if n in s0.sources[p] && (a, s0.lastWriter[n][p]) in s1.g.trueEdges {
      ReaderReachesOldWriter(s0, t, s1, a, p, w);
    } else {
      var b: Cid :| Brings(s0, s1, n, p, b) && (a, b) in s1.g.trueEdges;
      WriterReachesOldWriter(s0, t, s1, b, p, w);
      ReachesVia(s1.g.edges, a, b, w);
    }
  }

  lemma KeepsReadersFirst(s0: State, t: nat, s1: State)
    requires s0.lastTid < t && Domains(s0) && Extends(s0, s1, t) && EdgesOk(s1.g)
    requires CommandsKnown(s0) && CommandsOk(s0.g) && EdgesOk(s0.g) && ReadersCovered(s0) && ReadersFirst(s0.g, s0.late)
    requires WritersOrdered(s0, s1) && PushesFed(s0, s1) && AwaitsNeeded(s0, s1) && PushesBeforeOverwrite(s0, s1)
    ensures ReadersFirst(s1.g, s1.late)
  {
    var C := s1.g.commands;
    hide Reads, Writes, Reaches, WritersOrdered, PushesFed, AwaitsNeeded, PushesBeforeOverwrite, ReadersCovered;
    hide ReadersFirst;
    forall w, r, p | OverwritesRead(s1.g, w, r, p) && (C[w].nid, p) !in s1.late
      ensures Reaches(s1.g.edges, w, r)
    {
      OverwriterReaches(s0, t, s1, w, r, p);
    }
    ReadersFirstFrom(s1.g, s1.late);
  }

  lemma ReadersFirstFrom(g: Graph, late: set<(nat, Cell)>)
    requires forall w, r, p :: OverwritesRead(g, w, r, p) && (g.commands[w].nid, p) !in late ==> Reaches(g.edges, w, r)
    ensures ReadersFirst(g, late)
  {
  }

  lemma OverwriterReaches(s0: State, t: nat, s1: State, w: Cid, r: Cid, p: Cell)
    requires s0.lastTid < t && Domains(s0) && Extends(s0, s1, t) && EdgesOk(s1.g)
    requires CommandsKnown(s0) && CommandsOk(s0.g) && EdgesOk(s0.g) && ReadersCovered(s0) && ReadersFirst(s0.g, s0.late)
    requires WritersOrdered(s0, s1) && PushesFed(s0, s1) && AwaitsNeeded(s0, s1) && PushesBeforeOverwrite(s0, s1)
    requires OverwritesRead(s1.g, w, r, p) && (s1.g.commands[w].nid, p) !in s1.late
    ensures Reaches(s1.g.edges, w, r)
  {
    hide Reaches, ReadersCovered, WritersOrdered;
    ReachesMonotone(s0.g.edges, s1.g.edges);
    if w in s0.g.commands {
      if r !in s0.g.commands { RanksApart(s0, t, s1, w, r); }
      assert OverwritesRead(s0.g, w, r, p);
    } else if r in s0.g.commands {
      WriterReachesOldReader(s0, t, s1, w, p, r);
    } else {
      if s1.g.commands[w].AwaitPush? { PushAndAwaitApart(s0, t, s1, r, w, p); }
      EdgeReaches(s1.g.edges, w, r);
    }
  }

  lemma KeepsEntriesCover(s0: State, t: nat, s1: State)
    requires Domains(s0) && Extends(s0, s1, t) && OneCommandEach(s1)
    requires CommandsKnown(s0) && CommandsOk(s0.g) && EdgesOk(s0.g) && EntriesCover(s0)
    requires WritersOrdered(s0, s1) && LastWritersUpdated(s0, s1)
    ensures EntriesCover(s1)
  {
    forall n: nat, p | n < s1.numNodes && p in s1.sources
      ensures EntryCovers(s1, n, p)
    {
      assert EntryCovers(s0, n, p);
      EntryCases(s0, s1, n, p);
      if IsNew(s0, s1, s1.lastWriter[n][p]) {
        NewEntryCovers(s0, t, s1, n, p);
      } else {
        OldEntryCovers(s0, t, s1, n, p);
      }
    }
  }

  lemma OldEntryCovers(s0: State, t: nat, s1: State, n: nat, p: Cell)
    requires Domains(s0) && Domains(s1) && Extends(s0, s1, t)
    requires n < s0.numNodes && p in s0.sources && EntryCovers(s0, n, p)
    requires s1.lastWriter[n][p] == s0.lastWriter[n][p]
    requires forall c :: IsNew(s0, s1, c) && s1.g.commands[c].nid == n ==> !Writes(s1.g.commands[c], p)
    ensures EntryCovers(s1, n, p)
  {
    ReachesMonotone(s0.g.edges, s1.g.edges);
  }

  lemma NewEntryCovers(s0: State, t: nat, s1: State, n: nat, p: Cell)
    requires Domains(s0) && Extends(s0, s1, t) && OneCommandEach(s1)
    requires CommandsKnown(s0) && CommandsOk(s0.g) && EdgesOk(s0.g) && EntriesCover(s0)
    requires WritersOrdered(s0, s1) && n < s1.numNodes && p in s1.sources && WriterUpdated(s0, s1, n, p)
    requires var e := s1.lastWriter[n][p]; IsNew(s0, s1, e) && s1.g.commands[e].nid == n && Writes(s1.g.commands[e], p)
    ensures EntryCovers(s1, n, p)
  {
    var e := s1.lastWriter[n][p];
    var C := s1.g.commands;
    forall w | w in C && C[w].nid == n && Writes(C[w], p)
      ensures w == e || Reaches(s1.g.edges, e, w)
    {
      if w in s0.g.commands {
        WriterReachesOldWriter(s0, t, s1, e, p, w);
      } else if w != e {
        assert s0.lastWriter[n][p] in s0.g.commands by { assert EntryCovers(s0, n, p); }
        assert C[e].TaskCommand? && C[w].AwaitPush?;
        AwaitFeedsCommand(s1, w, e);
        EdgeReaches(s1.g.edges, e, w);
      }
    }
  }

  lemma KeepsReadersCovered(s0: State, t: nat, s1: State)
    requires Domains(s0) && Extends(s0, s1, t) && OneCommandEach(s1)
    requires CommandsKnown(s0) && CommandsOk(s0.g) && EdgesOk(s0.g) && EntriesCover(s0) && ReadersCovered(s0)
    requires WritersOrdered(s0, s1) && PushesFed(s0, s1) && AwaitsNeeded(s0, s1) && PushesBeforeOverwrite(s0, s1)
    requires TasksFed(s0, s1) && LastWritersUpdated(s0, s1)
    ensures ReadersCovered(s1)
  {
    forall n: nat, p | n < s1.numNodes && p in s1.sources && (n, p) !in s1.late
      ensures ReadersUnderEntry(s1, n, p)
    {
      assert EntryCovers(s0, n, p);
      EntryCases(s0, s1, n, p);
      if IsNew(s0, s1, s1.lastWriter[n][p]) {
        ReadersUnderNewEntry(s0, t, s1, n, p);
      } else {
        ReadersUnderOldEntry(s0, t, s1, n, p);
      }
    }
  }

  lemma EntryCases(s0: State, s1: State, n: nat, p: Cell)
    requires Domains(s0) && Domains(s1) && n < s0.numNodes == s1.numNodes && p in s0.sources && p in s1.sources
    requires WriterUpdated(s0, s1, n, p) && s0.lastWriter[n][p] in s0.g.commands
    ensures var e := s1.lastWriter[n][p];
            if IsNew(s0, s1, e) then s1.g.commands[e].nid == n && Writes(s1.g.commands[e], p)
            else e == s0.lastWriter[n][p] && forall c :: IsNew(s0, s1, c) && s1.g.commands[c].nid == n ==>
                                                           !Writes(s1.g.commands[c], p)
  {
  }

  lemma ReadersUnderNewEntry(s0: State, t: nat, s1: State, n: nat, p: Cell)
    requires Domains(s0) && Extends(s0, s1, t) && OneCommandEach(s1)
    requires CommandsKnown(s0) && CommandsOk(s0.g) && EdgesOk(s0.g) && ReadersCovered(s0)
    requires WritersOrdered(s0, s1) && PushesFed(s0, s1) && AwaitsNeeded(s0, s1) && PushesBeforeOverwrite(s0, s1)
    requires n < s1.numNodes && p in s1.sources && (n, p) !in s1.late
    requires var e := s1.lastWriter[n][p]; IsNew(s0, s1, e) && s1.g.commands[e].nid == n && Writes(s1.g.commands[e], p)
    ensures ReadersUnderEntry(s1, n, p)
  {
    var e := s1.lastWriter[n][p];
    forall r | r in s1.g.commands && s1.g.commands[r].nid == n && Reads(s1.g.commands[r], p)
      ensures r == e || (r, e) in s1.g.trueEdges || Reaches(s1.g.edges, e, r)
    {
      if r in s0.g.commands {
        WriterReachesOldReader(s0, t, s1, e, p, r);
      } else {
        NewReaderUnderNewEntry(s0, t, s1, n, p, e, r);
      }
    }
  }

  lemma ReadersUnderOldEntry(s0: State, t: nat, s1: State, n: nat, p: Cell)
    requires Domains(s0) && Domains(s1) && Extends(s0, s1, t)
    requires n < s0.numNodes && p in s0.sources && ReadersUnderEntry(s0, n, p)
    requires PushesFed(s0, s1) && TasksFed(s0, s1)
    requires s1.lastWriter[n][p] == s0.lastWriter[n][p]
    requires forall c :: IsNew(s0, s1, c) && s1.g.commands[c].nid == n ==> !Writes(s1.g.commands[c], p)
    ensures ReadersUnderEntry(s1, n, p)
  {
    var e := s1.lastWriter[n][p];
    forall r | r in s1.g.commands && s1.g.commands[r].nid == n && Reads(s1.g.commands[r], p)
      ensures r == e || (r, e) in s1.g.trueEdges || Reaches(s1.g.edges, e, r)
    {
      if r in s0.g.commands {
        OldReaderUnderOldEntry(s0, s1, n, p, r);
      } else {
        NewReaderUnderOldEntry(s0, t, s1, n, p, r);
      }
    }
  }

  lemma OldReaderUnderOldEntry(s0: State, s1: State, n: nat, p: Cell, r: Cid)
    requires Domains(s0) && n < s0.numNodes && p in s0.sources && ReadersUnderEntry(s0, n, p)
    requires s0.g.edges <= s1.g.edges && s0.g.trueEdges <= s1.g.trueEdges
    requires r in s0.g.commands && s0.g.commands[r].nid == n && Reads(s0.g.commands[r], p)
    ensures var e := s0.lastWriter[n][p];
            r == e || (r, e) in s1.g.trueEdges || Reaches(s1.g.edges, e, r)
  {
    ReachesMonotone(s0.g.edges, s1.g.edges);
  }

  lemma NewReaderUnderOldEntry(s0: State, t: nat, s1: State, n: nat, p: Cell, r: Cid)
    requires Domains(s0) && Extends(s0, s1, t)
    requires PushesFed(s0, s1) && TasksFed(s0, s1)
    requires n < s0.numNodes && p in s0.sources
    requires forall c :: IsNew(s0, s1, c) && s1.g.commands[c].nid == n ==> !Writes(s1.g.commands[c], p)
    requires IsNew(s0, s1, r) && s1.g.commands[r].nid == n && Reads(s1.g.commands[r], p)
    ensures (r, s0.lastWriter[n][p]) in s1.g.trueEdges
  {
    if s1.g.commands[r].TaskCommand? {
      assert FedFrom(s0, s1, r, p);
      if !((r, s0.lastWriter[n][p]) in s1.g.trueEdges) {
        var a: Cid :| Brings(s0, s1, n, p, a) && (r, a) in s1.g.trueEdges;
        assert Writes(s1.g.commands[a], p);
      }
    }
  }

  lemma NewReaderUnderNewEntry(s0: State, t: nat, s1: State, n: nat, p: Cell, e: Cid, r: Cid)
    requires Domains(s0) && Extends(s0, s1, t) && OneCommandEach(s1)
    requires PushesFed(s0, s1) && AwaitsNeeded(s0, s1) && PushesBeforeOverwrite(s0, s1)
    requires IsNew(s0, s1, r) && s1.g.commands[r].nid == n && Reads(s1.g.commands[r], p)
    requires IsNew(s0, s1, e) && s1.g.commands[e].nid == n && Writes(s1.g.commands[e], p)
    ensures r == e || (r, e) in s1.g.trueEdges || Reaches(s1.g.edges, e, r)
  {
    if s1.g.commands[r].Push? {
      if s1.g.commands[e].AwaitPush? {
        PushAndAwaitApart(s0, t, s1, r, e, p);
      } else {
        EdgeReaches(s1.g.edges, e, r);
      }
    } else if s1.g.commands[e].AwaitPush? {
      AwaitFeedsCommand(s1, e, r);
    }
  }

  // ------------------------------------------------------------------- data

  lemma ReflectsLater(s0: State, t: nat, s1: State, n: nat, p: Cell, u: nat, lo: nat, hi: nat)
    requires Extends(s0, s1, t) && lo <= hi && Reflects(s0.g.commands, n, p, u, lo)
    ensures Reflects(s1.g.commands, n, p, u, hi)
  {
    var w :| w in s0.g.commands && s0.g.commands[w].nid == n && Writes(s0.g.commands[w], p)
             && Fresh(s0.g.commands[w]) > u && Rank(s0.g.commands[w]) < lo;
    assert w in s1.g.commands;
  }

  /** `r` reads what a command of an earlier task computed. */
  ghost predicate ReadsLater(C: map<Cid, Command>, r: Cid, c: Cid, p: Cell) {
    r in C && c in C && Reads(C[r], p) && Computes(C[c], p) && C[c].tid < C[r].tid
  }

  lemma KeepsReadersFed(s0: State, t: nat, s1: State)
    requires s0.lastTid < t && Domains(s0) && Extends(s0, s1, t) && CommandsKnown(s0)
    requires ReadersFed(s0.g.commands) && SourcesFed(s0)
    requires TasksFed(s0, s1) && PushesFed(s0, s1)
    ensures ReadersFed(s1.g.commands)
  {
    hide *;
    var C := s1.g.commands;
    forall r, c, p | ReadsLater(C, r, c, p)
      ensures r in C && c in C && Reflects(C, C[r].nid, p, C[c].tid, Rank(C[r]))
    {
      InBoth(C, r, c, p);
      if r in s0.g.commands {
        OldReaderFed(s0, t, s1, r, c, p);
      } else {
        NewReaderFed(s0, t, s1, r, c, p);
      }
    }
    ReadersFedFrom(C);
  }

  lemma InBoth(C: map<Cid, Command>, r: Cid, c: Cid, p: Cell)
    requires ReadsLater(C, r, c, p)
    ensures r in C && c in C
  {
  }

  lemma ReadersFedFrom(C: map<Cid, Command>)
    requires forall r, c, p :: ReadsLater(C, r, c, p) ==>
                                 r in C && c in C && Reflects(C, C[r].nid, p, C[c].tid, Rank(C[r]))
    ensures ReadersFed(C)
  {
    hide Reflects, Reads, Computes;
    forall r, c, p | r in C && c in C && Reads(C[r], p) && Computes(C[c], p) && C[c].tid < C[r].tid
      ensures Reflects(C, C[r].nid, p, C[c].tid, Rank(C[r]))
    {
      assert ReadsLater(C, r, c, p);
    }
  }

  lemma OldReaderFed(s0: State, t: nat, s1: State, r: Cid, c: Cid, p: Cell)
    requires s0.lastTid < t && Extends(s0, s1, t) && CommandsKnown(s0) && ReadersFed(s0.g.commands)
    requires ReadsLater(s1.g.commands, r, c, p) && r in s0.g.commands
    ensures Reflects(s1.g.commands, s1.g.commands[r].nid, p, s1.g.commands[c].tid, Rank(s1.g.commands[r]))
  {
    hide Reflects, Reads, Computes;
    var C := s1.g.commands;
    assert !IsNew(s0, s1, c);
    ReflectsLater(s0, t, s1, C[r].nid, p, C[c].tid, Rank(C[r]), Rank(C[r]));
  }

  lemma NewReaderFed(s0: State, t: nat, s1: State, r: Cid, c: Cid, p: Cell)
    requires s0.lastTid < t && Domains(s0) && Extends(s0, s1, t) && CommandsKnown(s0) && SourcesFed(s0)
    requires TasksFed(s0, s1) && PushesFed(s0, s1) && ReadsLater(s1.g.commands, r, c, p) && r !in s0.g.commands
    ensures Reflects(s1.g.commands, s1.g.commands[r].nid, p, s1.g.commands[c].tid, Rank(s1.g.commands[r]))
  {
    hide SourcesFed, Reflects;
    var C := s1.g.commands;
    var n := C[r].nid;
    assert IsNew(s0, s1, r);
    assert !IsNew(s0, s1, c);
    if C[r].Push? {
      FedFromSource(s0, t, s1, n, r, c, p);
    } else {
      assert FedFrom(s0, s1, r, p);
      if n in s0.sources[p] && (r, s0.lastWriter[n][p]) in s1.g.trueEdges {
        FedFromSource(s0, t, s1, n, r, c, p);
      } else {
        var a: Cid :| Brings(s0, s1, n, p, a) && (r, a) in s1.g.trueEdges;
        FedByAwait(s0, t, s1, n, r, c, p, a);
      }
    }
  }

  lemma FedFromSource(s0: State, t: nat, s1: State, n: nat, r: Cid, c: Cid, p: Cell)
    requires s0.lastTid < t && Extends(s0, s1, t) && SourcesFed(s0) && p in s0.sources && n in s0.sources[p]
    requires c in s0.g.commands && Computes(s0.g.commands[c], p) && IsNew(s0, s1, r)
    ensures Reflects(s1.g.commands, n, p, s0.g.commands[c].tid, Rank(s1.g.commands[r]))
  {
    hide Reflects, Computes;
    ReflectsLater(s0, t, s1, n, p, s0.g.commands[c].tid, 4 * (s0.lastTid + 1), Rank(s1.g.commands[r]));
  }

  lemma FedByAwait(s0: State, t: nat, s1: State, n: nat, r: Cid, c: Cid, p: Cell, a: Cid)
    requires Extends(s0, s1, t) && Brings(s0, s1, n, p, a) && IsNew(s0, s1, r) && s1.g.commands[r].TaskCommand?
    requires c in s1.g.commands && s1.g.commands[c].tid < t
    ensures Reflects(s1.g.commands, n, p, s1.g.commands[c].tid, Rank(s1.g.commands[r]))
  {
    var C := s1.g.commands;
    assert Fresh(C[a]) > C[c].tid && Rank(C[a]) < Rank(C[r]) && Writes(C[a], p);
  }

  lemma KeepsSourcesFed(s0: State, t: nat, s1: State)
    requires s0.lastTid < t == s1.lastTid && Extends(s0, s1, t) && CommandsKnown(s0)
    requires SourcesFed(s0) && SourcesUpdated(s0, s1)
    ensures SourcesFed(s1)
  {
    var C := s1.g.commands;
    forall p, n, c | p in s1.sources && n in s1.sources[p] && c in C && Computes(C[c], p)
      ensures Reflects(C, n, p, C[c].tid, 4 * (t + 1))
    {
      if NewlyComputed(s0, s1, p) {
        var w :| IsNew(s0, s1, w) && Computes(C[w], p);
        assert s1.sources[p] == [C[w].nid];
        assert Fresh(C[w]) > C[c].tid;
      } else {
        assert NodesAdded(s0, s1, p);
        if n in s0.sources[p] {
          ReflectsLater(s0, t, s1, n, p, C[c].tid, 4 * (s0.lastTid + 1), 4 * (t + 1));
        } else {
          var a :| Brings(s0, s1, n, p, a);
          assert Fresh(C[a]) > C[c].tid;
        }
      }
    }
  }

  lemma LastComputesLater(s0: State, t: nat, s1: State, p: Cell, lo: nat, hi: nat, c: Cid)
    requires CommandsKnown(s0) && Extends(s0, s1, t) && LastComputes(s0.g.commands, p, lo, c)
    requires lo <= hi && (hi <= t || !NewlyComputed(s0, s1, p)) && (lo == hi || lo == s0.lastTid + 1)
    ensures LastComputes(s1.g.commands, p, hi, c)
  {
  }

  lemma KeepsSourceLists(s0: State, t: nat, s1: State)
    requires s0.lastTid < t == s1.lastTid && Extends(s0, s1, t) && CommandsKnown(s0) && CommandsKnown(s1)
    requires SourceListsOk(s0) && SourcesUpdated(s0, s1)
    ensures SourceListsOk(s1)
  {
    forall p | p in s1.sources
      ensures SourceListOk(s1, p)
    {
      if NewlyComputed(s0, s1, p) {
        var w :| IsNew(s0, s1, w) && Computes(s1.g.commands[w], p);
        assert LastComputes(s1.g.commands, p, t + 1, w);
      } else {
        KeepsSourceList(s0, t, s1, p);
      }
    }
  }

  lemma KeepsSourceList(s0: State, t: nat, s1: State, p: Cell)
    requires s0.lastTid < t == s1.lastTid && Extends(s0, s1, t) && CommandsKnown(s0) && CommandsKnown(s1)
    requires p in s0.sources && p in s1.sources && SourceListOk(s0, p) && NodesAdded(s0, s1, p)
    requires !NewlyComputed(s0, s1, p)
    ensures SourceListOk(s1, p)
  {
    assert s1.sources[p][0] == s0.sources[p][0];
    forall n | n in s1.sources[p]
      ensures n < s1.numNodes
    {
      if n !in s0.sources[p] {
        var a :| Brings(s0, s1, n, p, a);
      }
    }
    if exists c :: LastComputes(s0.g.commands, p, s0.lastTid + 1, c) && s0.g.commands[c].nid == s0.sources[p][0] {
      var c :| LastComputes(s0.g.commands, p, s0.lastTid + 1, c) && s0.g.commands[c].nid == s0.sources[p][0];
      LastComputesLater(s0, t, s1, p, s0.lastTid + 1, t + 1, c);
    } else {
      assert NeverComputed(s1.g.commands, p);
      forall n: nat | n < s1.numNodes
        ensures n in s1.sources[p]
      {
        assert n in s0.sources[p];
        var i :| 0 <= i < |s0.sources[p]| && s0.sources[p][i] == n;
        assert s1.sources[p][i] == n;
      }
    }
  }

  lemma NewPushFromProducer(s0: State, t: nat, s1: State, b: Cid, p: Cell)
    requires s0.lastTid < t && Domains(s0) && Extends(s0, s1, t) && CommandsKnown(s0)
    requires PushesFed(s0, s1) && IsNew(s0, s1, b) && s1.g.commands[b].Push? && p in s1.g.commands[b].box
    requires p in s0.sources && SourceListOk(s0, p)
    ensures exists c :: LastComputes(s1.g.commands, p, t, c) && s1.g.commands[c].nid == s1.g.commands[b].nid
  {
    assert s1.g.commands[b].target !in s0.sources[p];
    var c :| LastComputes(s0.g.commands, p, s0.lastTid + 1, c) && s0.g.commands[c].nid == s0.sources[p][0];
    LastComputesLater(s0, t, s1, p, s0.lastTid + 1, t, c);
  }

  lemma KeepsPushesFromProducer(s0: State, t: nat, s1: State)
    requires s0.lastTid < t && Domains(s0) && Extends(s0, s1, t) && CommandsKnown(s0)
    requires PushesFromProducer(s0.g.commands) && SourceListsOk(s0) && PushesFed(s0, s1)
    ensures PushesFromProducer(s1.g.commands)
  {
    var C := s1.g.commands;
    forall b, p | b in C && C[b].Push? && p in C[b].box
      ensures exists c :: LastComputes(C, p, C[b].tid, c) && C[c].nid == C[b].nid
    {
      if b in s0.g.commands {
        var c :| LastComputes(s0.g.commands, p, C[b].tid, c) && s0.g.commands[c].nid == C[b].nid;
        LastComputesLater(s0, t, s1, p, C[b].tid, C[b].tid, c);
      } else {
        assert IsNew(s0, s1, b);
        NewPushFromProducer(s0, t, s1, b, p);
      }
    }
  }

  lemma ComputedBetweenLater(s0: State, t: nat, s1: State, p: Cell, lo: nat, hi: nat, hi': nat)
    requires Extends(s0, s1, t) && hi <= hi' && ComputedBetween(s0.g.commands, p, lo, hi)
    ensures ComputedBetween(s1.g.commands, p, lo, hi')
  {
    var c :| c in s0.g.commands && Computes(s0.g.commands[c], p) && lo <= s0.g.commands[c].tid < hi;
    assert c in s1.g.commands;
  }

  lemma KeepsDeliveredOnce(s0: State, t: nat, s1: State)
    requires s0.lastTid < t && Extends(s0, s1, t) && CommandsKnown(s0)
    requires DeliveredOnce(s0.g.commands) && DeliveryRemembered(s0) && AwaitsNeeded(s0, s1)
    ensures DeliveredOnce(s1.g.commands)
  {
    var C := s1.g.commands;
    hide ComputedBetween, Extends, CommandsKnown, AwaitsNeeded, DeliveryRemembered, Holds;
    forall a, b, p | HeldBefore(C, a, b, p)
      ensures ComputedBetween(C, p, C[a].tid, C[b].tid)
    {
      ComputedSince(s0, t, s1, a, b, p);
    }
  }

  lemma ComputedSince(s0: State, t: nat, s1: State, a: Cid, b: Cid, p: Cell)
    requires s0.lastTid < t && Extends(s0, s1, t) && CommandsKnown(s0)
    requires DeliveredOnce(s0.g.commands) && DeliveryRemembered(s0) && AwaitsNeeded(s0, s1)
    requires HeldBefore(s1.g.commands, a, b, p)
    ensures ComputedBetween(s1.g.commands, p, s1.g.commands[a].tid, s1.g.commands[b].tid)
  {
    var C := s1.g.commands;
    hide ComputedBetween, Reads, Computes;
    if b in s0.g.commands {
      assert !IsNew(s0, s1, a);
      assert HeldBefore(s0.g.commands, a, b, p);
      ComputedBetweenLater(s0, t, s1, p, C[a].tid, C[b].tid, C[b].tid);
    } else {
      assert IsNew(s0, s1, b) && C[b].nid !in s0.sources[p];
      assert !IsNew(s0, s1, a);
      assert Remembered(s0, a, p);
      ComputedBetweenLater(s0, t, s1, p, C[a].tid, s0.lastTid + 1, C[b].tid);
    }
  }

  lemma KeepsDeliveryRemembered(s0: State, t: nat, s1: State)
    requires s0.lastTid < t == s1.lastTid && Domains(s0) && Extends(s0, s1, t) && CommandsKnown(s0)
    requires DeliveryRemembered(s0) && SourcesUpdated(s0, s1) && AwaitsNeeded(s0, s1) && TasksFed(s0, s1)
    requires PushesFed(s0, s1)
    ensures DeliveryRemembered(s1)
  {
    hide Holds, Remembered, NewlyComputed, SourcesUpdated, Extends, CommandsKnown, AwaitsNeeded, TasksFed, PushesFed;
    forall a, p | a in s1.g.commands && Holds(s1.g.commands[a], p)
      ensures Remembered(s1, a, p)
    {
      if NewlyComputed(s0, s1, p) {
        ComputedNow(s0, t, s1, a, p);
      } else if a in s0.g.commands {
        StillListed(s0, t, s1, a, p);
      } else {
        NewlyListed(s0, t, s1, a, p);
      }
    }
  }

  lemma ComputedNow(s0: State, t: nat, s1: State, a: Cid, p: Cell)
    requires s0.lastTid < t == s1.lastTid && Extends(s0, s1, t) && CommandsKnown(s0) && SourcesUpdated(s0, s1)
    requires a in s1.g.commands && NewlyComputed(s0, s1, p)
    ensures Remembered(s1, a, p)
  {
    var C := s1.g.commands;
    var c: Cid :| IsNew(s0, s1, c) && Computes(C[c], p);
    if a !in s0.g.commands { assert IsNew(s0, s1, a); }
    assert C[a].tid <= C[c].tid < t + 1;
  }

  lemma StillListed(s0: State, t: nat, s1: State, a: Cid, p: Cell)
    requires s0.lastTid < t == s1.lastTid && Extends(s0, s1, t) && CommandsKnown(s0) && SourcesUpdated(s0, s1)
    requires DeliveryRemembered(s0) && !NewlyComputed(s0, s1, p)
    requires a in s0.g.commands && Holds(s1.g.commands[a], p)
    ensures a in s1.g.commands && Remembered(s1, a, p)
  {
    hide NewlyComputed, ComputedBetween, Holds;
    assert Remembered(s0, a, p);
    assert NodesAdded(s0, s1, p);
    if s0.g.commands[a].nid !in s0.sources[p] {
      ComputedBetweenLater(s0, t, s1, p, s0.g.commands[a].tid, s0.lastTid + 1, t + 1);
    }
  }

  lemma NewlyListed(s0: State, t: nat, s1: State, a: Cid, p: Cell)
    requires Domains(s0) && Extends(s0, s1, t) && SourcesUpdated(s0, s1) && !NewlyComputed(s0, s1, p)
    requires AwaitsNeeded(s0, s1) && TasksFed(s0, s1) && PushesFed(s0, s1) && IsNew(s0, s1, a)
    requires Holds(s1.g.commands[a], p)
    ensures Remembered(s1, a, p)
  {
    hide NewlyComputed, ComputedBetween;
    var c := s1.g.commands[a];
    if c.AwaitPush? {
      assert NodesAdded(s0, s1, p);
      assert Brings(s0, s1, c.nid, p, a);
    } else if c.Push? {
      assert NodesAdded(s0, s1, p);
    } else {
      assert FedFrom(s0, s1, a, p);
      assert NodesAdded(s0, s1, p);
      if c.nid !in s0.sources[p] {
        var b: Cid :| Brings(s0, s1, c.nid, p, b);
      }
    }
  }

  /** Processing a task keeps everything that holds between tasks. */
  lemma TaskKeepsInv(s0: State, t: nat, s1: State)
    requires Inv(s0) && TaskProcessed(s0, t, s1)
    ensures Inv(s1)
  {
    KeepsHorizonsCover(s0, t, s1);
    KeepsWritersFirst(s0, t, s1);
    KeepsEntriesCover(s0, t, s1);
    KeepsReadersFirst(s0, t, s1);
    KeepsReadersCovered(s0, t, s1);
    KeepsReadersFed(s0, t, s1);
    KeepsSourcesFed(s0, t, s1);
    KeepsSourceLists(s0, t, s1);
    KeepsPushesFromProducer(s0, t, s1);
    KeepsDeliveredOnce(s0, t, s1);
    KeepsDeliveryRemembered(s0, t, s1);
  }
}

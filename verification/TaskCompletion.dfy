/** From the processed commands of a task to the effect of the whole task. */
module TaskCompletion {
  import opened Grid
  import opened Reachability
  import opened Commands
  import opened GeneratorState
  import opened TaskStep
  import opened TaskProgress

  /** Deferred update: after the task, `cid` is the last writer of the region on the node. */
  datatype Update = Update(nid: nat, region: set<Cell>, cid: Cid)

  /** Deferred update: after the task, the node alone holds the newest data of the region. */
  datatype Written = Written(nid: nat, region: set<Cell>)

  ghost predicate Matches(u: Update, n: nat, p: Cell) {
    u.nid == n && p in u.region
  }

  ghost predicate Listed(updates: seq<Update>, c: Cid, p: Cell) {
    exists i :: 0 <= i < |updates| && updates[i].cid == c && p in updates[i].region
  }

  ghost predicate ListedWrite(writes: seq<Written>, n: nat, p: Cell) {
    exists i :: 0 <= i < |writes| && writes[i].nid == n && p in writes[i].region
  }

  ghost predicate UpdateOk(s0: State, s: State, u: Update) {
    && IsNew(s0, s, u.cid) && s.g.commands[u.cid].nid == u.nid
    && forall p :: p in u.region ==> p in s.sources && Writes(s.g.commands[u.cid], p)
  }

  /** A command that reads what it writes has received it. */
  ghost predicate WriteAfterRead(s: State, u: Update)
  {
    forall p :: p in u.region && p in s.sources && u.cid in s.g.commands && s.g.commands[u.cid].TaskCommand? ==>
                  u.nid in s.sources[p] || !Reads(s.g.commands[u.cid], p)
  }

  ghost predicate WriteOk(s0: State, s: State, w: Written) {
    exists c :: OwnCommand(s0, s, c) && s.g.commands[c].nid == w.nid && forall p :: p in w.region ==>
                                                                                      Computes(s.g.commands[c], p)
  }

  /** The deferred updates name what the new commands write; no delivery follows the write of the same cell. */
  ghost predicate ListsOk(s0: State, s: State, updates: seq<Update>, writes: seq<Written>) {
    && (forall i :: 0 <= i < |updates| ==> UpdateOk(s0, s, updates[i]) && WriteAfterRead(s, updates[i]))
    && (forall i :: 0 <= i < |writes| ==> WriteOk(s0, s, writes[i]))
    && (forall a, p :: IsNew(s0, s, a) && s.g.commands[a].AwaitPush? && p in s.g.commands[a].box ==>
                         Listed(updates, a, p))
    && (forall i, j, n, p :: 0 <= i < j < |updates| && Matches(updates[i], n, p) && Matches(updates[j], n, p) ==>
                               s.g.commands[updates[i].cid].AwaitPush? || s.g.commands[updates[j].cid].TaskCommand?)
  }

  /** The cells are among the recorded reads of the command, which depends on where they come from. */
  ghost predicate CellsRead(s0: State, s: State, c: Cid, ps: set<Cell>)
    requires Domains(s0) && c in s.g.commands
  {
    forall p :: p in ps ==> FedFrom(s0, s, c, p) && p in ReadSet(s.bufferReads, c)
  }

  /** The cells are listed as written by the command, which is ordered after their previous writers and readers. */
  ghost predicate CellsWritten(s0: State, s: State, updates: seq<Update>, writes: seq<Written>, c: Cid, ps: set<Cell>)
    requires Domains(s0) && c in s.g.commands
  {
    forall p :: p in ps ==>
                  OrderedAfter(s0, s, c, p) && Listed(updates, c, p) && ListedWrite(writes, s.g.commands[c].nid, p)
  }

  ghost predicate CommandDone(s0: State, s: State, updates: seq<Update>, writes: seq<Written>, c: Cid)
    requires Domains(s0) && c in s.g.commands
  {
    && (forall p :: Reads(s.g.commands[c], p) ==> FedFrom(s0, s, c, p) && p in ReadSet(s.bufferReads, c))
    && (forall p :: Computes(s.g.commands[c], p) ==>
                      OrderedAfter(s0, s, c, p) && Listed(updates, c, p) && ListedWrite(writes, s.g.commands[c].nid, p))
  }

  /** Later in the same task: nothing is forgotten. */
  ghost predicate Later(s: State, s': State) {
    && (forall d :: d in s.g.commands ==> d in s'.g.commands && s'.g.commands[d] == s.g.commands[d])
    && (forall d :: d in s'.g.commands && s'.g.commands[d].TaskCommand? ==> d in s.g.commands)
    && s.g.edges <= s'.g.edges && s.g.trueEdges <= s'.g.trueEdges
    && (forall c :: c in s.g.commands ==> ReadSet(s.bufferReads, c) <= ReadSet(s'.bufferReads, c))
    && s'.sources.Keys == s.sources.Keys
    && (forall p, n :: p in s.sources && n in s.sources[p] ==> n in s'.sources[p])
  }

  lemma LaterRefl(s: State)
    ensures Later(s, s)
  {
  }

  lemma LaterTransitive(s: State, s': State, s'': State)
    requires Later(s, s') && Later(s', s'')
    ensures Later(s, s'')
  {
  }

  lemma ListedLater(updates: seq<Update>, updates': seq<Update>, c: Cid, p: Cell)
    requires updates <= updates' && Listed(updates, c, p)
    ensures Listed(updates', c, p)
  {
    var i :| 0 <= i < |updates| && updates[i].cid == c && p in updates[i].region;
    assert updates'[i] == updates[i];
  }

  lemma ListedWriteLater(writes: seq<Written>, writes': seq<Written>, n: nat, p: Cell)
    requires writes <= writes' && ListedWrite(writes, n, p)
    ensures ListedWrite(writes', n, p)
  {
    var i :| 0 <= i < |writes| && writes[i].nid == n && p in writes[i].region;
    assert writes'[i] == writes[i];
  }

  lemma CellsReadLater(s0: State, s: State, s': State, c: Cid, ps: set<Cell>)
    requires Domains(s0) && c in s.g.commands && c in s'.g.commands && Later(s, s') && CellsRead(s0, s, c, ps)
    ensures CellsRead(s0, s', c, ps)
  {
    forall p | p in ps
      ensures FedFrom(s0, s', c, p)
    {
      FedGrows(s0, s, s', c, p);
    }
  }

  lemma CellsWrittenLater(s0: State, s: State, s': State, u: seq<Update>, u': seq<Update>, w: seq<Written>,
                          w': seq<Written>, c: Cid, ps: set<Cell>)
    requires Domains(s0) && c in s.g.commands && c in s'.g.commands && Later(s, s') && u <= u' && w <= w'
    requires CellsWritten(s0, s, u, w, c, ps)
    ensures CellsWritten(s0, s', u', w', c, ps)
  {
    forall p | p in ps
      ensures OrderedAfter(s0, s', c, p) && Listed(u', c, p) && ListedWrite(w', s'.g.commands[c].nid, p)
    {
      OrderedGrows(s0, s, s', c, p);
      ListedLater(u, u', c, p);
      ListedWriteLater(w, w', s.g.commands[c].nid, p);
    }
  }

  lemma DoneLater(s0: State, s: State, s': State, u: seq<Update>, u': seq<Update>, w: seq<Written>, w': seq<Written>,
                  c: Cid)
    requires Domains(s0) && c in s.g.commands && c in s'.g.commands && Later(s, s') && u <= u' && w <= w'
    requires CommandDone(s0, s, u, w, c)
    ensures CommandDone(s0, s', u', w', c)
  {
    forall p | Reads(s'.g.commands[c], p)
      ensures FedFrom(s0, s', c, p)
    {
      FedGrows(s0, s, s', c, p);
    }
    forall p | Computes(s'.g.commands[c], p)
      ensures OrderedAfter(s0, s', c, p) && Listed(u', c, p) && ListedWrite(w', s'.g.commands[c].nid, p)
    {
      OrderedGrows(s0, s, s', c, p);
      ListedLater(u, u', c, p);
      ListedWriteLater(w, w', s.g.commands[c].nid, p);
    }
  }

  // ------------------------------------------------------- applying the lists

  ghost predicate WritesApplied(src: map<Cell, seq<nat>>, src': map<Cell, seq<nat>>, writes: seq<Written>, k: nat)
    requires k <= |writes|
  {
    && src'.Keys == src.Keys
    && (forall p :: p in src ==>
                      || (src'[p] == src[p] && forall i :: 0 <= i < k ==> p !in writes[i].region)
                      || (exists i :: 0 <= i < k && p in writes[i].region && src'[p] == [writes[i].nid]))
  }

  ghost predicate UpdatesApplied(lw: map<nat, map<Cell, Cid>>, lw': map<nat, map<Cell, Cid>>, updates: seq<Update>,
                                 k: nat)
    requires k <= |updates|
  {
    && lw'.Keys == lw.Keys
    && (forall n :: n in lw ==> lw'[n].Keys == lw[n].Keys)
    && (forall n, p :: n in lw && p in lw[n] ==> UpdateApplied(lw, lw', updates, k, n, p))
  }

  ghost predicate UpdateApplied(lw: map<nat, map<Cell, Cid>>, lw': map<nat, map<Cell, Cid>>, updates: seq<Update>,
                                k: nat, n: nat, p: Cell)
    requires k <= |updates| && n in lw && n in lw' && p in lw[n] && p in lw'[n]
  {
    || (lw'[n][p] == lw[n][p] && forall i :: 0 <= i < k ==> !Matches(updates[i], n, p))
    || (exists i :: LastMatch(updates, k, n, p, i) && lw'[n][p] == updates[i].cid)
  }

  ghost predicate LastMatch(updates: seq<Update>, k: nat, n: nat, p: Cell, i: int)
    requires k <= |updates|
  {
    0 <= i < k && Matches(updates[i], n, p) && forall j :: i < j < k ==> !Matches(updates[j], n, p)
  }

  lemma FinishSources(s0: State, s: State, s1: State, writes: seq<Written>)
    requires SourcesGrow(s0, s) && OneWriterPerTask(s.g.commands)
    requires s1.g.commands == s.g.commands && WritesApplied(s.sources, s1.sources, writes, |writes|)
    requires forall i :: 0 <= i < |writes| ==> WriteOk(s0, s, writes[i])
    requires forall c, p :: OwnCommand(s0, s, c) && Computes(s.g.commands[c], p) ==>
                              p in s.sources && ListedWrite(writes, s.g.commands[c].nid, p)
    requires forall c, d :: OwnCommand(s0, s, c) && OwnCommand(s0, s, d) ==> s.g.commands[c].tid == s.g.commands[d].tid
    ensures SourcesUpdated(s0, s1)
  {
    forall c, p | IsNew(s0, s1, c) && Computes(s1.g.commands[c], p)
      ensures p in s1.sources && s1.sources[p] == [s1.g.commands[c].nid]
    {
      assert OwnCommand(s0, s, c);
      FinishWrittenCell(s0, s, s1, writes, c, p);
    }
    forall p | p in s0.sources && !NewlyComputed(s0, s1, p)
      ensures NodesAdded(s0, s1, p)
    {
      assert NodesAdded(s0, s, p);
      assert s1.sources[p] == s.sources[p];
      assert forall n, a :: Brings(s0, s1, n, p, a) <==> Brings(s0, s, n, p, a);
    }
  }

  lemma FinishWrittenCell(s0: State, s: State, s1: State, writes: seq<Written>, c: Cid, p: Cell)
    requires OneWriterPerTask(s.g.commands) && WritesApplied(s.sources, s1.sources, writes, |writes|)
    requires forall i :: 0 <= i < |writes| ==> WriteOk(s0, s, writes[i])
    requires OwnCommand(s0, s, c) && Computes(s.g.commands[c], p) && p in s.sources
    requires ListedWrite(writes, s.g.commands[c].nid, p)
    requires forall c, d :: OwnCommand(s0, s, c) && OwnCommand(s0, s, d) ==> s.g.commands[c].tid == s.g.commands[d].tid
    ensures p in s1.sources && s1.sources[p] == [s.g.commands[c].nid]
  {
    var k :| 0 <= k < |writes| && writes[k].nid == s.g.commands[c].nid && p in writes[k].region;
    var i :| 0 <= i < |writes| && p in writes[i].region && s1.sources[p] == [writes[i].nid];
    assert WriteOk(s0, s, writes[i]);
    var d :| OwnCommand(s0, s, d) && s.g.commands[d].nid == writes[i].nid && forall p :: p in writes[i].region ==>
                                                                                           Computes(s.g.commands[d], p);
    assert Computes(s.g.commands[d], p);
    assert d == c;
  }

  lemma FinishWriters(s0: State, t: nat, s: State, s1: State, updates: seq<Update>, writes: seq<Written>)
    requires Domains(s0) && Domains(s) && Domains(s1) && Extends(s0, s, t) && s.lastWriter == s0.lastWriter
    requires s1.sources.Keys == s0.sources.Keys
    requires s1.g.commands == s.g.commands && s1.numNodes == s0.numNodes && ListsOk(s0, s, updates, writes)
    requires UpdatesApplied(s.lastWriter, s1.lastWriter, updates, |updates|)
    requires forall c, p :: OwnCommand(s0, s, c) && Computes(s.g.commands[c], p) ==> Listed(updates, c, p)
    ensures LastWritersUpdated(s0, s1)
  {
    forall n: nat, p | n < s0.numNodes && p in s0.sources
      ensures WriterUpdated(s0, s1, n, p)
    {
      assert UpdateApplied(s.lastWriter, s1.lastWriter, updates, |updates|, n, p);
      FinishWriter(s0, t, s, s1, updates, writes, n, p);
    }
  }

  lemma FinishWriter(s0: State, t: nat, s: State, s1: State, updates: seq<Update>, writes: seq<Written>, n: nat,
                     p: Cell)
    requires Domains(s0) && Domains(s1) && Extends(s0, s, t) && n < s0.numNodes == s1.numNodes && p in s0.sources
    requires p in s1.sources
    requires s1.g.commands == s.g.commands && ListsOk(s0, s, updates, writes)
    requires UpdateApplied(s0.lastWriter, s1.lastWriter, updates, |updates|, n, p)
    requires forall c, p :: OwnCommand(s0, s, c) && Computes(s.g.commands[c], p) ==> Listed(updates, c, p)
    ensures WriterUpdated(s0, s1, n, p)
  {
    var e := s1.lastWriter[n][p];
    if exists i :: LastMatch(updates, |updates|, n, p, i) && e == updates[i].cid {
      var i :| LastMatch(updates, |updates|, n, p, i) && e == updates[i].cid;
      assert UpdateOk(s0, s, updates[i]);
      forall c | IsNew(s0, s, c) && s.g.commands[c].nid == n && Computes(s.g.commands[c], p)
        ensures s.g.commands[e].TaskCommand?
      {
        assert OwnCommand(s0, s, c);
        MatchOf(s0, s, updates, writes, c, n, p, i);
      }
    } else {
      WritesMatched(s0, t, s, updates, writes, n, p);
    }
  }

  /** Every cell that a new command writes has an update. */
  lemma WritesMatched(s0: State, t: nat, s: State, updates: seq<Update>, writes: seq<Written>, n: nat, p: Cell)
    requires Extends(s0, s, t) && ListsOk(s0, s, updates, writes)
    requires forall c, p :: OwnCommand(s0, s, c) && Computes(s.g.commands[c], p) ==> Listed(updates, c, p)
    ensures (exists c :: IsNew(s0, s, c) && s.g.commands[c].nid == n && Writes(s.g.commands[c], p)) ==>
              exists k :: 0 <= k < |updates| && Matches(updates[k], n, p)
  {
    if c :| IsNew(s0, s, c) && s.g.commands[c].nid == n && Writes(s.g.commands[c], p) {
      assert Listed(updates, c, p) by { assert s.g.commands[c].TaskCommand? ==> OwnCommand(s0, s, c); }
      var k :| 0 <= k < |updates| && updates[k].cid == c && p in updates[k].region;
      assert UpdateOk(s0, s, updates[k]);
      assert Matches(updates[k], n, p);
    }
  }

  /** The last update of a cell is not a delivery if a command of the task writes it. */
  lemma MatchOf(s0: State, s: State, updates: seq<Update>, writes: seq<Written>, c: Cid, n: nat, p: Cell, i: int)
    requires LastMatch(updates, |updates|, n, p, i) && Listed(updates, c, p) && ListsOk(s0, s, updates, writes)
    requires c in s.g.commands && s.g.commands[c].nid == n && s.g.commands[c].TaskCommand?
    ensures updates[i].cid in s.g.commands && s.g.commands[updates[i].cid].TaskCommand?
  {
    var k :| 0 <= k < |updates| && updates[k].cid == c && p in updates[k].region;
    assert UpdateOk(s0, s, updates[k]) && UpdateOk(s0, s, updates[i]);
    assert Matches(updates[k], n, p);
    assert k <= i;
  }

  /** What is added are dependencies on PUSHes of the task that send away what their dependents overwrite. */
  ghost predicate OrdersPushes(s0: State, s: State, s1: State) {
    forall a, b :: (a, b) in s1.g.edges && (a, b) !in s.g.edges ==>
                     && IsNew(s0, s, a) && IsNew(s0, s, b) && s.g.commands[b].Push?
                     && Concerns(s.g.commands[b], s.g.commands[a])
  }

  /**
    * Everything about the graph that the last step, ordering PUSHes before overwriting commands, leaves or establishes.
    */
  ghost predicate Finished(s0: State, t: nat, s: State, s1: State, updates: seq<Update>, writes: seq<Written>) {
    && s1 == s.(g := s1.g, sources := s1.sources, lastWriter := s1.lastWriter)
    && s1.g.commands == s.g.commands && s1.g.nextCid == s.g.nextCid
    && s.g.edges <= s1.g.edges && s1.g.trueEdges == s.g.trueEdges
    && GraphOk(s1.g)
    && OrdersPushes(s0, s, s1)
    && PushesBeforeOverwrite(s0, s1)
    && WritesApplied(s.sources, s1.sources, writes, |writes|)
    && UpdatesApplied(s.lastWriter, s1.lastWriter, updates, |updates|)
  }

  ghost predicate AllDone(s0: State, s: State, updates: seq<Update>, writes: seq<Written>)
    requires Domains(s0)
  {
    forall c :: OwnCommand(s0, s, c) ==> CommandDone(s0, s, updates, writes, c)
  }

  lemma FinishShape(s0: State, t: nat, s: State, s1: State, updates: seq<Update>, writes: seq<Written>)
    requires Mid(s0, t, s) && PrevHorizonsOk(s0) && Finished(s0, t, s, s1, updates, writes)
    requires AllDone(s0, s, updates, writes)
    ensures Shape(s1) && Extends(s0, s1, t)
  {
    hide *;
    MidParts(s0, t, s);
    FinishedParts(s0, t, s, s1, updates, writes);
    FinishDomains(s, s1, updates, writes);
    KnownUnchanged(s0, s, s1);
    FinishReads(s0, s, s1, updates, writes);
    FinishReader(s, s1);
    FinishExtends(s0, t, s, s1);
    FinishPrev(s0, t, s1);
    ShapeFromParts(s1);
  }

  lemma ShapeFromParts(s: State)
    requires GraphOk(s.g) && Domains(s) && CommandsKnown(s) && ReadsRecorded(s) && OneWriterPerTask(s.g.commands)
    requires PushesAwaited(s.g.commands) && AwaitHasReader(s.g) && PrevHorizonsOk(s)
    ensures Shape(s)
  {
  }

  lemma FinishedParts(s0: State, t: nat, s: State, s1: State, updates: seq<Update>, writes: seq<Written>)
    requires Finished(s0, t, s, s1, updates, writes)
    ensures s1 == s.(g := s1.g, sources := s1.sources, lastWriter := s1.lastWriter)
    ensures s1.g.commands == s.g.commands && s1.g.nextCid == s.g.nextCid && s.g.edges <= s1.g.edges
    ensures s1.g.trueEdges == s.g.trueEdges
    ensures GraphOk(s1.g) && EdgesOk(s1.g) && PushesBeforeOverwrite(s0, s1) && s1.sources.Keys == s.sources.Keys
    ensures OrdersPushes(s0, s, s1)
    ensures WritesApplied(s.sources, s1.sources, writes, |writes|)
    ensures UpdatesApplied(s.lastWriter, s1.lastWriter, updates, |updates|)
  {
  }

  lemma FinishDomains(s: State, s1: State, updates: seq<Update>, writes: seq<Written>)
    requires Domains(s) && s1.numNodes == s.numNodes && s1.init == s.init && s1.sources.Keys == s.sources.Keys
    requires UpdatesApplied(s.lastWriter, s1.lastWriter, updates, |updates|)
    ensures Domains(s1)
  {
  }

  lemma FinishReads(s0: State, s: State, s1: State, updates: seq<Update>, writes: seq<Written>)
    requires Domains(s0) && ReadsPartial(s0, s) && AllDone(s0, s, updates, writes)
    requires s1.bufferReads == s.bufferReads && s1.g.commands == s.g.commands
    ensures ReadsRecorded(s1)
  {
    forall c, p | c in s1.g.commands && Reads(s1.g.commands[c], p)
      ensures p in ReadSet(s1.bufferReads, c)
    {
      if IsNew(s0, s, c) && s.g.commands[c].TaskCommand? { assert OwnCommand(s0, s, c); }
    }
  }

  lemma FinishReader(s: State, s1: State)
    requires AwaitHasReader(s.g) && s1.g.commands == s.g.commands && s1.g.trueEdges == s.g.trueEdges
    ensures AwaitHasReader(s1.g)
  {
    forall a | a in s1.g.commands && s1.g.commands[a].AwaitPush?
      ensures exists c :: FeedsTask(s1.g, a, c)
    {
      var c :| FeedsTask(s.g, a, c);
      assert FeedsTask(s1.g, a, c);
    }
  }

  lemma FinishExtends(s0: State, t: nat, s: State, s1: State)
    requires Extends(s0, s, t) && s1 == s.(g := s1.g, sources := s1.sources, lastWriter := s1.lastWriter)
    requires s1.g.commands == s.g.commands && s1.g.nextCid == s.g.nextCid && s.g.edges <= s1.g.edges
    requires s1.g.trueEdges == s.g.trueEdges
    requires forall a, b :: (a, b) in s1.g.edges && (a, b) !in s.g.edges ==> IsNew(s0, s, a)
    requires s1.sources.Keys == s.sources.Keys
    ensures Extends(s0, s1, t)
  {
    assert forall c :: IsNew(s0, s1, c) <==> IsNew(s0, s, c);
  }

  lemma FinishPrev(s0: State, t: nat, s1: State)
    requires PrevHorizonsOk(s0) && Extends(s0, s1, t)
    ensures PrevHorizonsOk(s1)
  {
  }

  lemma FinishOrder(s0: State, t: nat, s: State, s1: State, updates: seq<Update>, writes: seq<Written>)
    requires Domains(s0) && PushesFed(s0, s) && AwaitsOrdered(s0, s) && AllDone(s0, s, updates, writes)
    requires Extends(s0, s, t)
    requires s1.g.commands == s.g.commands && s.g.edges <= s1.g.edges && s1.g.trueEdges == s.g.trueEdges
    ensures TasksFed(s0, s1) && PushesFed(s0, s1) && WritersOrdered(s0, s1)
  {
    forall c, p | IsNew(s0, s1, c) && s1.g.commands[c].TaskCommand? && Reads(s1.g.commands[c], p)
      ensures FedFrom(s0, s1, c, p)
    {
      assert OwnCommand(s0, s, c);
      FedGrows(s0, s, s1, c, p);
    }
    forall x, p | IsNew(s0, s1, x) && Writes(s1.g.commands[x], p)
      ensures OrderedAfter(s0, s1, x, p)
    {
      assert IsNew(s0, s, x);
      assert OrderedAfter(s0, s, x, p) by { assert s.g.commands[x].TaskCommand? ==> OwnCommand(s0, s, x); }
      OrderedGrows(s0, s, s1, x, p);
    }
    PushesFedGrow(s0, s, s1);
  }

  /** A task whose commands are all processed and whose deferred updates are applied has the effect of a task. */
  lemma FinishTask(s0: State, t: nat, s: State, s1: State, updates: seq<Update>, writes: seq<Written>)
    requires Mid(s0, t, s) && PrevHorizonsOk(s0) && ListsOk(s0, s, updates, writes) && AllDone(s0, s, updates, writes)
    requires Finished(s0, t, s, s1, updates, writes)
    ensures TaskProcessed(s0, t, s1)
  {
    hide *;
    FinishShape(s0, t, s, s1, updates, writes);
    MidParts(s0, t, s);
    FinishedParts(s0, t, s, s1, updates, writes);
    FinishDomains(s, s1, updates, writes);
    FinishOrder(s0, t, s, s1, updates, writes);
    KnownUnchanged(s0, s, s1);
    DoneParts(s0, t, s, updates, writes);
    FinishSources(s0, s, s1, writes);
    FinishWriters(s0, t, s, s1, updates, writes);
    FinishJustified(s0, s, s1);
    ProcessedFromParts(s0, t, s1);
  }

  lemma FinishJustified(s0: State, s: State, s1: State)
    requires EdgesJustified(s0, s) && s1.g.commands == s.g.commands && s.g.trueEdges == s1.g.trueEdges
    requires OrdersPushes(s0, s, s1)
    ensures EdgesJustified(s0, s1)
  {
    hide Concerns, DataFlows;
    forall a, b | (a, b) in s1.g.trueEdges && (a, b) !in s0.g.trueEdges
      ensures DataFlows(s0, s1, a, b)
    {
      FlowsGrow(s0, s, s1, a, b);
    }
    forall a, b | (a, b) in s1.g.edges && (a, b) !in s0.g.edges
      ensures Justified(s0, s1, a, b)
    {
      if (a, b) in s.g.edges { JustifiedGrows(s0, s, s1, a, b); } else { assert IsNew(s0, s1, a) && IsNew(s0, s1, b); }
    }
  }

  lemma DoneParts(s0: State, t: nat, s: State, updates: seq<Update>, writes: seq<Written>)
    requires Domains(s0) && Extends(s0, s, t) && CommandsKnown(s) && ListsOk(s0, s, updates, writes)
    requires AllDone(s0, s, updates, writes)
    ensures forall i :: 0 <= i < |writes| ==> WriteOk(s0, s, writes[i])
    ensures forall c, p :: OwnCommand(s0, s, c) && Computes(s.g.commands[c], p) ==>
                             p in s.sources && ListedWrite(writes, s.g.commands[c].nid, p)
    ensures forall c, p :: OwnCommand(s0, s, c) && Computes(s.g.commands[c], p) ==> Listed(updates, c, p)
    ensures forall c, d :: OwnCommand(s0, s, c) && OwnCommand(s0, s, d) ==> s.g.commands[c].tid == s.g.commands[d].tid
  {
  }

  lemma ProcessedFromParts(s0: State, t: nat, s1: State)
    requires s0.lastTid < t == s1.lastTid && Extends(s0, s1, t) && Shape(s1) && Domains(s0) && Domains(s1)
    requires s1.sources.Keys == s0.sources.Keys
    requires s1.numNodes == s0.numNodes
    requires TasksFed(s0, s1) && PushesFed(s0, s1) && AwaitsNeeded(s0, s1) && WritersOrdered(s0, s1)
    requires PushesBeforeOverwrite(s0, s1) && SourcesUpdated(s0, s1) && LastWritersUpdated(s0, s1)
    requires EdgesJustified(s0, s1)
    ensures TaskProcessed(s0, t, s1)
  {
  }
}

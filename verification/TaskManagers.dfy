/** The task manager: computes the dependencies of each task when it is created. */
module TaskManagers {
  import opened Options
  import opened Grid
  import opened Reachability
  import opened Commands
  import opened RegionQueries
  import opened Neighbours
  import opened TaskGraph

  const CONSUMER_MODES: seq<Mode> := [Atomic, Read, ReadWrite, Write]
  const PRODUCER_MODES: seq<Mode> := [Atomic, DiscardReadWrite, DiscardWrite, ReadWrite, Write]

  /** The cells of a buffer that are accessed with one of the modes. */
  method GetRequirements(reqs: Requirements, b: nat, modes: seq<Mode>) returns (r: set<Cell>)
    ensures IsRegion(reqs, b, modes, r)
  {
    r := {};
    for i := 0 to |modes|
      invariant forall p :: p in r ==> exists m :: m in modes && b in reqs && m in reqs[b] && p in reqs[b][m]
      invariant forall j, p :: 0 <= j < i && b in reqs && modes[j] in reqs[b] && p in reqs[b][modes[j]] ==> p in r
    {
      if b in reqs && modes[i] in reqs[b] {
        r := r + reqs[b][modes[i]];
      }
    }
  }

  ghost predicate BidsOk(reqs: Requirements) {
    forall b, m, p :: b in reqs && m in reqs[b] && p in reqs[b][m] ==> p.bid == b
  }

  /** Requests name their own buffer and lie inside the buffers, and a buffer that is written is written somewhere. */
  ghost predicate RequestsOk(reqs: Requirements, cells: set<Cell>) {
    && BidsOk(reqs)
    && (forall b, m, p :: b in reqs && m in reqs[b] && p in reqs[b][m] ==> p in cells)
    && (forall b, m :: b in reqs && m in reqs[b] && IsProducer(m) ==> exists p: Cell :: p.bid == b && Produces(reqs, p))
  }

  ghost predicate IsWriter(lastWriter: map<Cell, Option<nat>>, region: set<Cell>, e: nat)
    requires region <= lastWriter.Keys
  {
    exists p :: p in region && lastWriter[p] == Some(e)
  }

  ghost predicate ReadDone(s0: TaskState, reqs: Requirements, read: set<nat>, y: nat) {
    exists p: Cell :: p.bid in read && ReadTarget(s0, reqs, p, y)
  }

  ghost predicate WriteDone(s0: TaskState, reqs: Requirements, written: set<nat>, y: nat) {
    exists p: Cell :: p.bid in written && WriteTarget(s0, reqs, p, y)
  }

  /** The reads of the buffers `read` and the writes of the buffers `written` have been processed. */
  ghost predicate Progress(s0: TaskState, t: nat, reqs: Requirements, s: TaskState, read: set<nat>, written: set<nat>) {
    && t == s0.nextTask
    && s == s0.(tasks := s0.tasks[t := reqs], nextTask := t + 1, edges := s.edges, trueEdges := s.trueEdges,
                lastWriter := s.lastWriter)
    && (forall a: nat, b: nat :: (a, b) in s.edges <==>
                                 (a, b) in s0.edges || (a == t
                                       && (ReadDone(s0, reqs, read, b) || WriteDone(s0, reqs, written, b))))
    && (forall a: nat, b: nat :: (a, b) in s.trueEdges <==>
                                   (a, b) in s0.trueEdges || (a == t && ReadDone(s0, reqs, read, b)))
    && s.lastWriter.Keys == s0.lastWriter.Keys
    && (forall p :: p in s0.lastWriter ==>
                      s.lastWriter[p] == if p.bid in written && Produces(reqs, p) then Some(t) else s0.lastWriter[p])
  }

  lemma StartProgress(s0: TaskState, t: nat, reqs: Requirements)
    requires Shape(s0) && t == s0.nextTask
    ensures Progress(s0, t, reqs, s0.(tasks := s0.tasks[t := reqs], nextTask := t + 1), {}, {})
  {
  }

  lemma ProgressDone(s0: TaskState, t: nat, reqs: Requirements, s: TaskState, done: set<nat>)
    requires Progress(s0, t, reqs, s, done, done) && reqs.Keys <= done && RequestsOk(reqs, s0.lastWriter.Keys)
    ensures TaskAdded(s0, t, reqs, s)
  {
    assert forall p :: Consumes(reqs, p) || Produces(reqs, p) ==> p.bid in done && p in s0.lastWriter;
    forall y: nat
      ensures ReadDone(s0, reqs, done, y) <==> exists p :: ReadTarget(s0, reqs, p, y)
      ensures ReadDone(s0, reqs, done, y) || WriteDone(s0, reqs, done, y) <==> Target(s0, reqs, y)
    {
      AllDone(s0, reqs, done, y);
    }
    hide ReadDone, WriteDone, Target, ReadTarget, Consumes, Produces;
  }

  lemma AllDone(s0: TaskState, reqs: Requirements, done: set<nat>, y: nat)
    requires forall p :: Consumes(reqs, p) || Produces(reqs, p) ==> p.bid in done
    ensures ReadDone(s0, reqs, done, y) <==> exists p :: ReadTarget(s0, reqs, p, y)
    ensures ReadDone(s0, reqs, done, y) || WriteDone(s0, reqs, done, y) <==> Target(s0, reqs, y)
  {
    hide Consumes, Produces;
    if p :| ReadTarget(s0, reqs, p, y) || WriteTarget(s0, reqs, p, y) { assert p.bid in done; }
  }

  class TaskManager {
    var tasks: map<nat, Requirements>
    var nextTaskId: nat
    var edges: Edges
    var trueEdges: Edges
    var lastWriters: map<Cell, Option<nat>>
    ghost var hostInitialized: set<Cell>

    ghost function S(): TaskState
      reads this
    {
      TaskState(tasks, nextTaskId, edges, trueEdges, lastWriters, hostInitialized)
    }

    ghost predicate Valid()
      reads this
    {
      Inv(S()) && forall t :: t in tasks ==> BidsOk(tasks[t])
    }

    /** The init task stands for the writer of host-initialized buffers. */
    constructor ()
      ensures Valid() && lastWriters == map[] && nextTaskId == 1
      ensures tasks == map[INIT_TASK := map[]] && edges == {} && trueEdges == {}
    {
      tasks, nextTaskId, edges, trueEdges, lastWriters, hostInitialized := map[INIT_TASK := map[]], 1, {}, {}, map[],
          {};
      new;
      assert forall t, p :: t in tasks ==> !Consumes(tasks[t], p) && !Produces(tasks[t], p);
    }

    method AddBuffer(cells: set<Cell>, host: bool)
      requires Valid() && cells !! lastWriters.Keys
      modifies this
      ensures Valid() && BufferAdded(old(S()), S(), cells, host)
    {
      ghost var s0 := S();
      lastWriters := lastWriters + (map p | p in cells :: None);
      if host {
        lastWriters := lastWriters + (map p | p in cells :: Some(INIT_TASK));
        hostInitialized := hostInitialized + cells;
      }
      BufferKeepsInv(s0, S(), cells, host);
    }

    /** Adds a dependency; an existing anti-dependency can become a true one. */
    method AddDependency(t: nat, x: nat, anti: bool)
      requires (x, t) !in edges
      modifies this`edges, this`trueEdges
      ensures edges == old(edges) + {(t, x)} && trueEdges == if anti then old(trueEdges) else old(trueEdges) + {(t, x)}
    {
      edges := edges + {(t, x)};
      if !anti {
        trueEdges := trueEdges + {(t, x)};
      }
    }

    /** True dependencies on the last writers of what the task reads. */
    method AddReads(t: nat, region: set<Cell>)
      requires region <= lastWriters.Keys && Descending(edges) && BelowTask(lastWriters, region, t)
      modifies this`edges, this`trueEdges
      ensures Descending(edges) && OnWriters(old(edges), edges, t, lastWriters, region)
      ensures OnWriters(old(trueEdges), trueEdges, t, lastWriters, region)
    {
      hide Pieces, OnWriters;
      var pieces := RegionValues(lastWriters, region);
      for i := 0 to |pieces|
        invariant Descending(edges) && OnPieces(old(edges), edges, t, pieces, i)
        invariant OnPieces(old(trueEdges), trueEdges, t, pieces, i)
      {
        if pieces[i].value.Some? {
          PieceWriter(lastWriters, region, pieces, i);
          AddDependency(t, pieces[i].value.value, false);
        }
      }
      WritersOfPieces(lastWriters, region, pieces, old(edges), edges, t);
      WritersOfPieces(lastWriters, region, pieces, old(trueEdges), trueEdges, t);
    }

    /**
      * Anti-dependencies on those dependents of a last writer that read what is overwritten, or else on the last
      * writer.
      */
    method OrderBehind(t: nat, b: nat, req: set<Cell>, e: nat)
      requires Descending(edges) && e < t && (forall d: nat :: (d, e) in edges ==> d in tasks && d <= t)
      requires forall p :: p in req ==> p.bid == b
      requires forall x :: x in tasks ==> BidsOk(tasks[x])
      modifies this`edges, this`trueEdges
      ensures Descending(edges) && trueEdges == old(trueEdges)
      ensures forall x: nat, y: nat :: (x, y) in edges <==>
                                         (x, y) in old(edges) || (x == t && Behind(old(edges), tasks, t, req, e, y))
    {
      hide Overlaps, SomeReader;
      NoReaderYet(tasks, t, req);
      var dependents := Dependents(edges, e);
      var hasAntiDependents := false;
      for i := 0 to |dependents|
        invariant Descending(edges) && trueEdges == old(trueEdges)
        invariant forall x: nat, y: nat :: (x, y) in edges <==>
              (x, y) in old(edges) || (x == t && ReaderAmong(tasks, t, req, dependents[..i], y))
        invariant hasAntiDependents <==> SomeReader(tasks, t, req, dependents[..i])
      {
        var d := dependents[i];
        assert d in dependents && (d, e) in old(edges);
        OneMoreReader(tasks, t, req, dependents, i);
        if d != t {
          var reads' := GetRequirements(tasks[d], b, CONSUMER_MODES);
          OverlapsIs(tasks, d, b, req, reads');
          if req * reads' != {} {
            AddDependency(t, d, true);
            hasAntiDependents := true;
          }
        }
      }
      assert dependents[..|dependents|] == dependents;
      if !hasAntiDependents {
        AddDependency(t, e, true);
      }
      BehindIs(old(edges), tasks, t, req, e, dependents);
    }

    /** Orders the task behind the last writers of what it overwrites and behind their readers. */
    method AddWrites(t: nat, b: nat, req: set<Cell>)
      requires req <= lastWriters.Keys && Descending(edges) && BelowTask(lastWriters, req, t)
      requires forall d: nat, e: nat :: (d, e) in edges ==> d in tasks && d <= t
      requires forall p :: p in req ==> p.bid == b
      requires t in tasks && forall x :: x in tasks ==> BidsOk(tasks[x])
      modifies this`edges, this`trueEdges
      ensures Descending(edges) && trueEdges == old(trueEdges)
      ensures OrderedBehind(old(edges), edges, tasks, t, lastWriters, req)
    {
      hide Pieces, BidsOk, IsWriter, Behind;
      var pieces := RegionValues(lastWriters, req);
      for i := 0 to |pieces|
        invariant Descending(edges) && trueEdges == old(trueEdges)
        invariant forall x: nat, y: nat :: (x, y) in edges <==>
                                           (x, y) in old(edges) || (x == t
                                                 && BehindSome(old(edges), tasks, t, req, pieces, i, y))
        invariant forall d: nat, e: nat :: (d, e) in edges ==> d in tasks && d <= t
      {
        ghost var mid := edges;
        if pieces[i].value.Some? {
          PieceWriter(lastWriters, req, pieces, i);
          OrderBehind(t, b, req, pieces[i].value.value);
          SameBehind(old(edges), mid, tasks, t, req, pieces[i].value.value);
        }
      }
      AllBehind(old(edges), edges, tasks, t, lastWriters, req, pieces);
    }

    /** Dependencies that come from the accesses to one buffer. */
    method ProcessBuffer(t: nat, b: nat, ghost s0: TaskState, ghost done: set<nat>)
      requires Inv(s0) && t in tasks && b in tasks[t] && b !in done && RequestsOk(tasks[t], s0.lastWriter.Keys)
      requires Progress(s0, t, tasks[t], S(), done, done) && forall x :: x in tasks ==> BidsOk(tasks[x])
      modifies this`edges, this`trueEdges, this`lastWriters
      ensures Progress(s0, t, tasks[t], S(), done + {b}, done + {b})
    {
      hide Inv, Progress, RequestsOk, BidsOk, OnWriters, OrderedBehind, BelowTask;
      ghost var reqs := tasks[t];
      var reads', writes' := {}, {};
      if exists m :: m in tasks[t][b] && IsConsumer(m) {
        reads' := GetRequirements(tasks[t], b, CONSUMER_MODES);
      }
      ReadRegionIs(reqs, b, reads', s0.lastWriter.Keys);
      ghost var s := S();
      ProgressParts(s0, t, reqs, s, done, done, reads');
      AddReads(t, reads');
      ghost var s1 := S();
      ReadStep(s0, t, reqs, s, s1, done, b, reads');
      if exists m :: m in tasks[t][b] && IsProducer(m) {
        writes' := GetRequirements(tasks[t], b, PRODUCER_MODES);
        assert writes' != {} by { WritesSomewhere(reqs, b, writes', s0.lastWriter.Keys); }
      }
      WriteRegionIs(reqs, b, writes', s0.lastWriter.Keys);
      ProgressParts(s0, t, reqs, s1, done + {b}, done, writes');
      AddWrites(t, b, writes');
      WriteStep(s0, t, reqs, s1, S(), done, b, writes');
      lastWriters := lastWriters + (map p | p in writes' :: Some(t));
    }

    /** A new task with the dependencies that its accesses imply. */
    method CreateTask(reqs: Requirements) returns (t: nat)
      requires Valid() && RequestsOk(reqs, lastWriters.Keys)
      modifies this
      ensures Valid() && TaskAdded(old(S()), t, reqs, S())
    {
      hide Inv, Progress, RequestsOk, BidsOk, TaskAdded;
      ghost var s0 := S();
      t := nextTaskId;
      RequestBids(reqs, lastWriters.Keys);
      nextTaskId := nextTaskId + 1;
      tasks := tasks[t := reqs];
      assert Shape(s0) by { InvParts(s0); }
      StartProgress(s0, t, reqs);
      var buffers := Enumerate(reqs.Keys);
      ghost var done: set<nat> := {};
      for i := 0 to |buffers|
        invariant tasks == s0.tasks[t := reqs] && Progress(s0, t, reqs, S(), done, done)
        invariant forall b :: b in done <==> b in buffers[..i]
        invariant forall x :: x in tasks ==> BidsOk(tasks[x])
      {
        assert buffers[i] in buffers;
        ProcessBuffer(t, buffers[i], s0, done);
        done := done + {buffers[i]};
      }
      assert buffers[..|buffers|] == buffers;
      ProgressDone(s0, t, reqs, S(), done);
      TaskKeepsInv(s0, t, reqs, S());
    }
  }

  lemma InvParts(s: TaskState)
    requires Inv(s)
    ensures Shape(s)
  {
  }

  lemma RequestBids(reqs: Requirements, cells: set<Cell>)
    requires RequestsOk(reqs, cells)
    ensures BidsOk(reqs)
  {
  }

  /** The region is what the task reads of buffer `b`. */
  ghost predicate IsReadRegion(reqs: Requirements, b: nat, region: set<Cell>) {
    forall p: Cell :: p in region <==> p.bid == b && Consumes(reqs, p)
  }

  ghost predicate IsWriteRegion(reqs: Requirements, b: nat, region: set<Cell>) {
    forall p: Cell :: p in region <==> p.bid == b && Produces(reqs, p)
  }

  ghost predicate IsRegion(reqs: Requirements, b: nat, modes: seq<Mode>, region: set<Cell>) {
    forall p :: p in region <==> exists m :: m in modes && b in reqs && m in reqs[b] && p in reqs[b][m]
  }

  lemma ReadRegionIs(reqs: Requirements, b: nat, region: set<Cell>, cells: set<Cell>)
    requires RequestsOk(reqs, cells) && b in reqs
    requires (exists m :: m in reqs[b] && IsConsumer(m)) ==> IsRegion(reqs, b, CONSUMER_MODES, region)
    requires !(exists m :: m in reqs[b] && IsConsumer(m)) ==> region == {}
    ensures IsReadRegion(reqs, b, region) && region <= cells
  {
    forall p: Cell
      ensures p in region <==> p.bid == b && Consumes(reqs, p)
      ensures p in region ==> p in cells
    {
      if m :| IsConsumer(m) && Needs(reqs, m, p) { assert m in CONSUMER_MODES; }
      if m :| m in CONSUMER_MODES && m in reqs[b] && p in reqs[b][m] { assert IsConsumer(m) && Needs(reqs, m, p); }
    }
  }

  lemma WriteRegionIs(reqs: Requirements, b: nat, region: set<Cell>, cells: set<Cell>)
    requires RequestsOk(reqs, cells) && b in reqs
    requires (exists m :: m in reqs[b] && IsProducer(m)) ==> IsRegion(reqs, b, PRODUCER_MODES, region)
    requires !(exists m :: m in reqs[b] && IsProducer(m)) ==> region == {}
    ensures IsWriteRegion(reqs, b, region) && region <= cells
  {
    forall p: Cell
      ensures p in region <==> p.bid == b && Produces(reqs, p)
      ensures p in region ==> p in cells
    {
      if m :| IsProducer(m) && Needs(reqs, m, p) { assert m in PRODUCER_MODES; }
      if m :| m in PRODUCER_MODES && m in reqs[b] && p in reqs[b][m] { assert IsProducer(m) && Needs(reqs, m, p); }
    }
  }

  lemma WritesSomewhere(reqs: Requirements, b: nat, region: set<Cell>, cells: set<Cell>)
    requires RequestsOk(reqs, cells) && b in reqs && (exists m :: m in reqs[b] && IsProducer(m))
    requires IsRegion(reqs, b, PRODUCER_MODES, region)
    ensures region != {}
  {
    WriteRegionIs(reqs, b, region, cells);
    var p: Cell :| p.bid == b && Produces(reqs, p);
    assert p in region;
  }

  lemma ProgressParts(s0: TaskState, t: nat, reqs: Requirements, s: TaskState, read: set<nat>, written: set<nat>,
                      region: set<Cell>)
    requires Inv(s0) && Progress(s0, t, reqs, s, read, written) && region <= s0.lastWriter.Keys
    requires forall p :: p in region ==> p.bid !in written
    ensures region <= s.lastWriter.Keys && Descending(s.edges) && BelowTask(s.lastWriter, region, t)
    ensures forall d: nat, e: nat :: (d, e) in s.edges ==> d in s.tasks && d <= t
  {
    hide WritersFirst, ReadersFirst, ReadersUnder, Consumes, Produces;
    forall p, e | p in region && s.lastWriter[p] == Some(e)
      ensures e < t
    {
      assert WriterCovers(s0, p);
    }
    forall y: nat | ReadDone(s0, reqs, read, y) || WriteDone(s0, reqs, written, y)
      ensures y in s0.tasks
    {
      assert Target(s0, reqs, y);
      TargetKnown(s0, reqs, y);
    }
  }

  lemma OneMoreRead(s0: TaskState, reqs: Requirements, done: set<nat>, b: nat, region: set<Cell>, y: nat)
    requires IsReadRegion(reqs, b, region) && region <= s0.lastWriter.Keys
    ensures ReadDone(s0, reqs, done + {b}, y) <==> ReadDone(s0, reqs, done, y) || IsWriter(s0.lastWriter, region, y)
  {
    hide Consumes;
    if p: Cell :| p.bid in done + {b} && ReadTarget(s0, reqs, p, y) {
      if p.bid == b { assert p in region; }
    }
    if p :| p in region && s0.lastWriter[p] == Some(y) { assert ReadTarget(s0, reqs, p, y); }
  }

  /** The last writers of the region have not changed yet. */
  lemma SameWriters(s0: TaskState, t: nat, reqs: Requirements, s: TaskState, read: set<nat>, written: set<nat>, b: nat,
                    region: set<Cell>)
    requires Progress(s0, t, reqs, s, read, written) && b !in written && region <= s0.lastWriter.Keys
    requires forall p :: p in region ==> p.bid == b
    ensures forall y: nat :: IsWriter(s.lastWriter, region, y) <==> IsWriter(s0.lastWriter, region, y)
  {
    assert forall p :: p in region ==> s.lastWriter[p] == s0.lastWriter[p];
  }

  lemma ReadStep(s0: TaskState, t: nat, reqs: Requirements, s: TaskState, s1: TaskState, done: set<nat>, b: nat,
                 region: set<Cell>)
    requires Progress(s0, t, reqs, s, done, done) && b !in done && IsReadRegion(reqs, b, region)
    requires region <= s0.lastWriter.Keys
    requires s1 == s.(edges := s1.edges, trueEdges := s1.trueEdges) && region <= s.lastWriter.Keys
    requires OnWriters(s.edges, s1.edges, t, s.lastWriter, region)
    requires OnWriters(s.trueEdges, s1.trueEdges, t, s.lastWriter, region)
    ensures Progress(s0, t, reqs, s1, done + {b}, done)
  {
    SameWriters(s0, t, reqs, s, done, done, b, region);
    hide ReadDone, WriteDone, IsWriter, Consumes, Produces;
    forall y: nat
      ensures ReadDone(s0, reqs, done + {b}, y) <==> ReadDone(s0, reqs, done, y) || IsWriter(s0.lastWriter, region, y)
    {
      OneMoreRead(s0, reqs, done, b, region, y);
    }
  }

  /** What the new dependencies lead to, seen from before the task and from within it. */
  lemma BehindWriter(s0: TaskState, t: nat, reqs: Requirements, s1: TaskState, read: set<nat>, written: set<nat>,
                     b: nat, region: set<Cell>, e: nat, y: nat)
    requires Inv(s0) && Progress(s0, t, reqs, s1, read, written) && IsWriteRegion(reqs, b, region) && e < t
    ensures Behind(s1.edges, s1.tasks, t, region, e, y) <==> IsBehind(s0, reqs, b, e, y)
  {
    assert Shape(s0) by { InvParts(s0); }
    hide Inv, Consumes, Produces, ReadDone, WriteDone;
    forall d: nat
      ensures (d, e) in s1.edges && d != t <==> (d, e) in s0.edges
      ensures (d, e) in s0.edges ==> (Overlaps(s1.tasks, d, region) <==> ReadsProduced(s0, reqs, b, d))
    {
      if p :| p in region && d in s1.tasks && Consumes(s1.tasks[d], p) { assert p.bid == b && Produces(reqs, p); }
    }
  }

  lemma OneMoreWrite(s0: TaskState, reqs: Requirements, done: set<nat>, b: nat, region: set<Cell>, y: nat)
    requires IsWriteRegion(reqs, b, region) && region <= s0.lastWriter.Keys
    ensures WriteDone(s0, reqs, done + {b}, y) <==>
            WriteDone(s0, reqs, done, y)
                || exists e: nat :: IsWriter(s0.lastWriter, region, e) && IsBehind(s0, reqs, b, e, y)
  {
    hide Produces, IsBehind;
    if p: Cell :| p.bid in done + {b} && WriteTarget(s0, reqs, p, y) {
      if p.bid == b { assert p in region && IsWriter(s0.lastWriter, region, s0.lastWriter[p].value); }
    }
    if e: nat :| IsWriter(s0.lastWriter, region, e) && IsBehind(s0, reqs, b, e, y) {
      var p :| p in region && s0.lastWriter[p] == Some(e);
      assert WriteTarget(s0, reqs, p, y);
    }
  }

  lemma OneMoreWritten(s0: TaskState, t: nat, reqs: Requirements, s1: TaskState, done: set<nat>, b: nat,
                       region: set<Cell>, y: nat)
    requires Inv(s0) && Progress(s0, t, reqs, s1, done + {b}, done) && b !in done && IsWriteRegion(reqs, b, region)
    requires region <= s0.lastWriter.Keys
    requires region <= s1.lastWriter.Keys && BelowTask(s1.lastWriter, region, t)
    ensures WriteDone(s0, reqs, done + {b}, y) <==>
            WriteDone(s0, reqs, done, y) || BehindWriters(s1.edges, s1.tasks, t, s1.lastWriter, region, y)
  {
    SameWriters(s0, t, reqs, s1, done + {b}, done, b, region);
    hide Inv, WriteDone, IsWriter, Behind, IsBehind, Progress, IsWriteRegion;
    OneMoreWrite(s0, reqs, done, b, region, y);
    forall e: nat | IsWriter(s0.lastWriter, region, e)
      ensures Behind(s1.edges, s1.tasks, t, region, e, y) <==> IsBehind(s0, reqs, b, e, y)
    {
      assert IsWriter(s1.lastWriter, region, e);
      BehindWriter(s0, t, reqs, s1, done + {b}, done, b, region, e, y);
    }
  }

  lemma WriteStep(s0: TaskState, t: nat, reqs: Requirements, s1: TaskState, s2: TaskState, done: set<nat>, b: nat,
                  region: set<Cell>)
    requires Inv(s0) && Progress(s0, t, reqs, s1, done + {b}, done) && b !in done && IsWriteRegion(reqs, b, region)
    requires region <= s0.lastWriter.Keys
    requires s2 == s1.(edges := s2.edges) && region <= s1.lastWriter.Keys && BelowTask(s1.lastWriter, region, t)
    requires OrderedBehind(s1.edges, s2.edges, s1.tasks, t, s1.lastWriter, region)
    ensures Progress(s0, t, reqs, s2.(lastWriter := s2.lastWriter + (map p | p in region :: Some(t))), done + {b},
                                                                                              done + {b})
  {
    hide Inv, ReadDone, WriteDone, BelowTask, BehindWriters, Produces;
    var s' := s2.(lastWriter := s2.lastWriter + (map p | p in region :: Some(t)));
    assert s'.lastWriter.Keys == s0.lastWriter.Keys;
    forall y: nat
      ensures WriteDone(s0, reqs, done + {b}, y) <==>
              WriteDone(s0, reqs, done, y) || BehindWriters(s1.edges, s1.tasks, t, s1.lastWriter, region, y)
    {
      OneMoreWritten(s0, t, reqs, s1, done, b, region, y);
    }
  }

  /** The task is to come after `y` because of some last writer of the region. */
  ghost predicate BehindWriters(before: Edges, tasks: map<nat, Requirements>, t: nat,
                                lastWriter: map<Cell, Option<nat>>, req: set<Cell>, y: nat)
    requires req <= lastWriter.Keys
  {
    exists e: nat :: IsWriter(lastWriter, req, e) && Behind(before, tasks, t, req, e, y)
  }

  ghost predicate OrderedBehind(before: Edges, after: Edges, tasks: map<nat, Requirements>, t: nat,
                                lastWriter: map<Cell, Option<nat>>, req: set<Cell>)
    requires req <= lastWriter.Keys
  {
    forall x: nat, y: nat :: (x, y) in after <==>
                               (x, y) in before || (x == t && BehindWriters(before, tasks, t, lastWriter, req, y))
  }

  ghost predicate BehindSome(before: Edges, tasks: map<nat, Requirements>, t: nat, req: set<Cell>,
                             pieces: seq<Piece<Cell, Option<nat>>>, i: nat, y: nat)
    requires i <= |pieces|
  {
    exists j :: 0 <= j < i && pieces[j].value.Some? && Behind(before, tasks, t, req, pieces[j].value.value, y)
  }

  lemma AllBehind(before: Edges, after: Edges, tasks: map<nat, Requirements>, t: nat,
                  lastWriter: map<Cell, Option<nat>>,
                  req: set<Cell>, pieces: seq<Piece<Cell, Option<nat>>>)
    requires req <= lastWriter.Keys && Pieces(lastWriter, req, pieces)
    requires forall x: nat, y: nat :: (x, y) in after <==>
          (x, y) in before || (x == t && BehindSome(before, tasks, t, req, pieces, |pieces|, y))
    ensures OrderedBehind(before, after, tasks, t, lastWriter, req)
  {
    hide Behind, Pieces;
    forall y: nat
      ensures BehindSome(before, tasks, t, req, pieces, |pieces|, y) <==>
                BehindWriters(before, tasks, t, lastWriter, req, y)
    {
      if e: nat :| IsWriter(lastWriter, req, e) && Behind(before, tasks, t, req, e, y) {
        var p :| p in req && lastWriter[p] == Some(e);
        var j := WriterInPiece(lastWriter, req, pieces, p);
      }
      if j :| 0 <= j < |pieces| && pieces[j].value.Some? && Behind(before, tasks, t, req, pieces[j].value.value, y) {
        PieceWriter(lastWriter, req, pieces, j);
      }
    }
    hide BehindSome, BehindWriters;
  }

  /** Dependencies of the task itself do not matter for what it has to come after. */
  lemma SameBehind(before: Edges, mid: Edges, tasks: map<nat, Requirements>, t: nat, req: set<Cell>, e: nat)
    requires forall x: nat, y: nat :: x != t ==> ((x, y) in mid <==> (x, y) in before)
    ensures forall y: nat :: Behind(mid, tasks, t, req, e, y) <==> Behind(before, tasks, t, req, e, y)
  {
    hide Overlaps;
  }

  ghost predicate Descending(edges: Edges) {
    forall a: nat, b: nat :: (a, b) in edges ==> b < a
  }

  ghost predicate BelowTask(lastWriter: map<Cell, Option<nat>>, region: set<Cell>, t: nat)
    requires region <= lastWriter.Keys
  {
    forall e: nat :: IsWriter(lastWriter, region, e) ==> e < t
  }

  /** The new edges lead from `t` to the last writers of the region. */
  ghost predicate OnWriters(before: Edges, after: Edges, t: nat, lastWriter: map<Cell, Option<nat>>, region: set<Cell>)
    requires region <= lastWriter.Keys
  {
    forall a: nat, b: nat :: (a, b) in after <==> (a, b) in before || (a == t && IsWriter(lastWriter, region, b))
  }

  ghost predicate OnPieces(before: Edges, after: Edges, t: nat, pieces: seq<Piece<Cell, Option<nat>>>, i: nat)
    requires i <= |pieces|
  {
    forall a: nat, b: nat :: (a, b) in after <==> (a, b) in before || (a == t && Written(pieces, i, b))
  }

  /** Task `d` reads some of the cells. */
  ghost predicate Overlaps(tasks: map<nat, Requirements>, d: nat, req: set<Cell>) {
    d in tasks && exists p :: p in req && Consumes(tasks[d], p)
  }

  /** `y` depends on `e` and reads some of the cells, or it is `e` and no other task does so. */
  ghost predicate Behind(before: Edges, tasks: map<nat, Requirements>, t: nat, req: set<Cell>, e: nat, y: nat) {
    || ((y, e) in before && y != t && Overlaps(tasks, y, req))
    || (y == e && forall d: nat :: (d, e) in before && d != t ==> !Overlaps(tasks, d, req))
  }

  ghost predicate ReaderAmong(tasks: map<nat, Requirements>, t: nat, req: set<Cell>, ds: seq<nat>, d: nat) {
    d in ds && d != t && Overlaps(tasks, d, req)
  }

  ghost predicate SomeReader(tasks: map<nat, Requirements>, t: nat, req: set<Cell>, ds: seq<nat>) {
    exists d: nat :: ReaderAmong(tasks, t, req, ds, d)
  }

  lemma NoReaderYet(tasks: map<nat, Requirements>, t: nat, req: set<Cell>)
    ensures !SomeReader(tasks, t, req, [])
  {
  }

  lemma OneMoreReader(tasks: map<nat, Requirements>, t: nat, req: set<Cell>, ds: seq<nat>, i: nat)
    requires i < |ds|
    ensures forall d: nat :: ReaderAmong(tasks, t, req, ds[..i + 1], d) <==>
                             ReaderAmong(tasks, t, req, ds[..i], d) || (d == ds[i] && d != t && Overlaps(tasks, d, req))
    ensures SomeReader(tasks, t, req, ds[..i + 1]) <==>
              SomeReader(tasks, t, req, ds[..i]) || (ds[i] != t && Overlaps(tasks, ds[i], req))
  {
    hide Overlaps;
    assert ds[..i + 1] == ds[..i] + [ds[i]];
    if ds[i] != t && Overlaps(tasks, ds[i], req) { assert ReaderAmong(tasks, t, req, ds[..i + 1], ds[i]); }
    if d: nat :| ReaderAmong(tasks, t, req, ds[..i], d) { assert ReaderAmong(tasks, t, req, ds[..i + 1], d); }
  }

  lemma BehindIs(before: Edges, tasks: map<nat, Requirements>, t: nat, req: set<Cell>, e: nat, ds: seq<nat>)
    requires forall d: nat :: d in ds <==> (d, e) in before
    ensures forall y: nat :: Behind(before, tasks, t, req, e, y) <==>
                             ReaderAmong(tasks, t, req, ds, y) || (y == e && !SomeReader(tasks, t, req, ds))
  {
    hide Overlaps;
    if d: nat :| (d, e) in before && d != t && Overlaps(tasks, d, req) { assert ReaderAmong(tasks, t, req, ds, d); }
  }

  lemma OverlapsIs(tasks: map<nat, Requirements>, d: nat, b: nat, req: set<Cell>, read: set<Cell>)
    requires d in tasks && (forall p :: p in req ==> p.bid == b)
    requires BidsOk(tasks[d])
    requires IsRegion(tasks[d], b, CONSUMER_MODES, read)
    ensures Overlaps(tasks, d, req) <==> req * read != {}
  {
    forall p | p in req
      ensures Consumes(tasks[d], p) <==> p in read
    {
      if m :| IsConsumer(m) && Needs(tasks[d], m, p) { assert m in CONSUMER_MODES; }
      if p in read {
        var m :| m in CONSUMER_MODES && b in tasks[d] && m in tasks[d][b] && p in tasks[d][b][m];
        assert IsConsumer(m) && Needs(tasks[d], m, p);
      }
    }
    if p :| p in req && Consumes(tasks[d], p) { assert p in req * read; }
    if p :| p in req * read { assert Consumes(tasks[d], p); }
  }

  ghost predicate Written(pieces: seq<Piece<Cell, Option<nat>>>, i: nat, e: nat)
    requires i <= |pieces|
  {
    exists j :: 0 <= j < i && pieces[j].value == Some(e)
  }

  lemma PieceWriter(lastWriter: map<Cell, Option<nat>>, region: set<Cell>, pieces: seq<Piece<Cell, Option<nat>>>,
                    i: nat)
    requires region <= lastWriter.Keys && Pieces(lastWriter, region, pieces) && i < |pieces| && pieces[i].value.Some?
    ensures IsWriter(lastWriter, region, pieces[i].value.value)
  {
    assert PieceOk(lastWriter, region, pieces[i]);
    var p :| p in pieces[i].box;
    assert lastWriter[p] == pieces[i].value;
  }

  lemma WritersOfPieces(lastWriter: map<Cell, Option<nat>>, region: set<Cell>, pieces: seq<Piece<Cell, Option<nat>>>,
                        before: Edges, after: Edges, t: nat)
    requires region <= lastWriter.Keys && Pieces(lastWriter, region, pieces)
    requires OnPieces(before, after, t, pieces, |pieces|)
    ensures OnWriters(before, after, t, lastWriter, region)
  {
    forall e: nat
      ensures Written(pieces, |pieces|, e) <==> IsWriter(lastWriter, region, e)
    {
      if j :| 0 <= j < |pieces| && pieces[j].value == Some(e) { PieceWriter(lastWriter, region, pieces, j); }
      if p :| p in region && lastWriter[p] == Some(e) { var j := WriterInPiece(lastWriter, region, pieces, p); }
    }
  }

  lemma WriterInPiece(lastWriter: map<Cell, Option<nat>>, region: set<Cell>, pieces: seq<Piece<Cell, Option<nat>>>,
                      p: Cell) returns (j: nat)
    requires region <= lastWriter.Keys && Pieces(lastWriter, region, pieces) && p in region
    ensures j < |pieces| && p in pieces[j].box && pieces[j].value == lastWriter[p]
  {
    assert InSome(pieces, p);
    j :| 0 <= j < |pieces| && p in pieces[j].box;
    assert PieceOk(lastWriter, region, pieces[j]);
  }

  /** One cell without contents is read and then written: the writer does not wait for the reader. */
  method WriteAfterEmptyRead() returns (ghost s: TaskState, ghost r: nat, ghost x: nat, ghost p: Cell)
    ensures Inv(s) && r < x && ReadIt(s, r, p) && Wrote(s, x, p) && !HadContents(s, r, p) && !Reaches(s.edges, x, r)
  {
    hide Inv, RequestsOk, Reaches, HadContents, Consumes, Produces;
    p := Cell(0, Point(0, 0, 0));
    var cell := Cell(0, Point(0, 0, 0));
    var manager := new TaskManager();
    manager.AddBuffer({cell}, false);
    var reading: Requirements, writing: Requirements := map[0 := map[Read := {cell}]],
        map[0 := map[DiscardWrite := {cell}]];
    OneRequest(Read, cell);
    OneRequest(DiscardWrite, cell);
    ghost var s0 := manager.S();
    assert manager.lastWriters.Keys == {cell};
    r := manager.CreateTask(reading);
    ghost var s1 := manager.S();
    x := manager.CreateTask(writing);
    s := manager.S();
    NoContentsNoOrder(s1, x, writing, s, r);
    NeverWritten(s0, r, reading, s1, x, writing, s, cell);
  }

  lemma OneRequest(m: Mode, cell: Cell)
    requires cell.bid == 0
    ensures var reqs: Requirements := map[0 := map[m := {cell}]];
            && RequestsOk(reqs, {cell})
            && (forall p :: Consumes(reqs, p) <==> IsConsumer(m) && p == cell)
            && (forall p :: Produces(reqs, p) <==> IsProducer(m) && p == cell)
  {
    var reqs: Requirements := map[0 := map[m := {cell}]];
    assert forall m', p :: Needs(reqs, m', p) <==> m' == m && p == cell;
    assert IsProducer(m) ==> Produces(reqs, cell);
  }

  lemma NeverWritten(s0: TaskState, r: nat, reading: Requirements, s1: TaskState, x: nat, writing: Requirements,
                     s2: TaskState, p: Cell)
    requires Inv(s0) && TaskAdded(s0, r, reading, s1) && TaskAdded(s1, x, writing, s2)
    requires p in s0.lastWriter && s0.lastWriter[p] == None && !Produces(reading, p)
    ensures !HadContents(s2, r, p)
  {
    assert WriterCovers(s0, p);
    hide Produces, Consumes;
    forall w: nat | w < r
      ensures !Wrote(s2, w, p)
    {
      assert !Wrote(s0, w, p);
    }
  }
}

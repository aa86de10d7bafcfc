/** From the accesses of a task to the chunks that the generator is given. */
module TaskSplits {
  import opened Grid
  import opened Commands
  import opened GeneratorSteps
  import opened GeneratorSetup
  import opened RangeMappers
  import opened Splits
  import opened Neighbours

  /** The range mappers of each buffer that a task accesses. */
  type Accesses = map<nat, seq<RangeMapper>>

  ghost predicate RequirementsAre(accesses: Accesses, c: KernelChunk, reqs: Requirements) {
    && (forall b, m, p :: b in reqs && m in reqs[b] && p in reqs[b][m] ==> p.bid == b)
    && (forall b, m, p :: Needs(reqs, m, Cell(b, p)) <==> b in accesses && Requires(accesses[b], m, c, p))
  }

  method BufferRequirements(b: nat, mappers: seq<RangeMapper>, c: KernelChunk) returns (byMode: map<Mode, set<Cell>>)
    ensures forall m, p :: m in byMode && p in byMode[m] ==> p.bid == b
    ensures forall m, p :: m in byMode && Cell(b, p) in byMode[m] <==> Requires(mappers, m, c, p)
  {
    byMode := map[];
    for i := 0 to |ALL_MODES|
      invariant forall m :: m in byMode <==> m in ALL_MODES[..i]
      invariant forall m, p :: m in byMode && p in byMode[m] ==> p.bid == b
      invariant forall m, p :: m in byMode ==> (Cell(b, p) in byMode[m] <==> Requires(mappers, m, c, p))
    {
      var m := ALL_MODES[i];
      assert ALL_MODES[..i + 1] == ALL_MODES[..i] + [m];
      var region := RangeMappers.GetRequirements(mappers, m, c);
      byMode := byMode[m := set p | p in region :: Cell(b, p)];
    }
    assert ALL_MODES[..|ALL_MODES|] == ALL_MODES;
    forall m: Mode
      ensures m in ALL_MODES
    {
      Listed(m);
    }
  }

  lemma Listed(m: Mode)
    ensures m in ALL_MODES
  {
    var i := match m {
      case Atomic => 0
      case DiscardReadWrite => 1
      case DiscardWrite => 2
      case Read => 3
      case ReadWrite => 4
      case Write => 5
    };
    assert ALL_MODES[i] == m;
  }

  method ChunkRequirements(accesses: Accesses, c: KernelChunk) returns (reqs: Requirements)
    ensures RequirementsAre(accesses, c, reqs)
  {
    reqs := map[];
    var buffers := Enumerate(accesses.Keys);
    for i := 0 to |buffers|
      invariant forall b :: b in reqs <==> b in buffers[..i]
      invariant forall b, m, p :: b in reqs && m in reqs[b] && p in reqs[b][m] ==> p.bid == b
      invariant forall b, m, p :: b in buffers[..i] ==> (Needs(reqs, m, Cell(b, p)) <==> Requires(accesses[b], m, c, p))
    {
      var b := buffers[i];
      assert b in buffers && b !in buffers[..i];
      var byMode := BufferRequirements(b, accesses[b], c);
      reqs := reqs[b := byMode];
    }
    assert buffers[..|buffers|] == buffers;
  }

  /** The whole task stays inside the buffers, and no point of a buffer is both read and discarded. */
  ghost predicate AccessesOk(accesses: Accesses, full: KernelChunk, cells: set<Cell>) {
    && (forall b, m, p :: b in accesses && Requires(accesses[b], m, full, p) ==> Cell(b, p) in cells)
    && (forall b, m, m', p :: b in accesses && Requires(accesses[b], m, full, p) && Requires(accesses[b], m', full, p)
                                && IsConsumer(m') ==>
                                IsConsumer(m))
  }

  /** Every point is written by the work item with its index. */
  ghost predicate WritesOwnPoint(accesses: Accesses) {
    forall b, j :: b in accesses && 0 <= j < |accesses[b]| && IsProducer(accesses[b][j].mode) ==>
                     accesses[b][j].mapper == OneToOne
  }

  lemma ChunkRequirementsOk(accesses: Accesses, full: KernelChunk, n: nat, chunks: seq<KernelChunk>, k: nat,
                            reqs: Requirements, cells: set<Cell>)
    requires n > 0 && IsSplit(full, full.range.x, n, chunks) && k < n && AccessesOk(accesses, full, cells)
    requires RequirementsAre(accesses, chunks[k], reqs)
    ensures RequirementsOk(reqs, cells)
  {
    hide Requires;
    forall b, m, p: Point | b in accesses && Requires(accesses[b], m, chunks[k], p)
      ensures Requires(accesses[b], m, full, p)
    {
      SplitPreservesRequirements(accesses[b], m, full, n, chunks, p);
    }
    forall b, m, p | b in reqs && m in reqs[b] && p in reqs[b][m]
      ensures p.bid == b && p in cells
    {
      assert p == Cell(b, p.point) && Needs(reqs, m, Cell(b, p.point));
    }
    forall m, m', p | Needs(reqs, m, p) && Needs(reqs, m', p) && IsConsumer(m')
      ensures IsConsumer(m)
    {
      assert p == Cell(p.bid, p.point);
    }
  }

  lemma WrittenInChunk(accesses: Accesses, c: KernelChunk, reqs: Requirements, p: Cell)
    requires WritesOwnPoint(accesses) && RequirementsAre(accesses, c, reqs) && Produces(reqs, p)
    ensures Inside(Subrange(c.offset, c.range), p.point)
  {
    var m :| IsProducer(m) && Needs(reqs, m, p);
    assert p == Cell(p.bid, p.point);
    assert Requires(accesses[p.bid], m, c, p.point);
    var j :| 0 <= j < |accesses[p.bid]| && accesses[p.bid][j].mode == m
        && Inside(Mapped(accesses[p.bid][j], c), p.point);
    MappedIs(accesses[p.bid][j], c, p.point);
  }

  /** Chunks of different nodes write different cells. */
  lemma WritesApart(accesses: Accesses, full: KernelChunk, n: nat, chunks: seq<KernelChunk>, i: nat, j: nat,
                    ri: Requirements, rj: Requirements, p: Cell)
    requires n > 0 && IsSplit(full, full.range.x, n, chunks) && i < j < n == |chunks| && WritesOwnPoint(accesses)
    requires RequirementsAre(accesses, chunks[i], ri) && RequirementsAre(accesses, chunks[j], rj) && Produces(ri, p)
    ensures !Produces(rj, p)
  {
    hide IsSplit, RequirementsAre, Produces;
    WrittenInChunk(accesses, chunks[i], ri, p);
    SplitPartitions(full, n, chunks, p.point);
    if Produces(rj, p) { WrittenInChunk(accesses, chunks[j], rj, p); }
  }

  /** Splits the index space of a compute task evenly over all nodes. */
  method SplitTask(accesses: Accesses, dims: nat, full: KernelChunk, numNodes: nat, ghost cells: set<Cell>)
    returns (task: Task, chunks: seq<KernelChunk>)
    requires numNodes > 0 && 1 <= dims <= 3 && full.range == full.globalSize
    requires (dims == 1 ==> full.range.y == 1 && full.range.z == 1)
    requires AccessesOk(accesses, full, cells) && WritesOwnPoint(accesses)
    ensures TaskOk(task, numNodes, cells) && task.ComputeTask? && |Chunks(task)| == numNodes
    ensures forall n: nat :: n < numNodes ==> OnSomeChunk(task, n)
    ensures IsSplit(full, full.range.x, numNodes, chunks) && RequirementsAre(accesses, full, task.whole)
    ensures forall i :: 0 <= i < numNodes ==>
                          Chunks(task)[i].nid == i && RequirementsAre(accesses, chunks[i], Chunks(task)[i].reqs)
    ensures forall m, p :: Needs(task.whole, m, p) <==>
                             exists i :: 0 <= i < numNodes && Needs(Chunks(task)[i].reqs, m, p)
  {
    hide AccessesOk, WritesOwnPoint, RequirementsAre, IsSplit, RequirementsOk;
    var whole := ChunkRequirements(accesses, full);
    if dims == 1 {
      chunks := SplitEqual1(full, numNodes);
    } else if dims == 2 {
      chunks := SplitEqual2(full, numNodes);
    } else {
      chunks := SplitEqual3(full, numNodes);
    }
    SplitSize(full, numNodes, chunks);
    var nodes := AssignNodes(numNodes, numNodes);
    var parts: seq<Chunk> := [];
    for i := 0 to numNodes
      invariant |parts| == i
      invariant forall k :: 0 <= k < i ==> parts[k].nid == k && RequirementsAre(accesses, chunks[k], parts[k].reqs)
    {
      var reqs := ChunkRequirements(accesses, chunks[i]);
      parts := parts + [Chunk(nodes[i], reqs)];
    }
    task := ComputeTask(whole, parts);
    PartsOk(accesses, full, numNodes, chunks, parts, cells);
    PartsCover(accesses, full, numNodes, chunks, whole, parts);
    forall n: nat | n < numNodes
      ensures OnSomeChunk(task, n)
    {
      assert Chunks(task)[n].nid == n;
    }
  }

  lemma SplitSize(full: KernelChunk, n: nat, chunks: seq<KernelChunk>)
    requires IsSplit(full, full.range.x, n, chunks)
    ensures |chunks| == n
  {
  }

  lemma PartsOk(accesses: Accesses, full: KernelChunk, n: nat, chunks: seq<KernelChunk>, parts: seq<Chunk>,
                cells: set<Cell>)
    requires n > 0 && IsSplit(full, full.range.x, n, chunks) && AccessesOk(accesses, full, cells)
    requires WritesOwnPoint(accesses)
    requires |chunks| == n == |parts|
    requires forall k :: 0 <= k < n ==> parts[k].nid == k && RequirementsAre(accesses, chunks[k], parts[k].reqs)
    ensures forall i :: 0 <= i < n ==> RequirementsOk(parts[i].reqs, cells)
    ensures forall i, j, p :: 0 <= i < j < n && Produces(parts[i].reqs, p) ==> !Produces(parts[j].reqs, p)
  {
    hide *;
    forall i | 0 <= i < n
      ensures RequirementsOk(parts[i].reqs, cells)
    {
      ChunkRequirementsOk(accesses, full, n, chunks, i, parts[i].reqs, cells);
    }
    forall i, j, p | 0 <= i < j < n && Produces(parts[i].reqs, p)
      ensures !Produces(parts[j].reqs, p)
    {
      WritesApart(accesses, full, n, chunks, i, j, parts[i].reqs, parts[j].reqs, p);
    }
  }

  /** The chunks together need exactly what the whole task needs. */
  lemma PartsCover(accesses: Accesses, full: KernelChunk, n: nat, chunks: seq<KernelChunk>, whole: Requirements,
                   parts: seq<Chunk>)
    requires n > 0 && IsSplit(full, full.range.x, n, chunks) && RequirementsAre(accesses, full, whole)
    requires |chunks| == n == |parts| && forall k :: 0 <= k < n ==> RequirementsAre(accesses, chunks[k], parts[k].reqs)
    ensures forall m, p :: Needs(whole, m, p) <==> exists i :: 0 <= i < n && Needs(parts[i].reqs, m, p)
  {
    hide Requires, IsSplit, Needs;
    forall m, p
      ensures Needs(whole, m, p) <==> exists i :: 0 <= i < n && Needs(parts[i].reqs, m, p)
    {
      assert p == Cell(p.bid, p.point);
      if p.bid in accesses { SplitPreservesRequirements(accesses[p.bid], m, full, n, chunks, p.point); }
      if i :| 0 <= i < n && Needs(parts[i].reqs, m, p) { assert Requires(accesses[p.bid], m, chunks[i], p.point); }
      if Needs(whole, m, p) {
        assert Requires(accesses[p.bid], m, full, p.point);
        var k: nat :| k < n && Requires(accesses[p.bid], m, chunks[k], p.point);
        assert Needs(parts[k].reqs, m, Cell(p.bid, p.point));
      }
    }
  }
}

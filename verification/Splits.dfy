/** Splitting a task into chunks and assigning the chunks to nodes. */
module Splits {
  import opened Grid
  import opened RangeMappers
  import opened Neighbours

  /** Chunk `k` of `n`: rows are dealt out evenly, and the last chunk takes the rest. */
  ghost function ChunkAt(full: KernelChunk, rows: nat, n: nat, k: nat): KernelChunk
    requires k < n
  {
    var q := rows / n;
    full.(offset := full.offset.(x := full.offset.x + k * q), range := full.range.(x := if k == n - 1 then q + rows % n
                                                                                   else q))
  }

  ghost predicate IsSplit(full: KernelChunk, rows: nat, n: nat, chunks: seq<KernelChunk>) {
    |chunks| == n && forall k: nat :: k < n ==> chunks[k] == ChunkAt(full, rows, n, k)
  }

  /** Splits a one-dimensional chunk. */
  method SplitEqual1(full: KernelChunk, numChunks: nat) returns (r: seq<KernelChunk>)
    requires numChunks > 0 && full.range.y == 1 && full.range.z == 1
    ensures IsSplit(full, full.range.x, numChunks, r)
  {
    var q := full.range.x / numChunks;
    var chnk := full.(range := full.range.(x := q));
    r := [];
    for i := 0 to numChunks
      invariant |r| == i
      invariant chnk == full.(offset := full.offset.(x := full.offset.x + i * q), range := full.range.(x := q))
      invariant forall k: nat :: k < i ==> r[k] == ChunkAt(full, full.range.x, numChunks, k)
    {
      r := r + [chnk];
      NextOffset(i, q);
      chnk := chnk.(offset := chnk.offset.(x := chnk.offset.x + q));
      if i == numChunks - 1 {
        r := r[i := r[i].(range := r[i].range.(x := r[i].range.x + full.range.x % numChunks))];
      }
    }
  }

  lemma NextOffset(i: nat, q: nat)
    ensures (i + 1) * q == i * q + q
  {
  }

  /** Splits a two-dimensional chunk by rows. */
  method SplitEqual2(full: KernelChunk, numChunks: nat) returns (r: seq<KernelChunk>)
    requires numChunks > 0
    ensures IsSplit(full, full.range.x, numChunks, r)
  {
    var rows := SplitEqual1(KernelChunk(Vec(full.offset.x, 0, 0), Vec(full.range.x, 1, 1),
                                        Vec(full.globalSize.x, 1, 1)), numChunks);
    r := [];
    for i := 0 to |rows|
      invariant |r| == i && forall k: nat :: k < i ==> r[k] == ChunkAt(full, full.range.x, numChunks, k)
    {
      r := r + [full.(offset := full.offset.(x := rows[i].offset.x), range := full.range.(x := rows[i].range.x))];
    }
  }

  /** Splits a three-dimensional chunk by planes; it goes by the global size, so the chunk has to be the whole one. */
  method SplitEqual3(full: KernelChunk, numChunks: nat) returns (r: seq<KernelChunk>)
    requires numChunks > 0
    ensures IsSplit(full.(range := full.globalSize), full.globalSize.x, numChunks, r)
  {
    ghost var whole := full.(range := full.globalSize);
    var q := full.globalSize.x / numChunks;
    var chnk := KernelChunk(full.offset, full.globalSize.(x := q), full.globalSize);
    r := [];
    for i := 0 to numChunks
      invariant |r| == i
      invariant chnk == whole.(offset := full.offset.(x := full.offset.x + i * q), range := full.globalSize.(x := q))
      invariant forall k: nat :: k < i ==> r[k] == ChunkAt(whole, full.globalSize.x, numChunks, k)
    {
      r := r + [chnk];
      NextOffset(i, q);
      chnk := chnk.(offset := chnk.offset.(x := chnk.offset.x + q));
      if i == numChunks - 1 {
        r := r[i := r[i].(range := r[i].range.(x := r[i].range.x + full.globalSize.x % numChunks))];
      }
    }
  }

  // ------------------------------------------------------------------ partition

  /** The chunk that row `i` belongs to. */
  ghost function ChunkOf(rows: nat, n: nat, i: nat): (k: nat)
    requires n > 0
    ensures k < n
  {
    var q := rows / n;
    if q == 0 || i / q >= n then n - 1 else i / q
  }

  lemma Products(a: nat, b: nat, q: nat)
    requires a <= b
    ensures a * q <= b * q
  {
  }

  lemma RowsOf(rows: nat, n: nat)
    requires n > 0
    ensures (n - 1) * (rows / n) + rows / n + rows % n == rows
  {
    assert n * (rows / n) == (n - 1) * (rows / n) + rows / n;
  }

  /** Where chunk `k` ends. */
  lemma ChunkEnd(full: KernelChunk, rows: nat, n: nat, k: nat)
    requires k < n
    ensures var c := ChunkAt(full, rows, n, k);
            && c.offset.x >= full.offset.x && c.offset.x + c.range.x <= full.offset.x + rows
            && (k == 0 ==> c.offset.x == full.offset.x)
            && (k == n - 1 ==> c.offset.x + c.range.x == full.offset.x + rows)
            && (k < n - 1 ==> c.offset.x + c.range.x == full.offset.x + (k + 1) * (rows / n))
  {
    var q := rows / n;
    RowsOf(rows, n);
    if k < n - 1 {
      NextOffset(k, q);
      Products(k + 1, n - 1, q);
    }
  }

  lemma RowInChunk(full: KernelChunk, rows: nat, n: nat, i: nat)
    requires n > 0 && In(full.offset.x, rows, i)
    ensures var c := ChunkAt(full, rows, n, ChunkOf(rows, n, i - full.offset.x)); In(c.offset.x, c.range.x, i)
  {
    var q, j := rows / n, i - full.offset.x;
    var k := ChunkOf(rows, n, j);
    RowsOf(rows, n);
    ChunkStarts(rows, n, q, j, k);
  }

  lemma ChunkStarts(rows: nat, n: nat, q: nat, j: nat, k: nat)
    requires n > 0 && q == rows / n && k == ChunkOf(rows, n, j)
    ensures k * q <= j && (k < n - 1 ==> j < k * q + q)
  {
    if q > 0 {
      InGroup(j, q, j / q);
      Products(k, j / q, q);
    }
  }

  lemma ChunksApart(full: KernelChunk, rows: nat, n: nat, k: nat, l: nat, i: nat)
    requires k < l < n
    ensures var c, d := ChunkAt(full, rows, n, k), ChunkAt(full, rows, n, l);
            !(In(c.offset.x, c.range.x, i) && In(d.offset.x, d.range.x, i))
  {
    ChunkEnd(full, rows, n, k);
    Products(k + 1, l, rows / n);
  }

  /** The chunks partition the index space: every index is in one chunk and in one only. */
  lemma SplitPartitions(full: KernelChunk, n: nat, chunks: seq<KernelChunk>, p: Point)
    requires n > 0 && IsSplit(full, full.range.x, n, chunks)
    ensures Inside(Subrange(full.offset, full.range), p) <==>
              exists k: nat :: k < n && Inside(Subrange(chunks[k].offset, chunks[k].range), p)
    ensures forall k: nat, l: nat :: k < l < n ==>
                                       !(Inside(Subrange(chunks[k].offset, chunks[k].range), p)
                                         && Inside(Subrange(chunks[l].offset, chunks[l].range), p))
  {
    if Inside(Subrange(full.offset, full.range), p) {
      RowInChunk(full, full.range.x, n, p.x);
      var k := ChunkOf(full.range.x, n, p.x - full.offset.x);
      assert Inside(Subrange(chunks[k].offset, chunks[k].range), p);
    }
    forall k: nat | k < n && Inside(Subrange(chunks[k].offset, chunks[k].range), p)
      ensures Inside(Subrange(full.offset, full.range), p)
    {
      ChunkEnd(full, full.range.x, n, k);
    }
    forall k: nat, l: nat | k < l < n
      ensures !(Inside(Subrange(chunks[k].offset, chunks[k].range), p)
                && Inside(Subrange(chunks[l].offset, chunks[l].range), p))
    {
      ChunksApart(full, full.range.x, n, k, l, p.x);
    }
  }

  // --------------------------------------------------------------- requirements

  /** What a chunk needs, the whole task needs. */
  lemma ChunkNeeds(m: Mapper, dims: nat, full: KernelChunk, n: nat, k: nat, p: Point)
    requires k < n && Inside(Apply(m, dims, ChunkAt(full, full.range.x, n, k)), p)
    ensures Inside(Apply(m, dims, full), p)
  {
    ChunkEnd(full, full.range.x, n, k);
  }

  /** What the whole task needs, some chunk needs. */
  lemma WholeNeeds(m: Mapper, dims: nat, full: KernelChunk, n: nat, p: Point) returns (k: nat)
    requires n > 0 && Inside(Apply(m, dims, full), p)
    ensures k < n && Inside(Apply(m, dims, ChunkAt(full, full.range.x, n, k)), p)
  {
    if In(full.offset.x, full.range.x, p.x) {
      k := ChunkOf(full.range.x, n, p.x - full.offset.x);
      RowInChunk(full, full.range.x, n, p.x);
    } else {
      k := if p.x < full.offset.x then 0 else n - 1;
    }
    ChunkEnd(full, full.range.x, n, k);
  }

  /** Splitting preserves requirements: the chunks together need exactly what the unsplit task needs. */
  lemma SplitPreservesRequirements(mappers: seq<RangeMapper>, mode: Mode, full: KernelChunk, n: nat,
                                   chunks: seq<KernelChunk>, p: Point)
    requires n > 0 && IsSplit(full, full.range.x, n, chunks)
    ensures Requires(mappers, mode, full, p) <==> exists k: nat :: k < n && Requires(mappers, mode, chunks[k], p)
  {
    hide Apply, Mapped, Inside;
    forall j, k: nat | 0 <= j < |mappers| && k < n && Inside(Mapped(mappers[j], chunks[k]), p)
      ensures Inside(Mapped(mappers[j], full), p)
    {
      MappedIs(mappers[j], chunks[k], p);
      ChunkNeeds(mappers[j].mapper, mappers[j].dims, full, n, k, p);
      MappedIs(mappers[j], full, p);
    }
    if j :| 0 <= j < |mappers| && mappers[j].mode == mode && Inside(Mapped(mappers[j], full), p) {
      MappedIs(mappers[j], full, p);
      var k := WholeNeeds(mappers[j].mapper, mappers[j].dims, full, n, p);
      MappedIs(mappers[j], chunks[k], p);
      assert Requires(mappers, mode, chunks[k], p);
    }
  }

  lemma ChunkNonEmpty(full: KernelChunk, n: nat, chunks: seq<KernelChunk>, k: nat)
    requires 0 < n <= full.range.x && NonEmpty(full) && IsSplit(full, full.range.x, n, chunks) && k < n
    ensures NonEmpty(chunks[k])
  {
    PerNode(full.range.x, n);
  }

  /** With at least one row per chunk, the same in terms of what the mappers are meant to give. */
  lemma SplitPreservesMeaning(mappers: seq<RangeMapper>, mode: Mode, full: KernelChunk, n: nat,
                              chunks: seq<KernelChunk>, p: Point)
    requires 0 < n <= full.range.x && NonEmpty(full) && IsSplit(full, full.range.x, n, chunks)
    requires forall j :: 0 <= j < |mappers| ==> MapperOk(mappers[j])
    ensures MeantToRequire(mappers, mode, full, p) <==>
              exists k: nat :: k < n && MeantToRequire(mappers, mode, chunks[k], p)
  {
    hide Requires, MeantToRequire, NonEmpty, MapperOk;
    RequiresMeaning(mappers, mode, full, p);
    SplitPreservesRequirements(mappers, mode, full, n, chunks, p);
    forall k: nat | k < n
      ensures Requires(mappers, mode, chunks[k], p) <==> MeantToRequire(mappers, mode, chunks[k], p)
    {
      ChunkNonEmpty(full, n, chunks, k);
      RequiresMeaning(mappers, mode, chunks[k], p);
    }
  }

  // ------------------------------------------------------------ node assignment

  /** Assigns neighbouring chunks to the same node; every node gets its share. */
  method AssignNodes(numChunks: nat, numWorkers: nat) returns (nodes: seq<nat>)
    requires 0 < numWorkers <= numChunks
    ensures |nodes| == numChunks && forall i :: 0 <= i < numChunks ==> nodes[i] < numWorkers
    ensures forall n: nat :: n < numWorkers ==>
                               numChunks / numWorkers <= |ChunksOn(nodes, n)| <= 2 * (numChunks / numWorkers)
    ensures InBlocks(numChunks / numWorkers, numWorkers, nodes)
    ensures numChunks == numWorkers ==> forall i :: 0 <= i < numChunks ==> nodes[i] == i
  {
    hide NodeOf, InBlocks;
    var chunksPerNode := numChunks / numWorkers;
    nodes := [];
    for i := 0 to numChunks
      invariant |nodes| == i && forall k: nat :: k < i ==> nodes[k] == NodeOf(numChunks, numWorkers, k)
    {
      NodeIs(numChunks, numWorkers, i);
      nodes := nodes + [i / chunksPerNode % numWorkers];
    }
    SharesAre(numChunks, numWorkers, nodes);
    BlocksAre(numChunks, numWorkers, nodes);
  }

  lemma BlocksAre(numChunks: nat, numWorkers: nat, nodes: seq<nat>)
    requires 0 < numWorkers <= numChunks == |nodes|
    requires forall i: nat :: i < numChunks ==> nodes[i] == NodeOf(numChunks, numWorkers, i)
    ensures InBlocks(numChunks / numWorkers, numWorkers, nodes)
  {
    hide NodeOf;
    PerNode(numChunks, numWorkers);
    var c := numChunks / numWorkers;
    forall n: nat, i: nat | n < numWorkers && i < |nodes|
      ensures nodes[i] == n <==> OfNode(i, c, numWorkers, n)
    {
      assert nodes[i] == NodeOf(numChunks, numWorkers, i);
      ChunksOfNode(numChunks, numWorkers, n, i);
    }
  }

  /** Blocks of `c` neighbouring chunks go to the nodes in turn, and what is left starts over at the first node. */
  ghost predicate InBlocks(c: nat, w: nat, nodes: seq<nat>) {
    forall n: nat, i: nat :: n < w && i < |nodes| ==> (nodes[i] == n <==> OfNode(i, c, w, n))
  }

  ghost predicate OfNode(i: nat, c: nat, w: nat, n: nat) {
    n * c <= i < n * c + c || (w + n) * c <= i < (w + n) * c + c
  }

  /** The chunks that go to the node. */
  ghost function ChunksOn(nodes: seq<nat>, n: nat): set<nat> {
    set i: nat | i < |nodes| && nodes[i] == n
  }

  lemma SharesAre(numChunks: nat, numWorkers: nat, nodes: seq<nat>)
    requires 0 < numWorkers <= numChunks == |nodes|
    requires forall i: nat :: i < numChunks ==> nodes[i] == NodeOf(numChunks, numWorkers, i)
    ensures forall n: nat :: n < numWorkers ==>
                               numChunks / numWorkers <= |ChunksOn(nodes, n)| <= 2 * (numChunks / numWorkers)
    ensures numChunks == numWorkers ==> forall i: nat :: i < numChunks ==> nodes[i] == i
  {
    hide NodeOf;
    forall n: nat | n < numWorkers
      ensures numChunks / numWorkers <= |ChunksOn(nodes, n)| <= 2 * (numChunks / numWorkers)
    {
      FairShare(numChunks, numWorkers, n);
      assert ChunksOn(nodes, n) == set i: nat | i < numChunks && NodeOf(numChunks, numWorkers, i) == n;
    }
    forall i: nat | i < numChunks == numWorkers
      ensures nodes[i] == i
    {
      OneChunkPerNode(numChunks, i);
    }
  }

  lemma PerNode(n: nat, w: nat)
    requires 0 < w <= n
    ensures n / w > 0 && n / w * w <= n < (n / w + 1) * w
  {
    assert n == w * (n / w) + n % w;
  }

  function NodeOf(numChunks: nat, numWorkers: nat, i: nat): (node: nat)
    requires 0 < numWorkers <= numChunks
    ensures node < numWorkers
  {
    PerNode(numChunks, numWorkers);
    i / (numChunks / numWorkers) % numWorkers
  }

  lemma NodeIs(n: nat, w: nat, i: nat)
    requires 0 < w <= n
    ensures n / w > 0 && NodeOf(n, w, i) == i / (n / w) % w
  {
    PerNode(n, w);
  }

  /** A group of `c` chunks is numbered by their quotient. */
  lemma InGroup(i: nat, c: nat, g: nat)
    requires c > 0
    ensures i / c == g <==> g * c <= i < g * c + c
  {
    assert i == i / c * c + i % c;
    if i / c < g {
      Products(i / c + 1, g, c);
      NextOffset(i / c, c);
    } else if i / c > g {
      Products(g + 1, i / c, c);
      NextOffset(g, c);
    }
  }

  lemma QuotientBound(n: nat, w: nat, i: nat)
    requires 0 < w <= n && i < n && n / w > 0
    ensures i / (n / w) < 2 * w
  {
    PerNode(n, w);
    var c := n / w;
    assert (c + 1) * w <= 2 * w * c by {
      Products(1, c, w);
      assert 2 * w * c == c * w + c * w;
    }
    InGroup(i, c, i / c);
    if i / c >= 2 * w { Products(2 * w, i / c, c); }
  }

  lemma WrapsOnce(q: nat, w: nat)
    requires 0 < w && q < 2 * w
    ensures q % w == if q < w then q else q - w
  {
  }

  /** Node `node` gets one full group of chunks, and perhaps some of the rest. */
  lemma ChunksOfNode(n: nat, w: nat, node: nat, i: nat)
    requires 0 < w <= n && node < w && i < n && n / w > 0
    ensures var c := n / w;
            NodeOf(n, w, i) == node <==> (node * c <= i < node * c + c) || ((w + node) * c <= i < (w + node) * c + c)
  {
    var c := n / w;
    QuotientBound(n, w, i);
    WrapsOnce(i / c, w);
    InGroup(i, c, node);
    InGroup(i, c, w + node);
  }

  /** The numbers from `a` up to `b`. */
  ghost function Interval(a: nat, b: nat): (r: set<nat>)
    requires a <= b
    ensures (forall i: nat :: i in r <==> a <= i < b) && |r| == b - a
    decreases b
  {
    if a == b then {} else Interval(a, b - 1) + {b - 1}
  }

  /** Every node gets at least `c` and at most `2 * c` chunks, where `c` is the quotient of chunks and nodes. */
  lemma FairShare(n: nat, w: nat, node: nat)
    requires 0 < w <= n && node < w
    ensures n / w <= |set i: nat | i < n && NodeOf(n, w, i) == node| <= 2 * (n / w)
  {
    PerNode(n, w);
    var c := n / w;
    var lo, hi := node * c, (w + node) * c;
    GroupFits(n, w, node, c);
    forall i: nat | i < n
      ensures NodeOf(n, w, i) == node <==> lo <= i < lo + c || hi <= i < hi + c
    {
      ChunksOfNode(n, w, node, i);
    }
    ShareSize(n, w, node, c, lo, hi);
  }

  lemma GroupFits(n: nat, w: nat, node: nat, c: nat)
    requires 0 < w <= n && node < w && c == n / w && c * w <= n
    ensures node * c + c <= n
  {
    NextOffset(node, c);
    Products(node + 1, w, c);
  }

  lemma ShareSize(n: nat, w: nat, node: nat, c: nat, lo: nat, hi: nat)
    requires 0 < w <= n && lo + c <= n
    requires forall i: nat :: i < n ==> (NodeOf(n, w, i) == node <==> lo <= i < lo + c || hi <= i < hi + c)
    ensures c <= |set i: nat | i < n && NodeOf(n, w, i) == node| <= 2 * c
  {
    hide NodeOf;
    var mine := set i: nat | i < n && NodeOf(n, w, i) == node;
    var group, rest := Interval(lo, lo + c), Interval(hi, hi + c);
    assert group <= mine <= group + rest;
    SubsetSize(group, mine);
    SubsetSize(mine, group + rest);
  }

  /** With as many chunks as nodes, as the scheduler has it, chunk `i` goes to node `i`: one chunk on every node. */
  lemma OneChunkPerNode(n: nat, i: nat)
    requires i < n
    ensures NodeOf(n, n, i) == i
  {
    PerNode(n, n);
    assert n / n == 1;
  }
}

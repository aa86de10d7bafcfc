/** The task graph: what adding a task does to it, and the order it gives to conflicting tasks. */
module TaskGraph {
  import opened Options
  import opened Grid
  import opened Reachability
  import opened Orders
  import opened Commands

  const INIT_TASK: nat := 0

  /** `hostInitialized` are the cells with contents from the host; the init task counts as their first writer. */
  datatype TaskState = TaskState(
    tasks: map<nat, Requirements>,
    nextTask: nat,
    edges: Edges,                          // (depender, dependee)
    trueEdges: Edges,
    lastWriter: map<Cell, Option<nat>>,
    hostInitialized: set<Cell>)

  ghost predicate Wrote(s: TaskState, t: nat, p: Cell) {
    t in s.tasks && (Produces(s.tasks[t], p) || (t == INIT_TASK && p in s.hostInitialized))
  }

  ghost predicate ReadIt(s: TaskState, t: nat, p: Cell) {
    t in s.tasks && Consumes(s.tasks[t], p)
  }

  /** The cell had contents when task `t` was submitted. */
  ghost predicate HadContents(s: TaskState, t: nat, p: Cell) {
    exists w: nat :: w < t && Wrote(s, w, p)
  }

  ghost predicate Shape(s: TaskState) {
    && INIT_TASK in s.tasks && s.tasks[INIT_TASK] == map[]
    && (forall t :: t in s.tasks ==> t < s.nextTask)
    && (forall t, p :: t in s.tasks && (Consumes(s.tasks[t], p) || Produces(s.tasks[t], p)) ==> p in s.lastWriter)
    && s.hostInitialized <= s.lastWriter.Keys
    && s.trueEdges <= s.edges
    && (forall a, b :: (a, b) in s.edges ==> a in s.tasks && b in s.tasks && b < a)
  }

  /**
    * The last writer of a cell wrote it, and every writer is the last one or below it; no last writer means no writer.
    */
  ghost predicate WriterCovers(s: TaskState, p: Cell)
    requires p in s.lastWriter
  {
    match s.lastWriter[p]
    case None => forall w: nat :: !Wrote(s, w, p)
    case Some(e) => Wrote(s, e, p) && forall w: nat :: Wrote(s, w, p) ==> w == e || (w < e && Reaches(s.edges, e, w))
  }

  /** Every reader of contents is the last writer, hangs off it or is below it. */
  ghost predicate ReadersUnder(s: TaskState, p: Cell)
    requires p in s.lastWriter
  {
    s.lastWriter[p].Some? ==>
      var e := s.lastWriter[p].value;
      forall r: nat :: ReadIt(s, r, p) && HadContents(s, r, p) ==> r == e || (r, e) in s.edges || Reaches(s.edges, e, r)
  }

  /** A task that touches a cell comes after every earlier writer of it. */
  ghost predicate WritersFirst(s: TaskState) {
    forall b: nat, w: nat, p :: w < b && Wrote(s, w, p) && (ReadIt(s, b, p) || Wrote(s, b, p)) ==>
                                  Reaches(s.edges, b, w)
  }

  /** A task that writes a cell comes after every earlier reader of contents in it. */
  ghost predicate ReadersFirst(s: TaskState) {
    forall b: nat, r: nat, p :: r < b && ReadIt(s, r, p) && HadContents(s, r, p) && Wrote(s, b, p) ==>
                                  Reaches(s.edges, b, r)
  }

  ghost predicate Inv(s: TaskState) {
    && Shape(s)
    && (forall p :: p in s.lastWriter ==> WriterCovers(s, p) && ReadersUnder(s, p))
    && WritersFirst(s) && ReadersFirst(s)
  }

  // ------------------------------------------------------------------ one task

  /** Task `d` reads some cell of buffer `b` that is overwritten. */
  ghost predicate ReadsProduced(s0: TaskState, reqs: Requirements, b: nat, d: nat) {
    d in s0.tasks && exists p: Cell :: p.bid == b && Produces(reqs, p) && Consumes(s0.tasks[d], p)
  }

  /** `y` is the last writer of a cell that is read. */
  ghost predicate ReadTarget(s0: TaskState, reqs: Requirements, p: Cell, y: nat) {
    Consumes(reqs, p) && p in s0.lastWriter && s0.lastWriter[p] == Some(y)
  }

  /**
    * `y` depends on the last writer of a cell that is overwritten, and reads something that is overwritten in the same
    * buffer; or `y` is that last writer, and no dependent of it reads such a thing.
    */
  ghost predicate WriteTarget(s0: TaskState, reqs: Requirements, p: Cell, y: nat) {
    Produces(reqs, p) && p in s0.lastWriter && s0.lastWriter[p].Some?
        && IsBehind(s0, reqs, p.bid, s0.lastWriter[p].value, y)
  }

  ghost predicate IsBehind(s0: TaskState, reqs: Requirements, b: nat, e: nat, y: nat) {
    || ((y, e) in s0.edges && ReadsProduced(s0, reqs, b, y))
    || (y == e && forall d: nat :: (d, e) in s0.edges ==> !ReadsProduced(s0, reqs, b, d))
  }

  ghost predicate Target(s0: TaskState, reqs: Requirements, y: nat) {
    exists p :: ReadTarget(s0, reqs, p, y) || WriteTarget(s0, reqs, p, y)
  }

  /**
    * The new task gets exactly the dependencies that its accesses call for, and becomes the last writer of what it
    * writes.
    */
  ghost predicate TaskAdded(s0: TaskState, t: nat, reqs: Requirements, s1: TaskState) {
    && t == s0.nextTask && s1.nextTask == t + 1 && s1.tasks == s0.tasks[t := reqs]
    && s1.hostInitialized == s0.hostInitialized
    && (forall a: nat, b: nat :: (a, b) in s1.edges <==> (a, b) in s0.edges || (a == t && Target(s0, reqs, b)))
    && (forall a: nat, b: nat :: (a, b) in s1.trueEdges <==>
                                   (a, b) in s0.trueEdges || (a == t && exists p :: ReadTarget(s0, reqs, p, b)))
    && s1.lastWriter.Keys == s0.lastWriter.Keys
    && (forall p :: p in s0.lastWriter ==> s1.lastWriter[p] == if Produces(reqs, p) then Some(t) else s0.lastWriter[p])
    && (forall p :: Consumes(reqs, p) || Produces(reqs, p) ==> p in s0.lastWriter)
  }

  lemma EdgesGrow(s0: TaskState, t: nat, reqs: Requirements, s1: TaskState)
    requires TaskAdded(s0, t, reqs, s1) && s0.trueEdges <= s0.edges
    ensures s0.edges <= s1.edges && s0.trueEdges <= s1.trueEdges <= s1.edges
  {
    hide ReadTarget, WriteTarget;
    forall e | e in s0.edges
      ensures e in s1.edges
    {
      assert (e.0, e.1) in s1.edges;
    }
    forall e | e in s0.trueEdges
      ensures e in s1.trueEdges
    {
      assert (e.0, e.1) in s1.trueEdges;
    }
    forall e | e in s1.trueEdges
      ensures e in s1.edges
    {
      assert (e.0, e.1) in s1.trueEdges;
      assert (e.0, e.1) in s1.edges;
    }
  }

  lemma TargetKnown(s0: TaskState, reqs: Requirements, y: nat)
    requires Inv(s0) && Target(s0, reqs, y)
    ensures y in s0.tasks
  {
    hide WritersFirst, ReadersFirst, ReadersUnder, ReadsProduced, Consumes, Produces;
    var p :| ReadTarget(s0, reqs, p, y) || WriteTarget(s0, reqs, p, y);
    assert WriterCovers(s0, p);
  }

  /**
    * Task `t` comes after the last writer `e` of a cell that it overwrites, and after those that depend on `e` and read
    * the cell.
    */
  ghost predicate After(s0: TaskState, s1: TaskState, t: nat, p: Cell, e: nat) {
    && ((t, e) in s1.edges || exists d :: (t, d) in s1.edges && (d, e) in s0.edges)
    && forall d :: (d, e) in s0.edges && ReadIt(s0, d, p) ==> (t, d) in s1.edges
  }

  lemma WriterIsAfter(s0: TaskState, t: nat, reqs: Requirements, s1: TaskState, p: Cell, e: nat)
    requires TaskAdded(s0, t, reqs, s1) && Produces(reqs, p) && p in s0.lastWriter && s0.lastWriter[p] == Some(e)
    ensures After(s0, s1, t, p, e)
  {
    hide Consumes, Produces, ReadTarget, ReadsProduced;
    if d: nat :| (d, e) in s0.edges && ReadsProduced(s0, reqs, p.bid, d) {
      assert WriteTarget(s0, reqs, p, d);
    } else {
      assert WriteTarget(s0, reqs, p, e);
    }
    forall d | (d, e) in s0.edges && ReadIt(s0, d, p)
      ensures (t, d) in s1.edges
    {
      ReaderIsTarget(s0, reqs, p, e, d);
    }
  }

  lemma ReaderIsTarget(s0: TaskState, reqs: Requirements, p: Cell, e: nat, d: nat)
    requires Produces(reqs, p) && p in s0.lastWriter && s0.lastWriter[p] == Some(e) && (d, e) in s0.edges
    requires ReadIt(s0, d, p)
    ensures Target(s0, reqs, d)
  {
    assert ReadsProduced(s0, reqs, p.bid, d);
    assert WriteTarget(s0, reqs, p, d);
  }

  lemma OldFacts(s0: TaskState, t: nat, reqs: Requirements, s1: TaskState)
    requires Shape(s0) && TaskAdded(s0, t, reqs, s1)
    ensures t > 0 && t !in s0.tasks
    ensures forall x: nat, p :: x != t ==>
                                  (Wrote(s1, x, p) <==> Wrote(s0, x, p)) && (ReadIt(s1, x, p) <==> ReadIt(s0, x, p))
    ensures forall p :: (Wrote(s1, t, p) <==> Produces(reqs, p)) && (ReadIt(s1, t, p) <==> Consumes(reqs, p))
    ensures forall x: nat, p :: Wrote(s0, x, p) || ReadIt(s0, x, p) ==> x < t
    ensures forall x: nat, p :: x <= t ==> (HadContents(s1, x, p) <==> HadContents(s0, x, p))
  {
    forall x: nat, p | x <= t
      ensures HadContents(s1, x, p) <==> HadContents(s0, x, p)
    {
      if w: nat :| w < x && Wrote(s0, w, p) { assert Wrote(s1, w, p); }
      if w: nat :| w < x && Wrote(s1, w, p) { assert Wrote(s0, w, p); }
    }
  }

  lemma KeepsShape(s0: TaskState, t: nat, reqs: Requirements, s1: TaskState)
    requires Inv(s0) && TaskAdded(s0, t, reqs, s1)
    ensures Shape(s1)
  {
    EdgesGrow(s0, t, reqs, s1);
    forall a: nat, b: nat | (a, b) in s1.edges
      ensures a in s1.tasks && b in s1.tasks && b < a
    {
      if (a, b) !in s0.edges { TargetKnown(s0, reqs, b); }
    }
    hide Consumes, Produces, WriterCovers, ReadersUnder, WritersFirst, ReadersFirst, Target, ReadTarget;
  }

  /** The new task reaches every earlier writer of a cell that it touches. */
  lemma ReachesWriters(s0: TaskState, t: nat, reqs: Requirements, s1: TaskState, p: Cell, w: nat)
    requires Shape(s0) && TaskAdded(s0, t, reqs, s1) && p in s0.lastWriter && WriterCovers(s0, p)
    requires (Consumes(reqs, p) || Produces(reqs, p)) && Wrote(s0, w, p)
    ensures Reaches(s1.edges, t, w)
  {
    var e := s0.lastWriter[p].value;
    EdgesGrow(s0, t, reqs, s1);
    ReachesEntry(s0, t, reqs, s1, p, e);
    ReachesMonotone(s0.edges, s1.edges);
    if w != e { ReachesTransitive(s1.edges, t, e, w); }
  }

  lemma ReachesEntry(s0: TaskState, t: nat, reqs: Requirements, s1: TaskState, p: Cell, e: nat)
    requires TaskAdded(s0, t, reqs, s1) && s0.edges <= s1.edges && p in s0.lastWriter && s0.lastWriter[p] == Some(e)
    requires Consumes(reqs, p) || Produces(reqs, p)
    ensures Reaches(s1.edges, t, e)
  {
    hide Consumes, Produces, WriteTarget;
    assert Consumes(reqs, p) ==> ReadTarget(s0, reqs, p, e);
    if (t, e) in s1.edges {
      EdgeReaches(s1.edges, t, e);
    } else {
      WriterIsAfter(s0, t, reqs, s1, p, e);
      var d :| (t, d) in s1.edges && (d, e) in s0.edges;
      EdgeReaches(s1.edges, d, e);
      ReachesVia(s1.edges, t, d, e);
    }
  }

  /** The new task reaches every earlier reader of contents that it overwrites. */
  lemma ReachesReaders(s0: TaskState, t: nat, reqs: Requirements, s1: TaskState, p: Cell, r: nat)
    requires Shape(s0) && TaskAdded(s0, t, reqs, s1) && p in s0.lastWriter && WriterCovers(s0, p) && ReadersUnder(s0, p)
    requires Produces(reqs, p) && ReadIt(s0, r, p) && HadContents(s0, r, p)
    ensures Reaches(s1.edges, t, r)
  {
    var e := s0.lastWriter[p].value;
    EdgesGrow(s0, t, reqs, s1);
    ReachesEntry(s0, t, reqs, s1, p, e);
    ReachesMonotone(s0.edges, s1.edges);
    WriterIsAfter(s0, t, reqs, s1, p, e);
    if r == e {
    } else if (r, e) in s0.edges {
      EdgeReaches(s1.edges, t, r);
    } else {
      ReachesTransitive(s1.edges, t, e, r);
    }
  }

  lemma KeepsCovers(s0: TaskState, t: nat, reqs: Requirements, s1: TaskState, p: Cell)
    requires Inv(s0) && TaskAdded(s0, t, reqs, s1) && p in s1.lastWriter
    ensures WriterCovers(s1, p) && ReadersUnder(s1, p)
  {
    hide Target, WritersFirst, ReadersFirst, Reaches;
    EdgesGrow(s0, t, reqs, s1);
    OldFacts(s0, t, reqs, s1);
    ReachesMonotone(s0.edges, s1.edges);
    assert WriterCovers(s0, p) && ReadersUnder(s0, p);
    if Produces(reqs, p) {
      forall w: nat | Wrote(s0, w, p)
        ensures Reaches(s1.edges, t, w)
      {
        ReachesWriters(s0, t, reqs, s1, p, w);
      }
      forall r: nat | ReadIt(s0, r, p) && HadContents(s0, r, p)
        ensures Reaches(s1.edges, t, r)
      {
        ReachesReaders(s0, t, reqs, s1, p, r);
      }
    } else if s0.lastWriter[p].Some? && Consumes(reqs, p) {
      assert ReadTarget(s0, reqs, p, s0.lastWriter[p].value);
      assert (t, s0.lastWriter[p].value) in s1.trueEdges;
    }
  }

  lemma KeepsConflictOrder(s0: TaskState, t: nat, reqs: Requirements, s1: TaskState)
    requires Inv(s0) && TaskAdded(s0, t, reqs, s1)
    ensures WritersFirst(s1) && ReadersFirst(s1)
  {
    EdgesGrow(s0, t, reqs, s1);
    OldFacts(s0, t, reqs, s1);
    ReachesMonotone(s0.edges, s1.edges);
    hide Target, ReadTarget, Reaches, HadContents, Wrote, ReadIt, WriterCovers, ReadersUnder;
    forall b: nat, w: nat, p | w < b && Wrote(s1, w, p) && (ReadIt(s1, b, p) || Wrote(s1, b, p))
      ensures Reaches(s1.edges, b, w)
    {
      if b == t { ReachesWriters(s0, t, reqs, s1, p, w); }
    }
    forall b: nat, r: nat, p | r < b && ReadIt(s1, r, p) && HadContents(s1, r, p) && Wrote(s1, b, p)
      ensures Reaches(s1.edges, b, r)
    {
      if b == t { ReachesReaders(s0, t, reqs, s1, p, r); }
    }
  }

  /** Adding a task keeps the order of all conflicting tasks. */
  lemma TaskKeepsInv(s0: TaskState, t: nat, reqs: Requirements, s1: TaskState)
    requires Inv(s0) && TaskAdded(s0, t, reqs, s1)
    ensures Inv(s1)
  {
    KeepsShape(s0, t, reqs, s1);
    KeepsConflictOrder(s0, t, reqs, s1);
    forall p | p in s1.lastWriter
      ensures WriterCovers(s1, p) && ReadersUnder(s1, p)
    {
      KeepsCovers(s0, t, reqs, s1, p);
    }
    hide *;
  }

  // ------------------------------------------------------------------- buffers

  ghost predicate BufferAdded(s0: TaskState, s1: TaskState, cells: set<Cell>, hostInitialized: bool) {
    && cells !! s0.lastWriter.Keys
    && s1 == s0.(lastWriter := s1.lastWriter, hostInitialized := if hostInitialized then s0.hostInitialized + cells
                 else s0.hostInitialized)
    && s1.lastWriter.Keys == s0.lastWriter.Keys + cells
    && (forall p :: p in s0.lastWriter ==> s1.lastWriter[p] == s0.lastWriter[p])
    && (forall p :: p in cells ==> s1.lastWriter[p] == if hostInitialized then Some(INIT_TASK) else None)
  }

  lemma BufferKeepsInv(s0: TaskState, s1: TaskState, cells: set<Cell>, hostInitialized: bool)
    requires Inv(s0) && BufferAdded(s0, s1, cells, hostInitialized)
    ensures Inv(s1)
  {
    hide *;
    InvIs(s0);
    PartsOf(s0, s1, cells, hostInitialized);
    BufferFacts(s0, s1, cells, hostInitialized);
    forall p | p in s1.lastWriter
      ensures WriterCovers(s1, p) && ReadersUnder(s1, p)
    {
      BufferCovers(s0, s1, cells, hostInitialized, p);
    }
    BufferOrder(s0, s1, cells);
    InvFrom(s1);
  }

  lemma InvIs(s: TaskState)
    requires Inv(s)
    ensures Shape(s) && WritersFirst(s) && ReadersFirst(s)
    ensures forall p :: p in s.lastWriter ==> WriterCovers(s, p) && ReadersUnder(s, p)
  {
  }

  lemma InvFrom(s: TaskState)
    requires Shape(s) && WritersFirst(s) && ReadersFirst(s)
    requires forall p :: p in s.lastWriter ==> WriterCovers(s, p) && ReadersUnder(s, p)
    ensures Inv(s)
  {
  }

  lemma PartsOf(s0: TaskState, s1: TaskState, cells: set<Cell>, hostInitialized: bool)
    requires BufferAdded(s0, s1, cells, hostInitialized)
    ensures s1.edges == s0.edges && s1.lastWriter.Keys == s0.lastWriter.Keys + cells && cells !! s0.lastWriter.Keys
  {
  }

  lemma BufferCovers(s0: TaskState, s1: TaskState, cells: set<Cell>, hostInitialized: bool, p: Cell)
    requires BufferAdded(s0, s1, cells, hostInitialized) && p in s1.lastWriter
    requires p in s0.lastWriter ==> WriterCovers(s0, p) && ReadersUnder(s0, p)
    requires forall x: nat, q :: ReadIt(s1, x, q) <==> ReadIt(s0, x, q)
    requires forall x: nat, q :: q !in cells ==>
          (Wrote(s1, x, q) <==> Wrote(s0, x, q)) && (HadContents(s1, x, q) <==> HadContents(s0, x, q))
    requires forall x: nat, q :: q in cells ==>
                                   !ReadIt(s1, x, q) && (Wrote(s1, x, q) <==> x == INIT_TASK && hostInitialized)
    ensures WriterCovers(s1, p) && ReadersUnder(s1, p)
  {
    hide HadContents, Wrote, ReadIt, Reaches;
  }

  lemma BufferOrder(s0: TaskState, s1: TaskState, cells: set<Cell>)
    requires WritersFirst(s0) && ReadersFirst(s0) && s1.edges == s0.edges
    requires forall x: nat, q :: ReadIt(s1, x, q) <==> ReadIt(s0, x, q)
    requires forall x: nat, q :: q !in cells ==>
          (Wrote(s1, x, q) <==> Wrote(s0, x, q)) && (HadContents(s1, x, q) <==> HadContents(s0, x, q))
    requires forall x: nat, q :: q in cells ==> !ReadIt(s1, x, q) && (Wrote(s1, x, q) ==> x == INIT_TASK)
    ensures WritersFirst(s1) && ReadersFirst(s1)
  {
    hide HadContents, Wrote, ReadIt, Reaches;
  }

  lemma BufferFacts(s0: TaskState, s1: TaskState, cells: set<Cell>, hostInitialized: bool)
    requires Shape(s0) && BufferAdded(s0, s1, cells, hostInitialized)
    ensures Shape(s1)
    ensures forall x: nat, p :: ReadIt(s1, x, p) <==> ReadIt(s0, x, p)
    ensures forall x: nat, p :: p !in cells ==>
          (Wrote(s1, x, p) <==> Wrote(s0, x, p)) && (HadContents(s1, x, p) <==> HadContents(s0, x, p))
    ensures forall x: nat, p :: p in cells ==>
                                  !ReadIt(s1, x, p) && (Wrote(s1, x, p) <==> x == INIT_TASK && hostInitialized)
    ensures forall x: nat, p :: p in cells ==> !Wrote(s0, x, p)
  {
    hide Consumes, Produces;
    forall x: nat, p | p !in cells
      ensures Wrote(s1, x, p) <==> Wrote(s0, x, p)
      ensures HadContents(s1, x, p) <==> HadContents(s0, x, p)
    {
      if w: nat :| w < x && Wrote(s0, w, p) { assert Wrote(s1, w, p); }
      if w: nat :| w < x && Wrote(s1, w, p) { assert Wrote(s0, w, p); }
    }
  }

  // -------------------------------------------------------------- reads-from

  /** The last of the first `k` tasks that wrote the cell. */
  lemma {:induction false} LastWriteBefore(s: TaskState, order: seq<nat>, k: nat, p: Cell) returns (j: int)
    requires k <= |order|
    ensures -1 <= j < k && (j >= 0 ==> Wrote(s, order[j], p))
    ensures forall i :: j < i < k ==> !Wrote(s, order[i], p)
  {
    if k == 0 {
      j := -1;
    } else if Wrote(s, order[k - 1], p) {
      j := k - 1;
    } else {
      j := LastWriteBefore(s, order, k - 1, p);
    }
  }

  /**
    * In every order that respects the dependencies a task reads what the last earlier task, in the order of submission,
    * has written.
    */
  lemma SameReadsFrom(s: TaskState, order: seq<nat>, k: nat, p: Cell) returns (j: nat)
    requires Inv(s) && Respects(s.edges, order) && k < |order| && ReadIt(s, order[k], p) && HadContents(s, order[k], p)
    ensures j < k && Wrote(s, order[j], p) && order[j] < order[k]
    ensures forall i :: j < i < k ==> !Wrote(s, order[i], p)
    ensures forall w: nat :: w < order[k] && Wrote(s, w, p) ==> w <= order[j]
  {
    hide Reaches, WriterCovers, ReadersUnder;
    var r := order[k];
    var last := LastWriteBefore(s, order, k, p);
    forall w: nat | w < r && Wrote(s, w, p)
      ensures last >= 0 && w <= order[last]
    {
      assert Reaches(s.edges, r, w);
      var i := ReachedRanBefore(s.edges, order, k, w);
      if w > order[last] {
        assert Reaches(s.edges, w, order[last]);
        var i' := ReachedRanBefore(s.edges, order, i, order[last]);
      }
    }
    var w: nat :| w < r && Wrote(s, w, p);
    j := last;
    if order[j] > r {
      assert Reaches(s.edges, order[j], r);
      var i := ReachedRanBefore(s.edges, order, j, r);
    }
  }

  /** A task that touches only cells without contents depends on nothing, whoever has read those cells before. */
  lemma NoContentsNoOrder(s0: TaskState, t: nat, reqs: Requirements, s1: TaskState, x: nat)
    requires Inv(s0) && TaskAdded(s0, t, reqs, s1)
    requires forall p :: Consumes(reqs, p) || Produces(reqs, p) ==> s0.lastWriter[p] == None
    ensures !Reaches(s1.edges, t, x)
  {
    forall d: nat
      ensures (t, d) !in s1.edges
    {
      assert (t, d) !in s0.edges;
      assert !Target(s0, reqs, d);
    }
    if Reaches(s1.edges, t, x) { var d := FirstStep(s1.edges, t, x); }
  }
}

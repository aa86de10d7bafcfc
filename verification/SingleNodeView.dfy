/** Every legal execution of the command graph reads what the sequential program would read. */
module SingleNodeView {
  import opened Grid
  import opened Reachability
  import opened Orders
  import opened Commands
  import opened GeneratorState

  /** What a command has to wait for: its dependencies other than the init command, and for an AWAIT_PUSH its PUSH. */
  ghost function Waits(g: Graph): Edges {
    (set e | e in g.edges && e.1 in g.commands && !g.commands[e.1].Nop?)
    + (set a | a in g.commands && g.commands[a].AwaitPush? :: (a, g.commands[a].source))
  }

  /**
    * Commands of all nodes in the order in which they take effect, up to some moment.
    * A command runs after what it waits for; nothing else is said about the order.
    */
  ghost predicate Legal(g: Graph, order: seq<Cid>) {
    Respects(Waits(g), order) && forall k :: 0 <= k < |order| ==> order[k] in g.commands && !g.commands[order[k]].Nop?
  }

  /**
    * The task whose write is in the cell on node `n` after the first `k` commands; 0 stands for the initial contents.
    */
  ghost function ValueAt(g: Graph, order: seq<Cid>, k: nat, n: nat, p: Cell): nat
    requires Legal(g, order) && k <= |order|
    decreases k, 0
  {
    if k == 0 then 0
    else if Overwrites(g, order[k - 1], n, p) then Written(g, order, k - 1, p)
    else ValueAt(g, order, k - 1, n, p)
  }

  ghost predicate Overwrites(g: Graph, c: Cid, n: nat, p: Cell) {
    c in g.commands && g.commands[c].nid == n && Writes(g.commands[c], p)
  }

  /** What the `k`-th command writes: its own version, or what its PUSH found on the sending node. */
  ghost function Written(g: Graph, order: seq<Cid>, k: nat, p: Cell): nat
    requires Legal(g, order) && k < |order| && Writes(g.commands[order[k]], p)
    decreases k, 1
  {
    var c := g.commands[order[k]];
    if c.TaskCommand? then c.tid
    else ValueAt(g, order, Index(order, k, c.source), g.commands[c.source].nid, p)
  }

  /** `v` is the version of the cell that the sequential program has when task `t` starts. */
  ghost predicate IsCurrent(C: map<Cid, Command>, p: Cell, t: nat, v: nat) {
    || (v == 0 && forall c :: c in C && Computes(C[c], p) ==> t <= C[c].tid)
    || (exists c :: LastComputes(C, p, t, c) && C[c].tid == v)
  }

  /** A dependency path to a command other than an init command is one of waiting. */
  lemma ReachesWaits(g: Graph, a: Cid, b: Cid)
    requires EdgesOk(g) && Reaches(g.edges, a, b) && b in g.commands && !g.commands[b].Nop?
    ensures Reaches(Waits(g), a, b)
  {
    var path :| PathFromTo(g.edges, path, a, b);
    forall i | 0 <= i < |path| - 1
      ensures (path[i], path[i + 1]) in Waits(g)
    {
      assert (path[i], path[i + 1]) in g.edges;
      if i + 1 < |path| - 1 { assert (path[i + 1], path[i + 2]) in g.edges; }
    }
    assert PathFromTo(Waits(g), path, a, b);
  }

  lemma WaitsDescend(g: Graph)
    requires CommandsOk(g) && EdgesOk(g)
    ensures Descends(Waits(g), Ranks(g))
  {
    forall e | e in Waits(g)
      ensures e.0 in g.commands && e.1 in g.commands && Rank(g.commands[e.1]) < Rank(g.commands[e.0])
    {
      if (e.0, e.1) in g.edges {
        assert EdgeOk(g.commands[e.0], g.commands[e.1]);
      } else {
        assert SourceOk(g.commands, g.commands[e.0]);
      }
    }
  }

  /** The value of a cell comes from the last command that wrote it on the node. */
  lemma {:induction false} LastOverwrite(g: Graph, order: seq<Cid>, k: nat, n: nat, p: Cell) returns (j: int)
    requires Legal(g, order) && k <= |order|
    ensures -1 <= j < k
    ensures forall i :: j < i < k ==> !Overwrites(g, order[i], n, p)
    ensures j == -1 ==> ValueAt(g, order, k, n, p) == 0
    ensures j >= 0 ==> Overwrites(g, order[j], n, p) && ValueAt(g, order, k, n, p) == Written(g, order, j, p)
  {
    if k == 0 {
      j := -1;
    } else if Overwrites(g, order[k - 1], n, p) {
      j := k - 1;
    } else {
      j := LastOverwrite(g, order, k - 1, n, p);
    }
  }

  /** Two writers of a cell on one node have different ranks. */
  lemma WritersRankApart(g: Graph, n: nat, p: Cell, w: Cid, w': Cid)
    requires OneWriterPerTask(g.commands) && Overwrites(g, w, n, p) && Overwrites(g, w', n, p) && w != w'
    ensures Rank(g.commands[w]) != Rank(g.commands[w'])
  {
  }

  /** Every writer of the cell waits for the earlier readers of it on its node. */
  ghost predicate ReadersOrdered(g: Graph, p: Cell) {
    forall w, r :: OverwritesRead(g, w, r, p) ==> Reaches(Waits(g), w, r)
  }

  /** A writer that ran before a reader precedes it in the sequential program. */
  lemma RanBeforeReader(g: Graph, order: seq<Cid>, k: nat, j: nat, p: Cell)
    requires CommandsOk(g) && EdgesOk(g) && OneWriterPerTask(g.commands) && ReadersOrdered(g, p) && Legal(g, order)
    requires j < k < |order| && Reads(g.commands[order[k]], p) && Overwrites(g, order[j], g.commands[order[k]].nid, p)
    ensures Rank(g.commands[order[j]]) < Rank(g.commands[order[k]])
  {
    var C := g.commands;
    if Rank(C[order[j]]) > Rank(C[order[k]]) {
      assert OverwritesRead(g, order[j], order[k], p);
      var i := ReachedRanBefore(Waits(g), order, j, order[k]);
    }
  }

  /** The last command that wrote the cell before the reader ran has every earlier task's write. */
  lemma LastWriterIsFresh(g: Graph, order: seq<Cid>, k: nat, j: int, p: Cell, c: Cid)
    requires CommandsOk(g) && EdgesOk(g) && OneWriterPerTask(g.commands) && WritersFirst(g) && ReadersFed(g.commands)
    requires Legal(g, order)
    requires -1 <= j < k < |order| && Reads(g.commands[order[k]], p)
    requires forall i :: j < i < k ==> !Overwrites(g, order[i], g.commands[order[k]].nid, p)
    requires j >= 0 ==> Overwrites(g, order[j], g.commands[order[k]].nid, p)
    requires c in g.commands && Computes(g.commands[c], p) && g.commands[c].tid < g.commands[order[k]].tid
    ensures j >= 0 && g.commands[c].tid < Fresh(g.commands[order[j]])
  {
    var C := g.commands;
    var r := order[k];
    var n := C[r].nid;
    assert Reflects(C, n, p, C[c].tid, Rank(C[r]));
    var w :| w in C && C[w].nid == n && Writes(C[w], p) && Fresh(C[w]) > C[c].tid && Rank(C[w]) < Rank(C[r]);
    var i := ReachedWriter(g, order, k, r, w);
    assert Overwrites(g, order[i], n, p);
    if i != j {
      WritersRankApart(g, n, p, w, order[j]);
      if Rank(C[w]) > Rank(C[order[j]]) {
        assert Reaches(g.edges, w, order[j]);
        var i' := ReachedWriter(g, order, i, w, order[j]);
      }
    }
  }

  lemma ReachedWriter(g: Graph, order: seq<Cid>, k: nat, a: Cid, w: Cid) returns (i: nat)
    requires EdgesOk(g) && Legal(g, order) && k < |order| && order[k] == a
    requires Reaches(g.edges, a, w) && w in g.commands && !g.commands[w].Nop?
    ensures i < k && order[i] == w
  {
    ReachesWaits(g, a, w);
    i := ReachedRanBefore(Waits(g), order, k, w);
  }

  /** However the commands interleave, each command that reads the cell finds the version of the sequential program. */
  ghost predicate View(g: Graph, p: Cell) {
    forall order, k :: Legal(g, order) ==> ViewAt(g, order, k, p)
  }

  ghost predicate ViewAt(g: Graph, order: seq<Cid>, k: nat, p: Cell)
    requires Legal(g, order)
  {
    k < |order| && Reads(g.commands[order[k]], p) ==>
      var r := g.commands[order[k]]; IsCurrent(g.commands, p, r.tid, ValueAt(g, order, k, r.nid, p))
  }

  /**
    * Single-node view: however the commands of the nodes interleave, each command (task command or PUSH) finds in the
    * cell the version that the sequential program has at its task, provided that writers wait for earlier readers of
    * the cell.
    */
  lemma {:induction false} ReadsCurrentVersion(s: State, order: seq<Cid>, k: nat, p: Cell)
    requires Inv(s) && ReadersOrdered(s.g, p) && Legal(s.g, order)
    ensures ViewAt(s.g, order, k, p)
    decreases k
  {
    if k < |order| && Reads(s.g.commands[order[k]], p) {
      var C := s.g.commands;
      var r := order[k];
      var t := C[r].tid;
      var j := LastOverwrite(s.g, order, k, C[r].nid, p);
      forall c | c in C && Computes(C[c], p) && C[c].tid < t
        ensures j >= 0 && C[c].tid < Fresh(C[order[j]])
      {
        LastWriterIsFresh(s.g, order, k, j, p, c);
      }
      if j >= 0 {
        var w := order[j];
        RanBeforeReader(s.g, order, k, j, p);
        if C[w].TaskCommand? {
          assert LastComputes(C, p, t, w);
        } else {
          var i := Index(order, j, C[w].source);
          assert SourceOk(C, C[w]);
          ReadsCurrentVersion(s, order, i, p);
          StillCurrent(C, p, C[w].tid, t, ValueAt(s.g, order, i, C[order[i]].nid, p));
        }
      }
    }
  }

  lemma StillCurrent(C: map<Cid, Command>, p: Cell, t: nat, t': nat, v: nat)
    requires IsCurrent(C, p, t, v) && t <= t'
    requires forall c :: c in C && Computes(C[c], p) && C[c].tid < t' ==> C[c].tid < t
    ensures IsCurrent(C, p, t', v)
  {
    if c :| LastComputes(C, p, t, c) && C[c].tid == v {
      assert LastComputes(C, p, t', c);
    }
  }

  // ------------------------------------------------------------- the other half

  /** What runs before the reader in the order that lets the writer go first. */
  ghost function BeforeWriter(g: Graph, w: Cid, r: Cid): set<Cid>
    requires w in g.commands && r in g.commands
  {
    set c | c in g.commands && !g.commands[c].Nop? && c != w
        && (Rank(g.commands[c]) < Rank(g.commands[r]) || Reaches(Waits(g), w, c))
  }

  lemma BeforeWriterClosed(g: Graph, w: Cid, r: Cid)
    requires CommandsOk(g) && EdgesOk(g) && w in g.commands && r in g.commands
    requires Rank(g.commands[r]) < Rank(g.commands[w])
    ensures IsClosed(Waits(g), BeforeWriter(g, w, r))
    ensures forall d: Cid :: (w, d) in Waits(g) || (r, d) in Waits(g) ==> d in BeforeWriter(g, w, r)
  {
    WaitsDescend(g);
    forall a: Cid, b: Cid | (a, b) in Waits(g)
      ensures b in g.commands && !g.commands[b].Nop? && Rank(g.commands[b]) < Rank(g.commands[a])
    {
      WaitTarget(g, a, b);
    }
    forall a: Cid, b: Cid | (a, b) in Waits(g) && (a == w || Reaches(Waits(g), w, a))
      ensures Reaches(Waits(g), w, b) && b != w
    {
      EdgeReaches(Waits(g), a, b);
      if a != w { ReachesTransitive(Waits(g), w, a, b); }
      ReachesDescends(Waits(g), Ranks(g), w, b);
    }
  }

  lemma WaitTarget(g: Graph, a: Cid, b: Cid)
    requires CommandsOk(g) && EdgesOk(g) && (a, b) in Waits(g)
    ensures a in g.commands && b in g.commands && !g.commands[b].Nop? && Rank(g.commands[b]) < Rank(g.commands[a])
  {
    if (a, b) in g.edges {
      assert EdgeOk(g.commands[a], g.commands[b]);
    } else {
      assert SourceOk(g.commands, g.commands[a]);
    }
  }

  /** If a writer does not wait for an earlier reader, it can run right before it. */
  lemma WriterFirst(g: Graph, w: Cid, r: Cid, p: Cell) returns (order: seq<Cid>)
    requires CommandsOk(g) && EdgesOk(g) && OverwritesRead(g, w, r, p) && !Reaches(Waits(g), w, r)
    ensures Legal(g, order) && |order| >= 2 && order[|order| - 2] == w && order[|order| - 1] == r
  {
    hide *;
    BeforeWriterIs(g, w, r, p);
    BeforeWriterClosed(g, w, r);
    WaitsDescend(g);
    var before := Sorted(Waits(g), Ranks(g), BeforeWriter(g, w, r));
    Appended(Waits(g), before, w);
    WithoutReader(before, w, r);
    Appended(Waits(g), before + [w], r);
    order := before + [w] + [r];
    AllCommands(g, order, w, r);
  }

  lemma BeforeWriterIs(g: Graph, w: Cid, r: Cid, p: Cell)
    requires OverwritesRead(g, w, r, p) && !Reaches(Waits(g), w, r)
    ensures w in g.commands && r in g.commands && w != r && !g.commands[w].Nop? && !g.commands[r].Nop?
    ensures Rank(g.commands[r]) < Rank(g.commands[w])
    ensures w !in BeforeWriter(g, w, r) && r !in BeforeWriter(g, w, r) && BeforeWriter(g, w, r) <= Ranks(g).Keys
    ensures forall c :: c in BeforeWriter(g, w, r) ==> c in g.commands && !g.commands[c].Nop?
  {
    hide Reaches;
  }

  lemma WithoutReader(before: seq<Cid>, w: Cid, r: Cid)
    requires r !in before && w != r
    ensures r !in before + [w] && forall d :: d in before ==> d in before + [w]
  {
  }

  lemma AllCommands(g: Graph, order: seq<Cid>, w: Cid, r: Cid)
    requires |order| >= 2 && Respects(Waits(g), order) && order[|order| - 2] == w && order[|order| - 1] == r
    requires w in g.commands && r in g.commands && !g.commands[w].Nop? && !g.commands[r].Nop?
    requires forall c :: c in order[..|order| - 2] ==> c in g.commands && !g.commands[c].Nop?
    ensures Legal(g, order)
  {
    hide Respects, Waits;
    forall k | 0 <= k < |order|
      ensures order[k] in g.commands && !g.commands[order[k]].Nop?
    {
      if k < |order| - 2 { assert order[k] in order[..|order| - 2]; }
    }
  }

  /** The PUSHes of a cell in one task leave from one node. */
  lemma OneSender(C: map<Cid, Command>, b: Cid, b': Cid, p: Cell)
    requires PushesFromProducer(C) && OneWriterPerTask(C) && b in C && b' in C && C[b].Push? && C[b'].Push?
    requires p in C[b].box && p in C[b'].box && C[b].tid == C[b'].tid
    ensures C[b].nid == C[b'].nid
  {
    var c: Cid :| LastComputes(C, p, C[b].tid, c) && C[c].nid == C[b].nid;
    var c': Cid :| LastComputes(C, p, C[b'].tid, c') && C[c'].nid == C[b'].nid;
    assert c == c';
  }

  /** A node that has the cell sent away in a task does not receive it in the same task. */
  lemma SentOrReceived(g: Graph, w: Cid, r: Cid, p: Cell)
    requires CommandsOk(g) && PushesFromProducer(g.commands) && OneWriterPerTask(g.commands)
    requires OverwritesRead(g, w, r, p) && g.commands[w].AwaitPush?
    ensures g.commands[r].tid < g.commands[w].tid
  {
    hide PushesFromProducer, OneWriterPerTask;
    assert SourceOk(g.commands, g.commands[w]);
    if g.commands[r].Push?
        && g.commands[r].tid == g.commands[w].tid { OneSender(g.commands, r, g.commands[w].source, p); }
  }

  /** The last value written before position `k` is the one found there. */
  lemma FindsLast(g: Graph, order: seq<Cid>, k: nat, n: nat, p: Cell)
    requires Legal(g, order) && 0 < k < |order| && Overwrites(g, order[k - 1], n, p)
    ensures ValueAt(g, order, k, n, p) == Written(g, order, k - 1, p)
  {
  }

  /** What a reader finds after a writer that should come later is too new. */
  lemma TooNew(s: State, order: seq<Cid>, w: Cid, r: Cid, p: Cell)
    requires Inv(s) && OverwritesRead(s.g, w, r, p) && View(s.g, p) && Legal(s.g, order)
    requires |order| >= 2 && order[|order| - 2] == w && order[|order| - 1] == r
    ensures ValueAt(s.g, order, |order| - 1, s.g.commands[r].nid, p) >= s.g.commands[r].tid
  {
    hide Inv, View, ValueAt, Legal;
    var g, C, k := s.g, s.g.commands, |order| - 1;
    FindsLast(g, order, k, C[r].nid, p);
    LegalParts(g, order, k - 1);
    ViewParts(s);
    if C[w].AwaitPush? {
      SentOrReceived(g, w, r, p);
      var i := Index(order, k - 1, C[w].source);
      assert SourceOk(C, C[w]);
      ViewIs(g, order, i, p);
      assert HeldBefore(C, r, w, p);
      NewerVersion(C, p, C[r].tid, C[w].tid, ValueAt(g, order, i, C[C[w].source].nid, p));
    }
  }

  lemma ViewParts(s: State)
    requires Inv(s)
    ensures CommandsOk(s.g) && EdgesOk(s.g) && PushesFromProducer(s.g.commands) && OneWriterPerTask(s.g.commands)
    ensures DeliveredOnce(s.g.commands)
  {
  }

  lemma LegalParts(g: Graph, order: seq<Cid>, k: nat)
    requires Legal(g, order) && k < |order|
    ensures order[k] in g.commands
    ensures g.commands[order[k]].AwaitPush? ==> RanBefore(order, k, g.commands[order[k]].source)
  {
    if g.commands[order[k]].AwaitPush? { assert (order[k], g.commands[order[k]].source) in Waits(g); }
  }

  lemma ViewIs(g: Graph, order: seq<Cid>, k: nat, p: Cell)
    requires View(g, p) && Legal(g, order) && k < |order|
    ensures order[k] in g.commands
    ensures Reads(g.commands[order[k]], p) ==>
              var r := g.commands[order[k]]; IsCurrent(g.commands, p, r.tid, ValueAt(g, order, k, r.nid, p))
  {
    assert ViewAt(g, order, k, p);
  }

  lemma WriterFirstIsWrong(s: State, w: Cid, r: Cid, p: Cell)
    requires Inv(s) && OverwritesRead(s.g, w, r, p) && !Reaches(Waits(s.g), w, r)
    ensures !View(s.g, p)
  {
    hide Inv, View, ValueAt, Legal, Reaches;
    ViewParts(s);
    var order := WriterFirst(s.g, w, r, p);
    if View(s.g, p) {
      TooNew(s, order, w, r, p);
      ViewIs(s.g, order, |order| - 1, p);
    }
  }

  lemma NewerVersion(C: map<Cid, Command>, p: Cell, t: nat, t': nat, v: nat)
    requires ComputedBetween(C, p, t, t') && IsCurrent(C, p, t', v)
    ensures v >= t
  {
  }

  /**
    * The single-node view of a cell holds if and only if every writer waits for the earlier readers of the cell on its
    * node.
    */
  lemma ViewExact(s: State, p: Cell)
    requires Inv(s)
    ensures View(s.g, p) <==> ReadersOrdered(s.g, p)
  {
    if ReadersOrdered(s.g, p) {
      forall order, k | Legal(s.g, order)
        ensures ViewAt(s.g, order, k, p)
      {
        ReadsCurrentVersion(s, order, k, p);
      }
    } else {
      var w, r :| OverwritesRead(s.g, w, r, p) && !Reaches(Waits(s.g), w, r);
      WriterFirstIsWrong(s, w, r, p);
    }
  }

  /** That is so for every cell that is late on no node. */
  lemma OnTimeOrdered(s: State, p: Cell)
    requires Inv(s) && forall n: nat :: (n, p) !in s.late
    ensures ReadersOrdered(s.g, p)
  {
    forall w, r | OverwritesRead(s.g, w, r, p)
      ensures Reaches(Waits(s.g), w, r)
    {
      assert (s.g.commands[w].nid, p) !in s.late;
      ReachesWaits(s.g, w, r);
    }
  }
}

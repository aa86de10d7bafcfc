/** What generating a horizon does to the state, and that it keeps the invariant. */
module HorizonStep {
  import opened Grid
  import opened Reachability
  import opened Commands
  import opened GeneratorState

  /**
    * A command that reads from an entry about to be replaced by the previous horizon, but is younger than that horizon.
    */
  ghost predicate LateReader(s: State, n: nat, p: Cell, r: Cid)
    requires Domains(s)
  {
    && n < s.numNodes && p in s.sources && n in s.prevHorizon
    && s.lastWriter[n][p] < s.prevHorizon[n] < r
    && r in s.g.commands && s.g.commands[r].nid == n && Reads(s.g.commands[r], p)
    && (r, s.lastWriter[n][p]) in s.g.trueEdges
  }

  /** The cell has a late reader on the node. */
  ghost predicate IsLate(s: State, n: nat, p: Cell)
    requires Domains(s)
  {
    exists r: Cid :: LateReader(s, n, p, r)
  }

  /** The last-writer entry after the previous horizon has been applied. */
  function Compacted(prev: map<nat, Cid>, n: nat, e: Cid): Cid {
    if n in prev && e < prev[n] then prev[n] else e
  }

  ghost predicate CommandsStay(s0: State, s1: State) {
    && (forall c :: c in s0.g.commands ==> c in s1.g.commands && s1.g.commands[c] == s0.g.commands[c])
    && s0.g.edges <= s1.g.edges
    && s0.g.trueEdges <= s1.g.trueEdges
  }

  ghost predicate HorizonsAdded(s0: State, s1: State) {
    && CommandsStay(s0, s1)
    && (forall n: nat :: n < s0.numNodes ==>
                           && n in s1.prevHorizon
                           && s1.prevHorizon[n] in s1.g.commands && s1.prevHorizon[n] !in s0.g.commands
                           && s1.g.commands[s1.prevHorizon[n]].nid == n)
    && (forall c :: c in s1.g.commands && c !in s0.g.commands ==>
                      && s0.g.nextCid <= c && s1.g.commands[c].nid < s0.numNodes
                      && s1.g.commands[c] == Horizon(s1.g.commands[c].nid, s0.lastTid)
                      && s1.prevHorizon[s1.g.commands[c].nid] == c)
    && (forall n :: n in s1.prevHorizon ==> n < s0.numNodes)
    && (forall n: nat, c: Cid :: n < s0.numNodes && InFront(s0.g, n, c) ==> (s1.prevHorizon[n], c) in s1.g.edges)
    && (forall a, b :: (a, b) in s1.g.edges && (a, b) !in s0.g.edges ==> OnFront(s0, s1, a, b))
  }

  /** A new horizon depends on a command of the front that its node had. */
  ghost predicate OnFront(s0: State, s1: State, a: Cid, b: Cid) {
    a in s1.g.commands && a !in s0.g.commands && InFront(s0.g, s1.g.commands[a].nid, b)
  }

  /** One horizon per node on top of its front, and the previous horizon applied to the last-writer entries. */
  ghost predicate HorizonsMade(s0: State, s1: State) {
    && Domains(s0) && Domains(s1)
    && s1.numNodes == s0.numNodes && s1.init == s0.init && s1.sources == s0.sources && s1.bufferReads == s0.bufferReads
    && s1.lastTid == s0.lastTid
    && GraphOk(s1.g)
    && HorizonsAdded(s0, s1)
    && (forall n: nat, p :: n < s0.numNodes && p in s0.sources ==>
                              s1.lastWriter[n][p] == Compacted(s0.prevHorizon, n, s0.lastWriter[n][p]))
    && (forall n: nat, p :: (n, p) in s1.late <==> (n, p) in s0.late || IsLate(s0, n, p))
  }

  /** Every command is in the front of its node or below a command of it. */
  lemma {:induction false} BelowFront(s: State, c: Cid) returns (f: Cid)
    requires GraphOk(s.g) && CommandsKnown(s) && c in s.g.commands && !s.g.commands[c].Nop?
    ensures InFront(s.g, s.g.commands[c].nid, f)
    ensures f == c || Reaches(s.g.edges, f, c)
    decreases 4 * s.lastTid + 4 - Rank(s.g.commands[c])
  {
    if d: Cid :| (d, c) in s.g.edges {
      assert EdgeOk(s.g.commands[d], s.g.commands[c]);
      f := BelowFront(s, d);
      EdgeReaches(s.g.edges, d, c);
      if f != d { ReachesTransitive(s.g.edges, f, d, c); }
    } else {
      f := c;
    }
  }

  /** A new horizon comes after every command that its node had. */
  lemma HorizonReachesAll(s0: State, s1: State, c: Cid)
    requires GraphOk(s0.g) && CommandsKnown(s0) && HorizonsAdded(s0, s1)
    requires c in s0.g.commands && !s0.g.commands[c].Nop?
    ensures Reaches(s1.g.edges, s1.prevHorizon[s0.g.commands[c].nid], c)
  {
    var f := BelowFront(s0, c);
    ReachesMonotone(s0.g.edges, s1.g.edges);
    ReachesVia(s1.g.edges, s1.prevHorizon[s0.g.commands[c].nid], f, c);
  }

  /** A compacted entry is the entry it replaces, or comes after it, or replaces the init command. */
  lemma CompactedReaches(s: State, n: nat, e: Cid)
    requires HorizonsCover(s.g) && PrevHorizonsOk(s)
    requires e in s.g.commands && s.g.commands[e].nid == n
    ensures var e' := Compacted(s.prevHorizon, n, e);
            e' == e || s.g.commands[e].Nop? || Reaches(s.g.edges, e', e)
  {
  }

  lemma KeepsShape(s0: State, s1: State)
    requires Shape(s0) && HorizonsMade(s0, s1)
    ensures Shape(s1)
  {
    KnownAfter(s0, s1);
    RecordedAfter(s0, s1);
    OneWriterAfter(s0, s1);
    PairsAfter(s0, s1);
    ReaderAfter(s0, s1);
    PrevHorizonsAfter(s0, s1);
  }

  lemma PrevHorizonsAfter(s0: State, s1: State)
    requires HorizonsAdded(s0, s1)
    ensures PrevHorizonsOk(s1)
  {
    forall n | n in s1.prevHorizon
      ensures var h := s1.prevHorizon[n]; h in s1.g.commands && s1.g.commands[h].Horizon? && s1.g.commands[h].nid == n
    {
      var h := s1.prevHorizon[n];
      assert n < s0.numNodes && h in s1.g.commands && h !in s0.g.commands;
    }
  }

  lemma KnownAfter(s0: State, s1: State)
    requires CommandsKnown(s0) && HorizonsAdded(s0, s1) && CommandsOk(s1.g)
    requires s1.numNodes == s0.numNodes && s1.init == s0.init && s1.sources == s0.sources && s1.lastTid == s0.lastTid
    ensures CommandsKnown(s1)
  {
  }

  /** No read has been recorded for a command that does not exist yet. */
  lemma RecordedAfter(s0: State, s1: State)
    requires ReadsRecorded(s0) && HorizonsAdded(s0, s1) && s1.bufferReads == s0.bufferReads
    ensures ReadsRecorded(s1)
  {
  }

  lemma OneWriterAfter(s0: State, s1: State)
    requires OneWriterPerTask(s0.g.commands) && HorizonsAdded(s0, s1)
    ensures OneWriterPerTask(s1.g.commands)
  {
    var C := s1.g.commands;
    forall c | c in C && (C[c].TaskCommand? || C[c].AwaitPush?)
      ensures c in s0.g.commands
    {
    }
  }

  lemma PairsAfter(s0: State, s1: State)
    requires PushesAwaited(s0.g.commands) && HorizonsAdded(s0, s1)
    ensures PushesAwaited(s1.g.commands)
  {
    forall b | b in s1.g.commands && s1.g.commands[b].Push?
      ensures Awaited(s1.g.commands, b)
    {
      assert b in s0.g.commands && Awaited(s0.g.commands, b);
    }
  }

  lemma ReaderAfter(s0: State, s1: State)
    requires AwaitHasReader(s0.g) && HorizonsAdded(s0, s1)
    ensures AwaitHasReader(s1.g)
  {
    forall a | a in s1.g.commands && s1.g.commands[a].AwaitPush?
      ensures exists c :: FeedsTask(s1.g, a, c)
    {
      assert a in s0.g.commands;
      var c :| FeedsTask(s0.g, a, c);
      assert FeedsTask(s1.g, a, c);
    }
  }

  lemma KeepsOrder(s0: State, s1: State)
    requires Shape(s0) && Order(s0) && HorizonsMade(s0, s1)
    ensures Order(s1)
  {
    KeepsHorizonsCover(s0, s1);
    KeepsEntriesCover(s0, s1);
    forall e | e in s0.late
      ensures e in s1.late
    {
      assert (e.0, e.1) in s1.late;
    }
    KeepsConflictOrder(s0, s1);
    KeepsReadersCovered(s0, s1);
  }

  lemma KeepsHorizonsCover(s0: State, s1: State)
    requires GraphOk(s0.g) && CommandsKnown(s0) && HorizonsAdded(s0, s1) && HorizonsCover(s0.g)
    ensures HorizonsCover(s1.g)
  {
    ReachesMonotone(s0.g.edges, s1.g.edges);
    var C := s1.g.commands;
    forall h, c | h in C && c in C && C[h].Horizon? && !C[c].Nop? && C[c].nid == C[h].nid && c < h
      ensures Reaches(s1.g.edges, h, c)
    {
      if h !in s0.g.commands { HorizonReachesAll(s0, s1, c); }
    }
  }

  lemma KeepsEntriesCover(s0: State, s1: State)
    requires HorizonsMade(s0, s1) && HorizonsCover(s0.g) && PrevHorizonsOk(s0) && CommandsOk(s0.g) && EdgesOk(s0.g)
    requires EntriesCover(s0)
    ensures EntriesCover(s1)
  {
    ReachesMonotone(s0.g.edges, s1.g.edges);
    forall n: nat, p | n < s1.numNodes && p in s1.sources
      ensures EntryCovers(s1, n, p)
    {
      var e0, e := s0.lastWriter[n][p], s1.lastWriter[n][p];
      assert EntryCovers(s0, n, p);
      forall w | w in s1.g.commands && s1.g.commands[w].nid == n && Writes(s1.g.commands[w], p)
        ensures w == e || Reaches(s1.g.edges, e, w)
      {
        BelowCompacted(s0, n, p, w);
      }
    }
  }

  lemma BelowCompacted(s: State, n: nat, p: Cell, w: Cid)
    requires Domains(s) && HorizonsCover(s.g) && PrevHorizonsOk(s) && CommandsOk(s.g) && EdgesOk(s.g)
    requires n < s.numNodes && p in s.sources && s.lastWriter[n][p] in s.g.commands
    requires s.g.commands[s.lastWriter[n][p]].nid == n
    requires w in s.g.commands && !s.g.commands[w].Nop?
    requires w == s.lastWriter[n][p] || Reaches(s.g.edges, s.lastWriter[n][p], w)
    ensures var e := Compacted(s.prevHorizon, n, s.lastWriter[n][p]);
            w == e || Reaches(s.g.edges, e, w)
  {
    var e0 := s.lastWriter[n][p];
    var e := Compacted(s.prevHorizon, n, e0);
    CompactedReaches(s, n, e0);
    if s.g.commands[e0].Nop? {
      if Reaches(s.g.edges, e0, w) { ReachesLowerRank(s.g, e0, w); }
    } else if e != e0 && w != e0 {
      ReachesTransitive(s.g.edges, e, e0, w);
    }
  }

  lemma KeepsConflictOrder(s0: State, s1: State)
    requires HorizonsAdded(s0, s1) && WritersFirst(s0.g) && ReadersFirst(s0.g, s0.late) && s0.late <= s1.late
    ensures WritersFirst(s1.g) && ReadersFirst(s1.g, s1.late)
  {
    ReachesMonotone(s0.g.edges, s1.g.edges);
    hide Reaches;
    forall w, r, p | OverwritesRead(s1.g, w, r, p) && (s1.g.commands[w].nid, p) !in s1.late
      ensures Reaches(s1.g.edges, w, r)
    {
      assert OverwritesRead(s0.g, w, r, p);
    }
  }

  lemma KeepsReadersCovered(s0: State, s1: State)
    requires HorizonsMade(s0, s1) && HorizonsCover(s0.g) && PrevHorizonsOk(s0) && CommandsOk(s0.g) && EdgesOk(s0.g)
    requires EntriesCover(s0) && ReadersCovered(s0)
    ensures ReadersCovered(s1)
  {
    ReachesMonotone(s0.g.edges, s1.g.edges);
    hide Reaches, IsLate, HorizonsCover, OnFront, GraphOk, CommandsOk, EdgesOk;
    forall n: nat, p | n < s1.numNodes && p in s1.sources && (n, p) !in s1.late
      ensures ReadersUnderEntry(s1, n, p)
    {
      assert ReadersUnderEntry(s0, n, p) && EntryCovers(s0, n, p);
      forall r | r in s1.g.commands && s1.g.commands[r].nid == n && Reads(s1.g.commands[r], p)
        ensures var e := s1.lastWriter[n][p]; r == e || (r, e) in s1.g.trueEdges || Reaches(s1.g.edges, e, r)
      {
        assert r in s0.g.commands;
        StillUnder(s0, n, p, r);
      }
    }
  }

  /** A reader is under the compacted entry as well, unless it is late. */
  lemma StillUnder(s: State, n: nat, p: Cell, r: Cid)
    requires Domains(s) && HorizonsCover(s.g) && PrevHorizonsOk(s) && CommandsOk(s.g) && EdgesOk(s.g)
    requires n < s.numNodes && p in s.sources && EntryCovers(s, n, p) && ReadersUnderEntry(s, n, p) && !IsLate(s, n, p)
    requires r in s.g.commands && s.g.commands[r].nid == n && Reads(s.g.commands[r], p)
    ensures var e := Compacted(s.prevHorizon, n, s.lastWriter[n][p]);
            r == e || (r, e) in s.g.trueEdges || Reaches(s.g.edges, e, r)
  {
    hide Reaches;
    if (r, s.lastWriter[n][p]) in s.g.trueEdges {
      assert !LateReader(s, n, p, r);
    } else {
      BelowCompacted(s, n, p, r);
    }
  }

  lemma KeepsData(s0: State, s1: State)
    requires HorizonsAdded(s0, s1) && Data(s0)
    requires s1.numNodes == s0.numNodes && s1.sources == s0.sources && s1.lastTid == s0.lastTid
    ensures Data(s1)
  {
    KeepsFed(s0, s1);
    KeepsLists(s0, s1);
    KeepsTransfers(s0, s1);
  }

  lemma ReflectsStill(s0: State, s1: State, n: nat, p: Cell, t: nat, bound: nat)
    requires CommandsStay(s0, s1) && Reflects(s0.g.commands, n, p, t, bound)
    ensures Reflects(s1.g.commands, n, p, t, bound)
  {
    var w :| w in s0.g.commands && s0.g.commands[w].nid == n && Writes(s0.g.commands[w], p)
             && Fresh(s0.g.commands[w]) > t && Rank(s0.g.commands[w]) < bound;
    assert w in s1.g.commands;
  }

  lemma KeepsFed(s0: State, s1: State)
    requires HorizonsAdded(s0, s1) && ReadersFed(s0.g.commands) && SourcesFed(s0)
    requires s1.sources == s0.sources && s1.lastTid == s0.lastTid
    ensures ReadersFed(s1.g.commands) && SourcesFed(s1)
  {
    var C := s1.g.commands;
    forall r, c, p | r in C && c in C && Reads(C[r], p) && Computes(C[c], p) && C[c].tid < C[r].tid
      ensures Reflects(C, C[r].nid, p, C[c].tid, Rank(C[r]))
    {
      ReflectsStill(s0, s1, C[r].nid, p, C[c].tid, Rank(C[r]));
    }
    forall p, n, c | p in s1.sources && n in s1.sources[p] && c in C && Computes(C[c], p)
      ensures Reflects(C, n, p, C[c].tid, 4 * (s1.lastTid + 1))
    {
      ReflectsStill(s0, s1, n, p, C[c].tid, 4 * (s0.lastTid + 1));
    }
  }

  lemma LastComputesStill(s0: State, s1: State, p: Cell, t: nat, c: Cid)
    requires HorizonsAdded(s0, s1) && LastComputes(s0.g.commands, p, t, c)
    ensures LastComputes(s1.g.commands, p, t, c)
  {
  }

  lemma KeepsLists(s0: State, s1: State)
    requires HorizonsAdded(s0, s1) && SourceListsOk(s0)
    requires s1.numNodes == s0.numNodes && s1.sources == s0.sources && s1.lastTid == s0.lastTid
    ensures SourceListsOk(s1)
  {
    forall p | p in s1.sources
      ensures SourceListOk(s1, p)
    {
      assert SourceListOk(s0, p);
      if c :| LastComputes(s0.g.commands, p, s0.lastTid + 1, c) && s0.g.commands[c].nid == s0.sources[p][0] {
        LastComputesStill(s0, s1, p, s0.lastTid + 1, c);
      } else {
        assert NeverComputed(s1.g.commands, p);
      }
    }
  }

  lemma ComputedBetweenStill(s0: State, s1: State, p: Cell, lo: nat, hi: nat)
    requires CommandsStay(s0, s1) && ComputedBetween(s0.g.commands, p, lo, hi)
    ensures ComputedBetween(s1.g.commands, p, lo, hi)
  {
    var c :| c in s0.g.commands && Computes(s0.g.commands[c], p) && lo <= s0.g.commands[c].tid < hi;
    assert c in s1.g.commands;
  }

  lemma KeepsTransfers(s0: State, s1: State)
    requires HorizonsAdded(s0, s1) && s1.sources == s0.sources && s1.lastTid == s0.lastTid
    requires PushesFromProducer(s0.g.commands) && DeliveredOnce(s0.g.commands) && DeliveryRemembered(s0)
    ensures PushesFromProducer(s1.g.commands) && DeliveredOnce(s1.g.commands) && DeliveryRemembered(s1)
  {
    var C := s1.g.commands;
    forall b, p | b in C && C[b].Push? && p in C[b].box
      ensures exists c :: LastComputes(C, p, C[b].tid, c) && C[c].nid == C[b].nid
    {
      assert b in s0.g.commands;
      var c :| LastComputes(s0.g.commands, p, C[b].tid, c) && s0.g.commands[c].nid == C[b].nid;
      LastComputesStill(s0, s1, p, C[b].tid, c);
    }
    forall a, b, p | HeldBefore(C, a, b, p)
      ensures ComputedBetween(C, p, C[a].tid, C[b].tid)
    {
      assert HeldBefore(s0.g.commands, a, b, p);
      ComputedBetweenStill(s0, s1, p, C[a].tid, C[b].tid);
    }
    forall a, p | a in C && Holds(C[a], p)
      ensures Remembered(s1, a, p)
    {
      assert a in s0.g.commands && Remembered(s0, a, p);
      if C[a].nid !in s0.sources[p] { ComputedBetweenStill(s0, s1, p, C[a].tid, s0.lastTid + 1); }
    }
  }

  /** Generating a horizon keeps everything that holds between tasks. */
  lemma HorizonKeepsInv(s0: State, s1: State)
    requires Inv(s0) && HorizonsMade(s0, s1)
    ensures Inv(s1)
  {
    KeepsShape(s0, s1);
    KeepsOrder(s0, s1);
    KeepsData(s0, s1);
  }
}

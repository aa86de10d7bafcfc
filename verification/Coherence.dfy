/** The replication map lists exactly the nodes that hold the newest version of a cell. */
module Coherence {
  import opened Grid
  import opened Reachability
  import opened Commands
  import opened GeneratorState

  /** `w` left the newest version of the cell on node `n`: it computed it, or it delivered it after the last write. */
  ghost predicate HoldsNewest(C: map<Cid, Command>, n: nat, p: Cell, w: Cid) {
    && w in C && C[w].nid == n && Writes(C[w], p)
    && forall c :: c in C && Computes(C[c], p) ==> C[c].tid < Fresh(C[w])
  }

  lemma NewestIsListed(s: State, n: nat, p: Cell, w: Cid)
    requires OneWriterPerTask(s.g.commands) && CommandsKnown(s) && SourceListsOk(s) && DeliveryRemembered(s)
    requires p in s.sources && HoldsNewest(s.g.commands, n, p, w)
    ensures n in s.sources[p]
  {
    var C := s.g.commands;
    assert SourceListOk(s, p);
    if Computes(C[w], p) {
      var c: Cid :| LastComputes(C, p, s.lastTid + 1, c) && C[c].nid == s.sources[p][0];
      assert C[w].tid <= C[c].tid;
      assert c == w;
    } else {
      assert Remembered(s, w, p);
      assert !ComputedBetween(C, p, C[w].tid, s.lastTid + 1);
    }
  }

  lemma ListedIsNewest(s: State, n: nat, p: Cell) returns (w: Cid)
    requires CommandsKnown(s) && SourceListsOk(s) && SourcesFed(s)
    requires p in s.sources && n in s.sources[p] && !NeverComputed(s.g.commands, p)
    ensures HoldsNewest(s.g.commands, n, p, w)
  {
    var C := s.g.commands;
    assert SourceListOk(s, p);
    var c: Cid :| LastComputes(C, p, s.lastTid + 1, c) && C[c].nid == s.sources[p][0];
    assert Reflects(C, n, p, C[c].tid, 4 * (s.lastTid + 1));
    w :| w in C && C[w].nid == n && Writes(C[w], p) && Fresh(C[w]) > C[c].tid && Rank(C[w]) < 4 * (s.lastTid + 1);
  }

  /** A node is listed exactly when it holds the newest version, which every node does before the first write. */
  lemma ListsExactlyNewest(s: State, n: nat, p: Cell)
    requires Inv(s) && p in s.sources && n < s.numNodes
    ensures n in s.sources[p] <==> NeverComputed(s.g.commands, p) || exists w :: HoldsNewest(s.g.commands, n, p, w)
  {
    hide OneWriterPerTask, Order, SourcesFed, DeliveredOnce, PushesFromProducer, ReadersFed, AwaitHasReader;
    hide PushesAwaited, GraphOk;
    assert SourceListOk(s, p);
    if NeverComputed(s.g.commands, p) {
    } else if n in s.sources[p] {
      var w := ListedIsNewest(s, n, p);
    } else {
      forall w
        ensures !HoldsNewest(s.g.commands, n, p, w)
      {
        if HoldsNewest(s.g.commands, n, p, w) { NewestIsListed(s, n, p, w); }
      }
    }
  }

  lemma EntryParts(s: State, n: nat, p: Cell)
    requires Inv(s) && p in s.sources && n < s.numNodes
    ensures Domains(s) && EntryCovers(s, n, p) && CommandsOk(s.g) && EdgesOk(s.g) && CommandsKnown(s)
    ensures SourceListsOk(s) && SourcesFed(s) && PushesFromProducer(s.g.commands)
  {
    hide EntryCovers, OneWriterPerTask, DeliveredOnce, ReadersFed, AwaitHasReader, PushesAwaited, WritersFirst;
    hide ReadersFirst;
  }

  /** Nothing is delivered before the first write. */
  lemma NothingDelivered(s: State, p: Cell, w: Cid)
    requires CommandsOk(s.g) && PushesFromProducer(s.g.commands) && NeverComputed(s.g.commands, p) && w in s.g.commands
    ensures !Writes(s.g.commands[w], p)
  {
    var C := s.g.commands;
    if C[w].AwaitPush? {
      assert SourceOk(C, C[w]);
    }
  }

  /** An entry that writes the cell and comes after a command that left the newest version has left it again. */
  lemma EntryHoldsNewest(s: State, n: nat, p: Cell, w: Cid)
    requires Domains(s) && n < s.numNodes && p in s.sources && CommandsOk(s.g) && EdgesOk(s.g) && EntryCovers(s, n, p)
    requires HoldsNewest(s.g.commands, n, p, w)
    ensures var C, e := s.g.commands, s.lastWriter[n][p];
            HoldsNewest(C, n, p, e) || (C[e].Horizon? && Reaches(s.g.edges, e, w))
  {
    var C, e := s.g.commands, s.lastWriter[n][p];
    if e != w {
      ReachesLowerRank(s.g, e, w);
      hide Reaches;
      assert C[e].Horizon? || Fresh(C[w]) <= Fresh(C[e]);
    }
  }

  /**
    * The last-writer entry of a listed node is the command that left the newest version there, or a horizon after it.
    * Before the first write it is the init command or a horizon.
    */
  lemma EntryIsNewest(s: State, n: nat, p: Cell)
    requires Inv(s) && p in s.sources && n in s.sources[p] && n < s.numNodes
    ensures var C, e := s.g.commands, s.lastWriter[n][p];
            && e in C
            && (NeverComputed(C, p) ==> e == s.init[n] || C[e].Horizon?)
            && (!NeverComputed(C, p) ==>
                  || HoldsNewest(C, n, p, e)
                  || (C[e].Horizon? && exists w :: HoldsNewest(C, n, p, w) && Reaches(s.g.edges, e, w)))
  {
    hide Inv, SourceListsOk, SourcesFed, PushesFromProducer, CommandsOk, EdgesOk, Reaches, HoldsNewest, NeverComputed;
    EntryParts(s, n, p);
    if NeverComputed(s.g.commands, p) {
      NothingDelivered(s, p, s.lastWriter[n][p]);
    } else {
      var w := ListedIsNewest(s, n, p);
      EntryHoldsNewest(s, n, p, w);
    }
  }
}

/** Command packets in the order in which they are emitted, and when a flush is complete. */
module FlushOrder {
  import opened Grid
  import opened Reachability
  import opened Commands
  import opened GeneratorState

  /** What a node receives: a command together with the ids of the commands it depends on. */
  datatype Packet = Packet(nid: nat, cid: Cid, command: Command, deps: seq<Cid>)

  ghost predicate EmittedBefore(log: seq<Packet>, i: nat, c: Cid)
    requires i <= |log|
  {
    exists j :: 0 <= j < i && log[j].cid == c
  }

  /** The packet lists the dependencies, which have been emitted before unless they are init commands. */
  ghost predicate PacketOk(g: Graph, log: seq<Packet>, i: nat)
    requires i < |log|
  {
    var x := log[i].cid;
    && x in g.commands && !g.commands[x].Nop? && log[i].nid == g.commands[x].nid && log[i].command == g.commands[x]
    && DepsOf(g, x, log[i].deps)
    && forall d :: (x, d) in g.edges && d in g.commands && !g.commands[d].Nop? ==> EmittedBefore(log, i, d)
  }

  /** A task command's packet leaves out the init command. */
  ghost predicate DepsOf(g: Graph, x: Cid, deps: seq<Cid>)
    requires x in g.commands
  {
    forall d: Cid :: d in deps <==>
                       (x, d) in g.edges && d in g.commands && !(g.commands[x].TaskCommand? && g.commands[d].Nop?)
  }

  ghost predicate DepsFlushed(g: Graph, flushed: set<Cid>, x: Cid) {
    forall d :: (x, d) in g.edges && d in g.commands && !g.commands[d].Nop? ==> d in flushed
  }

  /** Every flushed command has been emitted exactly once, after its dependencies. */
  ghost predicate LogOk(g: Graph, log: seq<Packet>, flushed: set<Cid>) {
    && (forall i: nat :: i < |log| ==> PacketOk(g, log, i) && log[i].cid in flushed)
    && (forall i, j :: 0 <= i < j < |log| ==> log[i].cid != log[j].cid)
    && (forall c :: c in flushed ==> EmittedBefore(log, |log|, c))
  }

  lemma EmitKeepsLog(g: Graph, log: seq<Packet>, flushed: set<Cid>, x: Cid, deps: seq<Cid>)
    requires LogOk(g, log, flushed) && x in g.commands && !g.commands[x].Nop? && x !in flushed && DepsOf(g, x, deps)
    requires DepsFlushed(g, flushed, x)
    ensures LogOk(g, log + [Packet(g.commands[x].nid, x, g.commands[x], deps)], flushed + {x})
  {
    var log' := log + [Packet(g.commands[x].nid, x, g.commands[x], deps)];
    forall i: nat | i < |log'|
      ensures PacketOk(g, log', i) && log'[i].cid in flushed + {x}
    {
      forall d | (log'[i].cid, d) in g.edges && d in g.commands && !g.commands[d].Nop?
        ensures EmittedBefore(log', i, d)
      {
        if i < |log| { assert PacketOk(g, log, i); }
        var j :| 0 <= j < i && log[j].cid == d;
        assert log'[j].cid == d;
      }
      if i < |log| { assert PacketOk(g, log, i); }
    }
    forall c | c in flushed + {x}
      ensures EmittedBefore(log', |log'|, c)
    {
      if c == x {
        assert log'[|log|].cid == x;
      } else {
        var j :| 0 <= j < |log| && log[j].cid == c;
        assert log'[j].cid == c;
      }
    }
  }

  /** Commands that come later do not disturb what has been emitted. */
  lemma LogStays(g: Graph, g': Graph, log: seq<Packet>, flushed: set<Cid>)
    requires LogOk(g, log, flushed)
    requires forall c :: c in g.commands ==> c in g'.commands && g'.commands[c] == g.commands[c]
    requires g.edges <= g'.edges && EdgesOk(g)
    requires forall a, b :: (a, b) in g'.edges && (a, b) !in g.edges ==> a !in g.commands
    ensures LogOk(g', log, flushed)
  {
    forall i: nat | i < |log|
      ensures PacketOk(g', log, i)
    {
      assert PacketOk(g, log, i);
      assert forall d :: (log[i].cid, d) in g'.edges ==> (log[i].cid, d) in g.edges;
    }
  }

  /** A horizon that a command of task `t` leads to. */
  ghost predicate HangsOff(g: Graph, t: nat, h: Cid) {
    exists c: Cid :: IsTaskCommand(g, t, c) && (h, c) in g.edges
  }

  /** What flushing task `t` emits: the task's commands, and the horizons on top of its task commands. */
  ghost predicate EmittedBy(g: Graph, t: nat, c: Cid) {
    && c in g.commands && g.commands[c].tid == t && !g.commands[c].Nop?
    && (g.commands[c].Horizon? ==> HangsOff(g, t, c))
  }

  ghost predicate Earlier(g: Graph, t: nat, c: Cid) {
    c in g.commands && g.commands[c].tid < t && !g.commands[c].Nop?
  }

  ghost predicate IsTransfer(g: Graph, t: nat, c: Cid) {
    c in g.commands && g.commands[c].tid == t && (g.commands[c].Push? || g.commands[c].AwaitPush?)
  }

  /** The graph after building task `t`. */
  ghost predicate JustBuilt(g: Graph, t: nat) {
    && GraphOk(g) && t > 0 && t in g.byTask && OneWriterPerTask(g.commands) && PushesAwaited(g.commands)
    && AwaitHasReader(g)
    && forall c :: c in g.commands ==> g.commands[c].tid <= t
  }

  /** All earlier commands are flushed, and of task `t` at most transfers. */
  ghost predicate Partial(g: Graph, t: nat, flushed: set<Cid>) {
    && (forall c :: Earlier(g, t, c) ==> c in flushed)
    && (forall c :: c in flushed ==> Earlier(g, t, c) || IsTransfer(g, t, c))
  }

  lemma TransferReady(g: Graph, t: nat, flushed: set<Cid>, b: Cid)
    requires EdgesOk(g) && Partial(g, t, flushed) && IsTransfer(g, t, b)
    ensures DepsFlushed(g, flushed, b)
  {
    forall d | (b, d) in g.edges && d in g.commands && !g.commands[d].Nop?
      ensures d in flushed
    {
      assert EdgeOk(g.commands[b], g.commands[d]) && Earlier(g, t, d);
    }
  }

  /** A command that a task command depends on is an init command, flushed, or a transfer of the task. */
  lemma DependencyCases(g: Graph, t: nat, flushed: set<Cid>, x: Cid, d: Cid)
    requires EdgesOk(g) && Partial(g, t, flushed) && IsTaskCommand(g, t, x) && (x, d) in g.edges
    ensures d in g.commands && g.commands[d].nid == g.commands[x].nid
    ensures g.commands[d].Nop? || d in flushed || IsTransfer(g, t, d)
    ensures g.commands[d].TaskCommand? ==> g.commands[d].tid != t && d in flushed
  {
    assert EdgeOk(g.commands[x], g.commands[d]);
    if !g.commands[d].Nop? && g.commands[d].tid < t { assert Earlier(g, t, d); }
  }

  lemma SourceCases(g: Graph, t: nat, flushed: set<Cid>, a: Cid)
    requires CommandsOk(g) && Partial(g, t, flushed) && a in g.commands && g.commands[a].AwaitPush? && a in flushed
    ensures g.commands[a].source in g.commands && g.commands[g.commands[a].source].Push?
    ensures g.commands[a].source in flushed || IsTransfer(g, t, g.commands[a].source)
  {
    assert SourceOk(g.commands, g.commands[a]);
    assert g.commands[a].tid < t ==> Earlier(g, t, g.commands[a].source);
  }

  /** The dependencies of a task command and the PUSHes behind its AWAIT_PUSHes are flushed. */
  ghost predicate Fed(g: Graph, flushed: set<Cid>, x: Cid) {
    && DepsFlushed(g, flushed, x)
    && forall a :: (x, a) in g.edges && a in g.commands && g.commands[a].AwaitPush? ==> g.commands[a].source in flushed
  }

  /** When every task command is fed, no transfer of the task is left. */
  lemma AllTransfers(g: Graph, t: nat, flushed: set<Cid>, b: Cid)
    requires JustBuilt(g, t) && (forall x :: IsTaskCommand(g, t, x) ==> Fed(g, flushed, x)) && IsTransfer(g, t, b)
    ensures b in flushed
  {
    var a := b;
    if g.commands[b].Push? {
      assert Awaited(g.commands, b);
      a :| a in g.commands && g.commands[a].AwaitPush? && g.commands[a].source == b;
      assert SourceOk(g.commands, g.commands[a]);
    }
    var x :| FeedsTask(g, a, x);
    assert IsTaskCommand(g, t, x);
    assert Fed(g, flushed, x);
  }

  /** The only dependents of a task's commands are horizons, and no horizon depends on two of them. */
  lemma DependentsAreHorizons(g: Graph, t: nat, x: Cid, h: Cid)
    requires JustBuilt(g, t) && IsTaskCommand(g, t, x) && (h, x) in g.edges
    ensures h in g.commands && g.commands[h].Horizon? && g.commands[h].tid == t && HangsOff(g, t, h)
    ensures forall y :: IsTaskCommand(g, t, y) && (h, y) in g.edges ==> y == x
  {
    assert EdgeOk(g.commands[h], g.commands[x]);
  }

  lemma HorizonReady(g: Graph, t: nat, flushed: set<Cid>, h: Cid)
    requires EdgesOk(g) && h in g.commands && g.commands[h].Horizon? && g.commands[h].tid == t
    requires forall c :: Earlier(g, t, c) || IsTransfer(g, t, c) || IsTaskCommand(g, t, c) ==> c in flushed
    ensures DepsFlushed(g, flushed, h)
  {
    forall d | (h, d) in g.edges && d in g.commands && !g.commands[d].Nop?
      ensures d in flushed
    {
      assert EdgeOk(g.commands[h], g.commands[d]);
      assert Earlier(g, t, d) || IsTransfer(g, t, d) || IsTaskCommand(g, t, d);
    }
  }
}

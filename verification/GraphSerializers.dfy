/** The graph serializer: emits the commands of a task, its transfers and horizons in dependency order. */
module GraphSerializers {
  import opened Grid
  import opened Reachability
  import opened Commands
  import opened CommandGraphs
  import opened GeneratorState
  import opened FlushOrder
  import opened Neighbours

  class GraphSerializer {
    const cdag: CommandGraph
    var flushed: set<Cid>
    var log: seq<Packet>          // what the flush callback has received

    constructor (cdag: CommandGraph)
      ensures this.cdag == cdag && flushed == {} && log == []
    {
      this.cdag := cdag;
      flushed, log := {}, [];
    }

    predicate IsFlushed(c: Cid)
      requires c in cdag.commands
      reads this, cdag
    {
      cdag.commands[c].Nop? || c in flushed
    }

    method SerializeAndFlush(x: Cid, deps: seq<Cid>)
      requires x in cdag.commands && !IsFlushed(x)
      requires LogOk(cdag.Value(), log, flushed) && DepsOf(cdag.Value(), x, deps)
      requires DepsFlushed(cdag.Value(), flushed, x)
      modifies this
      ensures flushed == old(flushed) + {x} && LogOk(cdag.Value(), log, flushed)
      ensures log == old(log) + [Packet(cdag.commands[x].nid, x, cdag.commands[x], deps)]
    {
      EmitKeepsLog(cdag.Value(), log, flushed, x, deps);
      log := log + [Packet(cdag.commands[x].nid, x, cdag.commands[x], deps)];
      flushed := flushed + {x};
    }

    /** Emits a transfer or a horizon; its own dependencies must have been flushed. */
    method FlushDependency(x: Cid)
      requires EdgesOk(cdag.Value()) && x in cdag.commands && !IsFlushed(x) && !cdag.commands[x].TaskCommand?
      requires LogOk(cdag.Value(), log, flushed) && DepsFlushed(cdag.Value(), flushed, x)
      modifies this
      ensures flushed == old(flushed) + {x} && LogOk(cdag.Value(), log, flushed) && old(log) <= log
    {
      var second := Dependencies(cdag.edges, x);
      var deps := [];
      for i := 0 to |second|
        invariant deps == second[..i]
      {
        assert second[i] in second;
        assert IsFlushed(second[i]);
        deps := deps + [second[i]];
      }
      SerializeAndFlush(x, deps);
    }

    /** Collects the dependencies of a task command, emitting its transfers on the way. */
    method FlushDependencies(t: nat, x: Cid) returns (deps: seq<Cid>)
      requires JustBuilt(cdag.Value(), t) && IsTaskCommand(cdag.Value(), t, x)
      requires LogOk(cdag.Value(), log, flushed) && Partial(cdag.Value(), t, flushed)
      modifies this
      ensures LogOk(cdag.Value(), log, flushed) && Partial(cdag.Value(), t, flushed)
      ensures old(flushed) <= flushed && old(log) <= log
      ensures DepsOf(cdag.Value(), x, deps) && Fed(cdag.Value(), flushed, x)
    {
      hide LogOk, Partial, DepsFlushed, OneWriterPerTask, PushesAwaited, AwaitHasReader, ByTaskOk, FrontsOk;
      ghost var g := cdag.Value();
      var first := Dependencies(cdag.edges, x);
      deps := [];
      for i := 0 to |first|
        invariant LogOk(g, log, flushed) && Partial(g, t, flushed) && old(flushed) <= flushed && old(log) <= log
        invariant forall j :: 0 <= j < i ==> DoneWith(g, flushed, first[j])
        invariant forall j :: 0 <= j < i ==> (first[j] in deps <==> !g.commands[first[j]].Nop?)
        invariant forall d :: d in deps ==> d in first[..i]
      {
        var d := first[i];
        assert d in first;
        DependencyCases(g, t, flushed, x, d);
        if !cdag.commands[d].Nop? {
          deps := deps + [d];
          assert cdag.commands[d].nid == cdag.commands[x].nid;
          if cdag.commands[d].TaskCommand? {
            assert cdag.commands[d].tid != cdag.commands[x].tid && IsFlushed(d);
          } else {
            FlushTransfer(t, d);
          }
        }
      }
      AllDone(g, flushed, x, first);
    }

    /** Emits a transfer unless that has happened, and with an AWAIT_PUSH also its PUSH. */
    method FlushTransfer(t: nat, d: Cid)
      requires JustBuilt(cdag.Value(), t) && d in cdag.commands && (d in flushed || IsTransfer(cdag.Value(), t, d))
      requires LogOk(cdag.Value(), log, flushed) && Partial(cdag.Value(), t, flushed)
      modifies this
      ensures LogOk(cdag.Value(), log, flushed) && Partial(cdag.Value(), t, flushed)
      ensures old(flushed) <= flushed && old(log) <= log
      ensures DoneWith(cdag.Value(), flushed, d)
    {
      hide LogOk, DepsFlushed, OneWriterPerTask, PushesAwaited, AwaitHasReader, ByTaskOk, FrontsOk;
      ghost var g := cdag.Value();
      if !IsFlushed(d) {
        TransferReady(g, t, flushed, d);
        FlushDependency(d);
      }
      if cdag.commands[d].AwaitPush? {
        SourceCases(g, t, flushed, d);
        var push := cdag.commands[d].source;
        if !IsFlushed(push) {
          TransferReady(g, t, flushed, push);
          FlushDependency(push);
        }
      }
    }

    /** First pass over the task commands: emits their transfers, and collects dependencies and horizons. */
    method FlushTransfers(t: nat, cmds: seq<Cid>) returns (cmdDeps: seq<seq<Cid>>, horizons: seq<Cid>)
      requires JustBuilt(cdag.Value(), t) && cmds == cdag.byTask[t]
      requires LogOk(cdag.Value(), log, flushed) && Partial(cdag.Value(), t, flushed)
      modifies this
      ensures LogOk(cdag.Value(), log, flushed) && Partial(cdag.Value(), t, flushed) && old(flushed) <= flushed
      ensures old(log) <= log
      ensures |cmdDeps| == |cmds|
      ensures forall j :: 0 <= j < |cmds| ==>
                            DepsOf(cdag.Value(), cmds[j], cmdDeps[j]) && Fed(cdag.Value(), flushed, cmds[j])
      ensures HorizonsOn(cdag.Value(), t, cmds, |cmds|, horizons)
    {
      hide LogOk, Partial, DepsOf, Fed, HorizonsOn, OneWriterPerTask, PushesAwaited, AwaitHasReader, FrontsOk;
      ghost var g := cdag.Value();
      cmdDeps, horizons := [], [];
      NoHorizons(g, t, cmds);
      for i := 0 to |cmds|
        invariant LogOk(g, log, flushed) && Partial(g, t, flushed) && old(flushed) <= flushed && old(log) <= log
        invariant |cmdDeps| == i
        invariant forall j :: 0 <= j < i ==> DepsOf(g, cmds[j], cmdDeps[j]) && Fed(g, flushed, cmds[j])
        invariant HorizonsOn(g, t, cmds, i, horizons)
      {
        ghost var before := flushed;
        assert IsTaskCommand(g, t, cmds[i]);
        var deps := FlushDependencies(t, cmds[i]);
        FedStays(g, before, flushed, cmds, i);
        cmdDeps := cmdDeps + [deps];
        var dependents := Dependents(cdag.edges, cmds[i]);
        MoreHorizons(g, t, cmds, i, horizons, dependents);
        assert forall h :: h in dependents ==> cdag.commands[h].Horizon?;
        horizons := horizons + dependents;
      }
    }

    method FlushTaskCommands(t: nat, cmds: seq<Cid>, cmdDeps: seq<seq<Cid>>)
      requires JustBuilt(cdag.Value(), t) && cmds == cdag.byTask[t] && |cmdDeps| == |cmds|
      requires LogOk(cdag.Value(), log, flushed) && Partial(cdag.Value(), t, flushed)
      requires forall j :: 0 <= j < |cmds| ==>
                             DepsOf(cdag.Value(), cmds[j], cmdDeps[j]) && DepsFlushed(cdag.Value(), flushed, cmds[j])
      modifies this
      ensures LogOk(cdag.Value(), log, flushed) && old(log) <= log
      ensures forall c :: c in flushed <==> c in old(flushed) || IsTaskCommand(cdag.Value(), t, c)
    {
      hide LogOk, DepsOf, OneWriterPerTask, PushesAwaited, AwaitHasReader, FrontsOk;
      ghost var g := cdag.Value();
      for i := 0 to |cmds|
        invariant LogOk(g, log, flushed) && old(log) <= log && old(flushed) <= flushed
        invariant forall c :: c in flushed <==> c in old(flushed) || c in cmds[..i]
      {
        assert IsTaskCommand(g, t, cmds[i]);
        assert DepsFlushed(g, old(flushed), cmds[i]);
        SerializeAndFlush(cmds[i], cmdDeps[i]);
      }
      assert cmds[..|cmds|] == cmds;
    }

    method FlushHorizons(t: nat, horizons: seq<Cid>)
      requires JustBuilt(cdag.Value(), t) && LogOk(cdag.Value(), log, flushed)
      requires forall c :: Earlier(cdag.Value(), t, c) ==> c in flushed
      requires forall c :: IsTransfer(cdag.Value(), t, c) || IsTaskCommand(cdag.Value(), t, c) ==> c in flushed
      requires forall h :: h in horizons ==>
            h in cdag.commands && cdag.commands[h].Horizon? && cdag.commands[h].tid == t && h !in flushed
      requires forall i, j :: 0 <= i < j < |horizons| ==> horizons[i] != horizons[j]
      modifies this
      ensures LogOk(cdag.Value(), log, flushed) && old(log) <= log
      ensures forall c :: c in flushed <==> c in old(flushed) || c in horizons
    {
      hide LogOk, DepsFlushed, OneWriterPerTask, PushesAwaited, AwaitHasReader, FrontsOk, ByTaskOk;
      ghost var g := cdag.Value();
      for i := 0 to |horizons|
        invariant LogOk(g, log, flushed) && old(log) <= log && old(flushed) <= flushed
        invariant forall c :: c in flushed <==> c in old(flushed) || c in horizons[..i]
      {
        assert horizons[i] in horizons;
        HorizonReady(g, t, flushed, horizons[i]);
        FlushDependency(horizons[i]);
      }
      assert horizons[..|horizons|] == horizons;
    }

    /** Emits the commands of a task with everything that they need, and the horizons on top of them. */
    method Flush(t: nat)
      requires JustBuilt(cdag.Value(), t) && LogOk(cdag.Value(), log, flushed)
      requires forall c :: c in flushed <==> Earlier(cdag.Value(), t, c)
      modifies this
      ensures LogOk(cdag.Value(), log, flushed) && old(log) <= log
      ensures forall c :: c in flushed <==> Earlier(cdag.Value(), t, c) || EmittedBy(cdag.Value(), t, c)
    {
      hide LogOk, DepsOf, JustBuilt, HorizonsOn, Fed, GraphOk, DepsFlushed, EmittedBy;
      ghost var g := cdag.Value();
      assert t in g.byTask by { BuiltParts(g, t); }
      var cmds := cdag.byTask[t];
      var cmdDeps, horizons := FlushTransfers(t, cmds);
      forall j | 0 <= j < |cmds|
        ensures DepsFlushed(g, flushed, cmds[j])
      {
        FedParts(g, flushed, cmds[j]);
      }
      TransfersFlushed(g, t, flushed, cmds);
      FlushTaskCommands(t, cmds, cmdDeps);
      HorizonsAre(g, t, cmds, horizons);
      FlushHorizons(t, horizons);
      EmittedAre(g, t, flushed, horizons);
    }
  }

  lemma BuiltParts(g: Graph, t: nat)
    requires JustBuilt(g, t)
    ensures t in g.byTask
  {
  }

  lemma FedParts(g: Graph, flushed: set<Cid>, x: Cid)
    requires Fed(g, flushed, x)
    ensures DepsFlushed(g, flushed, x)
  {
  }

  lemma TransfersFlushed(g: Graph, t: nat, flushed: set<Cid>, cmds: seq<Cid>)
    requires JustBuilt(g, t) && cmds == g.byTask[t] && forall j :: 0 <= j < |cmds| ==> Fed(g, flushed, cmds[j])
    ensures forall b :: IsTransfer(g, t, b) ==> b in flushed
  {
    hide Fed;
    forall b | IsTransfer(g, t, b)
      ensures b in flushed
    {
      forall x | IsTaskCommand(g, t, x)
        ensures Fed(g, flushed, x)
      {
        assert x in cmds;
      }
      AllTransfers(g, t, flushed, b);
    }
  }

  lemma FedStays(g: Graph, before: set<Cid>, after: set<Cid>, cmds: seq<Cid>, i: nat)
    requires i <= |cmds| && before <= after && forall j :: 0 <= j < i ==> Fed(g, before, cmds[j])
    ensures forall j :: 0 <= j < i ==> Fed(g, after, cmds[j])
  {
  }

  /** The horizons on top of the first `i` commands, without repetition. */
  ghost predicate HorizonsOn(g: Graph, t: nat, cmds: seq<Cid>, i: nat, horizons: seq<Cid>)
    requires i <= |cmds|
  {
    && (forall h :: h in horizons <==> exists j :: 0 <= j < i && (h, cmds[j]) in g.edges)
    && (forall k, l :: 0 <= k < l < |horizons| ==> horizons[k] != horizons[l])
  }

  lemma NoHorizons(g: Graph, t: nat, cmds: seq<Cid>)
    ensures HorizonsOn(g, t, cmds, 0, [])
  {
  }

  lemma MoreHorizons(g: Graph, t: nat, cmds: seq<Cid>, i: nat, horizons: seq<Cid>, more: seq<Cid>)
    requires JustBuilt(g, t) && cmds == g.byTask[t] && i < |cmds| && HorizonsOn(g, t, cmds, i, horizons)
    requires forall h :: h in more <==> (h, cmds[i]) in g.edges
    requires forall k, l :: 0 <= k < l < |more| ==> more[k] != more[l]
    ensures HorizonsOn(g, t, cmds, i + 1, horizons + more)
    ensures forall h :: h in more ==> h in g.commands && g.commands[h].Horizon?
  {
    assert IsTaskCommand(g, t, cmds[i]);
    forall h | h in more
      ensures h !in horizons && h in g.commands && g.commands[h].Horizon?
    {
      DependentsAreHorizons(g, t, cmds[i], h);
      assert forall j :: 0 <= j < i ==> IsTaskCommand(g, t, cmds[j]) && cmds[j] != cmds[i];
    }
    var all := horizons + more;
    forall k, l | 0 <= k < l < |all|
      ensures all[k] != all[l]
    {
      if k < |horizons| <= l { assert all[k] in horizons && all[l] in more; }
    }
  }

  lemma HorizonsAre(g: Graph, t: nat, cmds: seq<Cid>, horizons: seq<Cid>)
    requires JustBuilt(g, t) && cmds == g.byTask[t] && HorizonsOn(g, t, cmds, |cmds|, horizons)
    ensures forall h :: h in horizons ==> h in g.commands && g.commands[h].Horizon? && g.commands[h].tid == t
    ensures forall h :: h in horizons <==> HangsOff(g, t, h)
    ensures forall k, l :: 0 <= k < l < |horizons| ==> horizons[k] != horizons[l]
  {
    forall h | h in horizons
      ensures h in g.commands && g.commands[h].Horizon? && g.commands[h].tid == t && HangsOff(g, t, h)
    {
      var j :| 0 <= j < |cmds| && (h, cmds[j]) in g.edges;
      assert IsTaskCommand(g, t, cmds[j]);
      DependentsAreHorizons(g, t, cmds[j], h);
    }
    forall h | HangsOff(g, t, h)
      ensures h in horizons
    {
      var c: Cid :| IsTaskCommand(g, t, c) && (h, c) in g.edges;
      assert c in cmds;
    }
  }

  lemma EmittedAre(g: Graph, t: nat, flushed: set<Cid>, horizons: seq<Cid>)
    requires forall h :: h in horizons <==> HangsOff(g, t, h)
    requires forall h :: h in horizons ==> h in g.commands && g.commands[h].Horizon? && g.commands[h].tid == t
    requires forall c :: c in flushed <==>
                           Earlier(g, t, c) || IsTransfer(g, t, c) || IsTaskCommand(g, t, c) || c in horizons
    ensures forall c :: c in flushed <==> Earlier(g, t, c) || EmittedBy(g, t, c)
  {
    hide HangsOff;
  }

  ghost predicate DoneWith(g: Graph, flushed: set<Cid>, d: Cid) {
    d in g.commands && (g.commands[d].Nop?
                        || (d in flushed && (g.commands[d].AwaitPush? ==> g.commands[d].source in flushed)))
  }

  lemma AllDone(g: Graph, flushed: set<Cid>, x: Cid, first: seq<Cid>)
    requires forall d :: (x, d) in g.edges ==> d in first
    requires forall j :: 0 <= j < |first| ==> DoneWith(g, flushed, first[j])
    ensures Fed(g, flushed, x)
  {
    forall d | (x, d) in g.edges
      ensures DoneWith(g, flushed, d)
    {
      assert d in first;
    }
  }
}

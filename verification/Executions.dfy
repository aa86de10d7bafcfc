/**
  * All executors together, fed with what the serializer emits: their commands take effect in an order the graph allows.
  */
module Executions {
  import opened Grid
  import opened Reachability
  import opened Commands
  import opened GeneratorState
  import opened FlushOrder
  import opened JobCounting
  import opened ExecutorState
  import opened NodeStreams
  import opened SingleNodeView
  import opened Orders

  /** The executors of the nodes at some moment, and the messages that each of them has taken from its queue. */
  datatype Moment = Moment(execs: map<nat, Exec>, taken: map<nat, seq<Message>>)

  /** The executor of a node keeps its invariant, and takes the packets of its node in the order of their emission. */
  ghost predicate NodeAt(g: Graph, log: seq<Packet>, n: nat, stream: seq<Message>, moment: Moment)
    requires NoInits(log)
  {
    && n in moment.execs && n in moment.taken
    && var e, taken := moment.execs[n], moment.taken[n];
    && ExecOk(e) && HistoryOk(e, taken) && NeedsExact(e, taken, Inits(g))
    && taken <= stream && Works(stream) == NodeStream(log, n)
  }

  /**
    * The command takes effect at this moment: it has been started, commands of its node that have been reported done
    * have taken effect before, and so has the PUSH that an AWAIT_PUSH waits for.
    */
  ghost predicate EffectAt(g: Graph, c: Cid, before: seq<Cid>, moment: Moment) {
    && c in g.commands && g.commands[c].nid in moment.execs
    && c in moment.execs[g.commands[c].nid].started
    && (forall d :: d in moment.execs[g.commands[c].nid].completed ==> d in before)
    && (g.commands[c].AwaitPush? ==> g.commands[c].source in before)
  }

  ghost predicate Execution(g: Graph, log: seq<Packet>, streams: map<nat, seq<Message>>, moments: seq<Moment>,
                            order: seq<Cid>)
    requires NoInits(log)
  {
    && |moments| == |order|
    && (forall i, j :: 0 <= i < j < |order| ==> order[i] != order[j])
    && (forall k :: 0 <= k < |order| ==> order[k] in g.commands)
    && forall k :: 0 <= k < |order| ==>
                     && g.commands[order[k]].nid in streams
                     && NodeAt(g, log, g.commands[order[k]].nid, streams[g.commands[order[k]].nid], moments[k])
                     && EffectAt(g, order[k], order[..k], moments[k])
  }

  lemma {:induction false} AmongWorks(stream: seq<Message>, m: Message)
    requires m in stream && m.Work?
    ensures m in Works(stream)
  {
    var rest, last := stream[..|stream| - 1], stream[|stream| - 1];
    assert stream == rest + [last];
    if m in rest { AmongWorks(rest, m); }
  }

  /** What a started command depends on has been reported done, apart from init commands. */
  lemma StartedAfterDependencies(g: Graph, log: seq<Packet>, flushed: set<Cid>, n: nat, stream: seq<Message>,
                                 moment: Moment, c: Cid, d: Cid)
    requires LogOk(g, log, flushed) && NoInits(log) && NodeAt(g, log, n, stream, moment) && c in moment.execs[n].started
    requires (c, d) in g.edges && d in g.commands && !g.commands[d].Nop?
    ensures d in moment.execs[n].completed
  {
    var e, taken := moment.execs[n], moment.taken[n];
    var i := TakenAt(e, taken, c);
    assert stream[i] == taken[i];
    AmongWorks(stream, taken[i]);
    var k := PacketOf(log, n, taken[i]);
    ListsDependency(g, log, flushed, k, d);
    hide LogOk, NodeStream, Works, JobsOk, NeedsOk;
    assert d in e.needs[c];
  }

  lemma TakenAt(e: Exec, taken: seq<Message>, c: Cid) returns (i: nat)
    requires HistoryOk(e, taken) && c in e.started
    ensures i < |taken| && taken[i].Work? && taken[i].cid == c
  {
    assert SentBefore(taken, |taken|, c);
    i :| 0 <= i < |taken| && taken[i].Work? && taken[i].cid == c;
  }

  lemma ListsDependency(g: Graph, log: seq<Packet>, flushed: set<Cid>, k: nat, d: Cid)
    requires LogOk(g, log, flushed) && k < |log| && (log[k].cid, d) in g.edges && d in g.commands && !g.commands[d].Nop?
    ensures d in log[k].deps
  {
    assert PacketOk(g, log, k);
  }

  /** However fast the executors are, the order in which commands take effect is one that the command graph allows. */
  lemma ExecutionIsLegal(g: Graph, log: seq<Packet>, flushed: set<Cid>, streams: map<nat, seq<Message>>,
                         moments: seq<Moment>, order: seq<Cid>)
    requires EdgesOk(g) && LogOk(g, log, flushed) && NoInits(log) && Execution(g, log, streams, moments, order)
    ensures Legal(g, order)
  {
    hide LogOk, NodeAt;
    forall k, d | 0 <= k < |order| && (order[k], d) in Waits(g)
      ensures RanBefore(order, k, d)
    {
      assert EffectAt(g, order[k], order[..k], moments[k]);
      WaitedFor(g, log, flushed, streams, moments, order, k, d);
      var j :| 0 <= j < k && order[..k][j] == d;
    }
    forall k | 0 <= k < |order|
      ensures !g.commands[order[k]].Nop?
    {
      EmittedCommand(g, log, flushed, g.commands[order[k]].nid, streams[g.commands[order[k]].nid], moments[k],
                     order[k]);
    }
  }

  lemma WaitedFor(g: Graph, log: seq<Packet>, flushed: set<Cid>, streams: map<nat, seq<Message>>, moments: seq<Moment>,
                  order: seq<Cid>,
                  k: nat, d: Cid)
    requires EdgesOk(g) && LogOk(g, log, flushed) && NoInits(log) && Execution(g, log, streams, moments, order)
    requires k < |order| && (order[k], d) in Waits(g)
    ensures d in order[..k]
  {
    hide LogOk, NodeAt;
    var c := order[k];
    assert EffectAt(g, c, order[..k], moments[k]);
    if (c, d) in g.edges && d in g.commands && !g.commands[d].Nop? {
      var n := g.commands[c].nid;
      StartedAfterDependencies(g, log, flushed, n, streams[n], moments[k], c, d);
    }
  }

  lemma EmittedCommand(g: Graph, log: seq<Packet>, flushed: set<Cid>, n: nat, stream: seq<Message>, moment: Moment,
                       c: Cid)
    requires LogOk(g, log, flushed) && NoInits(log) && NodeAt(g, log, n, stream, moment) && c in moment.execs[n].started
    ensures c in g.commands && !g.commands[c].Nop?
  {
    var i := TakenAt(moment.execs[n], moment.taken[n], c);
    assert stream[i] == moment.taken[n][i];
    AmongWorks(stream, stream[i]);
    var k := PacketOf(log, n, stream[i]);
    assert PacketOk(g, log, k);
  }

  /**
    * From the scheduler to the effects on memory: if every writer of the cell waits for the earlier readers of it, each
    * command finds the version of the sequential program, whatever the executors do.
    */
  lemma ExecutionReadsCurrentVersion(s: State, log: seq<Packet>, flushed: set<Cid>, streams: map<nat, seq<Message>>,
                                     moments: seq<Moment>,
                                     order: seq<Cid>, k: nat, p: Cell)
    requires Inv(s) && LogOk(s.g, log, flushed) && NoInits(log) && Execution(s.g, log, streams, moments, order)
    requires forall n: nat :: (n, p) !in s.late
    ensures Legal(s.g, order) && ViewAt(s.g, order, k, p)
  {
    hide *;
    EdgesKnown(s);
    ExecutionIsLegal(s.g, log, flushed, streams, moments, order);
    OnTimeOrdered(s, p);
    ReadsCurrentVersion(s, order, k, p);
  }

  lemma EdgesKnown(s: State)
    requires Inv(s)
    ensures EdgesOk(s.g)
  {
  }
}

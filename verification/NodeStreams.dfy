/** What the serializer emits for one node is what the executor of that node relies on. */
module NodeStreams {
  import opened Reachability
  import opened Commands
  import opened FlushOrder
  import opened JobCounting
  import opened ExecutorState

  function KindOf(c: Command): Kind
    requires !c.Nop?
  {
    match c
    case Push(_, _, _, _) => PushJob
    case AwaitPush(_, _, _, _) => AwaitPushJob
    case TaskCommand(_, _, kind, _) => if kind == Compute then ComputeJob else MasterAccessJob
    case Horizon(_, _) => HorizonJob
  }

  /** The packets of node `n` in the order of their emission. */
  function NodeStream(log: seq<Packet>, n: nat): seq<Message>
    requires forall p :: p in log ==> !p.command.Nop?
  {
    if log == [] then []
    else
      var p := log[|log| - 1];
      NodeStream(log[..|log| - 1], n) + (if p.nid == n then [Work(p.cid, KindOf(p.command), p.deps)] else [])
  }

  ghost predicate PacketsOk(g: Graph, log: seq<Packet>) {
    && (forall i: nat :: i < |log| ==> PacketOk(g, log, i))
    && (forall i, j :: 0 <= i < j < |log| ==> log[i].cid != log[j].cid)
  }

  lemma PrefixOk(g: Graph, log: seq<Packet>)
    requires PacketsOk(g, log) && |log| > 0
    ensures PacketsOk(g, log[..|log| - 1])
  {
    var rest := log[..|log| - 1];
    forall i: nat | i < |rest|
      ensures PacketOk(g, rest, i)
    {
      assert PacketOk(g, log, i);
      forall d | EmittedBefore(log, i, d)
        ensures EmittedBefore(rest, i, d)
      {
        var j :| 0 <= j < i && log[j].cid == d;
        assert rest[j].cid == d;
      }
    }
  }

  ghost predicate NoInits(log: seq<Packet>) {
    forall p :: p in log ==> !p.command.Nop?
  }

  lemma CommandsOnly(g: Graph, log: seq<Packet>)
    requires PacketsOk(g, log)
    ensures NoInits(log)
  {
    forall p | p in log
      ensures !p.command.Nop?
    {
      var i :| 0 <= i < |log| && log[i] == p;
      assert PacketOk(g, log, i);
    }
  }

  /** A command is in the stream of its node exactly when it has been emitted. */
  lemma {:induction false} SentIffEmitted(log: seq<Packet>, n: nat, c: Cid)
    requires NoInits(log)
    ensures var stream := NodeStream(log, n);
            SentBefore(stream, |stream|, c) <==> exists k :: 0 <= k < |log| && log[k].cid == c && log[k].nid == n
  {
    if log != [] {
      var rest, p := log[..|log| - 1], log[|log| - 1];
      SentIffEmitted(rest, n, c);
      var before, stream := NodeStream(rest, n), NodeStream(log, n);
      if p.nid == n && p.cid == c {
        assert stream[|before|].cid == c && log[|rest|].cid == c;
      } else if SentBefore(before, |before|, c) {
        var j :| 0 <= j < |before| && before[j].Work? && before[j].cid == c;
        assert stream[j].cid == c;
        var k :| 0 <= k < |rest| && rest[k].cid == c && rest[k].nid == n;
        assert log[k].cid == c;
      }
    }
  }

  /** Commands only, each once; dependencies are init commands or earlier in the stream. */
  ghost predicate Closed(g: Graph, stream: seq<Message>) {
    && (forall i: nat :: i < |stream| ==>
                           stream[i].Work? && stream[i].cid in g.commands && !g.commands[stream[i].cid].Nop?)
    && (forall i, j :: 0 <= i < j < |stream| ==> stream[i].Work? && stream[j].Work? && stream[i].cid != stream[j].cid)
    && (forall i: nat, d: Cid :: i < |stream| && d in stream[i].deps ==>
                                   (d in g.commands && g.commands[d].Nop?) || SentBefore(stream, i, d))
  }

  lemma {:induction false} StreamClosed(g: Graph, log: seq<Packet>, n: nat)
    requires EdgesOk(g) && PacketsOk(g, log)
    ensures NoInits(log) && Closed(g, NodeStream(log, n))
  {
    hide Closed, PacketsOk, NoInits, SentBefore;
    CommandsOnly(g, log);
    if log == [] {
      NothingClosed(g);
    } else {
      var rest, p := log[..|log| - 1], log[|log| - 1];
      PrefixOk(g, log);
      StreamClosed(g, rest, n);
      if p.nid == n {
        LastPacket(g, log, n);
        OneMoreClosed(g, NodeStream(rest, n), Work(p.cid, KindOf(p.command), p.deps));
      } else {
        var none: seq<Message> := [];
        assert NodeStream(log, n) == NodeStream(rest, n) + none == NodeStream(rest, n);
      }
    }
  }

  lemma NothingClosed(g: Graph)
    ensures Closed(g, [])
  {
  }

  /** The last packet is new to the stream of its node, and its dependencies are init commands or in that stream. */
  lemma LastPacket(g: Graph, log: seq<Packet>, n: nat)
    requires EdgesOk(g) && PacketsOk(g, log) && |log| > 0 && NoInits(log) && NoInits(log[..|log| - 1])
    requires log[|log| - 1].nid == n
    ensures var p, before := log[|log| - 1], NodeStream(log[..|log| - 1], n);
            && p.cid in g.commands && !g.commands[p.cid].Nop? && !SentBefore(before, |before|, p.cid)
            && forall d :: d in p.deps ==> d in g.commands && (g.commands[d].Nop? || SentBefore(before, |before|, d))
  {
    var k := |log| - 1;
    var rest, p := log[..k], log[k];
    assert PacketOk(g, log, k);
    SentIffEmitted(rest, n, p.cid);
    hide NodeStream, PacketOk;
    forall d | d in p.deps
      ensures d in g.commands && (g.commands[d].Nop? || SentBefore(NodeStream(rest, n), |NodeStream(rest, n)|, d))
    {
      KnownDependency(g, log, d);
      if !g.commands[d].Nop? { DependencySent(g, log, n, d); }
    }
  }

  lemma KnownDependency(g: Graph, log: seq<Packet>, d: Cid)
    requires PacketsOk(g, log) && |log| > 0 && d in log[|log| - 1].deps
    ensures d in g.commands
  {
    assert PacketOk(g, log, |log| - 1);
  }

  lemma DependencySent(g: Graph, log: seq<Packet>, n: nat, d: Cid)
    requires EdgesOk(g) && PacketsOk(g, log) && |log| > 0 && log[|log| - 1].nid == n && NoInits(log)
    requires d in log[|log| - 1].deps && d in g.commands && !g.commands[d].Nop?
    ensures var before := NodeStream(log[..|log| - 1], n); SentBefore(before, |before|, d)
  {
    var k := |log| - 1;
    var rest, p := log[..k], log[k];
    assert PacketOk(g, log, k);
    assert EdgeOk(g.commands[p.cid], g.commands[d]);
    var j :| 0 <= j < k && log[j].cid == d;
    assert PacketOk(g, log, j) && rest[j] == log[j];
    SentIffEmitted(rest, n, d);
  }

  lemma OneMoreClosed(g: Graph, stream: seq<Message>, m: Message)
    requires Closed(g, stream) && m.Work? && m.cid in g.commands && !g.commands[m.cid].Nop?
    requires !SentBefore(stream, |stream|, m.cid)
    requires forall d :: d in m.deps ==> d in g.commands && (g.commands[d].Nop? || SentBefore(stream, |stream|, d))
    ensures Closed(g, stream + [m])
  {
    var stream' := stream + [m];
    forall i: nat, d: Cid | i <= |stream| && SentBefore(stream, i, d)
      ensures SentBefore(stream', i, d)
    {
      var j :| 0 <= j < i && stream[j].Work? && stream[j].cid == d;
      assert stream'[j].cid == d;
    }
  }

  /** The kind of job says what the command is. */
  ghost predicate KindFits(c: Command, k: Kind) {
    && (k == PushJob <==> c.Push?) && (k == AwaitPushJob <==> c.AwaitPush?) && (k == HorizonJob <==> c.Horizon?)
    && (k == ComputeJob <==> c.TaskCommand? && c.kind == Compute)
    && (k == MasterAccessJob <==> c.TaskCommand? && c.kind == MasterAccess)
  }

  /** What a node is sent about a command: that it is to run here, of which kind it is, and what it depends on. */
  lemma {:induction false} MessageSays(g: Graph, log: seq<Packet>, flushed: set<Cid>, n: nat, m: Message)
    requires LogOk(g, log, flushed) && NoInits(log) && m in NodeStream(log, n)
    ensures m.Work? && m.cid in g.commands && g.commands[m.cid].nid == n
    ensures KindFits(g.commands[m.cid], m.kind) && DepsOf(g, m.cid, m.deps)
  {
    hide LogOk;
    var k := PacketOf(log, n, m);
    assert PacketOk(g, log, k) by { PacketIsOk(g, log, flushed, k); }
  }

  lemma PacketIsOk(g: Graph, log: seq<Packet>, flushed: set<Cid>, k: nat)
    requires LogOk(g, log, flushed) && k < |log|
    ensures PacketOk(g, log, k)
  {
  }

  lemma {:induction false} PacketOf(log: seq<Packet>, n: nat, m: Message) returns (k: nat)
    requires NoInits(log) && m in NodeStream(log, n)
    ensures k < |log| && log[k].nid == n && !log[k].command.Nop?
    ensures m == Work(log[k].cid, KindOf(log[k].command), log[k].deps)
  {
    var rest, p := log[..|log| - 1], log[|log| - 1];
    if m in NodeStream(rest, n) {
      k := PacketOf(rest, n, m);
    } else {
      k := |log| - 1;
    }
  }

  ghost function Inits(g: Graph): set<Cid> {
    set c | c in g.commands && g.commands[c].Nop?
  }

  /** The commands among the messages. */
  function Works(stream: seq<Message>): seq<Message> {
    if stream == [] then []
    else
      var m := stream[|stream| - 1];
      Works(stream[..|stream| - 1]) + (if m.Work? then [m] else [])
  }

  lemma {:induction false} SentAmongWorks(stream: seq<Message>, c: Cid)
    ensures SentBefore(stream, |stream|, c) <==> SentBefore(Works(stream), |Works(stream)|, c)
  {
    if stream != [] {
      var rest, m := stream[..|stream| - 1], stream[|stream| - 1];
      SentAmongWorks(rest, c);
      assert stream == rest + [m];
      SentMore(rest, m, c);
      SentMore(Works(rest), m, c);
      if !m.Work? { assert Works(stream) == Works(rest); }
    }
  }

  lemma SentMore(ms: seq<Message>, m: Message, c: Cid)
    ensures SentBefore(ms + [m], |ms + [m]|, c) <==> SentBefore(ms, |ms|, c) || (m.Work? && m.cid == c)
  {
    if SentBefore(ms, |ms|, c) {
      var j :| 0 <= j < |ms| && ms[j].Work? && ms[j].cid == c;
      assert (ms + [m])[j].cid == c;
    }
    if m.Work? && m.cid == c { assert (ms + [m])[|ms|] == m; }
  }

  /** The next command is new, and its dependencies have been sent. */
  ghost predicate NextOk(stream: seq<Message>, inits: set<Cid>, m: Message) {
    m.Work? ==> && m.cid !in inits && !SentBefore(stream, |stream|, m.cid)
                && forall d :: d in m.deps ==> d in inits || SentBefore(stream, |stream|, d)
  }

  lemma StreamGrows(stream: seq<Message>, inits: set<Cid>, m: Message)
    requires StreamOk(stream, inits) && NextOk(stream, inits, m) && ShutdownLast(stream + [m])
    ensures StreamOk(stream + [m], inits)
  {
    var stream' := stream + [m];
    forall i: nat, d: Cid | i <= |stream| && SentBefore(stream, i, d)
      ensures SentBefore(stream', i, d)
    {
      var j :| 0 <= j < i && stream[j].Work? && stream[j].cid == d;
      assert stream'[j].cid == d;
    }
  }

  lemma LastIsOk(stream: seq<Message>, inits: set<Cid>, m: Message)
    requires StreamOk(stream + [m], inits)
    ensures StreamOk(stream, inits) && NextOk(stream, inits, m)
  {
    var all, n := stream + [m], |stream|;
    forall i: nat, d | i <= n
      ensures SentBefore(all, i, d) <==> SentBefore(stream, i, d)
    {
      assert forall j :: 0 <= j < i ==> all[j] == stream[j];
    }
    assert all[n] == m;
    forall i: nat | i < n
      ensures all[i] == stream[i] && !stream[i].Shutdown?
    {
    }
  }

  /** Messages other than commands may come between the commands. */
  lemma {:induction false} InterleavedOk(stream: seq<Message>, inits: set<Cid>)
    requires StreamOk(Works(stream), inits) && ShutdownLast(stream)
    ensures StreamOk(stream, inits)
  {
    if stream != [] {
      var rest, m := stream[..|stream| - 1], stream[|stream| - 1];
      assert stream == rest + [m];
      if m.Work? { LastIsOk(Works(rest), inits, m); } else { assert Works(stream) == Works(rest); }
      InterleavedOk(rest, inits);
      forall c
        ensures SentBefore(rest, |rest|, c) <==> SentBefore(Works(rest), |Works(rest)|, c)
      {
        SentAmongWorks(rest, c);
      }
      StreamGrows(rest, inits, m);
    }
  }

  /**
    * The executor of every node is sent each command once and after its dependencies, with any SYNC and SHUTDOWN in
    * between.
    */
  lemma NodeStreamOk(g: Graph, log: seq<Packet>, flushed: set<Cid>, n: nat, stream: seq<Message>)
    requires EdgesOk(g) && LogOk(g, log, flushed) && NoInits(log) && Works(stream) == NodeStream(log, n)
    requires ShutdownLast(stream)
    ensures StreamOk(stream, Inits(g))
  {
    StreamClosed(g, log, n);
    InterleavedOk(stream, Inits(g));
  }

  /**
    * The assumption under which the executor drops a dependency that it does not find among its jobs: it is an init
    * command, or it has run and has finished.
    */
  lemma MissingDependency(g: Graph, log: seq<Packet>, flushed: set<Cid>, n: nat, stream: seq<Message>, e: Exec,
                          taken: seq<Message>, d: Cid)
    requires EdgesOk(g) && LogOk(g, log, flushed) && NoInits(log) && Works(stream) == NodeStream(log, n)
    requires ShutdownLast(stream)
    requires ExecOk(e) && HistoryOk(e, taken) && |taken| < |stream| && taken == stream[..|taken|]
    requires stream[|taken|].Work? && d in stream[|taken|].deps && d !in e.jobs
    ensures (d in g.commands && g.commands[d].Nop?) || (d in e.finished && d in e.started)
  {
    hide LogOk, EdgesOk, StreamOk, ExecOk, HistoryOk;
    NodeStreamOk(g, log, flushed, n, stream);
    MissingMeansFinished(e, taken, stream, Inits(g), d);
  }
}

/** What an executor knows, and what holds of it in every reachable state. */
module ExecutorState {
  import opened Commands
  import opened JobCounting

  datatype Message = Work(cid: Cid, kind: Kind, deps: seq<Cid>) | Sync(id: nat) | Shutdown

  /** A command `c` is among the first `i` messages. */
  ghost predicate SentBefore(ms: seq<Message>, i: nat, c: Cid)
    requires i <= |ms|
  {
    exists j :: 0 <= j < i && ms[j].Work? && ms[j].cid == c
  }

  /**
    * What a node is sent: each command once and after those of its dependencies that are not init commands. An init
    * command is never sent; SHUTDOWN comes last.
    */
  ghost predicate StreamOk(stream: seq<Message>, inits: set<Cid>) {
    && (forall i, j :: 0 <= i < j < |stream| && stream[i].Work? && stream[j].Work? ==> stream[i].cid != stream[j].cid)
    && (forall i :: 0 <= i < |stream| && stream[i].Work? ==> stream[i].cid !in inits)
    && (forall i: nat, d: Cid :: i < |stream| && stream[i].Work? && d in stream[i].deps ==>
                                   d in inits || SentBefore(stream, i, d))
    && ShutdownLast(stream)
  }

  ghost predicate ShutdownLast(stream: seq<Message>) {
    forall i :: 0 <= i < |stream| && stream[i].Shutdown? ==> i == |stream| - 1
  }

  /**
    * `finished`, `completed`, `needs` and `started` record the past: erased jobs, jobs that were reported done, real
    * dependencies, and starts in their order.
    */
  datatype Exec = Exec(jobs: Jobs, live: seq<Cid>, finished: set<Cid>, completed: set<Cid>, needs: map<Cid, set<Cid>>,
                       started: seq<Cid>)

  /** A live job is listed by exactly those live jobs that it needs; what else it needs has finished. */
  ghost predicate NeedsOk(e: Exec) {
    && e.jobs.Keys !! e.finished
    && (forall c :: c in e.jobs || c in e.finished ==> c in e.needs)
    && (forall c, d :: c in e.jobs && d in e.needs[c] ==> d in e.finished || (d in e.jobs && c in e.jobs[d].dependents))
    && (forall c, d :: d in e.jobs && c in e.jobs[d].dependents ==> c in e.needs && d in e.needs[c])
  }

  /** A job goes only after it was reported done. */
  ghost predicate CompletionsOk(e: Exec) {
    forall c :: c in e.completed <==> c in e.finished || (c in e.jobs && e.jobs[c].done)
  }

  /** A job is started once, and only when everything it needs has finished, which has been started before. */
  ghost predicate StartsOk(e: Exec) {
    && (forall i, j :: 0 <= i < j < |e.started| ==> e.started[i] != e.started[j])
    && (forall c :: c in e.started ==> c in e.needs && e.needs[c] <= e.finished)
    && (forall c :: c in e.finished ==> c in e.started)
    && (forall c :: c in e.jobs ==> (e.jobs[c].running <==> c in e.started))
  }

  ghost predicate ExecOk(e: Exec) {
    JobsOk(e.jobs, e.live) && NeedsOk(e) && StartsOk(e) && CompletionsOk(e)
  }

  // --------------------------------------------------------------------- steps

  /** A job waits for nothing exactly when everything it needs has finished. */
  lemma MayStart(e: Exec, c: Cid)
    requires ExecOk(e) && c in e.jobs
    ensures e.jobs[c].unsatisfied == 0 <==> e.needs[c] <= e.finished
  {
    hide StartsOk, StatesOk, CompletionsOk;
    if e.jobs[c].unsatisfied == 0 {
      forall d | d in e.needs[c]
        ensures d in e.finished
      {
        if d in e.jobs { ZeroMeansUnlisted(e.jobs, e.live, c, d); }
      }
    }
    if e.needs[c] <= e.finished {
      forall d | d in e.live
        ensures c !in e.jobs[d].dependents
      {
        assert d in e.jobs && d !in e.finished;
      }
      UnlistedMeansZero(e.jobs, e.live, c);
    }
  }

  /** The job runs, and is done or not as it reports. */
  function Polled(job: Job, done: bool): Job {
    job.(running := true, done := done)
  }

  ghost function Reported(e: Exec, c: Cid, done: bool): Exec
    requires c in e.jobs
  {
    e.(jobs := e.jobs[c := Polled(e.jobs[c], done)], completed := if done then e.completed + {c} else e.completed)
  }

  ghost function Started(e: Exec, c: Cid, done: bool): Exec
    requires c in e.jobs
  {
    Reported(e, c, done).(started := e.started + [c])
  }

  lemma StartedOk(e: Exec, c: Cid, done: bool)
    requires ExecOk(e) && c in e.jobs && e.jobs[c].unsatisfied == 0 && !e.jobs[c].running
    ensures ExecOk(Started(e, c, done))
  {
    hide JobsOk, NeedsOk, CompletionsOk, StartsOk;
    NotBoth(e, c);
    MayStart(e, c);
    StateOf(e, c);
    StateChangeOk(e.jobs, e.live, c, done);
    ReportKeepsNeeds(e, c, done);
    ReportKeepsCompletions(e, c, done);
    StartedSame(Reported(e, c, done), Started(e, c, done));
    StartKeepsStarts(e, c, done);
  }

  lemma StateOf(e: Exec, c: Cid)
    requires ExecOk(e) && c in e.jobs
    ensures (e.jobs[c].done ==> e.jobs[c].running) && (e.jobs[c].running ==> e.jobs[c].unsatisfied == 0)
  {
  }

  lemma ReportKeepsNeeds(e: Exec, c: Cid, done: bool)
    requires NeedsOk(e) && c in e.jobs
    ensures NeedsOk(Reported(e, c, done))
  {
    hide NeedsOk;
    NeedsOfSame(e, Reported(e, c, done));
  }

  lemma NeedsOfSame(e: Exec, e': Exec)
    requires NeedsOk(e) && e'.jobs.Keys == e.jobs.Keys && e'.finished == e.finished && e'.needs == e.needs
    requires forall c :: c in e.jobs ==> e'.jobs[c].dependents == e.jobs[c].dependents
    ensures NeedsOk(e')
  {
  }

  lemma ReportKeepsCompletions(e: Exec, c: Cid, done: bool)
    requires CompletionsOk(e) && c in e.jobs && !e.jobs[c].done && c !in e.finished
    ensures CompletionsOk(Reported(e, c, done))
  {
  }

  lemma StartedSame(e: Exec, e': Exec)
    requires NeedsOk(e) && CompletionsOk(e) && e' == e.(started := e'.started)
    ensures NeedsOk(e') && CompletionsOk(e')
  {
  }

  lemma StartKeepsStarts(e: Exec, c: Cid, done: bool)
    requires StartsOk(e) && c in e.jobs && !e.jobs[c].running && c in e.needs && e.needs[c] <= e.finished
    ensures StartsOk(Started(e, c, done))
  {
  }

  lemma ReportedOk(e: Exec, c: Cid, done: bool)
    requires ExecOk(e) && c in e.jobs && e.jobs[c].running && !e.jobs[c].done
    ensures ExecOk(Reported(e, c, done))
  {
    hide JobsOk, NeedsOk, CompletionsOk;
    StateOf(e, c);
    StateChangeOk(e.jobs, e.live, c, done);
    ReportKeepsNeeds(e, c, done);
    NotBoth(e, c);
    ReportKeepsCompletions(e, c, done);
  }

  lemma NotBoth(e: Exec, c: Cid)
    requires NeedsOk(e) && c in e.jobs
    ensures c in e.needs && c !in e.finished
  {
  }

  /** Everybody waits for the same and lists the same; only counts may have changed. */
  ghost predicate SameLists(jobs: Jobs, jobs': Jobs) {
    && jobs'.Keys == jobs.Keys
    && forall c :: c in jobs ==> jobs'[c] == jobs[c].(unsatisfied := jobs'[c].unsatisfied)
  }

  lemma FinishedOk(e: Exec, e': Exec, c: Cid, released: Jobs)
    requires ExecOk(e) && c in e.jobs && e.jobs[c].done && SameLists(e.jobs, released)
    requires e' == e.(jobs := released - {c}, live := e'.live, finished := e.finished + {c}) && JobsOk(e'.jobs, e'.live)
    ensures ExecOk(e')
  {
    hide JobsOk, NeedsOk, CompletionsOk;
    StateOf(e, c);
    NotBoth(e, c);
    NeedsOfRest(e, e', c);
    CompletionsOfRest(e, e', c);
  }

  ghost predicate Gone(e: Exec, e': Exec, c: Cid) {
    && c in e.jobs && e'.jobs.Keys == e.jobs.Keys - {c} && e'.finished == e.finished + {c} && e'.needs == e.needs
    && e'.completed == e.completed
    && forall d :: d in e'.jobs ==> e'.jobs[d] == e.jobs[d].(unsatisfied := e'.jobs[d].unsatisfied)
  }

  lemma NeedsOfRest(e: Exec, e': Exec, c: Cid)
    requires NeedsOk(e) && Gone(e, e', c)
    ensures NeedsOk(e')
  {
  }

  lemma CompletionsOfRest(e: Exec, e': Exec, c: Cid)
    requires CompletionsOk(e) && Gone(e, e', c) && e.jobs[c].done
    ensures CompletionsOk(e')
  {
  }

  lemma AddedNeedsOk(e: Exec, e': Exec, m: Message)
    requires ExecOk(e) && m.Work? && m.cid !in e.jobs && m.cid !in e.finished && m.cid !in e.started && m.cid !in m.deps
    requires JobsOk(e'.jobs, e'.live) && e'.finished == e.finished && e'.started == e.started
    requires e'.completed == e.completed
    requires e'.needs == e.needs[m.cid := (set d | d in m.deps && (d in e.jobs || d in e.finished))]
    requires e'.jobs.Keys == e.jobs.Keys + {m.cid} && e'.jobs[m.cid].dependents == []
    requires !e'.jobs[m.cid].running && !e'.jobs[m.cid].done
    requires forall c :: c in e.jobs ==> SameButListed(e.jobs[c], e'.jobs[c], m)
    requires forall d :: d in e.jobs ==> (m.cid in e'.jobs[d].dependents <==> d in m.deps)
    ensures ExecOk(e')
  {
    hide JobsOk, NeedsOk, StartsOk, CompletionsOk;
    NeedsOfAdded(e, e', m);
    assert forall c :: c in e.jobs ==> e'.jobs[c].running == e.jobs[c].running && e'.jobs[c].done == e.jobs[c].done;
    StatesOfAdded(e, e', m);
  }

  lemma StatesOfAdded(e: Exec, e': Exec, m: Message)
    requires StartsOk(e) && CompletionsOk(e) && m.Work? && m.cid !in e.jobs && m.cid !in e.finished
    requires m.cid !in e.started
    requires e'.finished == e.finished && e'.started == e.started && e'.completed == e.completed
    requires m.cid in e'.needs && forall c :: c in e.needs && c != m.cid ==> c in e'.needs && e'.needs[c] == e.needs[c]
    requires e'.jobs.Keys == e.jobs.Keys + {m.cid} && !e'.jobs[m.cid].running && !e'.jobs[m.cid].done
    requires forall c :: c in e.jobs ==> e'.jobs[c].running == e.jobs[c].running && e'.jobs[c].done == e.jobs[c].done
    ensures StartsOk(e') && CompletionsOk(e')
  {
  }

  lemma NeedsOfAdded(e: Exec, e': Exec, m: Message)
    requires NeedsOk(e) && m.Work? && m.cid !in e.jobs && m.cid !in e.finished && e'.finished == e.finished
    requires e'.needs == e.needs[m.cid := (set d | d in m.deps && (d in e.jobs || d in e.finished))]
    requires e'.jobs.Keys == e.jobs.Keys + {m.cid} && e'.jobs[m.cid].dependents == []
    requires forall c :: c in e.jobs ==> SameButListed(e.jobs[c], e'.jobs[c], m)
    requires forall d :: d in e.jobs ==> (m.cid in e'.jobs[d].dependents <==> d in m.deps)
    ensures NeedsOk(e')
  {
    forall c, d | d in e'.jobs && c in e'.jobs[d].dependents
      ensures c in e'.needs && d in e'.needs[c]
    {
      assert d in e.jobs && SameButListed(e.jobs[d], e'.jobs[d], m);
    }
    forall c, d | c in e'.jobs && d in e'.needs[c]
      ensures d in e'.finished || (d in e'.jobs && c in e'.jobs[d].dependents)
    {
      if d in e.jobs { assert SameButListed(e.jobs[d], e'.jobs[d], m); }
    }
  }

  /** At most the new job has been added to the list of dependents. */
  ghost predicate SameButListed(a: Job, b: Job, m: Message)
    requires m.Work?
  {
    b == a.(dependents := b.dependents) && forall c :: c != m.cid ==> (c in b.dependents <==> c in a.dependents)
  }

  /** A job is ready when it is live, waits for nothing and does not run yet. */
  ghost predicate ReadyOk(jobs: Jobs, ready: seq<Cid>) {
    && (forall i, j :: 0 <= i < j < |ready| ==> ready[i] != ready[j])
    && (forall c :: c in ready ==> c in jobs && jobs[c].unsatisfied == 0 && !jobs[c].running)
  }

  // ------------------------------------------------------------------- messages

  /** The jobs that exist or have finished are exactly the commands taken from the queue. */
  ghost predicate HistoryOk(e: Exec, taken: seq<Message>) {
    && (forall c :: c in e.jobs || c in e.finished <==> SentBefore(taken, |taken|, c))
    && (forall c :: c in e.started ==> c in e.jobs || c in e.finished)
  }

  /** What a job needs are the dependencies that its packet lists, other than init commands. */
  ghost predicate NeedsExact(e: Exec, taken: seq<Message>, inits: set<Cid>) {
    forall i :: 0 <= i < |taken| && taken[i].Work? ==>
                  taken[i].cid in e.needs && forall d :: d in e.needs[taken[i].cid] <==>
                                                           d in taken[i].deps && d !in inits
  }

  /** A job is of the kind that its packet names. */
  ghost predicate KindsExact(e: Exec, taken: seq<Message>) {
    forall i :: 0 <= i < |taken| && taken[i].Work? && taken[i].cid in e.jobs ==>
                  e.jobs[taken[i].cid].kind == taken[i].kind
  }

  lemma SentExactly(stream: seq<Message>, inits: set<Cid>, taken: seq<Message>, d: Cid)
    requires StreamOk(stream, inits) && |taken| < |stream| && taken == stream[..|taken|]
    requires stream[|taken|].Work? && d in stream[|taken|].deps
    ensures SentBefore(taken, |taken|, d) <==> d !in inits
  {
    var n: nat := |taken|;
    if d !in inits {
      assert SentBefore(stream, n, d);
      var j :| 0 <= j < n && stream[j].Work? && stream[j].cid == d;
      assert taken[j] == stream[j];
    }
    if SentBefore(taken, n, d) {
      var j :| 0 <= j < n && taken[j].Work? && taken[j].cid == d;
      assert stream[j] == taken[j];
    }
  }

  /**
    * A dependency that is not found among the jobs is an init command, or it has been created, has run and has been
    * erased.
    */
  lemma MissingMeansFinished(e: Exec, taken: seq<Message>, stream: seq<Message>, inits: set<Cid>, d: Cid)
    requires ExecOk(e) && HistoryOk(e, taken) && StreamOk(stream, inits) && |taken| < |stream|
    requires taken == stream[..|taken|]
    requires stream[|taken|].Work? && d in stream[|taken|].deps && d !in e.jobs
    ensures d in inits || (d in e.finished && d in e.started)
  {
    SentExactly(stream, inits, taken, d);
  }
}

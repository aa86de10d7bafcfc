/** The executor of a node: starts jobs when their dependencies have finished, and waits at SYNC commands. */
module Executors {
  import opened Options
  import opened Commands
  import opened JobCounting
  import opened ExecutorState
  import opened Neighbours

  const MAX_CONCURRENT_JOBS: nat := 20

  // ------------------------------------------------------- running jobs by kind

  ghost function RunningOf(jobs: Jobs, k: Kind): set<Cid> {
    set c | c in jobs && jobs[c].running && jobs[c].kind == k
  }

  function CountOf(counts: map<Kind, nat>, k: Kind): nat {
    if k in counts then counts[k] else 0
  }

  ghost predicate CountsRunning(counts: map<Kind, nat>, jobs: Jobs) {
    forall k :: CountOf(counts, k) == |RunningOf(jobs, k)|
  }

  lemma StartCounts(counts: map<Kind, nat>, jobs: Jobs, c: Cid, done: bool)
    requires CountsRunning(counts, jobs) && c in jobs && !jobs[c].running
    ensures CountsRunning(counts[jobs[c].kind := CountOf(counts, jobs[c].kind) + 1],
                          jobs[c := jobs[c].(running := true, done := done)])
  {
    var jobs', kind := jobs[c := jobs[c].(running := true, done := done)], jobs[c].kind;
    assert RunningOf(jobs', kind) == RunningOf(jobs, kind) + {c} && c !in RunningOf(jobs, kind);
    forall k | k != kind
      ensures RunningOf(jobs', k) == RunningOf(jobs, k)
    {
    }
  }

  lemma FinishCounts(counts: map<Kind, nat>, jobs: Jobs, jobs': Jobs, c: Cid)
    requires CountsRunning(counts, jobs) && c in jobs && jobs[c].running && SameLists(jobs, jobs')
    ensures CountOf(counts, jobs[c].kind) > 0
    ensures CountsRunning(counts[jobs[c].kind := CountOf(counts, jobs[c].kind) - 1], jobs' - {c})
  {
    assert c in RunningOf(jobs, jobs[c].kind);
    forall k
      ensures RunningOf(jobs' - {c}, k) == if k == jobs[c].kind then RunningOf(jobs, k) - {c} else RunningOf(jobs, k)
    {
    }
  }

  lemma SameCounts(counts: map<Kind, nat>, jobs: Jobs, jobs': Jobs)
    requires CountsRunning(counts, jobs) && jobs'.Keys == jobs.Keys
    requires forall c :: c in jobs ==> jobs'[c].running == jobs[c].running && jobs'[c].kind == jobs[c].kind
    ensures CountsRunning(counts, jobs')
  {
    forall k
      ensures RunningOf(jobs', k) == RunningOf(jobs, k)
    {
    }
  }

  lemma AddCounts(counts: map<Kind, nat>, jobs: Jobs, jobs': Jobs, x: Cid)
    requires CountsRunning(counts, jobs) && x !in jobs && jobs'.Keys == jobs.Keys + {x} && !jobs'[x].running
    requires forall c :: c in jobs ==> jobs'[c].running == jobs[c].running && jobs'[c].kind == jobs[c].kind
    ensures CountsRunning(counts, jobs')
  {
    forall k
      ensures RunningOf(jobs', k) == RunningOf(jobs, k)
    {
    }
  }

  // ---------------------------------------------------------------------- syncs

  /** The id of the last SYNC among the messages. */
  ghost function LastSync(taken: seq<Message>): nat {
    if taken == [] then 0
    else if taken[|taken| - 1].Sync? then taken[|taken| - 1].id
    else LastSync(taken[..|taken| - 1])
  }

  /** Every command in front of a SYNC that has been passed has finished. */
  ghost predicate SyncsOk(taken: seq<Message>, pending: bool, finished: set<Cid>) {
    forall i, j :: 0 <= j < i < |taken| && taken[i].Sync? && (i + 1 < |taken| || !pending) && taken[j].Work? ==>
                     taken[j].cid in finished
  }

  /** A SYNC stays pending until it is passed; the highest executed id is that of the last SYNC passed. */
  ghost predicate SyncOk(taken: seq<Message>, syncingOn: Option<nat>, done: bool, highest: nat, finished: set<Cid>) {
    && (syncingOn.Some? ==> |taken| > 0 && taken[|taken| - 1] == Sync(syncingOn.value))
    && (done ==> syncingOn.None? && |taken| > 0 && taken[|taken| - 1].Shutdown?)
    && highest == LastSync(if syncingOn.Some? then taken[..|taken| - 1] else taken)
    && SyncsOk(taken, syncingOn.Some?, finished)
  }

  /** Messages leave the queue in the order in which they were sent, and become jobs when they leave it. */
  ghost predicate MessagesOk(stream: seq<Message>, inits: set<Cid>, taken: seq<Message>, queue: seq<Message>, e: Exec) {
    && StreamOk(stream, inits) && taken + queue <= stream
    && HistoryOk(e, taken) && NeedsExact(e, taken, inits) && KindsExact(e, taken)
  }

  /** The ready jobs with PUSHes before all others. */
  method PushesFirst(jobs: Jobs, ready: seq<Cid>) returns (sorted: seq<Cid>)
    requires ReadyOk(jobs, ready)
    ensures ReadyOk(jobs, sorted) && forall c :: c in sorted <==> c in ready
    ensures forall i, j :: 0 <= i < j < |sorted| && jobs[sorted[j]].kind == PushJob ==> jobs[sorted[i]].kind == PushJob
  {
    var pushes, others := [], [];
    for i := 0 to |ready|
      invariant forall c :: c in pushes ==> c in ready[..i] && jobs[c].kind == PushJob
      invariant forall c :: c in others ==> c in ready[..i] && jobs[c].kind != PushJob
      invariant forall j :: 0 <= j < i ==> ready[j] in pushes || ready[j] in others
      invariant forall j, k :: 0 <= j < k < |pushes| ==> pushes[j] != pushes[k]
      invariant forall j, k :: 0 <= j < k < |others| ==> others[j] != others[k]
    {
      assert ready[i] !in ready[..i];
      if jobs[ready[i]].kind == PushJob {
        pushes := pushes + [ready[i]];
      } else {
        others := others + [ready[i]];
      }
    }
    sorted := pushes + others;
    forall i, j | 0 <= i < j < |sorted|
      ensures sorted[i] != sorted[j]
    {
      if i < |pushes| <= j { assert sorted[i] in pushes && sorted[j] in others; }
    }
  }

  lemma FewerKeys(jobs: Jobs, jobs': Jobs)
    requires jobs'.Keys <= jobs.Keys
    ensures |jobs'| <= |jobs|
  {
    SubsetSize(jobs'.Keys, jobs.Keys);
    assert |jobs'.Keys| == |jobs'| && |jobs.Keys| == |jobs|;
  }

  class Executor {
    var jobs: Jobs
    var jobCount: map<Kind, nat>
    var queue: seq<Message>
    var syncingOn: Option<nat>
    var highestExecutedSyncId: nat
    var done: bool
    ghost const stream: seq<Message>          // what this node is sent, now and later
    ghost const inits: set<Cid>               // the init commands, which are not sent
    ghost var taken: seq<Message>             // what has left the queue
    ghost var live: seq<Cid>
    ghost var finished: set<Cid>              // jobs that have gone
    ghost var completed: set<Cid>             // jobs that have reported that they are done
    ghost var needs: map<Cid, set<Cid>>
    ghost var started: seq<Cid>

    ghost function E(): Exec
      reads this
    {
      Exec(jobs, live, finished, completed, needs, started)
    }

    ghost predicate Valid()
      reads this
    {
      && ExecOk(E()) && CountsRunning(jobCount, jobs) && |jobs| <= MAX_CONCURRENT_JOBS
      && MessagesOk(stream, inits, taken, queue, E()) && SyncOk(taken, syncingOn, done, highestExecutedSyncId, finished)
    }

    constructor (ghost stream: seq<Message>, ghost inits: set<Cid>)
      requires StreamOk(stream, inits)
      ensures Valid() && this.stream == stream && this.inits == inits && taken == []
      ensures jobs == map[] && queue == [] && syncingOn.None? && highestExecutedSyncId == 0 && !done
      ensures started == [] && finished == {}
    {
      this.stream, this.inits := stream, inits;
      jobs, jobCount, queue, syncingOn, highestExecutedSyncId, done := map[], map[], [], None, 0, false;
      taken, live, finished, completed, needs, started := [], [], {}, {}, map[], [];
      new;
      assert forall k :: RunningOf(jobs, k) == {};
    }

    /** A pending SYNC is passed as soon as there are no jobs; everything in front of it has finished then. */
    method PassBarrier()
      requires Valid()
      modifies this`highestExecutedSyncId, this`syncingOn
      ensures Valid()
      ensures old(syncingOn).Some? && jobs == map[] ==>
                && highestExecutedSyncId == old(syncingOn).value && syncingOn.None?
                && forall m :: m in taken && m.Work? ==> m.cid in finished
      ensures !(old(syncingOn).Some? && jobs == map[]) ==>
                highestExecutedSyncId == old(highestExecutedSyncId) && syncingOn == old(syncingOn)
    {
      hide ExecOk, NeedsExact, StreamOk, CountsRunning, KindsExact;
      if syncingOn.Some? && jobs == map[] {
        AllFinished(E(), taken);
        highestExecutedSyncId := syncingOn.value;
        syncingOn := None;
      }
    }

    /** Every dependent of a finished job waits for one less. */
    method ReleaseDependents(c: Cid, ready: seq<Cid>) returns (ready': seq<Cid>, ghost k: nat)
      requires JobsOk(jobs, live) && c in jobs && jobs[c].running && ReadyOk(jobs, ready)
      modifies this`jobs
      ensures SameLists(old(jobs), jobs) && c in jobs && ReleasedReady(old(jobs), jobs, ready, ready')
      ensures k < |live| && live[k] == c && Releasing(jobs, live, k, |jobs[c].dependents|)
    {
      hide Releasing, JobsOk, ReleasedReady, ReadyOk, InOrder, DependentsYounger, StatesOk;
      ready' := ready;
      var dependents := jobs[c].dependents;
      k := Position(jobs, live, c);
      StartReleasing(jobs, live, k);
      NothingReleased(jobs, ready);
      for n := 0 to |dependents|
        invariant c in jobs && SameLists(old(jobs), jobs) && Releasing(jobs, live, k, n)
        invariant ReleasedReady(old(jobs), jobs, ready, ready')
      {
        var d := dependents[n];
        Released(jobs, live, k, n);
        ReleaseKeepsReady(old(jobs), jobs, ready, ready', d);
        jobs := jobs[d := jobs[d].(unsatisfied := jobs[d].unsatisfied - 1)];
        if jobs[d].unsatisfied == 0 {
          ready' := ready' + [d];
        }
      }
    }

    /** A job that is done releases its dependents and goes. */
    method FinishJob(c: Cid, ready: seq<Cid>) returns (ready': seq<Cid>)
      requires ExecOk(E()) && CountsRunning(jobCount, jobs) && c in jobs && jobs[c].done && ReadyOk(jobs, ready)
      modifies this`jobs, this`live, this`finished, this`jobCount
      ensures ExecOk(E()) && CountsRunning(jobCount, jobs) && ReadyOk(jobs, ready')
      ensures finished == old(finished) + {c} && jobs.Keys == old(jobs).Keys - {c}
      ensures forall d :: d in jobs ==>
            jobs[d] == old(jobs)[d].(unsatisfied := jobs[d].unsatisfied)
                && jobs[d].unsatisfied <= old(jobs)[d].unsatisfied
      ensures forall d :: d in ready ==> d in ready'
      ensures forall d :: d in jobs && old(jobs)[d].unsatisfied > 0 && jobs[d].unsatisfied == 0 ==> d in ready'
    {
      hide NeedsOk, StartsOk, CompletionsOk, Releasing, CountsRunning, JobsOk, ReleasedReady, ReadyOk;
      ghost var e := E();
      StateOf(e, c);
      ghost var k: nat;
      ready', k := ReleaseDependents(c, ready);
      ghost var released := jobs;
      EraseKeepsReady(e.jobs, jobs, ready, ready', c);
      FinishCounts(jobCount, e.jobs, jobs, c);
      jobCount := jobCount[jobs[c].kind := CountOf(jobCount, jobs[c].kind) - 1];
      ErasedOk(jobs, live, k);
      jobs := jobs - {c};
      live := JobCounting.Without(live, k);
      finished := finished + {c};
      FinishedOk(e, E(), c, released);
    }

    /**
      * One pass over the jobs in some order: those that are done go, running ones are polled (`completes` are those
      * that turn out to be done), and those that may start are collected.
      */
    method Sweep(completes: set<Cid>) returns (ready: seq<Cid>)
      requires ExecOk(E()) && CountsRunning(jobCount, jobs)
      modifies this`jobs, this`live, this`finished, this`completed, this`jobCount
      ensures ExecOk(E()) && CountsRunning(jobCount, jobs) && ReadyOk(jobs, ready)
      ensures Swept(old(jobs), old(finished), jobs, finished, completes, ready)
    {
      hide ExecOk, CountsRunning, ReadyOk, Visited;
      var order := Enumerate(jobs.Keys);
      ready := [];
      EmptyReady(jobs);
      NoneVisited(jobs, finished, completes, order);
      for i := 0 to |order|
        invariant ExecOk(E()) && CountsRunning(jobCount, jobs) && ReadyOk(jobs, ready)
        invariant Visited(old(jobs), old(finished), jobs, finished, completes, order, i, ready)
      {
        ghost var jobs0, finished0 := jobs, finished;
        NextIsThere(old(jobs), old(finished), jobs, finished, completes, order, i, ready);
        var ready' := Visit(order[i], completes, ready);
        OneMoreVisited(old(jobs), old(finished), jobs0, finished0, jobs, finished, completes, order, i, ready, ready');
        ready := ready';
      }
      AllVisited(old(jobs), old(finished), jobs, finished, completes, order, ready);
    }

    method Visit(c: Cid, completes: set<Cid>, ready: seq<Cid>) returns (ready': seq<Cid>)
      requires ExecOk(E()) && CountsRunning(jobCount, jobs) && ReadyOk(jobs, ready) && c in jobs
      modifies this`jobs, this`live, this`finished, this`completed, this`jobCount
      ensures ExecOk(E()) && CountsRunning(jobCount, jobs) && ReadyOk(jobs, ready')
      ensures VisitedOne(old(jobs), old(finished), jobs, finished, completes, c, ready, ready')
    {
      hide NeedsOk, StartsOk, CompletionsOk, CountsRunning, InOrder, CountsOk, DependentsYounger;
      ready' := ready;
      assert jobs[c].done ==> jobs[c].running;
      assert jobs[c].running ==> jobs[c].unsatisfied == 0;
      if jobs[c].unsatisfied > 0 {
      } else if !jobs[c].running {
        if c !in ready {
          ready' := ready + [c];
        }
      } else if !jobs[c].done {
        ReportedOk(E(), c, c in completes);
        SameCounts(jobCount, jobs, jobs[c := Polled(jobs[c], c in completes)]);
        jobs := jobs[c := Polled(jobs[c], c in completes)];
        completed := if c in completes then completed + {c} else completed;
      } else {
        ready' := FinishJob(c, ready);
      }
    }

    /** Starts the ready jobs, PUSHes first; each of them is polled once. */
    method StartReady(ready: seq<Cid>, completes: set<Cid>) returns (ghost sorted: seq<Cid>)
      requires ExecOk(E()) && CountsRunning(jobCount, jobs) && ReadyOk(jobs, ready)
      modifies this`jobs, this`completed, this`started, this`jobCount
      ensures ExecOk(E()) && CountsRunning(jobCount, jobs) && StartedThese(old(jobs), jobs, completes, ready)
      ensures started == old(started) + sorted && (forall c :: c in sorted <==> c in ready)
      ensures forall i, j :: 0 <= i < j < |sorted| && old(jobs)[sorted[j]].kind == PushJob ==>
                               old(jobs)[sorted[i]].kind == PushJob
    {
      hide ExecOk, CountsRunning, StartedThese, ReadyOk;
      var order := PushesFirst(jobs, ready);
      sorted := order;
      NoneStarted(jobs, completes);
      for i := 0 to |order|
        invariant ExecOk(E()) && CountsRunning(jobCount, jobs)
        invariant StartedThese(old(jobs), jobs, completes, order[..i]) && started == old(started) + order[..i]
      {
        var c := order[i];
        OneMoreStarted(old(jobs), jobs, completes, order, i);
        StartedOk(E(), c, c in completes);
        StartCounts(jobCount, jobs, c, c in completes);
        jobCount := jobCount[jobs[c].kind := CountOf(jobCount, jobs[c].kind) + 1];
        jobs := jobs[c := Polled(jobs[c], c in completes)];
        completed := if c in completes then completed + {c} else completed;
        started := started + [c];
      }
      assert order[..|order|] == order;
      SameStarted(old(jobs), jobs, completes, order, ready);
    }

    /** A new job waits for those of its dependencies that are still jobs. */
    method CreateJob(m: Message)
      requires ExecOk(E()) && CountsRunning(jobCount, jobs)
      requires m.Work? && m.cid !in jobs && m.cid !in finished && m.cid !in started && m.cid !in m.deps
      modifies this`jobs, this`live, this`needs
      ensures ExecOk(E()) && CountsRunning(jobCount, jobs) && Takes(old(E()), E(), m)
      ensures needs == old(needs)[m.cid := (set d | d in m.deps && (d in old(jobs) || d in finished))]
    {
      hide JobsOk, NeedsOk, StartsOk, CompletionsOk, CountsRunning;
      ghost var e := E();
      AddedOk(jobs, live, m.cid, m.kind);
      NotListed(e, m.cid);
      jobs := jobs[m.cid := Job(m.kind, false, false, [], 0)];
      live := live + [m.cid];
      AwaitDependencies(m);
      needs := needs[m.cid := (set d | d in m.deps && (d in e.jobs || d in finished))];
      AddedNeedsOk(e, E(), m);
      AddCounts(jobCount, e.jobs, jobs, m.cid);
    }

    method AwaitDependencies(m: Message)
      requires m.Work? && m.cid in jobs && |live| > 0 && live[|live| - 1] == m.cid && m.cid !in m.deps
      requires jobs[m.cid] == Job(m.kind, false, false, [], 0) && JobsOk(jobs, live)
      requires forall d :: d in jobs ==> m.cid !in jobs[d].dependents
      modifies this`jobs
      ensures JobsOk(jobs, live) && JobAdded(old(jobs) - {m.cid}, jobs, m)
    {
      hide JobsOk;
      for i := 0 to |m.deps|
        invariant JobsOk(jobs, live) && jobs.Keys == old(jobs).Keys
        invariant jobs[m.cid] == Job(m.kind, false, false, [], jobs[m.cid].unsatisfied)
        invariant forall c :: c in jobs && c != m.cid ==> SameButListed(old(jobs)[c], jobs[c], m)
        invariant forall d :: d in jobs ==> (m.cid in jobs[d].dependents <==> d in m.deps[..i])
      {
        var d := m.deps[i];
        assert d in m.deps && m.deps[..i + 1] == m.deps[..i] + [d];
        if d in jobs {
          WaitingOk(jobs, live, d, m.cid);
          ghost var was := jobs;
          jobs := jobs[d := jobs[d].(dependents := jobs[d].dependents + [m.cid])];
          jobs := jobs[m.cid := jobs[m.cid].(unsatisfied := jobs[m.cid].unsatisfied + 1)];
          assert jobs == Waiting(was, d, m.cid);
        }
      }
      assert m.deps[..|m.deps|] == m.deps;
    }

    /** A message arrives; messages of one sender do not overtake each other. */
    method Receive(m: Message)
      requires Valid() && taken + queue + [m] <= stream
      modifies this`queue
      ensures Valid() && queue == old(queue) + [m]
    {
      hide ExecOk, CountsRunning, SyncOk, StreamOk, HistoryOk, NeedsExact, KindsExact;
      assert taken + (queue + [m]) == taken + queue + [m];
      queue := queue + [m];
    }

    ghost predicate MayTake()
      reads this
    {
      syncingOn.None? && |jobs| < MAX_CONCURRENT_JOBS && queue != []
    }

    /** Takes a message from the queue unless a SYNC is pending or too many jobs exist. */
    method Dispatch()
      requires Valid()
      modifies this`jobs, this`live, this`needs, this`queue, this`taken, this`syncingOn, this`done
      ensures Valid()
      ensures !old(MayTake()) ==>
                && taken == old(taken) && queue == old(queue) && E() == old(E())
                && syncingOn == old(syncingOn) && done == old(done)
      ensures old(MayTake()) ==>
                && taken == old(taken) + [old(queue)[0]] && queue == old(queue)[1..]
                && syncingOn == (if old(queue)[0].Sync? then Some(old(queue)[0].id) else None)
                && done == old(queue)[0].Shutdown? && Takes(old(E()), E(), old(queue)[0])
    {
      hide ExecOk, CountsRunning, MessagesOk, SyncOk, Takes;
      if syncingOn.None? && |jobs| < MAX_CONCURRENT_JOBS && queue != [] {
        Take();
      }
    }

    method Take()
      requires Valid() && MayTake()
      modifies this`jobs, this`live, this`needs, this`queue, this`taken, this`syncingOn, this`done
      ensures Valid() && taken == old(taken) + [old(queue)[0]] && queue == old(queue)[1..]
      ensures syncingOn == (if old(queue)[0].Sync? then Some(old(queue)[0].id) else None)
      ensures done == old(queue)[0].Shutdown? && Takes(old(E()), E(), old(queue)[0])
    {
      hide ExecOk, CountsRunning, MessagesOk, SyncOk, Takes;
      var m := queue[0];
      ghost var e, was, rest := E(), taken, queue[1..];
      assert queue == [m] + rest;
      NextMessage(stream, inits, taken, queue, e);
      StillRunning(stream, inits, taken, queue, e, done, highestExecutedSyncId, finished);
      SyncStep(taken, highestExecutedSyncId, finished, m);
      queue := queue[1..];
      taken := taken + [m];
      match m {
        case Shutdown =>
          assert queue == [];
          TakeOther(stream, inits, was, m, rest, e);
          TakesNothing(e, m);
          done := true;
        case Sync(id) =>
          TakeOther(stream, inits, was, m, rest, e);
          TakesNothing(e, m);
          syncingOn := Some(id);
        case Work(cid, _, _) =>
          CreateJobOf(m, was, rest);
      }
    }

    /** The job of a message that has just left the queue. */
    method CreateJobOf(m: Message, ghost was: seq<Message>, ghost rest: seq<Message>)
      requires m.Work? && m.cid !in jobs && m.cid !in finished && m.cid !in started && m.cid !in m.deps
      requires ExecOk(E()) && CountsRunning(jobCount, jobs)
      requires MessagesOk(stream, inits, was, [m] + rest, E()) && was + [m] + rest <= stream
      modifies this`jobs, this`live, this`needs
      ensures ExecOk(E()) && CountsRunning(jobCount, jobs) && Takes(old(E()), E(), m) && |jobs| <= |old(jobs)| + 1
      ensures MessagesOk(stream, inits, was + [m], rest, E())
    {
      hide ExecOk, CountsRunning, MessagesOk, Takes;
      ghost var e := E();
      CreateJob(m);
      TakeWork(stream, inits, was, m, rest, e, E());
      TakesKeys(e, E(), m);
    }

    /**
      * Jobs that are done go; of the others exactly those run at the end whose dependencies have all finished, and they
      * are done as they report.
      */
    method RunJobs(completes: set<Cid>)
      requires Valid()
      modifies this`jobs, this`live, this`finished, this`completed, this`jobCount, this`started
      ensures Valid() && old(started) <= started
      ensures JobsRun(old(E()), E(), completes) && forall c :: c in jobs <==> c in old(jobs) && !old(jobs)[c].done
    {
      hide ExecOk, CountsRunning, MessagesOk, SyncOk, ReadyOk, Swept, StartedThese, JobsRun;
      ghost var e := E();
      var ready := Sweep(completes);
      ghost var e1 := E();
      ReadyLive(jobs, ready);
      ghost var sorted := StartReady(ready, completes);
      RoundKeeps(stream, inits, taken, queue, e, e1, E(), completes, ready, sorted);
      RunExactly(e, e1, E(), completes, ready, sorted);
      SweptKeys(e, e1, E(), completes, ready);
      SyncGrows(taken, syncingOn, done, highestExecutedSyncId, e.finished, finished);
    }

    /** One round of the loop. `completes` are the jobs that turn out to be done, `incoming` what has arrived. */
    method Round(completes: set<Cid>, incoming: Option<Message>)
      requires Valid() && (incoming.Some? ==> taken + queue + [incoming.value] <= stream)
      modifies this
      ensures Valid() && old(started) <= started && old(taken) <= taken
      ensures JobsRun(old(E()), E(), completes)
      ensures old(syncingOn).Some? && old(jobs) == map[] ==> highestExecutedSyncId == old(syncingOn).value
      ensures !(old(syncingOn).Some? && old(jobs) == map[]) ==> highestExecutedSyncId == old(highestExecutedSyncId)
      ensures var arrived := old(queue) + (if incoming.Some? then [incoming.value] else []);
              var blocked := old(syncingOn).Some? && old(jobs) != map[];
              var jobsLeft := set c | c in old(jobs) && !old(jobs)[c].done;
              if !blocked && |jobsLeft| < MAX_CONCURRENT_JOBS && arrived != []
              then && taken == old(taken) + [arrived[0]] && queue == arrived[1..]
                   && (forall c :: c in jobs <==> c in jobsLeft || (arrived[0].Work? && c == arrived[0].cid))
                   && syncingOn == (if arrived[0].Sync? then Some(arrived[0].id) else None)
              else && taken == old(taken) && queue == arrived && jobs.Keys == jobsLeft
                   && syncingOn == (if blocked then old(syncingOn) else None)
    {
      hide ExecOk, CountsRunning, MessagesOk, SyncOk, JobsRun, Takes;
      ghost var e := E();
      PassBarrier();
      RunJobs(completes);
      ghost var e1 := E();
      assert jobs.Keys == set c | c in e.jobs && !e.jobs[c].done;
      assert |jobs| == |jobs.Keys|;
      ghost var arrived := queue + (if incoming.Some? then [incoming.value] else []);
      TakeIn(incoming);
      if taken != old(taken) {
        RunAndTaken(e, e1, E(), completes, arrived[0]);
        TakesKeys(e1, E(), arrived[0]);
      }
    }

    /** What has arrived joins the queue, and the front of the queue may leave it. */
    method TakeIn(incoming: Option<Message>)
      requires Valid() && (incoming.Some? ==> taken + queue + [incoming.value] <= stream)
      modifies this`jobs, this`live, this`needs, this`queue, this`taken, this`syncingOn, this`done
      ensures Valid()
      ensures var arrived := old(queue) + (if incoming.Some? then [incoming.value] else []);
              if old(syncingOn).None? && |old(jobs)| < MAX_CONCURRENT_JOBS && arrived != []
              then && taken == old(taken) + [arrived[0]] && queue == arrived[1..] && Takes(old(E()), E(), arrived[0])
                   && syncingOn == (if arrived[0].Sync? then Some(arrived[0].id) else None)
              else taken == old(taken) && queue == arrived && E() == old(E()) && syncingOn == old(syncingOn)
    {
      hide ExecOk, CountsRunning, MessagesOk, SyncOk, Takes;
      if incoming.Some? {
        Receive(incoming.value);
      }
      Dispatch();
    }

    /** When the loop ends, everything sent so far has finished and every SYNC has been passed. */
    lemma AtExit()
      requires Valid() && done && jobs == map[]
      ensures queue == [] && highestExecutedSyncId == LastSync(taken)
      ensures forall m :: m in taken && m.Work? ==> m.cid in finished && m.cid in started
      ensures forall k :: CountOf(jobCount, k) == 0
    {
      hide StreamOk, NeedsExact, JobsOk;
      AllFinished(E(), taken);
      if queue != [] { StillRunning(stream, inits, taken, queue, E(), done, highestExecutedSyncId, finished); }
      forall k
        ensures CountOf(jobCount, k) == 0
      {
        assert RunningOf(jobs, k) == {};
      }
    }
  }

  /** Nobody lists a job that is not there. */
  lemma NotListed(e: Exec, x: Cid)
    requires ExecOk(e) && x !in e.jobs
    ensures forall d :: d in e.jobs ==> x !in e.jobs[d].dependents
  {
    forall d | d in e.jobs
      ensures x !in e.jobs[d].dependents
    {
      assert d in e.live;
      var i :| 0 <= i < |e.live| && e.live[i] == d;
      assert x in e.jobs[e.live[i]].dependents ==> After(e.live, i, x);
    }
  }

  /** The job of the message has been added, which the jobs that it depends on list. */
  ghost predicate JobAdded(jobs0: Jobs, jobs: Jobs, m: Message)
    requires m.Work?
  {
    && jobs.Keys == jobs0.Keys + {m.cid} && jobs[m.cid] == Job(m.kind, false, false, [], jobs[m.cid].unsatisfied)
    && (forall c :: c in jobs0 && c != m.cid ==> SameButListed(jobs0[c], jobs[c], m))
    && (forall d :: d in jobs0 ==> (m.cid in jobs[d].dependents <==> d in m.deps))
  }

  /** A command becomes a job; other messages leave the jobs alone. */
  ghost predicate Takes(e: Exec, e': Exec, m: Message) {
    && e'.finished == e.finished && e'.completed == e.completed && e'.started == e.started
    && (m.Work? ==> JobAdded(e.jobs, e'.jobs, m) && m.cid !in e.jobs
                    && forall c :: c in e.needs && c != m.cid ==> c in e'.needs && e'.needs[c] == e.needs[c])
    && (!m.Work? ==> e' == e)
  }

  lemma TakesNothing(e: Exec, m: Message)
    requires !m.Work?
    ensures Takes(e, e, m)
  {
  }

  lemma TakesKeys(e: Exec, e': Exec, m: Message)
    requires Takes(e, e', m)
    ensures e'.jobs.Keys == if m.Work? then e.jobs.Keys + {m.cid} else e.jobs.Keys
    ensures |e'.jobs| <= |e.jobs| + 1
  {
    assert |e'.jobs| == |e'.jobs.Keys| && |e.jobs| == |e.jobs.Keys|;
  }

  /** The job has been polled or passed over; at most its count of unfinished dependencies has fallen besides. */
  ghost predicate IsPolled(before: Job, after: Job, done: bool) {
    after == before.(done := done, unsatisfied := after.unsatisfied) && after.unsatisfied <= before.unsatisfied
  }

  /** What a visit of one job does. */
  ghost predicate VisitedOne(jobs0: Jobs, finished0: set<Cid>, jobs: Jobs, finished: set<Cid>, completes: set<Cid>,
                             c: Cid, ready0: seq<Cid>, ready: seq<Cid>)
    requires c in jobs0
  {
    && (if jobs0[c].done then jobs.Keys == jobs0.Keys - {c} && finished == finished0 + {c}
        else jobs.Keys == jobs0.Keys && finished == finished0)
    && (forall d :: d in jobs ==>
                      IsPolled(jobs0[d], jobs[d], if d == c then jobs0[c].running && c in completes else jobs0[d].done))
    && (forall d :: d in ready0 ==> d in ready)
    && (forall d :: d in jobs && jobs0[d].unsatisfied > 0 && jobs[d].unsatisfied == 0 ==> d in ready)
    && (c in jobs && jobs[c].unsatisfied == 0 && !jobs[c].running ==> c in ready)
  }

  /** What one pass over the jobs has done after `i` visits. */
  ghost predicate Visited(jobs0: Jobs, finished0: set<Cid>, jobs: Jobs, finished: set<Cid>, completes: set<Cid>,
                          order: seq<Cid>, i: nat, ready: seq<Cid>) {
    && i <= |order| && (forall c :: c in order <==> c in jobs0)
    && (forall c :: c in finished <==> c in finished0 || (c in order[..i] && jobs0[c].done))
    && (forall c :: c in jobs <==> c in jobs0 && !(c in order[..i] && jobs0[c].done))
    && (forall c :: c in jobs ==> IsPolled(jobs0[c], jobs[c], if c in order[..i] then jobs0[c].running && c in completes
                                                              else jobs0[c].done))
    && (forall c :: c in order[..i] && c in jobs && jobs[c].unsatisfied == 0 && !jobs[c].running ==> c in ready)
  }

  /**
    * A pass over all jobs: those that were done have gone, running ones are done as they report, idle ones are ready.
    */
  ghost predicate Swept(jobs0: Jobs, finished0: set<Cid>, jobs: Jobs, finished: set<Cid>, completes: set<Cid>,
                        ready: seq<Cid>) {
    && (forall c :: c in finished <==> c in finished0 || (c in jobs0 && jobs0[c].done))
    && (forall c :: c in jobs <==> c in jobs0 && !jobs0[c].done)
    && (forall c :: c in jobs ==> IsPolled(jobs0[c], jobs[c], jobs0[c].running && c in completes))
    && (forall c :: c in jobs && jobs[c].unsatisfied == 0 && !jobs[c].running ==> c in ready)
  }

  /** Exactly the ready jobs have been started, and each is done as it reports. */
  ghost predicate StartedThese(jobs0: Jobs, jobs: Jobs, completes: set<Cid>, ready: seq<Cid>) {
    && jobs.Keys == jobs0.Keys
    && (forall c :: c in ready ==> c in jobs && jobs[c] == jobs0[c].(running := true, done := c in completes))
    && (forall c :: c in jobs && c !in ready ==> jobs[c] == jobs0[c])
  }

  lemma NoneStarted(jobs: Jobs, completes: set<Cid>)
    ensures StartedThese(jobs, jobs, completes, [])
  {
  }

  lemma OneMoreStarted(jobs0: Jobs, jobs: Jobs, completes: set<Cid>, order: seq<Cid>, i: nat)
    requires i < |order| && ReadyOk(jobs0, order) && StartedThese(jobs0, jobs, completes, order[..i])
    ensures var c := order[i];
            && c in jobs && jobs[c].unsatisfied == 0 && !jobs[c].running && order[..i + 1] == order[..i] + [c]
            && StartedThese(jobs0, jobs[c := Polled(jobs[c], c in completes)], completes, order[..i + 1])
  {
    assert order[i] in order && order[i] !in order[..i];
  }

  lemma SameStarted(jobs0: Jobs, jobs: Jobs, completes: set<Cid>, order: seq<Cid>, ready: seq<Cid>)
    requires StartedThese(jobs0, jobs, completes, order) && forall c :: c in order <==> c in ready
    ensures StartedThese(jobs0, jobs, completes, ready)
  {
  }

  lemma NoneVisited(jobs: Jobs, finished: set<Cid>, completes: set<Cid>, order: seq<Cid>)
    requires forall c :: c in order <==> c in jobs
    ensures Visited(jobs, finished, jobs, finished, completes, order, 0, [])
  {
  }

  lemma NextIsThere(jobs0: Jobs, finished0: set<Cid>, jobs: Jobs, finished: set<Cid>, completes: set<Cid>,
                    order: seq<Cid>, i: nat, ready: seq<Cid>)
    requires Visited(jobs0, finished0, jobs, finished, completes, order, i, ready) && i < |order|
    requires forall j, k :: 0 <= j < k < |order| ==> order[j] != order[k]
    ensures order[i] in jobs && order[i] !in order[..i]
  {
    assert order[i] in order;
  }

  lemma OneMoreVisited(jobs0: Jobs, finished0: set<Cid>, jobs: Jobs, finished: set<Cid>, jobs': Jobs,
                       finished': set<Cid>, completes: set<Cid>, order: seq<Cid>, i: nat, ready: seq<Cid>,
                       ready': seq<Cid>)
    requires Visited(jobs0, finished0, jobs, finished, completes, order, i, ready) && i < |order|
    requires order[i] in jobs && order[i] !in order[..i]
    requires VisitedOne(jobs, finished, jobs', finished', completes, order[i], ready, ready')
    ensures Visited(jobs0, finished0, jobs', finished', completes, order, i + 1, ready')
  {
    var c := order[i];
    assert order[..i + 1] == order[..i] + [c];
    assert c in jobs0 && IsPolled(jobs0[c], jobs[c], jobs0[c].done);
    forall d | d in jobs'
      ensures IsPolled(jobs0[d], jobs'[d], if d in order[..i + 1] then jobs0[d].running && d in completes
                                           else jobs0[d].done)
    {
      assert IsPolled(jobs0[d], jobs[d], if d in order[..i] then jobs0[d].running && d in completes else jobs0[d].done);
    }
  }

  lemma AllVisited(jobs0: Jobs, finished0: set<Cid>, jobs: Jobs, finished: set<Cid>, completes: set<Cid>,
                   order: seq<Cid>, ready: seq<Cid>)
    requires Visited(jobs0, finished0, jobs, finished, completes, order, |order|, ready)
    ensures Swept(jobs0, finished0, jobs, finished, completes, ready)
  {
    assert order[..|order|] == order;
  }

  /**
    * The jobs that were done have gone. Of the others exactly those run whose dependencies have all finished. A job
    * that runs is done exactly if it reported so in this round, and nothing else was reported.
    */
  ghost predicate JobsRun(e: Exec, e': Exec, completes: set<Cid>) {
    && (forall c :: c in e'.finished <==> c in e.finished || (c in e.jobs && e.jobs[c].done))
    && (forall c :: c in e.jobs && !e.jobs[c].done ==> c in e'.jobs && RunsWhenReady(e, e', completes, c))
    && (forall c :: c in e'.completed <==> c in e.completed || (c in e'.jobs && e'.jobs[c].running && c in completes))
    && (forall c :: c in e'.started <==> c in e.started || (c in e.jobs && c in e'.jobs && e'.jobs[c].running))
  }

  ghost predicate RunsWhenReady(e: Exec, e': Exec, completes: set<Cid>, c: Cid)
    requires c in e.jobs && c in e'.jobs
  {
    && e'.jobs[c].kind == e.jobs[c].kind && c in e'.needs
    && (e'.jobs[c].running <==> e'.needs[c] <= e'.finished)
    && (e'.jobs[c].done <==> e'.jobs[c].running && c in completes)
  }

  lemma SweptKeys(e: Exec, e1: Exec, e2: Exec, completes: set<Cid>, ready: seq<Cid>)
    requires Swept(e.jobs, e.finished, e1.jobs, e1.finished, completes, ready)
    requires StartedThese(e1.jobs, e2.jobs, completes, ready) && e2.finished == e1.finished
    ensures (forall c :: c in e2.jobs <==> c in e.jobs && !e.jobs[c].done) && e.finished <= e2.finished
    ensures |e2.jobs| <= |e.jobs|
  {
    FewerKeys(e.jobs, e2.jobs);
  }

  lemma RunExactly(e: Exec, e1: Exec, e2: Exec, completes: set<Cid>, ready: seq<Cid>, sorted: seq<Cid>)
    requires ExecOk(e) && ExecOk(e1) && ExecOk(e2) && ReadyOk(e1.jobs, ready)
    requires Swept(e.jobs, e.finished, e1.jobs, e1.finished, completes, ready)
    requires StartedThese(e1.jobs, e2.jobs, completes, ready) && e2.finished == e1.finished
    requires e1.started == e.started && e2.started == e.started + sorted && forall c :: c in sorted <==> c in ready
    ensures JobsRun(e, e2, completes)
  {
    hide ExecOk, ReadyOk;
    forall c | c in e.jobs && !e.jobs[c].done
      ensures c in e2.jobs && RunsWhenReady(e, e2, completes, c)
    {
      RunsOne(e, e1, e2, completes, ready, c);
    }
    forall c
      ensures c in e2.completed <==> c in e.completed || (c in e2.jobs && e2.jobs[c].running && c in completes)
    {
      CompletedOne(e, e1, e2, completes, ready, c);
    }
    forall c
      ensures c in e2.started <==> c in e.started || (c in e.jobs && c in e2.jobs && e2.jobs[c].running)
    {
      StartedOne(e, e1, e2, completes, ready, sorted, c);
    }
    hide RunsWhenReady, StartedThese;
  }

  /** Between two rounds a job that is not done runs exactly if it waits for nothing, and reports once. */
  lemma RunsOne(e: Exec, e1: Exec, e2: Exec, completes: set<Cid>, ready: seq<Cid>, c: Cid)
    requires ExecOk(e) && ExecOk(e1) && ExecOk(e2) && ReadyOk(e1.jobs, ready) && c in e.jobs && !e.jobs[c].done
    requires Swept(e.jobs, e.finished, e1.jobs, e1.finished, completes, ready)
    requires StartedThese(e1.jobs, e2.jobs, completes, ready) && e2.finished == e1.finished
    ensures c in e1.jobs && c in e2.jobs && RunsWhenReady(e, e2, completes, c)
  {
    hide ExecOk;
    assert c in e1.jobs && c in e2.jobs;
    StateOf(e1, c);
    StateOf(e2, c);
    MayStart(e2, c);
    NeedsKnown(e2, c);
  }

  lemma NeedsKnown(e: Exec, c: Cid)
    requires ExecOk(e) && c in e.jobs
    ensures c in e.needs
  {
  }

  lemma CompletedOne(e: Exec, e1: Exec, e2: Exec, completes: set<Cid>, ready: seq<Cid>, c: Cid)
    requires ExecOk(e) && ExecOk(e1) && ExecOk(e2) && ReadyOk(e1.jobs, ready)
    requires Swept(e.jobs, e.finished, e1.jobs, e1.finished, completes, ready)
    requires StartedThese(e1.jobs, e2.jobs, completes, ready) && e2.finished == e1.finished
    ensures c in e2.completed <==> c in e.completed || (c in e2.jobs && e2.jobs[c].running && c in completes)
  {
    hide JobsOk, NeedsOk, StartsOk, Swept, StartedThese;
    if c in e.jobs && !e.jobs[c].done {
      RunsOne(e, e1, e2, completes, ready, c);
    }
    SweptKeys(e, e1, e2, completes, ready);
    SweptFinished(e, e1, completes, ready, c);
  }

  lemma SweptFinished(e: Exec, e1: Exec, completes: set<Cid>, ready: seq<Cid>, c: Cid)
    requires ExecOk(e) && Swept(e.jobs, e.finished, e1.jobs, e1.finished, completes, ready)
    ensures c in e1.finished <==> c in e.finished || (c in e.jobs && e.jobs[c].done)
    ensures c in e.jobs ==> c !in e.finished
  {
  }

  lemma StartedOne(e: Exec, e1: Exec, e2: Exec, completes: set<Cid>, ready: seq<Cid>, sorted: seq<Cid>, c: Cid)
    requires ExecOk(e) && ExecOk(e2)
    requires Swept(e.jobs, e.finished, e1.jobs, e1.finished, completes, ready)
    requires StartedThese(e1.jobs, e2.jobs, completes, ready)
    requires e2.started == e.started + sorted && forall x :: x in sorted <==> x in ready
    ensures c in e2.started <==> c in e.started || (c in e.jobs && c in e2.jobs && e2.jobs[c].running)
  {
    hide JobsOk, NeedsOk, CompletionsOk;
  }

  lemma RunAndTaken(e: Exec, e1: Exec, e2: Exec, completes: set<Cid>, m: Message)
    requires JobsRun(e, e1, completes) && Takes(e1, e2, m)
    ensures JobsRun(e, e2, completes)
  {
    forall c | c in e.jobs && !e.jobs[c].done
      ensures c in e2.jobs && RunsWhenReady(e, e2, completes, c)
    {
      assert RunsWhenReady(e, e1, completes, c);
    }
    hide RunsWhenReady;
  }

  lemma ReadyLive(jobs: Jobs, ready: seq<Cid>)
    requires ReadyOk(jobs, ready)
    ensures forall c :: c in ready ==> c in jobs
  {
  }

  /** The front of the queue is the next message of the stream; a command in it is new. */
  lemma NextMessage(stream: seq<Message>, inits: set<Cid>, taken: seq<Message>, queue: seq<Message>, e: Exec)
    requires MessagesOk(stream, inits, taken, queue, e) && queue != []
    ensures var m := queue[0];
            && (m.Shutdown? ==> queue[1..] == [])
            && (m.Work? ==> m.cid !in e.jobs && m.cid !in e.finished && m.cid !in e.started && m.cid !in m.deps)
            && taken + [m] + queue[1..] <= stream
  {
    var m := queue[0];
    NextOf(stream, taken, queue);
    assert taken + [m] + queue[1..] == taken + queue;
    if m.Shutdown? { ShutdownIsLast(stream, inits, taken, m, queue[1..]); }
    if m.Work? { WorkIsNew(e, taken, stream, inits); }
  }

  lemma StillRunning(stream: seq<Message>, inits: set<Cid>, taken: seq<Message>, queue: seq<Message>, e: Exec,
                     done: bool, highest: nat, finished: set<Cid>)
    requires MessagesOk(stream, inits, taken, queue, e) && queue != [] && SyncOk(taken, None, done, highest, finished)
    ensures !done
  {
    if done {
      var before, last := taken[..|taken| - 1], taken[|taken| - 1];
      assert before + [last] + queue == taken + queue;
      ShutdownIsLast(stream, inits, before, last, queue);
    }
  }

  lemma SyncStep(taken: seq<Message>, highest: nat, finished: set<Cid>, m: Message)
    requires SyncOk(taken, None, false, highest, finished)
    ensures SyncOk(taken + [m], if m.Sync? then Some(m.id) else None, m.Shutdown?, highest, finished)
  {
    assert (taken + [m])[..|taken + [m]| - 1] == taken;
    SyncsStay(taken, m, finished);
  }

  lemma SyncGrows(taken: seq<Message>, syncingOn: Option<nat>, done: bool, highest: nat, finished: set<Cid>,
                  finished': set<Cid>)
    requires SyncOk(taken, syncingOn, done, highest, finished) && finished <= finished'
    ensures SyncOk(taken, syncingOn, done, highest, finished')
  {
  }

  lemma NextOf(stream: seq<Message>, taken: seq<Message>, queue: seq<Message>)
    requires taken + queue <= stream && queue != []
    ensures |taken| < |stream| && taken == stream[..|taken|] && stream[|taken|] == queue[0]
  {
    assert stream[..|taken|] == taken;
    assert (taken + queue)[|taken|] == queue[0];
  }

  lemma ShutdownIsLast(stream: seq<Message>, inits: set<Cid>, taken: seq<Message>, m: Message, rest: seq<Message>)
    requires StreamOk(stream, inits) && taken + [m] + rest <= stream && m.Shutdown?
    ensures rest == []
  {
    assert (taken + [m] + rest)[|taken|] == m;
    assert stream[|taken|].Shutdown?;
  }

  lemma TakeOther(stream: seq<Message>, inits: set<Cid>, taken: seq<Message>, m: Message, rest: seq<Message>, e: Exec)
    requires MessagesOk(stream, inits, taken, [m] + rest, e) && !m.Work? && taken + [m] + rest <= stream
    ensures MessagesOk(stream, inits, taken + [m], rest, e)
  {
    SentSame(taken, m);
  }

  lemma SentSame(taken: seq<Message>, m: Message)
    ensures forall i: nat, c :: i <= |taken| ==> (SentBefore(taken + [m], i, c) <==> SentBefore(taken, i, c))
    ensures forall c :: SentBefore(taken + [m], |taken + [m]|, c) <==>
                          SentBefore(taken, |taken|, c) || (m.Work? && m.cid == c)
  {
    var taken' := taken + [m];
    forall i: nat, c | i <= |taken|
      ensures SentBefore(taken', i, c) <==> SentBefore(taken, i, c)
    {
      assert forall j :: 0 <= j < i ==> taken'[j] == taken[j];
      if SentBefore(taken, i, c) {
        var j :| 0 <= j < i && taken[j].Work? && taken[j].cid == c;
        assert taken'[j].cid == c;
      }
    }
    forall c
      ensures SentBefore(taken', |taken'|, c) <==> SentBefore(taken, |taken|, c) || (m.Work? && m.cid == c)
    {
      if SentBefore(taken, |taken|, c) {
        var j :| 0 <= j < |taken| && taken[j].Work? && taken[j].cid == c;
        assert taken'[j].cid == c;
      } else if m.Work? && m.cid == c {
        assert taken'[|taken|] == m;
      }
    }
  }

  lemma WorkIsNew(e: Exec, taken: seq<Message>, stream: seq<Message>, inits: set<Cid>)
    requires StreamOk(stream, inits) && HistoryOk(e, taken) && |taken| < |stream| && taken == stream[..|taken|]
    requires stream[|taken|].Work?
    ensures var m := stream[|taken|];
            m.cid !in e.jobs && m.cid !in e.finished && m.cid !in e.started && m.cid !in m.deps
  {
    var n, m := |taken|, stream[|taken|];
    assert !SentBefore(taken, |taken|, m.cid);
    assert SentBefore(stream, |stream|, m.cid);
    assert !SentBefore(stream, n, m.cid);
  }

  lemma TakeWork(stream: seq<Message>, inits: set<Cid>, taken: seq<Message>, m: Message, rest: seq<Message>, e: Exec,
                 e': Exec)
    requires MessagesOk(stream, inits, taken, [m] + rest, e) && m.Work? && m.cid !in e.jobs && m.cid !in e.finished
    requires taken + [m] + rest <= stream
    requires Takes(e, e', m)
    requires e'.needs == e.needs[m.cid := (set d | d in m.deps && (d in e.jobs || d in e.finished))]
    ensures MessagesOk(stream, inits, taken + [m], rest, e')
  {
    SentSame(taken, m);
    forall i: nat | i < |taken| && taken[i].Work?
      ensures taken[i].cid != m.cid
    {
      assert SentBefore(taken, |taken|, taken[i].cid);
    }
    NeedsOfNext(stream, inits, taken, m, rest, e);
  }

  /** The dependencies that are jobs or have finished are all but the init commands. */
  lemma NeedsOfNext(stream: seq<Message>, inits: set<Cid>, taken: seq<Message>, m: Message, rest: seq<Message>, e: Exec)
    requires MessagesOk(stream, inits, taken, [m] + rest, e) && m.Work?
    ensures forall d :: d in m.deps ==> (d in e.jobs || d in e.finished <==> d !in inits)
  {
    hide NeedsExact;
    NextOf(stream, taken, [m] + rest);
    forall d | d in m.deps
      ensures d in e.jobs || d in e.finished <==> d !in inits
    {
      SentExactly(stream, inits, taken, d);
    }
  }

  lemma SyncsStay(taken: seq<Message>, m: Message, finished: set<Cid>)
    requires SyncsOk(taken, false, finished)
    ensures SyncsOk(taken + [m], m.Sync?, finished)
  {
  }

  lemma RoundKeeps(stream: seq<Message>, inits: set<Cid>, taken: seq<Message>, queue: seq<Message>, e: Exec, e1: Exec,
                   e2: Exec, completes: set<Cid>, ready: seq<Cid>, sorted: seq<Cid>)
    requires MessagesOk(stream, inits, taken, queue, e)
    requires Swept(e.jobs, e.finished, e1.jobs, e1.finished, completes, ready)
    requires StartedThese(e1.jobs, e2.jobs, completes, ready) && e2.finished == e1.finished && e2.needs == e.needs
    requires e2.started == e.started + sorted && forall c :: c in sorted ==> c in e1.jobs
    ensures MessagesOk(stream, inits, taken, queue, e2)
  {
    hide StreamOk, SentBefore;
    assert forall c :: c in e2.jobs || c in e2.finished <==> c in e.jobs || c in e.finished;
    assert forall c :: c in e2.jobs ==> c in e.jobs && e2.jobs[c].kind == e.jobs[c].kind;
  }

  lemma EmptyReady(jobs: Jobs)
    ensures ReadyOk(jobs, [])
  {
  }

  /** The ready jobs while a finished job releases its dependents. */
  ghost predicate ReleasedReady(jobs0: Jobs, jobs: Jobs, ready0: seq<Cid>, ready: seq<Cid>) {
    && SameLists(jobs0, jobs) && ReadyOk(jobs, ready)
    && (forall d :: d in jobs ==> jobs[d].unsatisfied <= jobs0[d].unsatisfied)
    && (forall d :: d in ready0 ==> d in ready)
    && (forall d :: d in jobs && jobs0[d].unsatisfied > 0 && jobs[d].unsatisfied == 0 ==> d in ready)
  }

  lemma NothingReleased(jobs: Jobs, ready: seq<Cid>)
    requires ReadyOk(jobs, ready)
    ensures ReleasedReady(jobs, jobs, ready, ready)
  {
  }

  lemma ReleaseKeepsReady(jobs0: Jobs, jobs: Jobs, ready0: seq<Cid>, ready: seq<Cid>, d: Cid)
    requires ReleasedReady(jobs0, jobs, ready0, ready) && d in jobs && jobs[d].unsatisfied > 0 && !jobs[d].running
    ensures ReleasedReady(jobs0, LessWaiting(jobs, d), ready0, if jobs[d].unsatisfied == 1 then ready + [d] else ready)
  {
    assert d !in ready;
  }

  lemma EraseKeepsReady(jobs0: Jobs, jobs: Jobs, ready0: seq<Cid>, ready: seq<Cid>, c: Cid)
    requires ReleasedReady(jobs0, jobs, ready0, ready) && c in jobs && jobs[c].running
    ensures ReadyOk(jobs - {c}, ready)
    ensures forall d :: d in jobs ==> jobs[d].unsatisfied <= jobs0[d].unsatisfied
    ensures forall d :: d in ready0 ==> d in ready
    ensures forall d :: d in jobs && d != c && jobs0[d].unsatisfied > 0 && jobs[d].unsatisfied == 0 ==> d in ready
  {
  }

  ghost function Position(jobs: Jobs, live: seq<Cid>, c: Cid): (k: nat)
    requires JobsOk(jobs, live) && c in jobs
    ensures k < |live| && live[k] == c
  {
    assert c in live;
    var k :| 0 <= k < |live| && live[k] == c;
    k
  }

  lemma AllFinished(e: Exec, taken: seq<Message>)
    requires HistoryOk(e, taken) && e.jobs == map[]
    ensures forall m :: m in taken && m.Work? ==> m.cid in e.finished
  {
    forall m | m in taken && m.Work?
      ensures m.cid in e.finished
    {
      assert SentBefore(taken, |taken|, m.cid);
    }
  }
}

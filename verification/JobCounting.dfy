/** Jobs of an executor and the counting of their unfinished dependencies. */
module JobCounting {
  import opened Commands

  datatype Kind = HorizonJob | ComputeJob | MasterAccessJob | PushJob | AwaitPushJob

  datatype Job = Job(kind: Kind, running: bool, done: bool, dependents: seq<Cid>, unsatisfied: nat)

  type Jobs = map<Cid, Job>

  /** How often `c` is listed as a dependent by the jobs of `live`. */
  ghost function Listed(jobs: Jobs, live: seq<Cid>, c: Cid): nat
    requires forall j :: j in live ==> j in jobs
  {
    if live == [] then 0
    else Listed(jobs, live[..|live| - 1], c) + multiset(jobs[live[|live| - 1]].dependents)[c]
  }

  /** `live` holds the jobs in the order of their creation. */
  ghost predicate InOrder(jobs: Jobs, live: seq<Cid>) {
    && (forall c :: c in live <==> c in jobs)
    && (forall i, j :: 0 <= i < j < |live| ==> live[i] != live[j])
  }

  ghost predicate After(live: seq<Cid>, i: int, c: Cid) {
    exists l :: 0 <= i < l < |live| && live[l] == c
  }

  /** A listed dependent is a live job, created after the job that lists it. */
  ghost predicate DependentsYounger(jobs: Jobs, live: seq<Cid>)
    requires InOrder(jobs, live)
  {
    forall i, c :: 0 <= i < |live| && c in jobs[live[i]].dependents ==> After(live, i, c)
  }

  ghost predicate CountsOk(jobs: Jobs, live: seq<Cid>)
    requires InOrder(jobs, live)
  {
    forall c :: c in jobs ==> jobs[c].unsatisfied == Listed(jobs, live, c)
  }

  ghost predicate StatesOk(jobs: Jobs) {
    forall c :: c in jobs ==> (jobs[c].done ==> jobs[c].running) && (jobs[c].running ==> jobs[c].unsatisfied == 0)
  }

  ghost predicate JobsOk(jobs: Jobs, live: seq<Cid>) {
    InOrder(jobs, live) && DependentsYounger(jobs, live) && CountsOk(jobs, live) && StatesOk(jobs)
  }

  // ------------------------------------------------------------------ counting

  lemma {:induction false} ListedSame(jobs: Jobs, jobs': Jobs, live: seq<Cid>, c: Cid)
    requires forall j :: j in live ==>
          j in jobs && j in jobs' && multiset(jobs'[j].dependents)[c] == multiset(jobs[j].dependents)[c]
    ensures Listed(jobs', live, c) == Listed(jobs, live, c)
  {
    if live != [] { ListedSame(jobs, jobs', live[..|live| - 1], c); }
  }

  /** A job that lists nobody changes no count. */
  lemma ListedWithNew(jobs: Jobs, live: seq<Cid>, x: Cid, c: Cid)
    requires (forall j :: j in live ==> j in jobs) && x in jobs && jobs[x].dependents == []
    ensures Listed(jobs, live + [x], c) == Listed(jobs, live, c)
  {
    assert (live + [x])[..|live + [x]| - 1] == live;
  }

  /** One more entry for `x` in the list of job `d`. */
  lemma {:induction false} ListedOnceMore(jobs: Jobs, jobs': Jobs, live: seq<Cid>, d: Cid, x: Cid)
    requires forall i, j :: 0 <= i < j < |live| ==> live[i] != live[j]
    requires (forall j :: j in live ==> j in jobs && j in jobs') && d in live
    requires forall j :: j in live && j != d ==> jobs'[j].dependents == jobs[j].dependents
    requires jobs'[d].dependents == jobs[d].dependents + [x]
    ensures Listed(jobs', live, x) == Listed(jobs, live, x) + 1
  {
    var rest, last := live[..|live| - 1], live[|live| - 1];
    if last == d {
      assert d !in rest;
      ListedSame(jobs, jobs', rest, x);
    } else {
      ListedOnceMore(jobs, jobs', rest, d, x);
    }
  }

  ghost function Without(live: seq<Cid>, k: nat): seq<Cid>
    requires k < |live|
  {
    live[..k] + live[k + 1..]
  }

  /** Taking a job out takes its list out of the count. */
  lemma {:induction false} ListedWithout(jobs: Jobs, live: seq<Cid>, k: nat, c: Cid)
    requires (forall j :: j in live ==> j in jobs) && k < |live|
    ensures forall j :: j in Without(live, k) ==> j in live
    ensures Listed(jobs, live, c) == Listed(jobs, Without(live, k), c) + multiset(jobs[live[k]].dependents)[c]
  {
    var rest, last := live[..|live| - 1], live[|live| - 1];
    if k == |live| - 1 {
      assert Without(live, k) == rest;
    } else {
      ListedWithout(jobs, rest, k, c);
      assert Without(live, k) == Without(rest, k) + [last];
      assert Without(live, k)[..|Without(live, k)| - 1] == Without(rest, k);
    }
  }

  /** A count of zero means that nobody lists the job. */
  lemma {:induction false} ZeroMeansUnlisted(jobs: Jobs, live: seq<Cid>, c: Cid, j: Cid)
    requires (forall i :: i in live ==> i in jobs) && j in live && Listed(jobs, live, c) == 0
    ensures c !in jobs[j].dependents
  {
    if live[|live| - 1] != j { ZeroMeansUnlisted(jobs, live[..|live| - 1], c, j); }
  }

  lemma {:induction false} UnlistedMeansZero(jobs: Jobs, live: seq<Cid>, c: Cid)
    requires (forall i :: i in live ==> i in jobs) && forall j :: j in live ==> c !in jobs[j].dependents
    ensures Listed(jobs, live, c) == 0
  {
    if live != [] { UnlistedMeansZero(jobs, live[..|live| - 1], c); }
  }

  /** The oldest job waits for nothing, so some job can always go on. */
  lemma OldestIsReady(jobs: Jobs, live: seq<Cid>)
    requires JobsOk(jobs, live) && jobs != map[]
    ensures |live| > 0 && live[0] in jobs && jobs[live[0]].unsatisfied == 0
  {
    var c :| c in jobs;
    assert c in live;
    forall j | j in live
      ensures live[0] !in jobs[j].dependents
    {
      var i :| 0 <= i < |live| && live[i] == j;
      assert !After(live, i, live[0]);
    }
    UnlistedMeansZero(jobs, live, live[0]);
  }

  // --------------------------------------------------------------------- steps

  /** Adding a job that waits for nothing yet. */
  lemma AddedOk(jobs: Jobs, live: seq<Cid>, x: Cid, kind: Kind)
    requires JobsOk(jobs, live) && x !in jobs
    ensures JobsOk(jobs[x := Job(kind, false, false, [], 0)], live + [x])
  {
    hide Listed, After;
    var jobs', live' := jobs[x := Job(kind, false, false, [], 0)], live + [x];
    NobodyLists(jobs, live, x);
    forall c | c in jobs'
      ensures jobs'[c].unsatisfied == Listed(jobs', live', c)
    {
      ListedWithNew(jobs', live, x, c);
      ListedSame(jobs, jobs', live, c);
    }
    forall i, c | 0 <= i < |live'| && c in jobs'[live'[i]].dependents
      ensures After(live', i, c)
    {
      assert After(live, i, c);
      AfterStill(live, x, i, c);
    }
  }

  lemma AfterStill(live: seq<Cid>, x: Cid, i: int, c: Cid)
    requires After(live, i, c)
    ensures After(live + [x], i, c)
  {
    var k :| 0 <= i < k < |live| && live[k] == c;
    assert (live + [x])[k] == c;
  }

  lemma NobodyLists(jobs: Jobs, live: seq<Cid>, x: Cid)
    requires InOrder(jobs, live) && DependentsYounger(jobs, live) && x !in jobs
    ensures Listed(jobs, live, x) == 0
  {
    forall j | j in live
      ensures x !in jobs[j].dependents
    {
      var i :| 0 <= i < |live| && live[i] == j;
      assert !After(live, i, x);
    }
    UnlistedMeansZero(jobs, live, x);
  }

  /** The youngest job waits for one more. */
  ghost function Waiting(jobs: Jobs, d: Cid, x: Cid): Jobs
    requires d in jobs && x in jobs
  {
    var jobs1 := jobs[d := jobs[d].(dependents := jobs[d].dependents + [x])];
    jobs1[x := jobs1[x].(unsatisfied := jobs1[x].unsatisfied + 1)]
  }

  lemma WaitingOk(jobs: Jobs, live: seq<Cid>, d: Cid, x: Cid)
    requires JobsOk(jobs, live) && |live| > 0 && live[|live| - 1] == x && d in jobs && d != x && !jobs[x].running
    ensures JobsOk(Waiting(jobs, d, x), live)
  {
    var jobs' := Waiting(jobs, d, x);
    forall c | c in jobs'
      ensures jobs'[c].unsatisfied == Listed(jobs', live, c)
    {
      if c == x {
        ListedOnceMore(jobs, jobs', live, d, x);
      } else {
        ListedSame(jobs, jobs', live, c);
      }
    }
    forall i, c | 0 <= i < |live| && c in jobs'[live[i]].dependents
      ensures After(live, i, c)
    {
      if live[i] == d && c == x { assert live[|live| - 1] == c; }
    }
  }

  /** Starting a job or learning that it is done changes neither lists nor counts. */
  lemma StateChangeOk(jobs: Jobs, live: seq<Cid>, x: Cid, done: bool)
    requires JobsOk(jobs, live) && x in jobs && jobs[x].unsatisfied == 0
    ensures JobsOk(jobs[x := jobs[x].(running := true, done := done)], live)
  {
    var jobs' := jobs[x := jobs[x].(running := true, done := done)];
    forall c | c in jobs'
      ensures jobs'[c].unsatisfied == Listed(jobs', live, c)
    {
      ListedSame(jobs, jobs', live, c);
    }
  }

  /** Job `live[k]` has released the first `n` of its dependents. */
  ghost predicate Releasing(jobs: Jobs, live: seq<Cid>, k: nat, n: nat) {
    && InOrder(jobs, live) && DependentsYounger(jobs, live) && k < |live| && jobs[live[k]].running
    && n <= |jobs[live[k]].dependents|
    && (forall c :: c in jobs ==> jobs[c].unsatisfied == RemainingCount(jobs, live, k, n, c))
    && StatesOk(jobs)
  }

  ghost function RemainingCount(jobs: Jobs, live: seq<Cid>, k: nat, n: nat, c: Cid): nat
    requires InOrder(jobs, live) && k < |live| && n <= |jobs[live[k]].dependents|
  {
    ListedWithout(jobs, live, k, c);
    Listed(jobs, Without(live, k), c) + multiset(jobs[live[k]].dependents[n..])[c]
  }

  lemma StartReleasing(jobs: Jobs, live: seq<Cid>, k: nat)
    requires JobsOk(jobs, live) && k < |live| && jobs[live[k]].running
    ensures Releasing(jobs, live, k, 0)
  {
    var ds := jobs[live[k]].dependents;
    assert ds[0..] == ds;
    forall c | c in jobs
      ensures jobs[c].unsatisfied == RemainingCount(jobs, live, k, 0, c)
    {
      ListedWithout(jobs, live, k, c);
    }
  }

  ghost function LessWaiting(jobs: Jobs, d: Cid): Jobs
    requires d in jobs && jobs[d].unsatisfied > 0
  {
    jobs[d := jobs[d].(unsatisfied := jobs[d].unsatisfied - 1)]
  }

  /** The next dependent is another live job that is still waiting. */
  lemma NextDependent(jobs: Jobs, live: seq<Cid>, k: nat, n: nat)
    requires Releasing(jobs, live, k, n) && n < |jobs[live[k]].dependents|
    ensures var d := jobs[live[k]].dependents[n];
            d in jobs && d != live[k] && jobs[d].unsatisfied > 0 && !jobs[d].running
  {
    var ds := jobs[live[k]].dependents;
    var d := ds[n];
    assert After(live, k, d);
    assert ds[n..] == [d] + ds[n + 1..];
    assert jobs[d].unsatisfied == RemainingCount(jobs, live, k, n, d);
  }

  lemma Released(jobs: Jobs, live: seq<Cid>, k: nat, n: nat)
    requires Releasing(jobs, live, k, n) && n < |jobs[live[k]].dependents|
    ensures var d := jobs[live[k]].dependents[n];
            && d in jobs && d != live[k] && jobs[d].unsatisfied > 0 && !jobs[d].running
            && Releasing(LessWaiting(jobs, d), live, k, n + 1)
  {
    hide After;
    NextDependent(jobs, live, k, n);
    var d := jobs[live[k]].dependents[n];
    forall c | c in jobs
      ensures LessWaiting(jobs, d)[c].unsatisfied == RemainingCount(LessWaiting(jobs, d), live, k, n + 1, c)
    {
      ReleasedCount(jobs, live, k, n, d, c);
    }
  }

  lemma ReleasedCount(jobs: Jobs, live: seq<Cid>, k: nat, n: nat, d: Cid, c: Cid)
    requires Releasing(jobs, live, k, n) && n < |jobs[live[k]].dependents| && d == jobs[live[k]].dependents[n]
    requires d in jobs && d != live[k] && jobs[d].unsatisfied > 0 && c in jobs
    ensures InOrder(LessWaiting(jobs, d), live)
    ensures LessWaiting(jobs, d)[c].unsatisfied == RemainingCount(LessWaiting(jobs, d), live, k, n + 1, c)
  {
    hide DependentsYounger;
    var ds := jobs[live[k]].dependents;
    assert ds[n..] == [d] + ds[n + 1..];
    ListedWithout(jobs, live, k, c);
    ListedSame(jobs, LessWaiting(jobs, d), Without(live, k), c);
    assert jobs[c].unsatisfied == RemainingCount(jobs, live, k, n, c);
  }

  lemma ErasedOk(jobs: Jobs, live: seq<Cid>, k: nat)
    requires k < |live| && live[k] in jobs && Releasing(jobs, live, k, |jobs[live[k]].dependents|)
    ensures JobsOk(jobs - {live[k]}, Without(live, k))
  {
    var jobs', live' := jobs - {live[k]}, Without(live, k);
    var ds := jobs[live[k]].dependents;
    assert ds[|ds|..] == [];
    assert InOrder(jobs', live') by { WithoutInOrder(jobs, live, k); }
    forall c | c in jobs'
      ensures jobs'[c].unsatisfied == Listed(jobs', live', c)
    {
      ListedWithout(jobs, live, k, c);
      ListedSame(jobs, jobs', live', c);
      assert jobs[c].unsatisfied == RemainingCount(jobs, live, k, |ds|, c);
    }
    WithoutYounger(jobs, live, k);
  }

  lemma WithoutInOrder(jobs: Jobs, live: seq<Cid>, k: nat)
    requires InOrder(jobs, live) && k < |live|
    ensures InOrder(jobs - {live[k]}, Without(live, k))
  {
    var live' := Without(live, k);
    forall c | c in jobs && c != live[k]
      ensures c in live'
    {
      var i :| 0 <= i < |live| && live[i] == c;
      assert if i < k then live'[i] == c else live'[i - 1] == c;
    }
  }

  lemma WithoutYounger(jobs: Jobs, live: seq<Cid>, k: nat)
    requires k < |live| && live[k] in jobs && Releasing(jobs, live, k, |jobs[live[k]].dependents|)
    requires InOrder(jobs - {live[k]}, Without(live, k))
    ensures DependentsYounger(jobs - {live[k]}, Without(live, k))
  {
    var jobs', live' := jobs - {live[k]}, Without(live, k);
    ListedWithout(jobs, live, k, live[k]);
    assert jobs[live[k]].unsatisfied == RemainingCount(jobs, live, k, |jobs[live[k]].dependents|, live[k]);
    forall i, c | 0 <= i < |live'| && c in jobs'[live'[i]].dependents
      ensures After(live', i, c)
    {
      ZeroMeansUnlisted(jobs, live', live[k], live'[i]);
      var i0 := if i < k then i else i + 1;
      assert After(live, i0, c);
      var l :| 0 <= i0 < l < |live| && live[l] == c;
      assert l != k;
      assert live'[if l < k then l else l - 1] == c;
    }
  }
}

/**
 * The invariant that ties the two caches to the job store: what is taken from each worker is what
 * its active jobs need, and the queue holds the queued jobs.
 */
module Conservation {
  import opened Errors
  import opened JobStates
  import opened Jobs
  import opened Workers
  import opened Ledger
  import opened Ordering
  import opened JobQueues
  import opened Store
  import opened Protocol

  // ---------- the load a worker carries ----------

  /** What one record takes from the worker `id`: only active jobs count, finished ones keep their holder's id. */
  function Share(r: JobRecord, id: Id): Usage
  {
    if HeldBy(r, id) then Need(r.job.needs) else ZERO
  }

  function LoadOfFirst(jobs: seq<JobRecord>, n: nat, id: Id): Usage
    requires n <= |jobs|
  {
    if n == 0 then ZERO else Plus(LoadOfFirst(jobs, n - 1, id), Share(jobs[n - 1], id))
  }

  function Load(jobs: seq<JobRecord>, id: Id): Usage
  {
    LoadOfFirst(jobs, |jobs|, id)
  }

  lemma {:induction false} LoadIsNonnegative(jobs: seq<JobRecord>, n: nat, id: Id)
    requires n <= |jobs|
    ensures AtMost(ZERO, LoadOfFirst(jobs, n, id))
  {
    if n > 0 {
      LoadIsNonnegative(jobs, n - 1, id);
    }
  }

  lemma {:induction false} LoadDependsOnShares(jobs: seq<JobRecord>, jobs': seq<JobRecord>, n: nat, id: Id)
    requires n <= |jobs| && n <= |jobs'|
    requires forall i :: 0 <= i < n ==> Share(jobs[i], id) == Share(jobs'[i], id)
    ensures LoadOfFirst(jobs, n, id) == LoadOfFirst(jobs', n, id)
  {
    if n > 0 {
      LoadDependsOnShares(jobs, jobs', n - 1, id);
    }
  }

  /** Replacing one record changes the load by the difference of the shares. */
  lemma {:induction false} LoadAfterUpdate(jobs: seq<JobRecord>, n: nat, i: nat, r: JobRecord, id: Id)
    requires i < n <= |jobs|
    ensures Equal(LoadOfFirst(jobs[i := r], n, id),
                  Plus(Minus(LoadOfFirst(jobs, n, id), Share(jobs[i], id)), Share(r, id)))
  {
    hide Share;
    if i < n - 1 {
      LoadAfterUpdate(jobs, n - 1, i, r, id);
    } else {
      LoadDependsOnShares(jobs, jobs[i := r], n - 1, id);
    }
  }

  lemma {:induction false} LoadCovers(jobs: seq<JobRecord>, n: nat, i: nat, id: Id)
    requires i < n <= |jobs|
    ensures AtMost(Share(jobs[i], id), LoadOfFirst(jobs, n, id))
  {
    if i < n - 1 {
      LoadCovers(jobs, n - 1, i, id);
    } else {
      LoadIsNonnegative(jobs, n - 1, id);
    }
  }

  lemma {:induction false} LoadOfStranger(jobs: seq<JobRecord>, n: nat, id: Id)
    requires n <= |jobs| && forall i :: 0 <= i < n ==> !HeldBy(jobs[i], id)
    ensures Equal(LoadOfFirst(jobs, n, id), ZERO)
  {
    if n > 0 {
      LoadOfStranger(jobs, n - 1, id);
    }
  }

  // ---------- the invariant ----------

  /**
   * What was in use on a worker before the coordinator placed anything there. Only workers whose ledger can be
   * accounted for have one; a worker that reported less than its jobs need does not.
   */
  type Baseline = map<Id, Usage>

  /** Total minus available is the baseline plus the needs of the active jobs the worker holds. */
  ghost predicate Conserved(jobs: seq<JobRecord>, workers: seq<StoredWorker>, base: Baseline)
  {
    forall k :: 0 <= k < |workers| && workers[k].worker.id in base ==> Balanced(jobs, workers[k].worker, base)
  }

  ghost predicate Balanced(jobs: seq<JobRecord>, w: Worker, base: Baseline)
  {
    w.id in base && AtMost(ZERO, base[w.id]) && Equal(Used(w), Plus(base[w.id], Load(jobs, w.id)))
  }

  /** Which of holder and lease a record has follows from its state. */
  predicate WellShaped(r: JobRecord)
  {
    && (IsActive(r.job.state) ==> r.worker.Some? && r.lease.Some?)
    && (r.job.state.Queued? || r.job.state.RetryWait? ==> r.worker.None? && r.lease.None?)
    && (IsTerminal(r.job.state) ==> r.lease.None?)
    && (r.job.state.Queued? ==> CanAttempt(r.job))
  }

  ghost predicate AllWellShaped(jobs: seq<JobRecord>)
  {
    forall i :: 0 <= i < |jobs| ==> WellShaped(jobs[i])
  }

  ghost predicate HoldersKnown(jobs: seq<JobRecord>, workers: seq<StoredWorker>)
  {
    forall i :: 0 <= i < |jobs| && IsActive(jobs[i].job.state) && jobs[i].worker.Some? ==>
      FindWorker(workers, jobs[i].worker.value) < |workers|
  }

  ghost predicate Stores(jobs: seq<JobRecord>, j: Job)
  {
    exists i :: 0 <= i < |jobs| && jobs[i].job == j
  }

  /** The queue holds the queued jobs of the store, field for field, and nothing else. */
  ghost predicate QueueAgrees(jobs: seq<JobRecord>, queue: seq<Job>)
  {
    && (forall i :: 0 <= i < |jobs| && jobs[i].job.state.Queued? ==> jobs[i].job in queue)
    && (forall j :: j in queue ==> j.state.Queued? && Stores(jobs, j))
  }

  /** Ids are unique, records are well shaped, holders are known, and the queue is the queued records. */
  ghost predicate Consistent(s: State)
  {
    && Structural(s)
    && AllWellShaped(s.jobs)
    && HoldersKnown(s.jobs, s.workers)
    && QueueAgrees(s.jobs, s.queue)
  }

  /** Consistent, and the ledgers of the workers with a baseline balance. */
  ghost predicate Inv(s: State, base: Baseline)
  {
    Consistent(s) && Conserved(s.jobs, s.workers, base)
  }

  ghost predicate Covers(base: Baseline, workers: seq<StoredWorker>)
  {
    forall k :: 0 <= k < |workers| ==> workers[k].worker.id in base
  }

  /** Consistent, and some baseline explains what is in use on every worker. */
  ghost predicate Sound(s: State)
  {
    exists base :: Inv(s, base) && Covers(base, s.workers)
  }

  /** No ledger is accounted for. */
  const UNKNOWN: Baseline := map[]

  /** What is proved for every baseline holds of every consistent state. */
  lemma ConsistentNeedsNoLedger(s: State)
    ensures Consistent(s) <==> Inv(s, UNKNOWN)
  {
  }

  /** On a worker whose ledger balances, what an active job took can always be given back. */
  lemma ReleaseIsNeverRefused(s: State, base: Baseline, i: nat)
    requires Inv(s, base) && i < |s.jobs| && IsActive(s.jobs[i].job.state)
    requires s.jobs[i].worker.Some? && s.jobs[i].worker.value in base
    ensures var k := FindWorker(s.workers, s.jobs[i].worker.value);
            && k < |s.workers|
            && s.workers[k].worker.running > 0
            && AfterRelease(s.workers[k].worker, s.jobs[i].job.needs).Ok?
            && Equal(Used(AfterRelease(s.workers[k].worker, s.jobs[i].job.needs).value),
                     Minus(Used(s.workers[k].worker), Need(s.jobs[i].job.needs)))
            && SameCapacity(s.workers[k].worker, AfterRelease(s.workers[k].worker, s.jobs[i].job.needs).value)
  {
    var id := s.jobs[i].worker.value;
    var k := FindWorker(s.workers, id);
    assert WellShaped(s.jobs[i]) && Balanced(s.jobs, s.workers[k].worker, base);
    LoadCovers(s.jobs, |s.jobs|, i, id);
    ReleaseReturns(s.workers[k].worker, s.jobs[i].job.needs);
  }

  /** The jobs a worker holds never need more than it has, nor are there more of them than it has slots. */
  lemma NoWorkerIsOvercommitted(s: State, base: Baseline, k: nat)
    requires Inv(s, base) && k < |s.workers| && s.workers[k].worker.id in base
    ensures var w := s.workers[k].worker;
            AtMost(Plus(base[w.id], Load(s.jobs, w.id)), Capacity(w)) && AtMost(Load(s.jobs, w.id), Capacity(w))
  {
    assert Balanced(s.jobs, s.workers[k].worker, base);
  }

  // ---------- steps that touch one record ----------

  /** One record and at most its holder's ledger change together. */
  lemma ConservedAfterUpdate(jobs: seq<JobRecord>, workers: seq<StoredWorker>, base: Baseline,
                             i: nat, r: JobRecord, k: nat, sw: StoredWorker)
    requires Conserved(jobs, workers, base) && UniqueWorkers(workers)
    requires i < |jobs| && k < |workers| && sw.worker.id == workers[k].worker.id
    requires sw.worker.id in base ==>
               Equal(Used(sw.worker),
                     Plus(Minus(Used(workers[k].worker), Share(jobs[i], sw.worker.id)), Share(r, sw.worker.id)))
    requires forall id :: id != sw.worker.id ==> Share(jobs[i], id) == Share(r, id)
    ensures Conserved(jobs[i := r], workers[k := sw], base)
  {
    var workers' := workers[k := sw];
    forall m | 0 <= m < |workers'| && workers'[m].worker.id in base
      ensures Balanced(jobs[i := r], workers'[m].worker, base)
    {
      assert Balanced(jobs, workers[m].worker, base);
      assert m != k ==> workers[m].worker.id != sw.worker.id;
      LoadAfterUpdate(jobs, |jobs|, i, r, workers'[m].worker.id);
    }
  }

  lemma ConservedAfterNeutralUpdate(jobs: seq<JobRecord>, workers: seq<StoredWorker>, base: Baseline, i: nat, r: JobRecord)
    requires Conserved(jobs, workers, base)
    requires i < |jobs| && forall id :: Share(jobs[i], id) == Share(r, id)
    ensures Conserved(jobs[i := r], workers, base)
  {
    forall m | 0 <= m < |workers| && workers[m].worker.id in base
      ensures Balanced(jobs[i := r], workers[m].worker, base)
    {
      assert Balanced(jobs, workers[m].worker, base);
      LoadAfterUpdate(jobs, |jobs|, i, r, workers[m].worker.id);
    }
  }

  lemma ShapeAfterUpdate(jobs: seq<JobRecord>, workers: seq<StoredWorker>, i: nat, r: JobRecord)
    requires UniqueJobs(jobs) && AllWellShaped(jobs) && HoldersKnown(jobs, workers)
    requires i < |jobs| && r.job.id == jobs[i].job.id && WellShaped(r)
    requires IsActive(r.job.state) ==> FindWorker(workers, r.worker.value) < |workers|
    ensures UniqueJobs(jobs[i := r]) && AllWellShaped(jobs[i := r]) && HoldersKnown(jobs[i := r], workers)
  {
    hide IsActive, WellShaped;
    HoldersAfterUpdate(jobs, workers, i, r);
  }

  lemma HoldersAfterUpdate(jobs: seq<JobRecord>, workers: seq<StoredWorker>, i: nat, r: JobRecord)
    requires HoldersKnown(jobs, workers) && i < |jobs|
    requires IsActive(r.job.state) && r.worker.Some? ==> FindWorker(workers, r.worker.value) < |workers|
    ensures HoldersKnown(jobs[i := r], workers)
  {
    hide IsActive;
    var jobs' := jobs[i := r];
    forall m | 0 <= m < |jobs'| && IsActive(jobs'[m].job.state) && jobs'[m].worker.Some?
      ensures FindWorker(workers, jobs'[m].worker.value) < |workers|
    {
      assert m != i ==> jobs'[m] == jobs[m];
    }
  }

  /** Finding a worker depends on the ids alone. */
  lemma FindsSameWorker(workers: seq<StoredWorker>, workers': seq<StoredWorker>, id: Id)
    requires |workers| == |workers'| && forall k :: 0 <= k < |workers| ==> workers[k].worker.id == workers'[k].worker.id
    ensures FindWorker(workers, id) == FindWorker(workers', id)
  {
    var a, b := FindWorker(workers, id), FindWorker(workers', id);
    assert a < |workers| ==> workers'[a].worker.id == id;
    assert b < |workers| ==> workers[b].worker.id == id;
  }

  lemma HoldersKnownAnyLedger(jobs: seq<JobRecord>, workers: seq<StoredWorker>, workers': seq<StoredWorker>)
    requires |workers| == |workers'| && forall k :: 0 <= k < |workers| ==> workers[k].worker.id == workers'[k].worker.id
    requires HoldersKnown(jobs, workers) && UniqueWorkers(workers)
    ensures HoldersKnown(jobs, workers') && UniqueWorkers(workers')
  {
    forall i | 0 <= i < |jobs| && IsActive(jobs[i].job.state) && jobs[i].worker.Some?
      ensures FindWorker(workers', jobs[i].worker.value) < |workers'|
    {
      FindsSameWorker(workers, workers', jobs[i].worker.value);
    }
  }

  /** A queued record changes state: its job leaves the queue. */
  lemma AgreesAfterTaking(jobs: seq<JobRecord>, queue: seq<Job>, i: nat, r: JobRecord, q: nat)
    requires UniqueJobs(jobs) && DistinctIds(queue) && QueueAgrees(jobs, queue)
    requires i < |jobs| && q < |queue| && queue[q].id == jobs[i].job.id == r.job.id && !r.job.state.Queued?
    ensures QueueAgrees(jobs[i := r], Without(queue, q)) && DistinctIds(Without(queue, q))
  {
    var jobs', queue' := jobs[i := r], Without(queue, q);
    WithoutKeepsDistinct(queue, q);
    forall m | 0 <= m < |jobs'| && jobs'[m].job.state.Queued?
      ensures jobs'[m].job in queue'
    {
      assert jobs[m].job in queue && jobs[m].job != queue[q];
    }
    forall j | j in queue'
      ensures j.state.Queued? && Stores(jobs', j)
    {
      assert j in queue && j.id != queue[q].id;
      var m :| 0 <= m < |jobs| && jobs[m].job == j;
      assert jobs'[m].job == j;
    }
  }

  /** A record becomes queued: its job joins the queue. */
  lemma AgreesAfterQueueing(jobs: seq<JobRecord>, queue: seq<Job>, i: nat, r: JobRecord)
    requires UniqueJobs(jobs) && DistinctIds(queue) && QueueAgrees(jobs, queue)
    requires i < |jobs| && jobs[i].job.id == r.job.id && !jobs[i].job.state.Queued? && r.job.state.Queued?
    ensures !Contains(queue, r.job.id)
    ensures QueueAgrees(jobs[i := r], queue + [r.job]) && DistinctIds(queue + [r.job])
  {
    var jobs', queue' := jobs[i := r], queue + [r.job];
    forall j | j in queue
      ensures j.id != r.job.id && Stores(jobs', j)
    {
      var m :| 0 <= m < |jobs| && jobs[m].job == j;
      assert m != i;
      assert jobs'[m].job == j;
    }
    assert forall m :: 0 <= m < |queue| ==> queue[m] in queue;
    assert jobs'[i].job == r.job;
  }

  /** A record that is queued neither before nor after does not concern the queue. */
  lemma AgreesAfterOtherUpdate(jobs: seq<JobRecord>, queue: seq<Job>, i: nat, r: JobRecord)
    requires QueueAgrees(jobs, queue)
    requires i < |jobs| && !jobs[i].job.state.Queued? && !r.job.state.Queued?
    ensures QueueAgrees(jobs[i := r], queue)
  {
    var jobs' := jobs[i := r];
    forall j | j in queue
      ensures j.state.Queued? && Stores(jobs', j)
    {
      var m :| 0 <= m < |jobs| && jobs[m].job == j;
      assert jobs'[m].job == j;
    }
  }
}

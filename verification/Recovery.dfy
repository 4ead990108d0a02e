/** Restarting from whatever the stores hold, after a crash at any point. */
module Recovery {
  import opened Errors
  import opened JobStates
  import opened Jobs
  import opened Workers
  import opened Ledger
  import opened JobQueues
  import opened Store
  import opened Protocol
  import opened Conservation

  function WorkerIds(workers: seq<StoredWorker>): set<Id>
  {
    set k | 0 <= k < |workers| :: workers[k].worker.id
  }

  /** Nothing in use on any of these workers. */
  function Unused(ids: set<Id>): Baseline
  {
    map id | id in ids :: ZERO
  }

  ghost predicate StoredBelow(jobs: seq<JobRecord>, n: nat, j: Job)
    requires n <= |jobs|
  {
    exists i :: 0 <= i < n && jobs[i].job == j
  }

  lemma {:induction false} QueuedAmongIsTheQueue(jobs: seq<JobRecord>, n: nat)
    requires UniqueJobs(jobs) && n <= |jobs|
    ensures DistinctIds(QueuedAmong(jobs, n))
    ensures forall i :: 0 <= i < n && jobs[i].job.state.Queued? ==> jobs[i].job in QueuedAmong(jobs, n)
    ensures forall j :: j in QueuedAmong(jobs, n) ==> j.state.Queued? && StoredBelow(jobs, n, j)
  {
    if n > 0 {
      QueuedAmongIsTheQueue(jobs, n - 1);
      var before := QueuedAmong(jobs, n - 1);
      var last := jobs[n - 1].job;
      forall j | j in before
        ensures StoredBelow(jobs, n, j) && j.id != last.id
      {
        StoredBeforeTheLast(jobs, n, j);
      }
      assert StoredBelow(jobs, n, last);
      DistinctWithLast(before, last);
      hide StoredBelow, UniqueJobs, DistinctIds;
    }
  }

  /** The jobs are queued in the order in which they are stored. */
  lemma {:induction false} QueueFollowsTheStore(jobs: seq<JobRecord>, n: nat, a: nat, b: nat)
    requires UniqueJobs(jobs) && n <= |jobs| && a < b < |QueuedAmong(jobs, n)|
    ensures FindJob(jobs, QueuedAmong(jobs, n)[a].id) < FindJob(jobs, QueuedAmong(jobs, n)[b].id) < n
  {
    var before := QueuedAmong(jobs, n - 1);
    QueuedAmongIsTheQueue(jobs, n - 1);
    if b < |before| {
      QueueFollowsTheStore(jobs, n - 1, a, b);
    } else {
      assert before[a] in before && StoredBelow(jobs, n - 1, before[a]);
      var i :| 0 <= i < n - 1 && jobs[i].job == before[a];
      JobFindsItself(jobs, i);
      JobFindsItself(jobs, n - 1);
    }
  }

  lemma StoredBeforeTheLast(jobs: seq<JobRecord>, n: nat, j: Job)
    requires UniqueJobs(jobs) && 0 < n <= |jobs| && StoredBelow(jobs, n - 1, j)
    ensures StoredBelow(jobs, n, j) && j.id != jobs[n - 1].job.id
  {
  }

  /** Nothing is left that only the crashed coordinator could have finished. */
  ghost predicate AtRest(s: State)
  {
    && (forall i :: 0 <= i < |s.jobs| ==>
          !IsActive(s.jobs[i].job.state) && !s.jobs[i].job.state.RetryWait? && s.jobs[i].lease.None?)
    && (forall k :: 0 <= k < |s.workers| ==> Equal(Used(s.workers[k].worker), ZERO))
    && s.queue == QueuedAmong(s.jobs, |s.jobs|)
  }

  /** Two worker stores that agree on everything but what is available. */
  ghost predicate SameWorkers(a: seq<StoredWorker>, b: seq<StoredWorker>)
  {
    && |a| == |b|
    && forall k :: 0 <= k < |a| ==> SameCapacity(a[k].worker, b[k].worker) && a[k].heartbeat == b[k].heartbeat
  }

  /** Freeing workers gives back what was taken of them and changes nothing else about them. */
  lemma RestoredWorkersAreFree(workers: seq<StoredWorker>, n: nat)
    requires n <= |workers|
    ensures SameWorkers(workers, RestoreFirst(workers, n))
    ensures forall k :: 0 <= k < n ==> Equal(Used(RestoreFirst(workers, n)[k].worker), ZERO)
    ensures forall k :: n <= k < |workers| ==> RestoreFirst(workers, n)[k] == workers[k]
  {
  }

  lemma RecoveredRecords(jobs: seq<JobRecord>, workers: seq<StoredWorker>)
    requires UniqueJobs(jobs) && UniqueWorkers(workers)
    ensures var s := Recover(jobs, workers);
            && UniqueJobs(s.jobs) && UniqueWorkers(s.workers) && AllWellShaped(s.jobs)
            && (forall i :: 0 <= i < |s.jobs| ==> !IsActive(s.jobs[i].job.state))
            && AtRest(s)
  {
    var s := Recover(jobs, workers);
    forall i | 0 <= i < |s.jobs|
      ensures s.jobs[i].job.id == jobs[i].job.id && RestedRecord(s.jobs[i])
    {
      RecoveredIsAtRest(jobs[i]);
    }
  }

  predicate RestedRecord(r: JobRecord)
  {
    WellShaped(r) && !IsActive(r.job.state) && !r.job.state.RetryWait? && r.lease.None?
  }

  lemma RecoveredIsAtRest(r: JobRecord)
    ensures RestedRecord(Recovered(r)) && Recovered(r).job.id == r.job.id
  {
  }

  /**
   * From any stores with unique ids, a restart establishes the whole invariant with nothing in use. Workers keep what
   * they reported, whether they are online, and their heartbeats.
   */
  lemma RecoverEstablishes(jobs: seq<JobRecord>, workers: seq<StoredWorker>)
    requires UniqueJobs(jobs) && UniqueWorkers(workers)
    ensures var s := Recover(jobs, workers);
            && Inv(s, Unused(WorkerIds(s.workers))) && Covers(Unused(WorkerIds(s.workers)), s.workers)
            && Sound(s) && AtRest(s) && SameWorkers(workers, s.workers)
  {
    var s := Recover(jobs, workers);
    RestoredWorkersAreFree(workers, |workers|);
    var base := Unused(WorkerIds(s.workers));
    RecoveredRecords(jobs, workers);
    QueuedAmongIsTheQueue(s.jobs, |s.jobs|);
    assert QueueAgrees(s.jobs, s.queue) by {
      forall j | j in s.queue
        ensures j.state.Queued? && Stores(s.jobs, j)
      {
        assert StoredBelow(s.jobs, |s.jobs|, j);
      }
    }
    forall k | 0 <= k < |s.workers|
      ensures Balanced(s.jobs, s.workers[k].worker, base)
    {
      var id := s.workers[k].worker.id;
      assert id in WorkerIds(s.workers);
      LoadOfStranger(s.jobs, |s.jobs|, id);
    }
    assert Inv(s, base) && Covers(base, s.workers);
  }

  /** Does the coordinator still owe this job a try? */
  predicate Owed(j: Job)
  {
    !IsTerminal(j.state) && !j.state.CancellationRequested? && j.attempts < j.maxAttempts
  }

  /** Where a restart leaves a job. */
  function StateAfterRestart(j: Job): JobState
  {
    if IsTerminal(j.state) then j.state
    else if j.state.CancellationRequested? then Cancelled
    else if Owed(j) then Queued
    else Failed
  }

  lemma RestartsFollowTheLifeCycle(j: Job)
    ensures StateAfterRestart(j) == j.state || Reaches(j.state, StateAfterRestart(j))
  {
    assert IsPath([Leased, RetryWait, Queued]) && IsPath([Running, RetryWait, Queued]) && IsPath([RetryWait, Queued]);
    assert IsPath([Leased, RetryWait, Failed]) && IsPath([Running, RetryWait, Failed]) && IsPath([RetryWait, Failed]);
    assert IsPath([Queued, Leased, RetryWait, Failed]) && IsPath([CancellationRequested, Cancelled]);
  }

  /**
   * From any stores with unique ids, sound or not: no record is lost, ids and attempts stay, outcomes stay together
   * with who produced them, and the queue holds exactly the jobs that are still owed a try.
   */
  lemma RecoverLosesNothing(jobs: seq<JobRecord>, workers: seq<StoredWorker>, i: nat)
    requires UniqueJobs(jobs) && UniqueWorkers(workers) && i < |jobs|
    ensures var s := Recover(jobs, workers);
            && |s.jobs| == |jobs|
            && s.jobs[i].job == InState(jobs[i].job, StateAfterRestart(jobs[i].job))
            && (s.jobs[i].job.state == jobs[i].job.state || Reaches(jobs[i].job.state, s.jobs[i].job.state))
            && s.jobs[i].lease == None && s.jobs[i].worker == (if IsTerminal(jobs[i].job.state) then jobs[i].worker else None)
            && (s.jobs[i].job in s.queue <==> Owed(jobs[i].job))
  {
    var s := Recover(jobs, workers);
    RestartsFollowTheLifeCycle(jobs[i].job);
    RecoveredState(jobs[i]);
    RecoveredRecords(jobs, workers);
    QueuedAmongIsTheQueue(s.jobs, |s.jobs|);
  }

  lemma RecoveredState(r: JobRecord)
    ensures Recovered(r).job == InState(r.job, StateAfterRestart(r.job))
    ensures Recovered(r).lease == None && Recovered(r).worker == if IsTerminal(r.job.state) then r.worker else None
    ensures Recovered(r).job.state.Queued? <==> Owed(r.job)
  {
  }

  /** A restart does not look at the ledgers, so a worker write without its job write is forgotten. */
  lemma RecoverForgetsLedgers(jobs: seq<JobRecord>, a: seq<StoredWorker>, b: seq<StoredWorker>)
    requires SameWorkers(a, b)
    ensures Recover(jobs, a) == Recover(jobs, b)
  {
    assert RestoreFirst(a, |a|) == RestoreFirst(b, |b|);
  }

  /** The stores after the worker write of a dispatch, before its job write. */
  function WorkersMidDispatch(s: State, jobId: Id, workerId: Id): seq<StoredWorker>
  {
    var k, q := FindWorker(s.workers, workerId), FindQueued(s.queue, jobId);
    if k == |s.workers| || q == |s.queue| then s.workers
    else
      match AfterReserve(s.workers[k].worker, s.queue[q].needs)
      case Ok(w) => s.workers[k := s.workers[k].(worker := w)]
      case Err(_) => s.workers
  }

  /** The stores after the worker write of a finish or of one expiry, before the job write. */
  function WorkersMidRelease(s: State, i: nat): seq<StoredWorker>
    requires i < |s.jobs|
  {
    match ReleaseHolder(s.workers, s.jobs[i])
    case Ok(workers) => workers
    case Err(_) => s.workers
  }

  /**
   * A crash between the two writes of dispatch, finish or expiry is indistinguishable, after the
   * restart, from a crash before the operation began.
   */
  lemma CrashBetweenWritesIsACrashBefore(s: State, jobId: Id, workerId: Id, i: nat)
    requires i < |s.jobs|
    ensures Recover(s.jobs, WorkersMidDispatch(s, jobId, workerId)) == Recover(s.jobs, s.workers)
    ensures Recover(s.jobs, WorkersMidRelease(s, i)) == Recover(s.jobs, s.workers)
  {
    RecoverForgetsLedgers(s.jobs, WorkersMidDispatch(s, jobId, workerId), s.workers);
    RecoverForgetsLedgers(s.jobs, WorkersMidRelease(s, i), s.workers);
  }

  /** The workers between the two writes are those that the completed operation leaves. */
  lemma MidwayWorkersAreTheFinalOnes(s: State, jobId: Id, workerId: Id, final: JobState, i: nat, now: int, duration: int)
    requires i < |s.jobs|
    ensures Dispatch(s, jobId, workerId, now, duration).outcome.Done? ==>
              Dispatch(s, jobId, workerId, now, duration).state.workers == WorkersMidDispatch(s, jobId, workerId)
    ensures Finish(s, jobId, final).outcome.Done? ==>
              Finish(s, jobId, final).state.workers == WorkersMidRelease(s, FindJob(s.jobs, jobId))
    ensures IsDue(s.jobs[i], now) && IsActive(s.jobs[i].job.state) ==>
              ExpireOne(s, i, now).state.workers == WorkersMidRelease(s, i)
  {
  }

  /**
   * A restart that itself crashed, after rewriting some of the workers and some of the jobs, is
   * completed by the next restart; in particular recovery is idempotent.
   */
  lemma RecoveryResumes(jobs: seq<JobRecord>, workers: seq<StoredWorker>, n: nat, m: nat)
    requires n <= |jobs| && m <= |workers|
    ensures Recover(RecoverFirst(jobs, n), RestoreFirst(workers, m)) == Recover(jobs, workers)
    ensures var s := Recover(jobs, workers); Recover(s.jobs, s.workers) == s
  {
    RecoverResumes(jobs, workers, n, m);
    RecoverResumes(jobs, workers, |jobs|, |workers|);
  }

  lemma RecoverResumes(jobs: seq<JobRecord>, workers: seq<StoredWorker>, n: nat, m: nat)
    requires n <= |jobs| && m <= |workers|
    ensures Recover(RecoverFirst(jobs, n), RestoreFirst(workers, m)) == Recover(jobs, workers)
  {
    var jobs', workers' := RecoverFirst(jobs, n), RestoreFirst(workers, m);
    RecoveringTwice();
    assert RecoverFirst(jobs', |jobs'|) == RecoverFirst(jobs, |jobs|);
    assert RestoreFirst(workers', |workers'|) == RestoreFirst(workers, |workers|);
  }

  lemma RecoveringTwice()
    ensures forall r: JobRecord :: Recovered(Recovered(r)) == Recovered(r)
    ensures forall w: Worker :: FullCapacity(FullCapacity(w)) == FullCapacity(w)
  {
  }
}

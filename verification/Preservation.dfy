/** Every operation keeps the invariant, from every state that satisfies it. */
module Preservation {
  import opened Errors
  import opened JobStates
  import opened Jobs
  import opened Workers
  import opened Ledger
  import opened Ordering
  import opened JobQueues
  import opened Store
  import opened Protocol
  import opened Conservation

  lemma AgreesAfterAppending(jobs: seq<JobRecord>, queue: seq<Job>, r: JobRecord)
    requires QueueAgrees(jobs, queue) && r.job.state.Queued?
    ensures QueueAgrees(jobs + [r], queue + [r.job])
  {
    var jobs', queue' := jobs + [r], queue + [r.job];
    assert jobs'[|jobs|] == r;
    forall j | j in queue
      ensures j.state.Queued? && Stores(jobs', j)
    {
      var m :| 0 <= m < |jobs| && jobs[m].job == j;
      assert jobs'[m].job == j;
    }
    forall i | 0 <= i < |jobs'| && jobs'[i].job.state.Queued?
      ensures jobs'[i].job in queue'
    {
      assert i < |jobs| ==> jobs[i].job in queue;
    }
  }

  /**
   * Submission and first registration are refused exactly to what is known already and to jobs that are not queued,
   * each with its reason, and then change nothing; otherwise the newcomer is added as it is, behind all others.
   */
  lemma NewcomersAreStored(s: State, j: Job, w: Worker, now: int)
    ensures var e := Submit(s, j);
            && (e.outcome == Thrown(DuplicateJob) <==> exists r :: r in s.jobs && r.job.id == j.id)
            && (e.outcome == Thrown(NotQueued) <==> (forall r :: r in s.jobs ==> r.job.id != j.id) && !j.state.Queued?)
            && e.outcome in {Done, Thrown(DuplicateJob), Thrown(NotQueued), Thrown(AlreadyQueued)}
            && (e.outcome == Thrown(AlreadyQueued) ==> exists q :: q in s.queue && q.id == j.id)
            && (e.outcome.Thrown? ==> e.state == s)
            && (e.outcome.Done? ==> e.state == State(s.jobs + [JobRecord(j, None, None)], s.workers, s.queue + [j]))
    ensures var e := Register(s, w, now);
            if exists sw :: sw in s.workers && sw.worker.id == w.id then e == Effect(s, Thrown(DuplicateWorker))
            else e == Effect(s.(workers := s.workers + [StoredWorker(w, now)]), Done)
  {
    assert forall i :: 0 <= i < |s.jobs| ==> s.jobs[i] in s.jobs;
    assert forall k :: 0 <= k < |s.workers| ==> s.workers[k] in s.workers;
    assert forall m :: 0 <= m < |s.queue| ==> s.queue[m] in s.queue;
  }

  /** An accepted job must have an attempt left: the store would otherwise hold a queued job that no dispatch can take. */
  lemma SubmitKeeps(s: State, base: Baseline, j: Job)
    requires Inv(s, base)
    ensures Inv(Submit(s, j).state, base) <==> Submit(s, j).outcome.Thrown? || CanAttempt(j)
  {
    hide Inv;
    if Submit(s, j).outcome.Done? && CanAttempt(j) {
      AppendingKeeps(s, base, j);
    } else if Submit(s, j).outcome.Done? {
      ExhaustedIsUnsound(s, base, j);
    }
  }

  lemma ExhaustedIsUnsound(s: State, base: Baseline, j: Job)
    requires j.state.Queued? && !CanAttempt(j)
    ensures !Inv(s.(jobs := s.jobs + [JobRecord(j, None, None)], queue := s.queue + [j]), base)
  {
    var jobs' := s.jobs + [JobRecord(j, None, None)];
    assert !WellShaped(jobs'[|s.jobs|]);
  }

  lemma AppendingKeeps(s: State, base: Baseline, j: Job)
    requires Inv(s, base) && j.state.Queued? && CanAttempt(j)
    requires FindJob(s.jobs, j.id) == |s.jobs| && !Contains(s.queue, j.id)
    ensures Inv(s.(jobs := s.jobs + [JobRecord(j, None, None)], queue := s.queue + [j]), base)
  {
    var r := JobRecord(j, None, None);
    AgreesAfterAppending(s.jobs, s.queue, r);
    ShapeAfterAppending(s.jobs, s.workers, r);
    ConservedAfterAppending(s.jobs, s.workers, base, r);
    hide QueueAgrees, UniqueJobs, AllWellShaped, HoldersKnown, Conserved, UniqueWorkers;
  }

  lemma ShapeAfterAppending(jobs: seq<JobRecord>, workers: seq<StoredWorker>, r: JobRecord)
    requires UniqueJobs(jobs) && AllWellShaped(jobs) && HoldersKnown(jobs, workers)
    requires FindJob(jobs, r.job.id) == |jobs| && WellShaped(r) && !IsActive(r.job.state)
    ensures UniqueJobs(jobs + [r]) && AllWellShaped(jobs + [r]) && HoldersKnown(jobs + [r], workers)
  {
    var jobs' := jobs + [r];
    assert jobs'[|jobs|] == r;
    forall m | 0 <= m < |jobs'| && IsActive(jobs'[m].job.state) && jobs'[m].worker.Some?
      ensures FindWorker(workers, jobs'[m].worker.value) < |workers|
    {
      assert jobs'[m] == jobs[m];
    }
  }

  lemma ConservedAfterAppending(jobs: seq<JobRecord>, workers: seq<StoredWorker>, base: Baseline, r: JobRecord)
    requires Conserved(jobs, workers, base) && !IsActive(r.job.state)
    ensures Conserved(jobs + [r], workers, base)
  {
    var jobs' := jobs + [r];
    assert jobs'[|jobs|] == r;
    forall k | 0 <= k < |workers| && workers[k].worker.id in base
      ensures Balanced(jobs', workers[k].worker, base)
    {
      assert Balanced(jobs, workers[k].worker, base);
      LoadDependsOnShares(jobs, jobs', |jobs|, workers[k].worker.id);
    }
  }

  lemma FindWorkerInLonger(workers: seq<StoredWorker>, sw: StoredWorker, id: Id)
    requires FindWorker(workers, id) < |workers|
    ensures FindWorker(workers + [sw], id) < |workers|
  {
    var k := FindWorker(workers, id);
    assert (workers + [sw])[k].worker.id == id;
  }

  /** A worker may register partly used; what it already uses becomes its baseline. */
  lemma RegisterKeeps(s: State, base: Baseline, w: Worker, now: int)
    requires Inv(s, base)
    ensures Register(s, w, now).outcome.Done? ==> Inv(Register(s, w, now).state, base[w.id := Used(w)])
    ensures Register(s, w, now).outcome.Thrown? ==> Inv(Register(s, w, now).state, base)
  {
    if Register(s, w, now).outcome.Done? {
      var s' := Register(s, w, now).state;
      var base' := base[w.id := Used(w)];
      forall i | 0 <= i < |s.jobs| && IsActive(s.jobs[i].job.state) && s.jobs[i].worker.Some?
        ensures FindWorker(s'.workers, s.jobs[i].worker.value) < |s'.workers| && s.jobs[i].worker.value != w.id
      {
        FindWorkerInLonger(s.workers, StoredWorker(w, now), s.jobs[i].worker.value);
      }
      LoadOfStranger(s.jobs, |s.jobs|, w.id);
      forall k | 0 <= k < |s'.workers| && s'.workers[k].worker.id in base'
        ensures Balanced(s'.jobs, s'.workers[k].worker, base')
      {
        if k < |s.workers| {
          assert s.workers[k].worker.id != w.id;
          assert Balanced(s.jobs, s.workers[k].worker, base);
        }
      }
    }
  }

  /** A worker's report: what it says is in use beyond the needs of its jobs, or no account of it if it says too little. */
  function Rebased(s: State, base: Baseline, w: Worker): Baseline
  {
    if AtMost(Load(s.jobs, w.id), Used(w)) then base[w.id := Minus(Used(w), Load(s.jobs, w.id))] else base - {w.id}
  }

  /** Announcing a known worker again books what it reports. No other ledger is touched. */
  lemma ReregisterKeeps(s: State, base: Baseline, w: Worker)
    requires Inv(s, base) && FindWorker(s.workers, w.id) < |s.workers|
    ensures Inv(Reregister(s, w).state, Rebased(s, base, w))
  {
    var s' := Reregister(s, w).state;
    var base' := Rebased(s, base, w);
    HoldersKnownAnyLedger(s.jobs, s.workers, s'.workers);
    forall k | 0 <= k < |s'.workers| && s'.workers[k].worker.id in base'
      ensures Balanced(s'.jobs, s'.workers[k].worker, base')
    {
      assert k != FindWorker(s.workers, w.id) ==> s.workers[k].worker.id != w.id;
      assert k != FindWorker(s.workers, w.id) ==> Balanced(s.jobs, s.workers[k].worker, base);
    }
  }

  /** The ledger of the worker balances afterwards, for some baseline, exactly when it reports its jobs' needs. */
  lemma ReportIsExact(s: State, w: Worker, s': State)
    requires UniqueWorkers(s.workers) && FindWorker(s.workers, w.id) < |s.workers| && s' == Reregister(s, w).state
    ensures (exists base :: w.id in base && Conserved(s'.jobs, s'.workers, base)) <==> AtMost(Load(s.jobs, w.id), Used(w))
  {
    var k := FindWorker(s.workers, w.id);
    if AtMost(Load(s.jobs, w.id), Used(w)) {
      var base: Baseline := map[w.id := Minus(Used(w), Load(s.jobs, w.id))];
      assert w.id in base && Conserved(s'.jobs, s'.workers, base);
    }
    forall base: Baseline | w.id in base && Conserved(s'.jobs, s'.workers, base)
      ensures AtMost(Load(s.jobs, w.id), Used(w))
    {
      assert Balanced(s'.jobs, s'.workers[k].worker, base);
    }
  }

  /** Ledgers, ids and the shape of the records stay as they are. */
  lemma LedgersUnchanged(s: State, s': State, base: Baseline)
    requires Inv(s, base)
    requires s'.queue == s.queue && |s'.jobs| == |s.jobs| && |s'.workers| == |s.workers|
    requires forall i :: 0 <= i < |s.jobs| ==>
               && s'.jobs[i].job == s.jobs[i].job && s'.jobs[i].worker == s.jobs[i].worker
               && WellShaped(s'.jobs[i])
    requires forall k :: 0 <= k < |s.workers| ==>
               && s'.workers[k].worker.id == s.workers[k].worker.id
               && Equal(Used(s'.workers[k].worker), Used(s.workers[k].worker))
    ensures Inv(s', base)
  {
    HoldersKnownAnyLedger(s.jobs, s.workers, s'.workers);
    forall k | 0 <= k < |s'.workers| && s'.workers[k].worker.id in base
      ensures Balanced(s'.jobs, s'.workers[k].worker, base)
    {
      assert Balanced(s.jobs, s.workers[k].worker, base);
      LoadDependsOnShares(s.jobs, s'.jobs, |s.jobs|, s.workers[k].worker.id);
    }
    forall q | q in s'.queue
      ensures Stores(s'.jobs, q)
    {
      var m :| 0 <= m < |s.jobs| && s.jobs[m].job == q;
      assert s'.jobs[m].job == q;
    }
  }

  lemma HeartbeatKeeps(s: State, base: Baseline, id: Id, time: int, duration: int)
    requires Inv(s, base)
    ensures Inv(Heartbeat(s, id, time, duration).state, base)
  {
    if Heartbeat(s, id, time, duration).outcome.Done? {
      var s' := Heartbeat(s, id, time, duration).state;
      assert forall i :: 0 <= i < |s.jobs| ==> WellShaped(s.jobs[i]);
      assert forall i :: 0 <= i < |s.jobs| ==> s'.jobs[i] == Renewed(s.jobs[i], id, time + duration);
      LedgersUnchanged(s, s', base);
    }
  }

  lemma MarkStaleKeeps(s: State, base: Baseline, now: int, timeout: int)
    requires Inv(s, base)
    ensures Inv(MarkStale(s, now, timeout).state, base)
  {
    if timeout > 0 {
      LedgersUnchanged(s, MarkStale(s, now, timeout).state, base);
    }
  }

  /** A record and its holder's ledger are replaced together, or no ledger is, if the holder had nothing to give back. */
  lemma ReleasedKeeps(s: State, base: Baseline, i: nat, r': JobRecord, sw: StoredWorker)
    requires Inv(s, base) && i < |s.jobs| && IsActive(s.jobs[i].job.state)
    requires r'.job.id == s.jobs[i].job.id && !IsActive(r'.job.state) && !r'.job.state.Queued? && WellShaped(r')
    requires s.jobs[i].worker.Some? && FindWorker(s.workers, s.jobs[i].worker.value) < |s.workers|
    requires var w := s.workers[FindWorker(s.workers, s.jobs[i].worker.value)].worker;
             && sw.worker.id == w.id
             && ((sw.worker == w && w.running == 0) || AfterRelease(w, s.jobs[i].job.needs) == Ok(sw.worker))
    ensures Inv(State(s.jobs[i := r'], s.workers[FindWorker(s.workers, s.jobs[i].worker.value) := sw], s.queue), base)
  {
    var k := FindWorker(s.workers, s.jobs[i].worker.value);
    if s.workers[k].worker.id in base {
      ReleaseIsNeverRefused(s, base, i);
    }
    ConservedAfterUpdate(s.jobs, s.workers, base, i, r', k, sw);
    ShapeAfterUpdate(s.jobs, s.workers, i, r');
    HoldersKnownAnyLedger(s.jobs[i := r'], s.workers, s.workers[k := sw]);
    AgreesAfterOtherUpdate(s.jobs, s.queue, i, r');
  }

  /** In a consistent state a lease belongs to an active job with a known holder. */
  lemma LeasedIsHeld(s: State, i: nat)
    requires Consistent(s) && i < |s.jobs|
    ensures WellShaped(s.jobs[i]) && (s.jobs[i].lease.Some? ==> IsActive(s.jobs[i].job.state))
    ensures IsActive(s.jobs[i].job.state) ==>
              s.jobs[i].worker.Some? && s.jobs[i].lease.Some?
              && FindWorker(s.workers, s.jobs[i].worker.value) < |s.workers|
  {
    assert WellShaped(s.jobs[i]);
  }

  /** One record of the expiry scan. A release that its holder refuses changes nothing. */
  lemma ExpireOneKeeps(s: State, base: Baseline, i: nat, now: int)
    requires Inv(s, base) && i < |s.jobs|
    ensures Inv(ExpireOne(s, i, now).state, base)
  {
    hide Inv, Consistent;
    InvIsConsistent(s, base);
    LeasedIsHeld(s, i);
    var r := s.jobs[i];
    if IsDue(r, now) {
      var k := FindWorker(s.workers, r.worker.value);
      if s.workers[k].worker.running == 0 {
        assert s.workers[k := s.workers[k]] == s.workers;
        ReleasedKeeps(s, base, i, Expired(r, now), s.workers[k]);
      } else if AfterRelease(s.workers[k].worker, r.job.needs).Ok? {
        ReleasedKeeps(s, base, i, Expired(r, now),
                      s.workers[k].(worker := AfterRelease(s.workers[k].worker, r.job.needs).value));
      }
    } else {
      assert s.jobs[i := Expired(r, now)] == s.jobs;
    }
  }

  lemma InvIsConsistent(s: State, base: Baseline)
    requires Inv(s, base)
    ensures Consistent(s)
  {
  }

  lemma {:induction false} ExpireFirstKeeps(s: State, base: Baseline, n: nat, now: int)
    requires Inv(s, base) && n <= |s.jobs|
    ensures Inv(ExpireFirst(s, n, now).state, base)
  {
    hide Inv, ExpireOne;
    if n > 0 {
      ExpireFirstKeeps(s, base, n - 1, now);
      ExpireOneKeeps(ExpireFirst(s, n - 1, now).state, base, n - 1, now);
    }
  }

  /** Where the holder's ledger balances, the scan is not stopped. */
  lemma ExpireOneCompletes(s: State, base: Baseline, i: nat, now: int)
    requires Inv(s, base) && Covers(base, s.workers) && i < |s.jobs|
    ensures ExpireOne(s, i, now).outcome.Done?
  {
    hide Consistent, Conserved;
    LeasedIsHeld(s, i);
    if IsDue(s.jobs[i], now) {
      assert s.workers[FindWorker(s.workers, s.jobs[i].worker.value)].worker.id in base;
      ReleaseIsNeverRefused(s, base, i);
    }
  }

  /** The same workers under the same ids, whatever else changed about them. */
  ghost predicate SameIds(a: seq<StoredWorker>, b: seq<StoredWorker>)
  {
    |a| == |b| && forall k :: 0 <= k < |a| ==> a[k].worker.id == b[k].worker.id
  }

  lemma ExpireOneKeepsIds(s: State, i: nat, now: int)
    requires i < |s.jobs|
    ensures SameIds(s.workers, ExpireOne(s, i, now).state.workers)
  {
  }

  /** Where all ledgers balance, the whole scan completes. */
  lemma {:induction false} ExpireFirstCompletes(s: State, base: Baseline, n: nat, now: int)
    requires Inv(s, base) && Covers(base, s.workers) && n <= |s.jobs|
    ensures ExpireFirst(s, n, now).outcome.Done?
    ensures SameIds(s.workers, ExpireFirst(s, n, now).state.workers)
  {
    hide Inv, ExpireOne;
    if n > 0 {
      ExpireFirstCompletes(s, base, n - 1, now);
      ExpireFirstKeeps(s, base, n - 1, now);
      ExpireOneCompletes(ExpireFirst(s, n - 1, now).state, base, n - 1, now);
      ExpireOneKeepsIds(ExpireFirst(s, n - 1, now).state, n - 1, now);
    }
  }

  lemma RequeueOneKeeps(s: State, base: Baseline, i: nat)
    requires Inv(s, base) && i < |s.jobs|
    ensures RequeueOne(s, i).outcome.Done?
    ensures Inv(RequeueOne(s, i).state, base)
  {
    var r := s.jobs[i];
    var r' := Retried(r);
    assert WellShaped(r);
    if r.job.state.RetryWait? {
      ConservedAfterNeutralUpdate(s.jobs, s.workers, base, i, r');
      ShapeAfterUpdate(s.jobs, s.workers, i, r');
      if CanAttempt(r.job) {
        AgreesAfterQueueing(s.jobs, s.queue, i, r');
      } else {
        AgreesAfterOtherUpdate(s.jobs, s.queue, i, r');
      }
    }
  }

  lemma {:induction false} RequeueFirstKeeps(s: State, base: Baseline, n: nat)
    requires Inv(s, base) && n <= |s.jobs|
    ensures RequeueFirst(s, n).outcome.Done?
    ensures Inv(RequeueFirst(s, n).state, base)
  {
    hide Inv, RequeueOne;
    if n > 0 {
      RequeueFirstKeeps(s, base, n - 1);
      RequeueOneKeeps(RequeueFirst(s, n - 1).state, base, n - 1);
    }
  }

  /** A queued job is the job of its record. */
  lemma QueuedJobIsStored(s: State, q: nat)
    requires Consistent(s) && q < |s.queue|
    ensures var i := FindJob(s.jobs, s.queue[q].id);
            i < |s.jobs| && s.jobs[i].job == s.queue[q] && s.queue[q].state.Queued? && CanAttempt(s.queue[q])
  {
    assert s.queue[q] in s.queue;
    var m :| 0 <= m < |s.jobs| && s.jobs[m].job == s.queue[q];
    assert WellShaped(s.jobs[m]);
  }

  /**
   * A job goes back behind the others if it can be queued at all, and only once: from any queue of queued jobs with
   * distinct ids to another.
   */
  lemma PutBackIsQueueing(queue: seq<Job>, j: Job)
    requires DistinctIds(queue) && forall x :: x in queue ==> x.state.Queued?
    ensures var after := PutBack(queue, j);
            && DistinctIds(after) && (forall x :: x in after ==> x.state.Queued?)
            && |queue| <= |after| <= |queue| + 1 && after[..|queue|] == queue
            && (j.state.Queued? ==> Contains(after, j.id)) && (|after| > |queue| ==> after[|queue|] == j)
  {
    if !Contains(queue, j.id) {
      assert forall x :: x in queue ==> exists m :: 0 <= m < |queue| && queue[m] == x;
      assert (queue + [j])[|queue|].id == j.id;
    }
  }

  lemma PutBackKeeps(s: State, base: Baseline, jobId: Id)
    requires Inv(s, base)
    ensures Inv(RolledBack(s, jobId), base)
    ensures multiset(RolledBack(s, jobId).queue) == multiset(s.queue)
    ensures RolledBack(s, jobId).jobs == s.jobs && RolledBack(s, jobId).workers == s.workers
  {
    var q := FindQueued(s.queue, jobId);
    if q < |s.queue| {
      QueuedJobIsStored(s, q);
      WithoutKeepsDistinct(s.queue, q);
      var queue' := RolledBack(s, jobId).queue;
      assert queue' == Without(s.queue, q) + [s.queue[q]];
      SameElements(queue', s.queue);
    }
  }

  /** Moving a queued job to a worker that reserved for it. */
  lemma LeaseKeeps(s: State, base: Baseline, q: nat, i: nat, k: nat, r: JobRecord, w: Worker)
    requires Inv(s, base) && q < |s.queue| && i < |s.jobs| && k < |s.workers|
    requires s.jobs[i].job == s.queue[q] && r.job.id == s.queue[q].id && r.job.needs == s.queue[q].needs
    requires r.job.state.Leased? && r.worker == Some(s.workers[k].worker.id) && r.lease.Some?
    requires AfterReserve(s.workers[k].worker, s.queue[q].needs) == Ok(w)
    ensures Inv(State(s.jobs[i := r], s.workers[k := s.workers[k].(worker := w)], Without(s.queue, q)), base)
  {
    var sw := s.workers[k].(worker := w);
    QueuedJobIsStored(s, q);
    ReserveTakes(s.workers[k].worker, s.queue[q].needs);
    ConservedAfterUpdate(s.jobs, s.workers, base, i, r, k, sw);
    ShapeAfterUpdate(s.jobs, s.workers, i, r);
    HoldersKnownAnyLedger(s.jobs[i := r], s.workers, s.workers[k := sw]);
    AgreesAfterTaking(s.jobs, s.queue, i, r, q);
  }

  lemma DispatchKeeps(s: State, base: Baseline, jobId: Id, workerId: Id, now: int, duration: int)
    requires Inv(s, base)
    ensures Inv(Dispatch(s, jobId, workerId, now, duration).state, base)
  {
    InvIsConsistent(s, base);
    hide Inv, Consistent, RolledBack, AfterReserve;
    var e := Dispatch(s, jobId, workerId, now, duration);
    PutBackKeeps(s, base, jobId);
    if e.outcome.Done? {
      var k, q, i := FindWorker(s.workers, workerId), FindQueued(s.queue, jobId), FindJob(s.jobs, jobId);
      QueuedJobIsStored(s, q);
      LeaseKeeps(s, base, q, i, k, e.state.jobs[i], e.state.workers[k].worker);
    }
  }

  /** A start is refused to jobs that are unknown, that nobody holds or that are not leased, in this order. */
  lemma StartIsAcceptedIff(s: State, jobId: Id, now: int, duration: int)
    ensures var e, i := Start(s, jobId, now, duration), FindJob(s.jobs, jobId);
            && (e.outcome.Done? <==> i < |s.jobs| && s.jobs[i].worker.Some? && s.jobs[i].job.state.Leased?)
            && (e.outcome == Thrown(UnknownJob) <==> forall r :: r in s.jobs ==> r.job.id != jobId)
            && (e.outcome == Thrown(UnassignedJob) <==> i < |s.jobs| && s.jobs[i].worker.None?)
            && e.outcome in {Done, Thrown(UnknownJob), Thrown(UnassignedJob), Thrown(IllegalTransition)}
            && (e.outcome.Thrown? ==> e.state == s)
  {
    assert forall m :: 0 <= m < |s.jobs| ==> s.jobs[m] in s.jobs;
  }

  /** An end is refused to these, to jobs that neither run nor are to be cancelled, and where the ledger refuses. */
  lemma EndIsAcceptedIff(s: State, jobId: Id, final: JobState)
    requires final.Succeeded? || final.Failed?
    ensures var e, i := Finish(s, jobId, final), FindJob(s.jobs, jobId);
            && (e.outcome == Thrown(UnknownJob) <==> forall r :: r in s.jobs ==> r.job.id != jobId)
            && (e.outcome == Thrown(UnassignedJob) <==> i < |s.jobs| && s.jobs[i].worker.None?)
            && (e.outcome == Thrown(IllegalTransition) ==> i < |s.jobs| && s.jobs[i].worker.Some?)
            && (e.outcome.Done? ==> i < |s.jobs| && CanTransition(s.jobs[i].job.state, final))
            && (e.outcome.Thrown? ==> e.state == s)
            && (i < |s.jobs| && s.jobs[i].worker.Some? ==>
                  var k := FindWorker(s.workers, s.jobs[i].worker.value);
                  e.outcome.Done? <==>
                    && CanTransition(s.jobs[i].job.state, final) && k < |s.workers|
                    && AfterRelease(s.workers[k].worker, s.jobs[i].job.needs).Ok?)
  {
    assert forall m :: 0 <= m < |s.jobs| ==> s.jobs[m] in s.jobs;
  }

  lemma StartKeeps(s: State, base: Baseline, jobId: Id, now: int, duration: int)
    requires Inv(s, base)
    ensures Inv(Start(s, jobId, now, duration).state, base)
  {
    var e := Start(s, jobId, now, duration);
    if e.outcome.Done? {
      var i := FindJob(s.jobs, jobId);
      var r' := e.state.jobs[i];
      assert WellShaped(s.jobs[i]);
      ConservedAfterNeutralUpdate(s.jobs, s.workers, base, i, r');
      ShapeAfterUpdate(s.jobs, s.workers, i, r');
      AgreesAfterOtherUpdate(s.jobs, s.queue, i, r');
    }
  }

  lemma FinishKeeps(s: State, base: Baseline, jobId: Id, final: JobState)
    requires Inv(s, base) && (final.Succeeded? || final.Failed?)
    ensures Inv(Finish(s, jobId, final).state, base)
  {
    hide Inv, Consistent, AfterRelease;
    var e := Finish(s, jobId, final);
    if e.outcome.Done? {
      var i := FindJob(s.jobs, jobId);
      InvIsConsistent(s, base);
      LeasedIsHeld(s, i);
      var k := FindWorker(s.workers, s.jobs[i].worker.value);
      ReleaseKeepsId(s.workers[k].worker, s.jobs[i].job.needs);
      ReleasedKeeps(s, base, i, e.state.jobs[i], e.state.workers[k]);
    }
  }

  lemma ReleaseKeepsId(w: Worker, q: Requirements)
    ensures AfterRelease(w, q).Ok? ==> AfterRelease(w, q).value.id == w.id
  {
  }

  // ---------- the same, for whatever is in use elsewhere ----------

  /** A step that keeps consistency and every ledger that balanced. */
  ghost predicate Preserves(s: State, s': State)
  {
    SameIds(s.workers, s'.workers) && forall base :: Inv(s, base) ==> Inv(s', base)
  }

  lemma PreservesSoundness(s: State, s': State)
    requires Preserves(s, s')
    ensures Consistent(s) ==> Consistent(s')
    ensures Sound(s) ==> Sound(s')
  {
    ConsistentNeedsNoLedger(s);
    ConsistentNeedsNoLedger(s');
    hide Inv, Consistent;
    if Sound(s) {
      var base :| Inv(s, base) && Covers(base, s.workers);
      assert Inv(s', base) && Covers(base, s'.workers);
    }
  }

  lemma NoStepPreserves(s: State)
    ensures Preserves(s, s)
  {
  }

  lemma PreservesComposes(a: State, b: State, c: State)
    requires Preserves(a, b) && Preserves(b, c)
    ensures Preserves(a, c)
  {
    hide Inv;
  }

  lemma SubmitPreserves(s: State, j: Job)
    requires CanAttempt(j)
    ensures Preserves(s, Submit(s, j).state)
  {
    assert SameIds(s.workers, Submit(s, j).state.workers);
    hide Inv, Submit;
    forall base | Inv(s, base) ensures Inv(Submit(s, j).state, base) { SubmitKeeps(s, base, j); }
  }

  lemma HeartbeatPreserves(s: State, id: Id, time: int, duration: int)
    ensures Preserves(s, Heartbeat(s, id, time, duration).state)
  {
    assert SameIds(s.workers, Heartbeat(s, id, time, duration).state.workers);
    hide Inv, Heartbeat;
    forall base | Inv(s, base) ensures Inv(Heartbeat(s, id, time, duration).state, base) {
      HeartbeatKeeps(s, base, id, time, duration);
    }
  }

  /** Leases renewed in part, by a heartbeat that the store cut short after the worker was or was not written. */
  lemma PartialHeartbeatKeeps(s: State, base: Baseline, s': State, n: nat, id: Id, lease: int)
    requires Inv(s, base)
    requires n <= |s.jobs| && s'.jobs == RenewFirst(s.jobs, n, id, lease) && s'.queue == s.queue
    requires |s'.workers| == |s.workers| && forall k :: 0 <= k < |s.workers| ==>
               s'.workers[k].worker == s.workers[k].worker || s'.workers[k].worker == Revived(s.workers[k].worker)
    ensures Inv(s', base)
  {
    hide Inv, Used, Revived;
    UnchangedByRenewal(s.jobs, n, id, lease);
    InvShapes(s, base);
    forall k | 0 <= k < |s.workers|
      ensures s'.workers[k].worker.id == s.workers[k].worker.id
      ensures Equal(Used(s'.workers[k].worker), Used(s.workers[k].worker))
    {
      RevivalUsesNothing(s.workers[k].worker);
    }
    LedgersUnchanged(s, s', base);
  }

  lemma PartialHeartbeatPreserves(s: State, s': State, n: nat, id: Id, lease: int)
    requires n <= |s.jobs| && s'.jobs == RenewFirst(s.jobs, n, id, lease) && s'.queue == s.queue
    requires |s'.workers| == |s.workers| && forall k :: 0 <= k < |s.workers| ==>
               s'.workers[k].worker == s.workers[k].worker || s'.workers[k].worker == Revived(s.workers[k].worker)
    ensures Preserves(s, s')
  {
    hide Inv;
    forall base | Inv(s, base) ensures Inv(s', base) { PartialHeartbeatKeeps(s, base, s', n, id, lease); }
  }

  lemma RevivalUsesNothing(w: Worker)
    ensures Equal(Used(Revived(w)), Used(w)) && Revived(w).id == w.id
  {
  }

  lemma InvShapes(s: State, base: Baseline)
    requires Inv(s, base)
    ensures forall i :: 0 <= i < |s.jobs| ==> WellShaped(s.jobs[i])
  {
  }

  lemma UnchangedByRenewal(jobs: seq<JobRecord>, n: nat, id: Id, lease: int)
    requires n <= |jobs|
    ensures forall i :: 0 <= i < |jobs| ==>
              var r := RenewFirst(jobs, n, id, lease)[i];
              r.job == jobs[i].job && r.worker == jobs[i].worker && (WellShaped(jobs[i]) ==> WellShaped(r))
  {
  }

  lemma StaleCheckPreserves(s: State, n: nat, now: int, timeout: int)
    requires n <= |s.workers|
    ensures Preserves(s, s.(workers := CheckFirst(s.workers, n, now, timeout)))
  {
    var s' := s.(workers := CheckFirst(s.workers, n, now, timeout));
    forall base | Inv(s, base) ensures Inv(s', base) { LedgersUnchanged(s, s', base); }
  }

  lemma {:induction false} ExpireFirstKeepsIds(s: State, n: nat, now: int)
    requires n <= |s.jobs|
    ensures SameIds(s.workers, ExpireFirst(s, n, now).state.workers)
  {
    hide ExpireOne;
    if n > 0 {
      ExpireFirstKeepsIds(s, n - 1, now);
      ExpireOneKeepsIds(ExpireFirst(s, n - 1, now).state, n - 1, now);
    }
  }

  lemma ExpiryPreserves(s: State, n: nat, now: int)
    requires n <= |s.jobs|
    ensures Preserves(s, ExpireFirst(s, n, now).state)
  {
    hide Inv, ExpireFirst;
    ExpireFirstKeepsIds(s, n, now);
    forall base | Inv(s, base) ensures Inv(ExpireFirst(s, n, now).state, base) { ExpireFirstKeeps(s, base, n, now); }
  }

  lemma {:induction false} RequeueFirstKeepsWorkers(s: State, n: nat)
    requires n <= |s.jobs|
    ensures RequeueFirst(s, n).state.workers == s.workers
  {
    if n > 0 {
      RequeueFirstKeepsWorkers(s, n - 1);
    }
  }

  lemma RequeuePreserves(s: State, n: nat)
    requires n <= |s.jobs|
    ensures Preserves(s, RequeueFirst(s, n).state)
  {
    hide Inv, RequeueFirst;
    RequeueFirstKeepsWorkers(s, n);
    forall base | Inv(s, base) ensures Inv(RequeueFirst(s, n).state, base) { RequeueFirstKeeps(s, base, n); }
  }

  lemma DispatchKeepsIds(s: State, jobId: Id, workerId: Id, now: int, duration: int)
    ensures SameIds(s.workers, Dispatch(s, jobId, workerId, now, duration).state.workers)
    ensures SameIds(s.workers, RolledBack(s, jobId).workers)
  {
  }

  lemma DispatchPreserves(s: State, jobId: Id, workerId: Id, now: int, duration: int)
    ensures Preserves(s, Dispatch(s, jobId, workerId, now, duration).state)
    ensures Preserves(s, RolledBack(s, jobId))
  {
    hide Inv, Dispatch, RolledBack;
    DispatchKeepsIds(s, jobId, workerId, now, duration);
    forall base | Inv(s, base)
      ensures Inv(Dispatch(s, jobId, workerId, now, duration).state, base) && Inv(RolledBack(s, jobId), base)
    {
      DispatchKeeps(s, base, jobId, workerId, now, duration);
      PutBackKeeps(s, base, jobId);
    }
  }

  lemma StartPreserves(s: State, jobId: Id, now: int, duration: int)
    ensures Preserves(s, Start(s, jobId, now, duration).state)
  {
    assert SameIds(s.workers, Start(s, jobId, now, duration).state.workers);
    hide Inv, Start;
    forall base | Inv(s, base) ensures Inv(Start(s, jobId, now, duration).state, base) {
      StartKeeps(s, base, jobId, now, duration);
    }
  }

  lemma FinishKeepsWorkers(s: State, jobId: Id, final: JobState)
    ensures SameIds(s.workers, Finish(s, jobId, final).state.workers)
  {
  }

  lemma FinishPreserves(s: State, jobId: Id, final: JobState)
    requires final.Succeeded? || final.Failed?
    ensures Preserves(s, Finish(s, jobId, final).state)
  {
    hide Inv, Finish;
    FinishKeepsWorkers(s, jobId, final);
    forall base | Inv(s, base) ensures Inv(Finish(s, jobId, final).state, base) { FinishKeeps(s, base, jobId, final); }
  }
}

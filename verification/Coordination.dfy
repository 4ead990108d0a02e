/**
 * The coordinator object: libs/coordinator/src/in_memory_coordinator.cpp. Each method is proved
 * against the function of `Protocol` for its operation; a thrown exception is a returned `Thrown`.
 * Repository writes may be rejected, and so may compensating writes. The repositories count them, and
 * each contract says what none, one and two of them during the call leave.
 */
module Coordination {
  import opened Errors
  import opened JobStates
  import opened Jobs
  import opened Workers
  import opened Ordering
  import opened Ledger
  import opened JobQueues
  import opened Policies
  import opened Planning
  import opened Store
  import opened Protocol
  import opened Conservation
  import opened Preservation
  import opened Recovery
  import opened Scans
  import opened Liveness
  import opened Rpc

  lemma HeartbeatByCases(s: State, id: Id, time: int, duration: int)
    ensures var k := FindWorker(s.workers, id);
            if k == |s.workers| then Heartbeat(s, id, time, duration) == Effect(s, Thrown(UnknownWorker))
            else
              var revived := Revived(s.workers[k].worker);
              var beaten := s.workers[k := StoredWorker(revived, time)];
              && Heartbeat(s, id, time, duration)
                 == Effect(s.(workers := beaten, jobs := RenewFirst(s.jobs, |s.jobs|, id, time + duration)), Done)
              && HeartbeatInPart(s, id, time, duration, None)
                 == s.(workers := s.workers[k := s.workers[k].(worker := revived)])
              && forall n: nat {:trigger HeartbeatInPart(s, id, time, duration, Some(n))} :: n <= |s.jobs| ==>
                   HeartbeatInPart(s, id, time, duration, Some(n))
                   == s.(workers := beaten, jobs := RenewFirst(s.jobs, n, id, time + duration))
  {
    hide RenewFirst, Revived;
  }

  lemma RenewNothing(jobs: seq<JobRecord>, id: Id, lease: int)
    ensures RenewFirst(jobs, 0, id, lease) == jobs
  {
  }

  lemma DispatchByCases(s: State, jobId: Id, workerId: Id, now: int, duration: int)
    ensures var k, q, i := FindWorker(s.workers, workerId), FindQueued(s.queue, jobId), FindJob(s.jobs, jobId);
            var e := Dispatch(s, jobId, workerId, now, duration);
            if k == |s.workers| then e == Effect(s, Thrown(UnknownWorker))
            else if q == |s.queue| then e == Effect(s, Thrown(UnknownJob))
            else if i == |s.jobs| then
              e == Effect(RolledBack(s, jobId), Thrown(if s.queue[q].state.Queued? then UnknownJob else NotQueued))
            else
              match LeaseOn(s.queue[q], s.workers[k].worker)
              case Err(error) => e == Effect(RolledBack(s, jobId), Thrown(error))
              case Ok(r) =>
                e == Effect(State(s.jobs[i := JobRecord(r.job, Some(workerId), Some(now + duration))],
                                  s.workers[k := s.workers[k].(worker := r.worker)], Without(s.queue, q)), Done)
    ensures Dispatch(s, jobId, workerId, now, duration).outcome != Thrown(StorageFailure)
  {
    hide LeaseOn, RolledBack;
  }

  lemma RolledBackByCases(s: State, jobId: Id, workerId: Id)
    ensures var k, q, i := FindWorker(s.workers, workerId), FindQueued(s.queue, jobId), FindJob(s.jobs, jobId);
            q < |s.queue| ==>
              && RolledBack(s, jobId)
                 == s.(queue := PutBack(Without(s.queue, q), if i == |s.jobs| then s.queue[q] else s.jobs[i].job))
              && (k < |s.workers| && LeaseOn(s.queue[q], s.workers[k].worker).Ok? ==>
                    WorkersMidDispatch(s, jobId, workerId)
                    == s.workers[k := s.workers[k].(worker := LeaseOn(s.queue[q], s.workers[k].worker).value.worker)])
  {
    hide PutBack, AfterReserve, Leasing;
  }

  /** The job with this id, and no other, is in this state now, with this lease and the holder that it had. */
  predicate IsNow(before: seq<JobRecord>, after: seq<JobRecord>, jobId: Id, state: JobState, lease: Option<int>)
  {
    var i := FindJob(before, jobId);
    i < |before| && after == before[i := JobRecord(before[i].job.(state := state), before[i].worker, lease)]
  }

  /**
   * How the two writes of a dispatch or a finish have ended: both made; or one rejected and both stores as they
   * were; or the compensating write rejected too, and the worker as written, the job as it was.
   */
  ghost predicate IsStored(jobs: seq<JobRecord>, workers: seq<StoredWorker>, jobs': seq<JobRecord>,
                           workers': seq<StoredWorker>, record: JobRecord, worker: Worker, o: Outcome, rejections: int)
    requires FindJob(jobs, record.job.id) < |jobs| && FindWorker(workers, worker.id) < |workers|
  {
    var i, k := FindJob(jobs, record.job.id), FindWorker(workers, worker.id);
    var written := workers[k := workers[k].(worker := worker)];
    if o.Done?
    then rejections == 0 && jobs' == jobs[i := record] && workers' == written
    else
      && o == Thrown(StorageFailure) && 1 <= rejections <= 2
      && jobs' == jobs && workers' == if rejections == 1 then workers else written
  }

  /**
   * How a dispatch that began in `s` has ended in `s'`. Without a rejected write: as specified. With one: with the
   * storage's exception, and everything as before but for the place in the queue. With two, the second being the
   * compensating one: besides, the worker keeps what was reserved.
   */
  ghost predicate DispatchEnds(s: State, s': State, d: DispatchDecision, now: int, duration: int, o: Outcome,
                               rejections: int)
  {
    if rejections == 0
    then o != Thrown(StorageFailure) && Effect(s', o) == Dispatch(s, d.jobId, d.workerId, now, duration)
    else
      && o == Thrown(StorageFailure) && 1 <= rejections <= 2
      && s' == if rejections == 1 then RolledBack(s, d.jobId)
               else RolledBack(s, d.jobId).(workers := WorkersMidDispatch(s, d.jobId, d.workerId))
  }

  /** A dispatch is refused before anything is written. */
  lemma RefusalEndsDispatch(s: State, s': State, d: DispatchDecision, now: int, duration: int, o: Outcome)
    requires var k, q, i := FindWorker(s.workers, d.workerId), FindQueued(s.queue, d.jobId), FindJob(s.jobs, d.jobId);
             if k == |s.workers| then s' == s && o == Thrown(UnknownWorker)
             else if q == |s.queue| then s' == s && o == Thrown(UnknownJob)
             else
               && i == |s.jobs| && s' == s.(queue := PutBack(Without(s.queue, q), s.queue[q]))
               && o == Thrown(if s.queue[q].state.Queued? then UnknownJob else NotQueued)
    ensures DispatchEnds(s, s', d, now, duration, o, 0)
  {
    DispatchByCases(s, d.jobId, d.workerId, now, duration);
    RolledBackByCases(s, d.jobId, d.workerId);
    hide Dispatch, RolledBack, WorkersMidDispatch, LeaseOn, PutBack, Without;
  }

  /** An attempted lease of the selected job ends the dispatch. */
  lemma LeaseEndsDispatch(s: State, s': State, d: DispatchDecision, now: int, duration: int, o: Outcome, rejections: int)
    requires FindWorker(s.workers, d.workerId) < |s.workers| && FindQueued(s.queue, d.jobId) < |s.queue|
    requires FindJob(s.jobs, d.jobId) < |s.jobs|
    requires var k, q, i := FindWorker(s.workers, d.workerId), FindQueued(s.queue, d.jobId), FindJob(s.jobs, d.jobId);
             var rest := Without(s.queue, q);
             && s'.queue == (if o.Done? then rest else PutBack(rest, s.jobs[i].job))
             && match LeaseOn(s.queue[q], s.workers[k].worker)
                case Err(e) => o == Thrown(e) && rejections == 0 && s'.jobs == s.jobs && s'.workers == s.workers
                case Ok(r) =>
                  IsStored(s.jobs, s.workers, s'.jobs, s'.workers,
                           JobRecord(r.job, Some(d.workerId), Some(now + duration)), r.worker, o, rejections)
    ensures DispatchEnds(s, s', d, now, duration, o, rejections)
  {
    DispatchByCases(s, d.jobId, d.workerId, now, duration);
    RolledBackByCases(s, d.jobId, d.workerId);
    hide Dispatch, RolledBack, WorkersMidDispatch, LeaseOn, PutBack, Without;
  }

  lemma FinishByCases(s: State, jobId: Id, final: JobState)
    ensures var i, e := FindJob(s.jobs, jobId), Finish(s, jobId, final);
            && (i == |s.jobs| ==> e == Effect(s, Thrown(UnknownJob)))
            && (i < |s.jobs| && s.jobs[i].worker.None? ==> e == Effect(s, Thrown(UnassignedJob)))
            && (i < |s.jobs| && s.jobs[i].worker.Some? ==>
                  match AfterTransition(s.jobs[i].job, final)
                  case Err(error) => e == Effect(s, Thrown(error))
                  case Ok(job) =>
                    var k := FindWorker(s.workers, s.jobs[i].worker.value);
                    if k == |s.workers| then e == Effect(s, Thrown(UnknownWorker))
                    else
                      match AfterRelease(s.workers[k].worker, s.jobs[i].job.needs)
                      case Err(error) => e == Effect(s, Thrown(error))
                      case Ok(w) =>
                        e == Effect(s.(jobs := s.jobs[i := s.jobs[i].(job := job, lease := None)],
                                       workers := s.workers[k := s.workers[k].(worker := w)]), Done))
    ensures Finish(s, jobId, final).outcome != Thrown(StorageFailure)
  {
  }

  /** Attempt, reservation and lease, on copies; nothing is stored yet. */
  method TryLease(selected: Job, stored: Worker) returns (o: Outcome, job: Job, worker: Worker)
    ensures match LeaseOn(selected, stored)
            case Ok(r) => o.Done? && job == r.job && worker == r.worker
            case Err(e) => o == Thrown(e)
  {
    var attempt := new JobObject(selected);
    var record := new WorkerRecord(stored);
    o := if CanAttempt(selected) then Done else Thrown(AttemptsExhausted);
    if o.Done? {
      o := attempt.RecordAttempt();
    }
    if o.Done? {
      o := record.Reserve(selected.needs);
    }
    if o.Done? {
      o := attempt.TransitionTo(Leased);
    }
    job, worker := attempt.Value(), record.Snapshot();
  }

  class Coordinator {
    const jobRepository: JobRepository
    const workerRepository: WorkerRepository
    const queue: JobQueue
    const planner: DispatchPlanner
    const leaseDuration: int

    ghost predicate Valid()
      reads this, jobRepository, workerRepository, queue
    {
      jobRepository.Valid() && workerRepository.Valid() && queue.Valid()
    }

    ghost function View(): State
      reads this, jobRepository, workerRepository, queue
    {
      State(jobRepository.records, workerRepository.records, queue.jobs)
    }

    /** How many writes the two stores have rejected so far. */
    ghost function Rejections(): nat
      reads this, jobRepository, workerRepository
    {
      jobRepository.rejections + workerRepository.rejections
    }

    /** Stores that reject no write, as the in-memory ones do not. */
    predicate IsReliable()
    {
      jobRepository.reliable && workerRepository.reliable
    }

    constructor (policy: Policy, jobRepository: JobRepository, workerRepository: WorkerRepository, leaseDuration: int)
      requires jobRepository.Valid() && workerRepository.Valid()
      ensures Valid() && fresh(queue) && View() == State(jobRepository.records, workerRepository.records, [])
      ensures this.jobRepository == jobRepository && this.workerRepository == workerRepository
      ensures this.leaseDuration == leaseDuration && planner.policy == policy
    {
      this.jobRepository := jobRepository;
      this.workerRepository := workerRepository;
      this.leaseDuration := leaseDuration;
      this.queue := new JobQueue();
      this.planner := new DispatchPlanner(policy);
    }

    // ---------- submission and registration ----------

    /** With a rejected insertion nothing happened; with a rejected erasure the record stays, stored but not queued. */
    method SubmitJob(job: Job) returns (o: Outcome)
      requires Valid()
      modifies jobRepository, queue
      ensures Valid()
      ensures Rejections() == old(Rejections()) ==> Effect(View(), o) == Submit(old(View()), job)
      ensures o.Done? ==>
                && View().jobs == old(View()).jobs + [JobRecord(job, None, None)]
                && View().queue == old(View()).queue + [job] && View().workers == old(View()).workers
      ensures Rejections() == old(Rejections()) ==>
                (o.Done? <==> && (forall r :: r in old(View()).jobs ==> r.job.id != job.id)
                              && (forall j :: j in old(View()).queue ==> j.id != job.id) && job.state.Queued?)
      ensures o == Thrown(StorageFailure) ==> Rejections() == old(Rejections()) + 1 && View() == old(View())
      ensures o != Thrown(StorageFailure) && Rejections() != old(Rejections()) ==>
                && Rejections() == old(Rejections()) + 1
                && Submit(old(View()), job) == Effect(old(View()), o) && o.Thrown?
                && View() == old(View()).(jobs := old(View()).jobs + [JobRecord(job, None, None)])
      ensures CanAttempt(job) && (o == Thrown(StorageFailure) || Rejections() == old(Rejections())) ==>
                Preserves(old(View()), View())
    {
      hide Preserves, Inv;
      NoStepPreserves(View());
      if CanAttempt(job) {
        SubmitPreserves(View(), job);
      }
      var existing := jobRepository.Get(job.id);
      if existing.Some? {
        return Thrown(DuplicateJob);
      }
      o := jobRepository.Insert(JobRecord(job, None, None));
      if o.Thrown? {
        return o;
      }
      o := EnqueueStored(job);
    }

    /** Queues a job that was just stored, or removes it from the store again. */
    method EnqueueStored(job: Job) returns (o: Outcome)
      requires Valid()
      requires |jobRepository.records| > 0
      requires jobRepository.records[|jobRepository.records| - 1] == JobRecord(job, None, None)
      modifies jobRepository, queue
      ensures Valid()
      ensures o == if !job.state.Queued? then Thrown(NotQueued)
                   else if Contains(old(queue.jobs), job.id) then Thrown(AlreadyQueued)
                   else Done
      ensures queue.jobs == if o.Done? then old(queue.jobs) + [job] else old(queue.jobs)
      ensures Rejections() == old(Rejections()) || (o.Thrown? && Rejections() == old(Rejections()) + 1)
      ensures jobRepository.records == if o.Done? || Rejections() != old(Rejections()) then old(jobRepository.records)
                                       else old(jobRepository.records)[..|old(jobRepository.records)| - 1]
    {
      o := queue.Enqueue(job);
      if o.Thrown? {
        JobFindsItself(jobRepository.records, |jobRepository.records| - 1);
        var undo := jobRepository.Erase(job.id);
      }
    }

    method RegisterWorker(worker: Worker, now: int) returns (o: Outcome)
      requires Valid()
      modifies workerRepository
      ensures Valid()
      ensures if o == Thrown(StorageFailure) then View() == old(View()) && Rejections() == old(Rejections()) + 1
              else Effect(View(), o) == Register(old(View()), worker, now) && Rejections() == old(Rejections())
      ensures o == Thrown(DuplicateWorker) <==> exists sw :: sw in old(View()).workers && sw.worker.id == worker.id
      ensures o.Done? ==> View() == old(View()).(workers := old(View()).workers + [StoredWorker(worker, now)])
      ensures o in {Done, Thrown(DuplicateWorker), Thrown(StorageFailure)}
    {
      assert forall k :: 0 <= k < |View().workers| ==> View().workers[k] in View().workers;
      o := workerRepository.Insert(worker, now);
    }

    // ---------- heartbeats and liveness ----------

    /** A write rejected midway leaves the first `renewed` leases renewed; even so the invariant is kept. */
    method RecordWorkerHeartbeat(workerId: Id, time: int) returns (o: Outcome, ghost renewed: nat)
      requires Valid()
      modifies jobRepository, workerRepository
      ensures Valid()
      ensures o != Thrown(StorageFailure) ==>
                && Rejections() == old(Rejections())
                && Effect(View(), o) == Heartbeat(old(View()), workerId, time, leaseDuration)
      ensures o.Done? ==>
                var before, after, k := old(View()), View(), FindWorker(old(View()).workers, workerId);
                && k < |before.workers| == |after.workers| && |after.jobs| == |before.jobs|
                && HeardFrom(before.workers[k], after.workers[k], time)
                && forall i :: 0 <= i < |before.jobs| ==>
                     LeaseRenewed(before.jobs[i], after.jobs[i], workerId, time + leaseDuration)
      ensures o == Thrown(StorageFailure) ==>
                && Rejections() == old(Rejections()) + 1
                && (|| View() == old(View())
                    || View() == HeartbeatInPart(old(View()), workerId, time, leaseDuration, None)
                    || View() == HeartbeatInPart(old(View()), workerId, time, leaseDuration, Some(renewed)))
      ensures Preserves(old(View()), View())
    {
      hide Preserves, Inv, RenewFirst, Heartbeat, HeartbeatInPart, Revived, HeardFrom, LeaseRenewed;
      renewed := 0;
      ghost var before := View();
      HeartbeatByCases(before, workerId, time, leaseDuration);
      HeartbeatPreserves(before, workerId, time, leaseDuration);
      HeartbeatIsExact(before, workerId, time, leaseDuration);
      o := ReviveWorker(workerId, time);
      if o.Done? {
        o, renewed := RenewLeases(workerId, time + leaseDuration);
      } else {
        RenewNothing(before.jobs, workerId, time + leaseDuration);
      }
      if o == Thrown(StorageFailure) {
        PartialHeartbeatPreserves(before, View(), renewed, workerId, time + leaseDuration);
      }
    }

    method ReviveWorker(workerId: Id, time: int) returns (o: Outcome)
      requires workerRepository.Valid()
      modifies workerRepository
      ensures workerRepository.Valid()
      ensures workerRepository.rejections == old(workerRepository.rejections) + (if o == Thrown(StorageFailure) then 1 else 0)
      ensures o in {Done, Thrown(UnknownWorker), Thrown(StorageFailure)}
      ensures var before, k := old(workerRepository.records), FindWorker(old(workerRepository.records), workerId);
              && (o == Thrown(UnknownWorker) <==> k == |before|)
              && (o == Thrown(UnknownWorker) ==> workerRepository.records == before)
              && (o.Done? ==>
                    && k < |before|
                    && workerRepository.records == before[k := StoredWorker(Revived(before[k].worker), time)]
                    && HeardFrom(before[k], workerRepository.records[k], time))
              && (o == Thrown(StorageFailure) ==>
                    || workerRepository.records == before
                    || (k < |before|
                        && workerRepository.records == before[k := before[k].(worker := Revived(before[k].worker))]
                        && IsBack(before[k].worker, workerRepository.records[k].worker)))
    {
      var worker := workerRepository.Get(workerId);
      if worker.None? {
        return Thrown(UnknownWorker);
      }
      o := Done;
      if worker.value.state.Offline? {
        o := workerRepository.Update(worker.value.(state := Online));
      }
      if o.Done? {
        FindsSameWorker(old(workerRepository.records), workerRepository.records, workerId);
        o := workerRepository.RecordHeartbeat(workerId, time);
      }
    }

    method RenewLeases(workerId: Id, lease: int) returns (o: Outcome, ghost renewed: nat)
      requires Valid()
      modifies jobRepository
      ensures Valid()
      ensures renewed <= |old(jobRepository.records)|
      ensures jobRepository.records == RenewFirst(old(jobRepository.records), renewed, workerId, lease)
      ensures forall i :: 0 <= i < renewed ==>
                LeaseRenewed(old(jobRepository.records)[i], jobRepository.records[i], workerId, lease)
      ensures if o.Done? then renewed == |old(jobRepository.records)| && Rejections() == old(Rejections())
              else o == Thrown(StorageFailure) && Rejections() == old(Rejections()) + 1
    {
      var records := jobRepository.List();
      for i := 0 to |records|
        invariant Valid() && records == old(jobRepository.records) && Rejections() == old(Rejections())
        invariant jobRepository.records == RenewFirst(records, i, workerId, lease)
      {
        if HeldBy(records[i], workerId) {
          JobFindsItself(jobRepository.records, i);
          o := jobRepository.Update(records[i].(lease := Some(lease)));
          if o.Thrown? {
            return o, i;
          }
        }
        assert RenewFirst(records, i + 1, workerId, lease) == jobRepository.records;
      }
      return Done, |records|;
    }

    method MarkStaleWorkersOffline(now: int, timeout: int) returns (o: Outcome, count: nat, ghost checked: nat)
      requires Valid()
      modifies workerRepository
      ensures Valid()
      ensures o != Thrown(StorageFailure) ==>
                Rejections() == old(Rejections()) && Effect(View(), o) == MarkStale(old(View()), now, timeout)
      ensures o.Done? ==> count == StaleCount(old(workerRepository.records), |old(workerRepository.records)|, now, timeout)
      ensures o.Done? ==>
                var before, after := old(workerRepository.records), workerRepository.records;
                && |after| == |before| && count == |UnheardOf(before, |before|, now, timeout)|
                && forall k :: 0 <= k < |before| ==> CheckedFor(before[k], after[k], now, timeout)
      ensures o == Thrown(InvalidTimeout) <==> timeout <= 0
      ensures o in {Done, Thrown(InvalidTimeout), Thrown(StorageFailure)}
      ensures o == Thrown(StorageFailure) ==>
                && Rejections() == old(Rejections()) + 1 && checked <= |old(workerRepository.records)|
                && View() == old(View()).(workers := CheckFirst(old(workerRepository.records), checked, now, timeout))
      ensures Preserves(old(View()), View())
    {
      hide Preserves, Inv, IsStale, Checked, CheckedFor;
      count, checked := 0, 0;
      ghost var start := View();
      if timeout <= 0 {
        NoStepPreserves(start);
        return Thrown(InvalidTimeout), 0, 0;
      }
      var workers := workerRepository.List();
      for i := 0 to |workers|
        invariant Valid() && count == StaleCount(start.workers, i, now, timeout) && Rejections() == old(Rejections())
        invariant workerRepository.records == CheckFirst(start.workers, i, now, timeout)
      {
        var stale;
        o, stale := CheckWorker(workers[i], now, timeout, i);
        if o.Thrown? {
          StaleCheckPreserves(start, i, now, timeout);
          return o, count, i;
        }
        count := if stale then count + 1 else count;
      }
      StaleCheckPreserves(start, |workers|, now, timeout);
      StaleCheckIsExact(start.workers, |workers|, now, timeout);
      StaleCountIsExact(start.workers, |workers|, now, timeout);
      return Done, count, |workers|;
    }

    /** One iteration of the stale check, for the copied worker `i`. */
    method CheckWorker(worker: Worker, now: int, timeout: int, ghost i: nat) returns (o: Outcome, stale: bool)
      requires workerRepository.Valid() && i < |workerRepository.records| && workerRepository.records[i].worker == worker
      modifies workerRepository
      ensures workerRepository.Valid()
      ensures workerRepository.rejections == old(workerRepository.rejections) + (if o.Done? then 0 else 1)
      ensures o.Done? ==> (stale <==> IsStale(old(workerRepository.records)[i], now, timeout))
      ensures o.Done? && timeout > 0 ==>
                && i < |workerRepository.records|
                && CheckedFor(old(workerRepository.records)[i], workerRepository.records[i], now, timeout)
      ensures if o.Done?
              then workerRepository.records
                   == old(workerRepository.records)[i := Checked(old(workerRepository.records)[i], now, timeout)]
              else o == Thrown(StorageFailure) && workerRepository.records == old(workerRepository.records)
    {
      o, stale := Done, false;
      WorkerFindsItself(workerRepository.records, i);
      if worker.state.Online? {
        var lastHeartbeat := workerRepository.LastHeartbeat(worker.id);
        if now >= lastHeartbeat.value && now - lastHeartbeat.value >= timeout {
          o := workerRepository.Update(worker.(state := Offline));
          stale := o.Done?;
        }
      }
    }

    // ---------- lease expiry and requeueing ----------

    /**
     * Completes the scan, or stops where the specification stops, or stops at record `reached`
     * because a write was rejected. What was done before that record stays done, and the record and
     * its holder are as before unless the compensating write was rejected as well.
     */
    method MarkExpiredJobLeases(now: int) returns (o: Outcome, count: nat, ghost reached: nat)
      requires Valid()
      modifies jobRepository, workerRepository
      ensures Valid()
      ensures o != Thrown(StorageFailure) ==>
                Rejections() == old(Rejections()) && Effect(View(), o) == Expire(old(View()), now)
      ensures o.Done? ==>
                var before, after := old(jobRepository.records), jobRepository.records;
                && count == ExpiredCount(before, |before|, now) && count == |DueRecords(before, |before|, now)|
                && |after| == |before| && forall i :: 0 <= i < |before| ==> TakenBack(before[i], after[i], now)
      ensures o == Thrown(StorageFailure) ==>
                && reached < |old(jobRepository.records)|
                && ExpireFirst(old(View()), reached, now).outcome.Done?
                && 1 <= Rejections() - old(Rejections()) <= 2
                && View() == (if Rejections() == old(Rejections()) + 1 then ExpireFirst(old(View()), reached, now).state
                              else MidExpiry(ExpireFirst(old(View()), reached, now).state, reached))
      ensures Rejections() <= old(Rejections()) + 1 ==> Preserves(old(View()), View())
    {
      hide Preserves, Inv, ExpireOne, MidExpiry, IsDue, IsActive, TakenBack, DueRecords;
      count, reached := 0, 0;
      o := Done;
      var records := jobRepository.List();
      ghost var before := View();
      ExpiryPreserves(before, |records|, now);
      ExpiredCountIsExact(records, |records|, now);
      if Expire(before, now).outcome.Done? {
        ExpiryTakesBack(before, now);
      }
      for i := 0 to |records|
        invariant Valid() && o == Done && before == old(View()) && records == before.jobs
        invariant Rejections() == old(Rejections())
        invariant Effect(View(), Done) == ExpireFirst(before, i, now)
        invariant count == ExpiredCount(records, i, now)
      {
        ExpireFirstIsPointwise(before, i, now);
        ghost var e := ExpireFirst(before, i + 1, now);
        reached := i;
        var released;
        o, released := ExpireRecord(records[i], now, i);
        if o == Thrown(StorageFailure) {
          ExpiryPreserves(before, i, now);
          return;
        }
        if o.Thrown? {
          EarlyEnd(before, i + 1, |records|, now);
          return;
        }
        count := if released then count + 1 else count;
      }
    }

    /** The stores when the record's own write was rejected and its holder's ledger could not be restored. */
    static function MidExpiry(s: State, i: nat): State
      requires i < |s.jobs|
    {
      s.(workers := WorkersMidRelease(s, i))
    }

    /** One iteration of the expiry scan, for the copied record `i`. */
    method ExpireRecord(record: JobRecord, now: int, ghost i: nat) returns (o: Outcome, released: bool)
      requires Valid() && i < |jobRepository.records| && jobRepository.records[i] == record
      modifies jobRepository, workerRepository
      ensures Valid()
      ensures o != Thrown(StorageFailure) ==>
                Rejections() == old(Rejections()) && Effect(View(), o) == ExpireOne(old(View()), i, now)
      ensures o.Done? ==> (released <==> IsDue(record, now) && IsActive(record.job.state))
      ensures o == Thrown(StorageFailure) ==>
                && 1 <= Rejections() - old(Rejections()) <= 2
                && View() == if Rejections() == old(Rejections()) + 1 then old(View()) else MidExpiry(old(View()), i)
    {
      released := false;
      JobFindsItself(jobRepository.records, i);
      if record.lease.None? || now < record.lease.value {
        assert jobRepository.records[i := Expired(record, now)] == jobRepository.records;
        return Done, false;
      }
      if !IsActive(record.job.state) {
        o := jobRepository.Update(record.(lease := None));
        return o, false;
      }
      var original: Option<Worker>;
      o, original := ReleaseHolderOf(record);
      if o.Done? {
        var expiredState := if record.job.state.CancellationRequested? then Cancelled else RetryWait;
        o := jobRepository.Update(JobRecord(InState(record.job, expiredState), None, None));
        released := o.Done?;
        if o.Thrown? && original.Some? {
          var undo := workerRepository.Update(original.value);
        }
      }
    }

    /** Gives the holder of an abandoned job its resources back; returns the worker as it was, if it was written. */
    method ReleaseHolderOf(record: JobRecord) returns (o: Outcome, original: Option<Worker>)
      requires workerRepository.Valid()
      modifies workerRepository
      ensures workerRepository.Valid()
      ensures workerRepository.rejections == old(workerRepository.rejections) + (if o == Thrown(StorageFailure) then 1 else 0)
      ensures o.Done? ==> ReleaseHolder(old(workerRepository.records), record) == Ok(workerRepository.records)
      ensures o.Thrown? ==> workerRepository.records == old(workerRepository.records)
      ensures o.Thrown? && o.error != StorageFailure ==> ReleaseHolder(workerRepository.records, record) == Err(o.error)
      ensures o.Done? && original.None? ==> workerRepository.records == old(workerRepository.records)
      ensures o.Done? && original.Some? ==>
                && |workerRepository.records| == |old(workerRepository.records)|
                && (forall k :: 0 <= k < |workerRepository.records| ==>
                      workerRepository.records[k].worker.id == old(workerRepository.records)[k].worker.id)
                && var k := FindWorker(old(workerRepository.records), original.value.id);
                   && k < |workerRepository.records|
                   && FindWorker(workerRepository.records, original.value.id) == k
                   && workerRepository.records[k := workerRepository.records[k].(worker := original.value)]
                      == old(workerRepository.records)
    {
      original := None;
      if record.worker.None? {
        return Done, None;
      }
      var worker := workerRepository.Get(record.worker.value);
      if worker.None? || worker.value.running == 0 {
        return Done, None;
      }
      var released := new WorkerRecord(worker.value);
      o := released.Release(record.job.needs);
      if o.Done? {
        ghost var k := FindWorker(workerRepository.records, record.worker.value);
        o := workerRepository.Update(released.Snapshot());
        original := worker;
        assert o.Done? ==> workerRepository.records[k := workerRepository.records[k].(worker := worker.value)]
                           == old(workerRepository.records);
        FindsSameWorker(old(workerRepository.records), workerRepository.records, record.worker.value);
      }
    }

    /**
     * Completes the scan, or stops where the specification stops, or at record `reached` because its write was
     * rejected. If the queue refuses a job and the undoing write is rejected, its record stays queued.
     */
    method RequeueRetryWaitJobs() returns (o: Outcome, count: nat, ghost reached: nat)
      requires Valid()
      modifies jobRepository, queue
      ensures Valid()
      ensures Rejections() == old(Rejections()) ==> Effect(View(), o) == Requeue(old(View()))
      ensures o.Done? ==>
                && Rejections() == old(Rejections())
                && count == RequeuedCount(old(jobRepository.records), |old(jobRepository.records)|)
                && count == |Retryable(old(jobRepository.records), |old(jobRepository.records)|)|
      ensures o == Thrown(StorageFailure) ==>
                && Rejections() == old(Rejections()) + 1 && reached < |old(jobRepository.records)|
                && Effect(View(), Done) == RequeueFirst(old(View()), reached)
      ensures o != Thrown(StorageFailure) && Rejections() != old(Rejections()) ==>
                && Rejections() == old(Rejections()) + 1 && reached < |old(jobRepository.records)|
                && RequeueFirst(old(View()), reached + 1).outcome == o && o.Thrown?
                && View() == MidRequeue(RequeueFirst(old(View()), reached).state, reached)
      ensures o == Thrown(StorageFailure) || Rejections() == old(Rejections()) ==> Preserves(old(View()), View())
    {
      hide Preserves, Inv, RequeueOne, MidRequeue, Retryable;
      count, reached := 0, 0;
      o := Done;
      var records := jobRepository.List();
      ghost var before := View();
      RequeuePreserves(before, |records|);
      RequeuedCountIsExact(records, |records|);
      for i := 0 to |records|
        invariant Valid() && o == Done && before == old(View()) && records == before.jobs
        invariant Rejections() == old(Rejections())
        invariant Effect(View(), Done) == RequeueFirst(before, i)
        invariant count == RequeuedCount(records, i)
      {
        RequeueFirstIsPointwise(before, i);
        ghost var e := RequeueFirst(before, i + 1);
        reached := i;
        var requeued;
        o, requeued := RequeueRecord(records[i], i);
        if o.Thrown? {
          RequeuePreserves(before, i);
          if Rejections() == old(Rejections()) {
            EarlyRequeueEnd(before, i + 1, |records|);
          }
          return;
        }
        count := if requeued then count + 1 else count;
      }
    }

    /** The state when a job could be neither queued nor put back to wait. */
    static function MidRequeue(s: State, i: nat): State
      requires i < |s.jobs|
    {
      s.(jobs := s.jobs[i := Retried(s.jobs[i])])
    }

    static lemma {:induction false} EarlyRequeueEnd(s: State, n: nat, m: nat)
      requires n <= m <= |s.jobs| && RequeueFirst(s, n).outcome.Thrown?
      ensures RequeueFirst(s, m) == RequeueFirst(s, n)
      decreases m
    {
      if n < m {
        EarlyRequeueEnd(s, n, m - 1);
      }
    }

    /** One iteration of the requeue scan, for the copied record `i`. */
    method RequeueRecord(record: JobRecord, ghost i: nat) returns (o: Outcome, requeued: bool)
      requires Valid() && i < |jobRepository.records| && jobRepository.records[i] == record
      modifies jobRepository, queue
      ensures Valid()
      ensures Rejections() == old(Rejections()) ==> Effect(View(), o) == RequeueOne(old(View()), i)
      ensures o.Done? ==> (requeued <==> record.job.state.RetryWait? && CanAttempt(record.job))
      ensures o.Done? ==> Rejections() == old(Rejections())
      ensures o == Thrown(StorageFailure) ==> Rejections() == old(Rejections()) + 1 && View() == old(View())
      ensures o != Thrown(StorageFailure) && Rejections() != old(Rejections()) ==>
                && Rejections() == old(Rejections()) + 1 && o.Thrown?
                && RequeueOne(old(View()), i).outcome == o
                && View() == MidRequeue(old(View()), i)
    {
      requeued := false;
      JobFindsItself(jobRepository.records, i);
      if !record.job.state.RetryWait? {
        return Done, false;
      }
      if record.worker.Some? || record.lease.Some? {
        return Thrown(StrandedRetry), false;
      }
      if !CanAttempt(record.job) {
        o := jobRepository.Update(record.(job := InState(record.job, Failed)));
        return o, false;
      }
      var queuedJob := InState(record.job, Queued);
      o := jobRepository.Update(record.(job := queuedJob));
      if o.Thrown? {
        return o, false;
      }
      o := queue.Enqueue(queuedJob);
      requeued := o.Done?;
      if o.Thrown? {
        JobFindsItself(jobRepository.records, i);
        var undo := jobRepository.Update(record);
        assert undo.Done? ==> jobRepository.records == old(jobRepository.records);
      }
    }

    // ---------- dispatch ----------

    method DispatchOnce(now: int) returns (o: Outcome, decision: Option<DispatchDecision>)
      requires Valid()
      modifies jobRepository, workerRepository, queue, planner.policy
      ensures Valid()
      ensures var plan := PlanFor(old(planner.policy.State()), old(queue.jobs), Snapshots(old(workerRepository.records)));
              && planner.policy.State() == plan.policy
              && (o.Done? ==> decision == plan.decision)
              && if plan.decision.None? then o == Done && Rejections() == old(Rejections()) && View() == old(View())
                 else DispatchEnds(old(View()), View(), plan.decision.value, now, leaseDuration, o,
                                   Rejections() - old(Rejections()))
      ensures Rejections() <= old(Rejections()) + 1 ==> Preserves(old(View()), View())
    {
      hide Preserves, Inv, Dispatch, RolledBack, WorkersMidDispatch, PlanFor;
      NoStepPreserves(View());
      var workers := workerRepository.List();
      decision := planner.Plan(queue, workers);
      if decision.None? {
        return Done, None;
      }
      DispatchPreserves(View(), decision.value.jobId, decision.value.workerId, now, leaseDuration);
      o := ApplyDispatchDecision(decision.value, now);
    }

    method DispatchOnceForWorker(workerId: Id, now: int) returns (o: Outcome, decision: Option<DispatchDecision>)
      requires Valid()
      modifies jobRepository, workerRepository, queue, planner.policy
      ensures Valid()
      ensures var k := FindWorker(old(workerRepository.records), workerId);
              if k == |old(workerRepository.records)|
              then
                && o == Thrown(UnknownWorker) && Rejections() == old(Rejections())
                && View() == old(View()) && planner.policy.State() == old(planner.policy.State())
              else
                var plan := PlanFor(old(planner.policy.State()), old(queue.jobs), [old(workerRepository.records)[k].worker]);
                && planner.policy.State() == plan.policy
                && (o.Done? ==> decision == plan.decision)
                && if plan.decision.None? then o == Done && Rejections() == old(Rejections()) && View() == old(View())
                   else DispatchEnds(old(View()), View(), plan.decision.value, now, leaseDuration, o,
                                   Rejections() - old(Rejections()))
      ensures Rejections() <= old(Rejections()) + 1 ==> Preserves(old(View()), View())
    {
      hide Preserves, Inv, Dispatch, RolledBack, WorkersMidDispatch, PlanFor;
      NoStepPreserves(View());
      var worker := workerRepository.Get(workerId);
      if worker.None? {
        return Thrown(UnknownWorker), None;
      }
      decision := planner.Plan(queue, [worker.value]);
      if decision.None? {
        return Done, None;
      }
      DispatchPreserves(View(), decision.value.jobId, decision.value.workerId, now, leaseDuration);
      o := ApplyDispatchDecision(decision.value, now);
    }

    method ApplyDispatchDecision(d: DispatchDecision, now: int) returns (o: Outcome)
      requires Valid()
      modifies jobRepository, workerRepository, queue
      ensures Valid()
      ensures DispatchEnds(old(View()), View(), d, now, leaseDuration, o, Rejections() - old(Rejections()))
    {
      hide LeaseOn, Dispatch, PutBack, IsStored, DispatchEnds, FindJob, FindWorker, FindQueued;
      hide Without, Contains, DistinctIds, UniqueJobs, UniqueWorkers;
      ghost var before := View();
      var worker := workerRepository.Get(d.workerId);
      if worker.None? {
        RefusalEndsDispatch(before, before, d, now, leaseDuration, Thrown(UnknownWorker));
        return Thrown(UnknownWorker);
      }
      var selected := queue.Take(d.jobId);
      if selected.None? {
        RefusalEndsDispatch(before, before, d, now, leaseDuration, Thrown(UnknownJob));
        return Thrown(UnknownJob);
      }
      var stored := jobRepository.Get(d.jobId);
      if stored.None? {
        var putBack := ReturnToQueue(selected.value);
        o := if putBack.Done? then Thrown(UnknownJob) else putBack;
        RefusalEndsDispatch(before, View(), d, now, leaseDuration, o);
        return;
      }
      o := LeaseSelected(selected.value, stored.value.job, worker.value, now + leaseDuration);
      LeaseEndsDispatch(before, View(), d, now, leaseDuration, o, Rejections() - old(Rejections()));
    }

    /** Queues a job that could not be dispatched, unless it is queued already or cannot be. */
    method ReturnToQueue(job: Job) returns (o: Outcome)
      requires queue.Valid()
      modifies queue
      ensures queue.Valid() && queue.jobs == PutBack(old(queue.jobs), job)
      ensures o == if !job.state.Queued? then Thrown(NotQueued)
                   else if Contains(old(queue.jobs), job.id) then Thrown(AlreadyQueued)
                   else Done
    {
      o := queue.Enqueue(job);
    }

    /**
     * The attempt, the reservation and the lease of a job taken from the queue, tried on copies and then stored. If
     * any of it fails the stored job goes back to the queue.
     */
    method LeaseSelected(selected: Job, stored: Job, worker: Worker, lease: int) returns (o: Outcome)
      requires Valid()
      requires FindJob(jobRepository.records, selected.id) < |jobRepository.records|
      requires var k := FindWorker(workerRepository.records, worker.id);
               k < |workerRepository.records| && workerRepository.records[k].worker == worker
      modifies jobRepository, workerRepository, queue
      ensures Valid()
      ensures queue.jobs == if o.Done? then old(queue.jobs) else PutBack(old(queue.jobs), stored)
      ensures match LeaseOn(selected, worker)
              case Err(e) =>
                && o == Thrown(e) && Rejections() == old(Rejections())
                && jobRepository.records == old(jobRepository.records)
                && workerRepository.records == old(workerRepository.records)
              case Ok(r) =>
                IsStored(old(jobRepository.records), old(workerRepository.records),
                         jobRepository.records, workerRepository.records,
                         JobRecord(r.job, Some(worker.id), Some(lease)), r.worker, o, Rejections() - old(Rejections()))
    {
      hide LeaseOn, IsStored, PutBack;
      var leased, reserved;
      o, leased, reserved := TryLease(selected, worker);
      if o.Done? {
        o := StoreLease(JobRecord(leased, Some(worker.id), Some(lease)), worker, reserved);
      }
      if o.Thrown? {
        var putBack := ReturnToQueue(stored);
      }
    }

    /** The two writes: the worker, then the job; the worker again, as it was, if the job is rejected. */
    method StoreLease(record: JobRecord, original: Worker, worker: Worker) returns (o: Outcome)
      requires jobRepository.Valid() && workerRepository.Valid() && worker.id == original.id
      requires FindJob(jobRepository.records, record.job.id) < |jobRepository.records|
      requires var k := FindWorker(workerRepository.records, original.id);
               k < |workerRepository.records| && workerRepository.records[k].worker == original
      modifies jobRepository, workerRepository
      ensures jobRepository.Valid() && workerRepository.Valid()
      ensures IsStored(old(jobRepository.records), old(workerRepository.records), jobRepository.records,
                       workerRepository.records, record, worker, o, Rejections() - old(Rejections()))
    {
      o := workerRepository.Update(worker);
      if o.Done? {
        FindsSameWorker(old(workerRepository.records), workerRepository.records, original.id);
        o := jobRepository.Update(record);
        if o.Thrown? {
          var undo := workerRepository.Update(original);
          assert undo.Done? ==> workerRepository.records == old(workerRepository.records);
        }
      }
    }

    // ---------- start and finish ----------

    method MarkRunning(jobId: Id, now: int) returns (o: Outcome)
      requires Valid()
      modifies jobRepository
      ensures Valid()
      ensures if o == Thrown(StorageFailure) then View() == old(View()) && Rejections() == old(Rejections()) + 1
              else Effect(View(), o) == Start(old(View()), jobId, now, leaseDuration) && Rejections() == old(Rejections())
      ensures o.Done? ==> IsNow(old(View()).jobs, View().jobs, jobId, Running, Some(now + leaseDuration))
      ensures Preserves(old(View()), View())
    {
      hide Preserves, Inv;
      NoStepPreserves(View());
      StartPreserves(View(), jobId, now, leaseDuration);
      var record := jobRepository.Get(jobId);
      if record.None? {
        return Thrown(UnknownJob);
      }
      if record.value.worker.None? {
        return Thrown(UnassignedJob);
      }
      var job := new JobObject(record.value.job);
      o := job.TransitionTo(Running);
      if o.Done? {
        o := jobRepository.Update(record.value.(job := job.Value(), lease := Some(now + leaseDuration)));
      }
    }

    /** One rejected write leaves everything as before; after two, the worker has given back what the job still holds. */
    method FinishJob(jobId: Id, final: JobState) returns (o: Outcome)
      requires Valid()
      modifies jobRepository, workerRepository
      ensures Valid()
      ensures if o != Thrown(StorageFailure)
              then Rejections() == old(Rejections()) && Effect(View(), o) == Finish(old(View()), jobId, final)
              else
                && 1 <= Rejections() - old(Rejections()) <= 2
                && View() == if Rejections() == old(Rejections()) + 1 then old(View())
                             else old(View()).(workers := Finish(old(View()), jobId, final).state.workers)
      ensures o.Done? ==> IsNow(old(View()).jobs, View().jobs, jobId, final, None)
    {
      hide Finish, AfterRelease;
      FinishByCases(View(), jobId, final);
      var record := jobRepository.Get(jobId);
      if record.None? {
        return Thrown(UnknownJob);
      }
      if record.value.worker.None? {
        return Thrown(UnassignedJob);
      }
      if !CanTransition(record.value.job.state, final) {
        return Thrown(IllegalTransition);
      }
      var worker := workerRepository.Get(record.value.worker.value);
      if worker.None? {
        return Thrown(UnknownWorker);
      }
      var ledger := new WorkerRecord(worker.value);
      var job := new JobObject(record.value.job);
      o := ledger.Release(record.value.job.needs);
      if o.Done? {
        o := job.TransitionTo(final);
      }
      if o.Done? {
        o := StoreLease(record.value.(job := job.Value(), lease := None), worker.value, ledger.Snapshot());
      }
    }

    method MarkSucceeded(jobId: Id) returns (o: Outcome)
      requires Valid()
      modifies jobRepository, workerRepository
      ensures Valid()
      ensures if o != Thrown(StorageFailure)
              then Rejections() == old(Rejections()) && Effect(View(), o) == Finish(old(View()), jobId, Succeeded)
              else 1 <= Rejections() - old(Rejections()) <= 2
                   && (Rejections() == old(Rejections()) + 1 ==> View() == old(View()))
      ensures o.Done? ==> IsNow(old(View()).jobs, View().jobs, jobId, Succeeded, None)
      ensures Rejections() <= old(Rejections()) + 1 ==> Preserves(old(View()), View())
    {
      hide Preserves, Inv;
      NoStepPreserves(View());
      FinishPreserves(View(), jobId, Succeeded);
      o := FinishJob(jobId, Succeeded);
    }

    method MarkFailed(jobId: Id) returns (o: Outcome)
      requires Valid()
      modifies jobRepository, workerRepository
      ensures Valid()
      ensures if o != Thrown(StorageFailure)
              then Rejections() == old(Rejections()) && Effect(View(), o) == Finish(old(View()), jobId, Failed)
              else 1 <= Rejections() - old(Rejections()) <= 2
                   && (Rejections() == old(Rejections()) + 1 ==> View() == old(View()))
      ensures o.Done? ==> IsNow(old(View()).jobs, View().jobs, jobId, Failed, None)
      ensures Rejections() <= old(Rejections()) + 1 ==> Preserves(old(View()), View())
    {
      hide Preserves, Inv;
      NoStepPreserves(View());
      FinishPreserves(View(), jobId, Failed);
      o := FinishJob(jobId, Failed);
    }

    // ---------- queries ----------

    method GetJob(jobId: Id) returns (r: Option<Job>)
      ensures var i := FindJob(jobRepository.records, jobId);
              r == if i < |jobRepository.records| then Some(jobRepository.records[i].job) else None
    {
      var record := jobRepository.Get(jobId);
      r := if record.Some? then Some(record.value.job) else None;
    }

    method WorkerSnapshot(workerId: Id) returns (r: Option<Worker>)
      ensures r.Some? <==> FindWorker(workerRepository.records, workerId) < |workerRepository.records|
      ensures r.Some? ==> r.value == workerRepository.records[FindWorker(workerRepository.records, workerId)].worker
    {
      r := workerRepository.Get(workerId);
    }

    method IsJobAssignedToWorker(jobId: Id, workerId: Id) returns (isAssigned: bool)
      ensures isAssigned <==> AssignedTo(View(), jobId, workerId)
    {
      var record := jobRepository.Get(jobId);
      isAssigned := record.Some? && record.value.worker == Some(workerId);
    }

    method LeasedJobForWorker(workerId: Id) returns (r: Option<Job>)
      ensures r == LeasedJob(jobRepository.records, workerId)
    {
      var records := jobRepository.List();
      var i := FindLeased(records, workerId);
      r := if i < |records| then Some(records[i].job) else None;
    }

    // ---------- restart ----------

    /**
     * A coordinator on these repositories, recovered from whatever they hold. When a write is
     * rejected there is no coordinator and the stores are recovered in part.
     */
    static method Open(policy: Policy, jobRepository: JobRepository, workerRepository: WorkerRepository, leaseDuration: int)
      returns (o: Outcome, c: Coordinator?, ghost workersDone: nat, ghost jobsDone: nat)
      requires jobRepository.Valid() && workerRepository.Valid()
      modifies jobRepository, workerRepository
      ensures jobRepository.Valid() && workerRepository.Valid()
      ensures o == Thrown(InvalidTimeout) <==> leaseDuration <= 0
      ensures o == Thrown(InvalidTimeout) ==>
                && jobRepository.records == old(jobRepository.records)
                && workerRepository.records == old(workerRepository.records)
      ensures o in {Done, Thrown(InvalidTimeout), Thrown(StorageFailure)}
      ensures o.Done? <==> c != null
      ensures SameWorkers(old(workerRepository.records), workerRepository.records)
      ensures o.Done? ==>
                && c.Valid() && c.View() == Recover(old(jobRepository.records), old(workerRepository.records))
                && c.jobRepository == jobRepository && c.workerRepository == workerRepository
                && c.leaseDuration == leaseDuration && c.planner.policy == policy
                && Sound(c.View()) && AtRest(c.View())
      ensures o == Thrown(StorageFailure) ==>
                && jobRepository.rejections + workerRepository.rejections
                   == old(jobRepository.rejections + workerRepository.rejections) + 1
                && workersDone <= |old(workerRepository.records)| && jobsDone <= |old(jobRepository.records)|
                && workerRepository.records == RestoreFirst(old(workerRepository.records), workersDone)
                && jobRepository.records == RecoverFirst(old(jobRepository.records), jobsDone)
    {
      workersDone, jobsDone := 0, 0;
      if leaseDuration <= 0 {
        return Thrown(InvalidTimeout), null, 0, 0;
      }
      var fresh' := new Coordinator(policy, jobRepository, workerRepository, leaseDuration);
      o, workersDone, jobsDone := fresh'.RecoverPersistedState();
      c := if o.Done? then fresh' else null;
      RecoverEstablishes(old(jobRepository.records), old(workerRepository.records));
    }

    method RecoverPersistedState() returns (o: Outcome, ghost workersDone: nat, ghost jobsDone: nat)
      requires Valid() && queue.jobs == []
      modifies jobRepository, workerRepository, queue
      ensures Valid()
      ensures o.Done? ==> View() == Recover(old(jobRepository.records), old(workerRepository.records))
      ensures SameWorkers(old(workerRepository.records), workerRepository.records)
      ensures o.Thrown? ==>
                && o == Thrown(StorageFailure) && Rejections() == old(Rejections()) + 1
                && workersDone <= |old(workerRepository.records)| && jobsDone <= |old(jobRepository.records)|
                && workerRepository.records == RestoreFirst(old(workerRepository.records), workersDone)
                && jobRepository.records == RecoverFirst(old(jobRepository.records), jobsDone)
    {
      jobsDone := 0;
      o, workersDone := RestoreWorkers();
      if o.Done? {
        o, jobsDone := RecoverJobs();
      }
    }

    method RestoreWorkers() returns (o: Outcome, ghost workersDone: nat)
      requires workerRepository.Valid()
      modifies workerRepository
      ensures workerRepository.Valid()
      ensures workersDone <= |old(workerRepository.records)|
      ensures workerRepository.records == RestoreFirst(old(workerRepository.records), workersDone)
      ensures if o.Done? then workersDone == |old(workerRepository.records)|
              else o == Thrown(StorageFailure)
      ensures SameWorkers(old(workerRepository.records), workerRepository.records)
      ensures forall k :: 0 <= k < workersDone ==> Equal(Used(workerRepository.records[k].worker), ZERO)
      ensures workerRepository.rejections == old(workerRepository.rejections) + (if o.Done? then 0 else 1)
    {
      var workers := workerRepository.List();
      ghost var before := workerRepository.records;
      for i := 0 to |workers|
        invariant workerRepository.Valid() && workerRepository.records == RestoreFirst(before, i)
        invariant workerRepository.rejections == old(workerRepository.rejections)
      {
        WorkerFindsItself(workerRepository.records, i);
        var w := workers[i];
        o := workerRepository.Update(w.(availableCpu := w.totalCpu, availableMemory := w.totalMemory,
                                        availableDisk := w.totalDisk, running := 0));
        if o.Thrown? {
          RestoredWorkersAreFree(before, i);
          return o, i;
        }
      }
      RestoredWorkersAreFree(before, |workers|);
      return Done, |workers|;
    }

    method RecoverJobs() returns (o: Outcome, ghost jobsDone: nat)
      requires Valid() && queue.jobs == []
      modifies jobRepository, queue
      ensures Valid()
      ensures jobsDone <= |old(jobRepository.records)|
      ensures jobRepository.records == RecoverFirst(old(jobRepository.records), jobsDone)
      ensures if o.Done?
              then
                && jobsDone == |jobRepository.records|
                && queue.jobs == QueuedAmong(jobRepository.records, |jobRepository.records|)
              else o == Thrown(StorageFailure)
      ensures Rejections() == old(Rejections()) + (if o.Done? then 0 else 1)
    {
      var records := jobRepository.List();
      ghost var all := RecoverFirst(records, |records|);
      assert UniqueJobs(all) by {
        RecoveredIdsStay(records);
      }
      for i := 0 to |records|
        invariant Valid() && records == old(jobRepository.records) && Rejections() == old(Rejections())
        invariant jobRepository.records == RecoverFirst(records, i)
        invariant queue.jobs == QueuedAmong(all, i)
      {
        JobFindsItself(jobRepository.records, i);
        NotQueuedYet(all, i);
        RecoveredIsAtRest(records[i]);
        o := RecoverRecord(records[i], i);
        assert o.Thrown? ==> jobRepository.records == RecoverFirst(records, i);
        if o.Thrown? {
          return o, i;
        }
        assert jobRepository.records == RecoverFirst(records, i + 1);
      }
      assert jobRepository.records == all;
      return Done, |records|;
    }

    static lemma RecoveredIdsStay(jobs: seq<JobRecord>)
      requires UniqueJobs(jobs)
      ensures UniqueJobs(RecoverFirst(jobs, |jobs|))
    {
      forall i | 0 <= i < |jobs|
        ensures Recovered(jobs[i]).job.id == jobs[i].job.id
      {
        RecoveredIsAtRest(jobs[i]);
      }
    }

    static lemma NotQueuedYet(jobs: seq<JobRecord>, i: nat)
      requires UniqueJobs(jobs) && i < |jobs|
      ensures !Contains(QueuedAmong(jobs, i), jobs[i].job.id)
    {
      QueuedAmongIsTheQueue(jobs, i);
      var queued := QueuedAmong(jobs, i);
      forall m | 0 <= m < |queued|
        ensures queued[m].id != jobs[i].job.id
      {
        assert queued[m] in queued;
        assert StoredBelow(jobs, i, queued[m]);
      }
    }

    /** One iteration of the recovery of jobs, for the copied record `i`. */
    method RecoverRecord(record: JobRecord, ghost i: nat) returns (o: Outcome)
      requires Valid() && i < |jobRepository.records| && jobRepository.records[i] == record
      requires !Contains(queue.jobs, record.job.id)
      modifies jobRepository, queue
      ensures Valid()
      ensures if o.Done?
              then var r := Recovered(record);
                   && jobRepository.records == old(jobRepository.records)[i := r]
                   && queue.jobs == old(queue.jobs) + (if r.job.state.Queued? then [r.job] else [])
              else o == Thrown(StorageFailure) && View() == old(View())
      ensures Rejections() == old(Rejections()) + (if o.Done? then 0 else 1)
    {
      JobFindsItself(jobRepository.records, i);
      match record.job.state {
        case Queued =>
          if !CanAttempt(record.job) {
            o := jobRepository.Update(JobRecord(InState(record.job, Failed), None, None));
            return;
          }
          o := jobRepository.Update(record.(worker := None, lease := None));
          if o.Done? {
            o := queue.Enqueue(record.job);
          }
        case Leased => o := RecoverAbandoned(record, i);
        case Running => o := RecoverAbandoned(record, i);
        case RetryWait => o := RecoverAbandoned(record, i);
        case CancellationRequested =>
          o := jobRepository.Update(JobRecord(InState(record.job, Cancelled), None, None));
        case _ =>
          o := Done;
          if record.lease.Some? {
            o := jobRepository.Update(record.(lease := None));
          } else {
            assert Recovered(record) == record;
          }
      }
    }

    method RecoverAbandoned(record: JobRecord, ghost i: nat) returns (o: Outcome)
      requires Valid() && i < |jobRepository.records| && jobRepository.records[i] == record
      requires !Contains(queue.jobs, record.job.id)
      modifies jobRepository, queue
      ensures Valid()
      ensures if o.Done?
              then && jobRepository.records == old(jobRepository.records)[i := Abandoned(record)]
                   && queue.jobs == old(queue.jobs) + (if CanAttempt(record.job) then [Abandoned(record).job] else [])
              else o == Thrown(StorageFailure) && View() == old(View())
      ensures Rejections() == old(Rejections()) + (if o.Done? then 0 else 1)
    {
      JobFindsItself(jobRepository.records, i);
      var recoveredState := if CanAttempt(record.job) then Queued else Failed;
      var recoveredJob := InState(record.job, recoveredState);
      o := jobRepository.Update(JobRecord(recoveredJob, None, None));
      if o.Done? && recoveredState.Queued? {
        o := queue.Enqueue(recoveredJob);
      }
    }
  }
}

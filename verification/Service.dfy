/**
 * The handlers and the monitor pass as the server runs them, each under the one lock:
 * apps/coordinator/main.cpp. Each is proved against the step of `Rpc` it performs.
 */
module Service {
  import opened Errors
  import opened JobStates
  import opened Jobs
  import opened Workers
  import opened Ledger
  import opened Planning
  import opened Store
  import opened Protocol
  import opened Conservation
  import opened Preservation
  import opened Scans
  import opened Runs
  import opened Liveness
  import opened Rpc
  import opened Coordination

  lemma StartKeepsIds(s: State, jobId: Id, now: int, duration: int)
    requires UniqueJobs(s.jobs)
    ensures var s' := Start(s, jobId, now, duration).state;
            |s'.jobs| == |s.jobs| && FindJob(s'.jobs, jobId) == FindJob(s.jobs, jobId)
  {
    var s' := Start(s, jobId, now, duration).state;
    var i, i' := FindJob(s.jobs, jobId), FindJob(s'.jobs, jobId);
    assert i < |s.jobs| ==> s'.jobs[i].job.id == jobId;
    assert i' < |s.jobs| ==> s.jobs[i'].job.id == jobId;
  }

  lemma FinishKeepsIds(s: State, jobId: Id, final: JobState)
    requires UniqueJobs(s.jobs)
    ensures var s' := Finish(s, jobId, final).state;
            |s'.jobs| == |s.jobs| && FindJob(s'.jobs, jobId) == FindJob(s.jobs, jobId)
  {
    var s' := Finish(s, jobId, final).state;
    var i, i' := FindJob(s.jobs, jobId), FindJob(s'.jobs, jobId);
    assert i < |s.jobs| ==> s'.jobs[i].job.id == jobId;
    assert i' < |s.jobs| ==> s.jobs[i'].job.id == jobId;
  }

  lemma RegistrationSteps(sv: Server, w: Worker, now: int, duration: int)
    ensures var s' := if FindWorker(sv.state.workers, w.id) < |sv.state.workers| then Reregister(sv.state, w).state
                      else Register(sv.state, w, now).state;
            var e := Protocol.Heartbeat(s', w.id, now, duration);
            Rpc.RegisterWorker(sv, w, now, duration) == (sv.(state := e.state), e.outcome)
  {
  }

  /** The cases of an acquire. */
  lemma AcquireSteps(sv: Server, workerId: Id, now: int, duration: int)
    ensures var s, k, reply := sv.state, FindWorker(sv.state.workers, workerId), Rpc.AcquireJob(sv, workerId, now, duration);
            if k == |s.workers| then reply == Reply(sv, Thrown(UnknownWorker), None)
            else if LeasedJob(s.jobs, workerId).Some? then reply == Reply(sv, Done, LeasedJob(s.jobs, workerId))
            else
              var plan := PlanFor(sv.policy, s.queue, [s.workers[k].worker]);
              if plan.decision.None? then
                reply == Reply(Server(s, plan.policy), Done, LeasedJob(s.jobs, workerId))
              else
                var e := Dispatch(s, plan.decision.value.jobId, plan.decision.value.workerId, now, duration);
                reply == Reply(Server(e.state, plan.policy), e.outcome,
                               if e.outcome.Done? then LeasedJob(e.state.jobs, workerId) else None)
  {
  }

  ghost predicate IsPartOfStaleCheck(s: State, s': State, now: int)
  {
    exists n: nat :: n <= |s.workers| && s' == s.(workers := CheckFirst(s.workers, n, now, HEARTBEAT_TIMEOUT))
  }

  ghost predicate IsPartOfExpiry(s: State, s': State, now: int)
  {
    exists n: nat :: n <= |s.jobs| && Effect(s', Done) == ExpireFirst(s, n, now)
  }

  ghost predicate IsPartOfRequeueing(s: State, s': State)
  {
    exists n: nat :: n <= |s.jobs| && Effect(s', Done) == RequeueFirst(s, n)
  }

  /** What a monitor pass that the storage cut short has left: a prefix of one of its scans, after the earlier ones. */
  ghost predicate IsPartOfPass(s: State, s': State, now: int)
  {
    var checked := MarkStale(s, now, HEARTBEAT_TIMEOUT).state;
    var expired := Expire(checked, now);
    || IsPartOfStaleCheck(s, s', now)
    || IsPartOfExpiry(checked, s', now)
    || (expired.outcome.Done? && IsPartOfRequeueing(expired.state, s'))
  }

  class CoordinatorService {
    const coordinator: Coordinator

    ghost predicate Valid()
      reads coordinator, coordinator.jobRepository, coordinator.workerRepository, coordinator.queue
    {
      coordinator.Valid()
    }

    ghost function View(): Server
      reads coordinator, coordinator.jobRepository, coordinator.workerRepository, coordinator.queue, coordinator.planner.policy
    {
      Server(coordinator.View(), coordinator.planner.policy.State())
    }

    ghost function Rejections(): nat
      reads coordinator, coordinator.jobRepository, coordinator.workerRepository
    {
      coordinator.Rejections()
    }

    constructor (coordinator: Coordinator)
      ensures this.coordinator == coordinator
    {
      this.coordinator := coordinator;
    }

    /** Stores that never reject a write never did: no call on them ends with the storage's exception. */
    lemma ReliableStoresRejectNothing()
      requires Valid() && coordinator.IsReliable()
      ensures Rejections() == 0
    {
    }

    /** A worker already known is overwritten in the store directly; `already` tells the caller so. */
    method RegisterWorker(worker: Worker, now: int) returns (o: Outcome, already: bool, ghost renewed: nat)
      requires Valid()
      modifies coordinator.jobRepository, coordinator.workerRepository
      ensures Valid()
      ensures already <==> FindWorker(old(View()).state.workers, worker.id) < |old(View()).state.workers|
      ensures o != Thrown(StorageFailure) ==>
                && Rejections() == old(Rejections())
                && (View(), o) == Rpc.RegisterWorker(old(View()), worker, now, coordinator.leaseDuration)
      ensures o == Thrown(StorageFailure) ==>
                && Rejections() == old(Rejections()) + 1 && View().policy == old(View()).policy
                && (|| View() == old(View())
                    || IsCutShortAfter(AnnouncedState(old(View()).state, worker, now), View().state, worker.id, now, renewed))
      ensures o.Done? ==>
                var before, after, k := old(View()).state, View().state, FindWorker(old(View()).state.workers, worker.id);
                && k < |after.workers| && IsBack(worker, after.workers[k].worker) && after.workers[k].heartbeat == now
                && forall m :: 0 <= m < |before.workers| && m != k ==>
                     m < |after.workers| && after.workers[m] == before.workers[m]
      ensures o.Done? && Sound(old(View()).state) ==>
                (Sound(View().state) <==> AtMost(Load(old(View()).state.jobs, worker.id), Used(worker)))
    {
      hide Inv, Consistent, Sound, Rpc.RegisterWorker, Protocol.Heartbeat, Register, Reregister, HeartbeatInPart;
      ghost var start := coordinator.View();
      if Sound(start) {
        RegistrationIsExact(Server(start, View().policy), worker, now, coordinator.leaseDuration);
      }
      RegistrationIsStored(Server(start, View().policy), worker, now, coordinator.leaseDuration);
      renewed := 0;
      var known := coordinator.WorkerSnapshot(worker.id);
      already := known.Some?;
      o := Announce(worker, now, already);
      if o.Done? {
        o, renewed := coordinator.RecordWorkerHeartbeat(worker.id, now);
        RegistrationSteps(Server(start, View().policy), worker, now, coordinator.leaseDuration);
      }
    }

    /** The state once the worker's record is stored, before its heartbeat is. */
    function AnnouncedState(s: State, worker: Worker, now: int): State
    {
      if FindWorker(s.workers, worker.id) < |s.workers| then Reregister(s, worker).state else Register(s, worker, now).state
    }

    /** What a heartbeat after `s` that the storage cut short has left. */
    predicate IsCutShortAfter(s: State, s': State, id: Id, now: int, renewed: nat)
    {
      || s' == s
      || s' == HeartbeatInPart(s, id, now, coordinator.leaseDuration, None)
      || s' == HeartbeatInPart(s, id, now, coordinator.leaseDuration, Some(renewed))
    }

    method Announce(worker: Worker, now: int, already: bool) returns (o: Outcome)
      requires Valid()
      requires var workers := coordinator.workerRepository.records; already <==> FindWorker(workers, worker.id) < |workers|
      modifies coordinator.workerRepository
      ensures Valid()
      ensures Rejections() == old(Rejections()) + (if o.Done? then 0 else 1)
      ensures if o.Done? then coordinator.View() == AnnouncedState(old(coordinator.View()), worker, now)
              else o == Thrown(StorageFailure) && View() == old(View())
    {
      if already {
        o := coordinator.workerRepository.Update(worker);
      } else {
        o := coordinator.RegisterWorker(worker, now);
      }
    }

    method Heartbeat(workerId: Id, now: int) returns (o: Outcome, ghost renewed: nat)
      requires Valid()
      modifies coordinator.jobRepository, coordinator.workerRepository
      ensures Valid()
      ensures View().policy == old(View()).policy
      ensures o != Thrown(StorageFailure) ==>
                && Rejections() == old(Rejections())
                && Effect(View().state, o) == Protocol.Heartbeat(old(View()).state, workerId, now, coordinator.leaseDuration)
      ensures o.Done? ==>
                var before, after, k := old(View()).state, View().state, FindWorker(old(View()).state.workers, workerId);
                && k < |before.workers| == |after.workers| && |after.jobs| == |before.jobs|
                && HeardFrom(before.workers[k], after.workers[k], now)
                && forall i :: 0 <= i < |before.jobs| ==>
                     LeaseRenewed(before.jobs[i], after.jobs[i], workerId, now + coordinator.leaseDuration)
      ensures o == Thrown(StorageFailure) ==>
                && Rejections() == old(Rejections()) + 1
                && IsCutShortAfter(old(View()).state, View().state, workerId, now, renewed)
      ensures Preserves(old(View()).state, View().state)
    {
      hide Preserves, Inv, HeartbeatInPart, HeardFrom, LeaseRenewed;
      NoStepPreserves(coordinator.View());
      var known := coordinator.WorkerSnapshot(workerId);
      if known.None? {
        return Thrown(UnknownWorker), 0;
      }
      o, renewed := coordinator.RecordWorkerHeartbeat(workerId, now);
    }

    method AcquireJob(workerId: Id, now: int) returns (o: Outcome, job: Option<Job>)
      requires Valid()
      modifies coordinator.jobRepository, coordinator.workerRepository, coordinator.queue, coordinator.planner.policy
      ensures Valid()
      ensures o != Thrown(StorageFailure) ==>
                && Rejections() == old(Rejections())
                && Reply(View(), o, job) == Rpc.AcquireJob(old(View()), workerId, now, coordinator.leaseDuration)
      ensures o == Thrown(StorageFailure) ==>
                && 1 <= Rejections() - old(Rejections()) <= 2 && job == None
                && CutShort(old(View()), workerId, now, Rejections() - old(Rejections()))
      ensures Rejections() <= old(Rejections()) + 1 ==> Preserves(old(View()).state, View().state)
      ensures Consistent(old(View()).state) && coordinator.IsReliable() && IsKnown(old(View()).state, workerId) ==>
                o.Done? && (job.Some? <==> IsServed(old(View()).state, workerId))
    {
      hide Preserves, Inv, Consistent, Dispatch, RolledBack, PlanFor, Rpc.AcquireJob, IsServed, IsNext, IsHeldLease;
      if Consistent(coordinator.View()) && IsKnown(coordinator.View(), workerId) {
        AcquireAnswers(View(), workerId, now, coordinator.leaseDuration);
      }
      AcquireSteps(View(), workerId, now, coordinator.leaseDuration);
      NoStepPreserves(coordinator.View());
      var known := coordinator.WorkerSnapshot(workerId);
      if known.None? {
        return Thrown(UnknownWorker), None;
      }
      job := coordinator.LeasedJobForWorker(workerId);
      o := Done;
      if job.None? {
        var decision;
        o, decision := coordinator.DispatchOnceForWorker(workerId, now);
        if o.Done? {
          job := coordinator.LeasedJobForWorker(workerId);
        }
      }
    }

    /** How an acquire ends whose dispatch the store cut short. */
    ghost predicate CutShort(before: Server, workerId: Id, now: int, rejections: int)
      reads coordinator, coordinator.jobRepository, coordinator.workerRepository, coordinator.queue, coordinator.planner.policy
    {
      var k := FindWorker(before.state.workers, workerId);
      && k < |before.state.workers|
      && var plan := PlanFor(before.policy, before.state.queue, [before.state.workers[k].worker]);
         && View().policy == plan.policy
         && plan.decision.Some?
         && DispatchEnds(before.state, View().state, plan.decision.value, now, coordinator.leaseDuration,
                         Thrown(StorageFailure), rejections)
    }

    method StartJob(workerId: Id, jobId: Id, now: int) returns (o: Outcome, job: Option<Job>)
      requires Valid()
      modifies coordinator.jobRepository
      ensures Valid()
      ensures if o == Thrown(StorageFailure) then View() == old(View()) && Rejections() == old(Rejections()) + 1
              else
                && Rejections() == old(Rejections())
                && Reply(View(), o, job) == Rpc.StartJob(old(View()), workerId, jobId, now, coordinator.leaseDuration)
      ensures Preserves(old(View()).state, View().state)
    {
      hide Preserves, Inv;
      NoStepPreserves(coordinator.View());
      var isAssigned := coordinator.IsJobAssignedToWorker(jobId, workerId);
      if !isAssigned {
        return Thrown(UnassignedJob), None;
      }
      job := coordinator.GetJob(jobId);
      if job.value.state.Leased? {
        StartKeepsIds(coordinator.View(), jobId, now, coordinator.leaseDuration);
        o := coordinator.MarkRunning(jobId, now);
        if o.Thrown? {
          return o, None;
        }
      } else if !job.value.state.Running? {
        return Thrown(IllegalTransition), None;
      }
      job := coordinator.GetJob(jobId);
      o := Done;
    }

    method FinishJob(workerId: Id, jobId: Id, succeeded: Option<bool>) returns (o: Outcome, job: Option<Job>)
      requires Valid()
      modifies coordinator.jobRepository, coordinator.workerRepository
      ensures Valid()
      ensures if o != Thrown(StorageFailure)
              then
                && Rejections() == old(Rejections())
                && Reply(View(), o, job) == Rpc.FinishJob(old(View()), workerId, jobId, succeeded)
              else
                && 1 <= Rejections() - old(Rejections()) <= 2
                && (Rejections() == old(Rejections()) + 1 ==> View() == old(View()))
      ensures o.Done? ==>
                && job.Some? && succeeded.Some? && job.value.state == (if succeeded.value then Succeeded else Failed)
                && IsNow(old(View()).state.jobs, View().state.jobs, jobId, job.value.state, None)
      ensures Rejections() <= old(Rejections()) + 1 ==> Preserves(old(View()).state, View().state)
    {
      hide Preserves, Inv;
      NoStepPreserves(coordinator.View());
      var isAssigned := coordinator.IsJobAssignedToWorker(jobId, workerId);
      if !isAssigned {
        return Thrown(UnassignedJob), None;
      }
      job := coordinator.GetJob(jobId);
      if !job.value.state.Running? {
        return Thrown(IllegalTransition), None;
      }
      if succeeded.None? {
        return Thrown(InvalidOutcome), None;
      }
      FinishKeepsIds(coordinator.View(), jobId, if succeeded.value then Succeeded else Failed);
      if succeeded.value {
        o := coordinator.MarkSucceeded(jobId);
      } else {
        o := coordinator.MarkFailed(jobId);
      }
      if o.Thrown? {
        return o, None;
      }
      job := coordinator.GetJob(jobId);
    }

    /**
     * One pass of the liveness monitor; an exception ends the pass, not the monitor. On reliable stores, from a sound
     * state, no exception does.
     */
    method MonitorPass(now: int) returns (o: Outcome, offline: nat, expired: nat, requeued: nat)
      requires Valid()
      modifies coordinator.jobRepository, coordinator.workerRepository, coordinator.queue
      ensures Valid()
      ensures View().policy == old(View()).policy
      ensures Rejections() == old(Rejections()) ==>
                Effect(View().state, o) == MonitorScan(old(View()).state, now, HEARTBEAT_TIMEOUT)
      ensures o == Thrown(StorageFailure) ==> Rejections() > old(Rejections())
      ensures o == Thrown(StorageFailure) && Rejections() == old(Rejections()) + 1 ==>
                IsPartOfPass(old(View()).state, View().state, now)
      ensures o.Done? ==>
                var s := old(View()).state;
                && Rejections() == old(Rejections())
                && offline == StaleCount(s.workers, |s.workers|, now, HEARTBEAT_TIMEOUT)
                && expired == ExpiredCount(s.jobs, |s.jobs|, now)
                && var s' := Expire(MarkStale(s, now, HEARTBEAT_TIMEOUT).state, now).state;
                   requeued == RequeuedCount(s'.jobs, |s'.jobs|)
      ensures o.Done? && Consistent(old(View()).state) ==>
                var s, s' := old(View()).state, View().state;
                offline == |WentOffline(s, s')| && expired == |NoLongerActive(s, s')| && requeued == |NewlyQueued(s, s')|
      ensures Rejections() == old(Rejections()) ==>
                var s, s' := old(View()).state, View().state;
                && |s'.workers| == |s.workers|
                && forall k :: 0 <= k < |s.workers| ==> IsCheckedUpTo(s.workers[k], s'.workers[k], now, HEARTBEAT_TIMEOUT)
      ensures Rejections() == old(Rejections())
              || (o == Thrown(StorageFailure) && Rejections() == old(Rejections()) + 1)
              ==> Preserves(old(View()).state, View().state)
      ensures Sound(old(View()).state) && coordinator.IsReliable() ==> o.Done?
    {
      hide Preserves, Inv, Consistent, Sound, CheckFirst, ExpireFirst, RequeueFirst;
      hide WentOffline, NoLongerActive, NewlyQueued, IsCheckedUpTo, TakenBack, CheckedFor, UnheardOf, DueRecords, Retryable;
      ghost var s0 := coordinator.View();
      expired, requeued := 0, 0;
      ghost var reached;
      if Sound(s0) {
        SoundIsConsistent(s0);
        MonitorSettlesEveryDueJob(s0, now, HEARTBEAT_TIMEOUT);
      }
      PassChecksEveryWorker(s0, now, HEARTBEAT_TIMEOUT);
      if Consistent(s0) && MonitorScan(s0, now, HEARTBEAT_TIMEOUT).outcome.Done? {
        PassReportsWhatChanged(s0, now, HEARTBEAT_TIMEOUT);
      }
      o, offline, reached := coordinator.MarkStaleWorkersOffline(now, HEARTBEAT_TIMEOUT);
      ghost var s1 := coordinator.View();
      if o.Done? {
        o, expired, reached := coordinator.MarkExpiredJobLeases(now);
        if Rejections() <= old(Rejections()) + 1 {
          PreservesComposes(s0, s1, coordinator.View());
        }
      }
      ghost var s2 := coordinator.View();
      if o.Done? {
        o, requeued, reached := coordinator.RequeueRetryWaitJobs();
        if o == Thrown(StorageFailure) || Rejections() == old(Rejections()) {
          PreservesComposes(s0, s2, coordinator.View());
        }
      }
    }
  }
}

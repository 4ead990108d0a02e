/** The worker-facing calls and the monitor, each one step under the lock: apps/coordinator/main.cpp. */
module Rpc {
  import opened Errors
  import opened JobStates
  import opened Jobs
  import opened Workers
  import opened Ledger
  import opened JobQueues
  import opened Policies
  import opened Planning
  import opened Store
  import opened Protocol
  import opened Conservation
  import opened Preservation
  import opened Scans
  import opened Runs
  import opened Liveness
  import opened Draining

  const HEARTBEAT_TIMEOUT: int := 6_000
  const LEASE_DURATION: int := 15_000

  predicate LeasedTo(r: JobRecord, id: Id)
  {
    r.worker == Some(id) && r.job.state.Leased?
  }

  /** The first record leased to the worker, or the length. */
  function FindLeased(jobs: seq<JobRecord>, id: Id): (i: nat)
    ensures i <= |jobs|
    ensures i < |jobs| ==> LeasedTo(jobs[i], id)
    ensures forall k :: 0 <= k < i ==> !LeasedTo(jobs[k], id)
  {
    if jobs == [] then 0
    else
      var before := jobs[..|jobs| - 1];
      var i := FindLeased(before, id);
      if i < |before| || LeasedTo(jobs[|jobs| - 1], id) then i else |jobs|
  }

  function LeasedJob(jobs: seq<JobRecord>, id: Id): Option<Job>
  {
    var i := FindLeased(jobs, id);
    if i < |jobs| then Some(jobs[i].job) else None
  }

  predicate AssignedTo(s: State, jobId: Id, workerId: Id)
  {
    var i := FindJob(s.jobs, jobId);
    i < |s.jobs| && s.jobs[i].worker == Some(workerId)
  }

  datatype Server = Server(state: State, policy: PolicyState)

  /** The registration handler: a worker already known replaces its record; either way it is a sign of life. */
  function RegisterWorker(sv: Server, w: Worker, now: int, duration: int): (Server, Outcome)
  {
    var known := FindWorker(sv.state.workers, w.id) < |sv.state.workers|;
    var e := if known then Reregister(sv.state, w) else Register(sv.state, w, now);
    var e' := Heartbeat(e.state, w.id, now, duration);
    (sv.(state := e'.state), e'.outcome)
  }

  /** The server after a call, how the call ended, and the job it answered with. */
  datatype Reply = Reply(server: Server, outcome: Outcome, job: Option<Job>)

  /** Dispatch to one worker whatever the planner chooses for it alone. */
  function DispatchFor(sv: Server, k: nat, now: int, duration: int): (Server, Outcome)
    requires k < |sv.state.workers|
  {
    var plan := PlanFor(sv.policy, sv.state.queue, [sv.state.workers[k].worker]);
    if plan.decision.None? then (Server(sv.state, plan.policy), Done)
    else
      var e := Dispatch(sv.state, plan.decision.value.jobId, plan.decision.value.workerId, now, duration);
      (Server(e.state, plan.policy), e.outcome)
  }

  function AcquireJob(sv: Server, workerId: Id, now: int, duration: int): Reply
  {
    var k := FindWorker(sv.state.workers, workerId);
    if k == |sv.state.workers| then Reply(sv, Thrown(UnknownWorker), None)
    else if LeasedJob(sv.state.jobs, workerId).Some? then Reply(sv, Done, LeasedJob(sv.state.jobs, workerId))
    else
      var (sv', o) := DispatchFor(sv, k, now, duration);
      Reply(sv', o, if o.Done? then LeasedJob(sv'.state.jobs, workerId) else None)
  }

  function StartJob(sv: Server, workerId: Id, jobId: Id, now: int, duration: int): Reply
  {
    var i := FindJob(sv.state.jobs, jobId);
    if !AssignedTo(sv.state, jobId, workerId) then Reply(sv, Thrown(UnassignedJob), None)
    else if sv.state.jobs[i].job.state.Leased? then
      var e := Start(sv.state, jobId, now, duration);
      Reply(sv.(state := e.state), e.outcome,
            if e.outcome.Done? && i < |e.state.jobs| then Some(e.state.jobs[i].job) else None)
    else if sv.state.jobs[i].job.state.Running? then Reply(sv, Done, Some(sv.state.jobs[i].job))
    else Reply(sv, Thrown(IllegalTransition), None)
  }

  /** `succeeded` is what the worker reports, if it reports an outcome at all. */
  function FinishJob(sv: Server, workerId: Id, jobId: Id, succeeded: Option<bool>): Reply
  {
    var i := FindJob(sv.state.jobs, jobId);
    if !AssignedTo(sv.state, jobId, workerId) then Reply(sv, Thrown(UnassignedJob), None)
    else if !sv.state.jobs[i].job.state.Running? then Reply(sv, Thrown(IllegalTransition), None)
    else if succeeded.None? then Reply(sv, Thrown(InvalidOutcome), None)
    else
      var e := Finish(sv.state, jobId, if succeeded.value then Succeeded else Failed);
      Reply(sv.(state := e.state), e.outcome,
            if e.outcome.Done? && i < |e.state.jobs| then Some(e.state.jobs[i].job) else None)
  }

  // ---------- what workers are told ----------

  /**
   * The holder's report on a running job, and nothing else, is what a job ends with: the answer and the stored record
   * have the outcome reported, and the holder's ledger takes the job's needs back. Refusals change nothing.
   */
  lemma FinishRecordsTheReport(sv: Server, workerId: Id, jobId: Id, report: Option<bool>)
    ensures var s, i, reply := sv.state, FindJob(sv.state.jobs, jobId), FinishJob(sv, workerId, jobId, report);
            if i == |s.jobs| || s.jobs[i].worker != Some(workerId) then reply == Reply(sv, Thrown(UnassignedJob), None)
            else if !s.jobs[i].job.state.Running? then reply == Reply(sv, Thrown(IllegalTransition), None)
            else if report.None? then reply == Reply(sv, Thrown(InvalidOutcome), None)
            else if reply.outcome.Thrown? then reply.server == sv && reply.job.None?
            else
              var job := s.jobs[i].job.(state := if report.value then Succeeded else Failed);
              var s', k := reply.server.state, FindWorker(s.workers, workerId);
              && reply.job == Some(job) && reply.server.policy == sv.policy && s'.queue == s.queue
              && s'.jobs == s.jobs[i := JobRecord(job, Some(workerId), None)]
              && k < |s.workers| && |s'.workers| == |s.workers|
              && Ok(s'.workers[k].worker) == AfterRelease(s.workers[k].worker, job.needs)
              && s'.workers == s.workers[k := StoredWorker(s'.workers[k].worker, s.workers[k].heartbeat)]
  {
    hide AfterRelease;
  }

  /** Only the holder starts a job; a start of a leased job gives it a full lease, a repeated one changes nothing. */
  lemma StartGrantsALease(sv: Server, workerId: Id, jobId: Id, now: int, duration: int)
    ensures var s, i, reply := sv.state, FindJob(sv.state.jobs, jobId), StartJob(sv, workerId, jobId, now, duration);
            if i == |s.jobs| || s.jobs[i].worker != Some(workerId) then reply == Reply(sv, Thrown(UnassignedJob), None)
            else if s.jobs[i].job.state.Running? then reply == Reply(sv, Done, Some(s.jobs[i].job))
            else if !s.jobs[i].job.state.Leased? then reply == Reply(sv, Thrown(IllegalTransition), None)
            else
              var job := s.jobs[i].job.(state := Running);
              && reply.outcome.Done? && reply.job == Some(job)
              && reply.server == sv.(state := s.(jobs := s.jobs[i := JobRecord(job, Some(workerId), Some(now + duration))]))
  {
  }

  // ---------- registering ----------

  /** A worker that registers, for the first time or again, is stored as it reports itself, and counts as heard from. */
  lemma RegistrationIsStored(sv: Server, w: Worker, now: int, duration: int)
    ensures var s, k := sv.state, FindWorker(sv.state.workers, w.id);
            var (sv', o) := RegisterWorker(sv, w, now, duration);
            var s' := sv'.state;
            && o.Done? && sv'.policy == sv.policy && s'.queue == s.queue && |s'.jobs| == |s.jobs|
            && |s'.workers| == (if k < |s.workers| then |s.workers| else |s.workers| + 1)
            && IsBack(w, s'.workers[k].worker) && s'.workers[k].heartbeat == now
            && (forall m :: 0 <= m < |s.workers| && m != k ==> s'.workers[m] == s.workers[m])
            && (forall i :: 0 <= i < |s.jobs| ==> LeaseRenewed(s.jobs[i], s'.jobs[i], w.id, now + duration))
  {
    var s := sv.state;
    var k := FindWorker(s.workers, w.id);
    var e := if k < |s.workers| then Reregister(s, w) else Register(s, w, now);
    FoundOnceAnnounced(s, w, now);
    HeartbeatIsExact(e.state, w.id, now, duration);
    hide Heartbeat, IsBack, LeaseRenewed;
  }

  lemma FoundOnceAnnounced(s: State, w: Worker, now: int)
    ensures var k := FindWorker(s.workers, w.id);
            FindWorker((if k < |s.workers| then Reregister(s, w) else Register(s, w, now)).state.workers, w.id) == k
  {
    var k := FindWorker(s.workers, w.id);
    var workers := (if k < |s.workers| then Reregister(s, w) else Register(s, w, now)).state.workers;
    var m := FindWorker(workers, w.id);
    assert workers[k].worker.id == w.id;
  }

  lemma RenewedJobsWeighTheSame(jobs: seq<JobRecord>, id: Id, lease: int, holder: Id)
    ensures Load(RenewFirst(jobs, |jobs|, id, lease), holder) == Load(jobs, holder)
  {
    LoadDependsOnShares(jobs, RenewFirst(jobs, |jobs|, id, lease), |jobs|, holder);
  }

  /** A registration leaves a sound state exactly when the worker reports at least what its active jobs need. */
  lemma RegistrationIsExact(sv: Server, w: Worker, now: int, duration: int)
    requires Sound(sv.state)
    ensures Sound(RegisterWorker(sv, w, now, duration).0.state) <==> AtMost(Load(sv.state.jobs, w.id), Used(w))
  {
    hide Inv, Consistent, Sound, Apply, Truthful, Heartbeat;
    var s := sv.state;
    var e := if FindWorker(s.workers, w.id) < |s.workers| then Reregistration(w) else Registration(w, now);
    var mid := Apply(s, e, duration);
    RegistrationEvent(sv, w, now, duration);
    TruthfulOfRegistration(s, w, now);
    SoundnessIsExact(s, e, duration);
    SoundIsConsistent(s);
    EventKeepsConsistent(s, e, duration);
    HeartbeatNeitherMakesNorBreaks(mid, w.id, now, duration);
  }

  lemma RegistrationEvent(sv: Server, w: Worker, now: int, duration: int)
    ensures var s := sv.state;
            var e := if FindWorker(s.workers, w.id) < |s.workers| then Reregistration(w) else Registration(w, now);
            RegisterWorker(sv, w, now, duration).0 == sv.(state := Heartbeat(Apply(s, e, duration), w.id, now, duration).state)
  {
    hide Heartbeat;
  }

  lemma TruthfulOfRegistration(s: State, w: Worker, now: int)
    requires Sound(s)
    ensures var e := if FindWorker(s.workers, w.id) < |s.workers| then Reregistration(w) else Registration(w, now);
            Truthful(s, e) <==> AtMost(Load(s.jobs, w.id), Used(w))
  {
    if FindWorker(s.workers, w.id) == |s.workers| {
      SoundIsConsistent(s);
      NewcomerIsUnloaded(s, w);
    }
  }

  lemma NewcomerIsUnloaded(s: State, w: Worker)
    requires Consistent(s) && FindWorker(s.workers, w.id) == |s.workers|
    ensures AtMost(Load(s.jobs, w.id), Used(w))
  {
    assert forall i :: 0 <= i < |s.jobs| ==> WellShaped(s.jobs[i]);
    LoadOfStranger(s.jobs, |s.jobs|, w.id);
  }

  lemma HeartbeatNeitherMakesNorBreaks(s: State, id: Id, time: int, duration: int)
    requires Consistent(s)
    ensures Sound(Heartbeat(s, id, time, duration).state) <==> Sound(s)
  {
    var s' := Heartbeat(s, id, time, duration).state;
    HeartbeatPreserves(s, id, time, duration);
    PreservesSoundness(s, s');
    if Sound(s') {
      var base :| Inv(s', base) && Covers(base, s'.workers);
      forall k | 0 <= k < |s.workers|
        ensures s.workers[k].worker.id in base && Balanced(s.jobs, s.workers[k].worker, base)
      {
        assert s'.workers[k].worker.id in base && Balanced(s'.jobs, s'.workers[k].worker, base);
        RevivalUsesNothing(s.workers[k].worker);
        if FindWorker(s.workers, id) < |s.workers| {
          RenewedJobsWeighTheSame(s.jobs, id, time + duration, s.workers[k].worker.id);
        }
      }
      assert Inv(s, base) && Covers(base, s.workers);
    }
  }

  // ---------- a worker that registers again as idle ----------

  /** A running job whose holder's ledger knows of no job. */
  predicate Stranded(s: State, i: nat, id: Id)
  {
    && i < |s.jobs| && s.jobs[i].job.state.Running? && s.jobs[i].worker == Some(id)
    && var k := FindWorker(s.workers, id); k < |s.workers| && s.workers[k].worker.running == 0
  }

  lemma StrandedCannotFinish(sv: Server, i: nat, id: Id, succeeded: bool)
    requires UniqueJobs(sv.state.jobs) && Stranded(sv.state, i, id)
    ensures FinishJob(sv, id, sv.state.jobs[i].job.id, Some(succeeded)) == Reply(sv, Thrown(NothingToRelease), None)
  {
    JobFindsItself(sv.state.jobs, i);
  }

  lemma HeartbeatKeepsStranded(s: State, i: nat, id: Id, time: int, duration: int)
    requires Stranded(s, i, id)
    ensures var s' := Heartbeat(s, id, time, duration).state;
            Stranded(s', i, id) && s'.jobs[i].lease == Some(time + duration) && s'.jobs[i].job == s.jobs[i].job
  {
    FindsSameWorker(s.workers, Heartbeat(s, id, time, duration).state.workers, id);
  }

  /**
   * A worker that registers as idle while it runs a job, which it could finish before, cannot finish it any more, and
   * each of its heartbeats, beginning with the registration, gives the job another full lease.
   */
  lemma IdleRegistrationStrandsItsJob(sv: Server, w: Worker, i: nat, now: int, later: int, duration: int, succeeded: bool)
    requires Consistent(sv.state) && i < |sv.state.jobs|
    requires sv.state.jobs[i].job.state.Running? && sv.state.jobs[i].worker == Some(w.id) && w.running == 0
    ensures Sound(sv.state) ==> FinishJob(sv, w.id, sv.state.jobs[i].job.id, Some(succeeded)).outcome.Done?
    ensures var after := RegisterWorker(sv, w, now, duration).0;
            var beaten := after.(state := Heartbeat(after.state, w.id, later, duration).state);
            && Stranded(after.state, i, w.id) && after.state.jobs[i].lease == Some(now + duration)
            && FinishJob(after, w.id, sv.state.jobs[i].job.id, Some(succeeded)) == Reply(after, Thrown(NothingToRelease), None)
            && Stranded(beaten.state, i, w.id) && beaten.state.jobs[i].lease == Some(later + duration)
            && FinishJob(beaten, w.id, sv.state.jobs[i].job.id, Some(succeeded)) == Reply(beaten, Thrown(NothingToRelease), None)
  {
    if Sound(sv.state) {
      RunningJobFinishes(sv, i, w.id, succeeded);
    }
    var after := RegisterWorker(sv, w, now, duration).0;
    var beaten := after.(state := Heartbeat(after.state, w.id, later, duration).state);
    RegistrationStrands(sv, w, i, now, duration);
    hide Consistent, FinishJob, RegisterWorker, Sound, RenewFirst, UniqueJobs, Stranded;
    HeartbeatKeepsStranded(after.state, i, w.id, later, duration);
    HeartbeatKeepsUnique(after.state, w.id, later, duration);
    StrandedCannotFinish(after, i, w.id, succeeded);
    hide Heartbeat;
    StrandedCannotFinish(beaten, i, w.id, succeeded);
  }

  lemma RegistrationStrands(sv: Server, w: Worker, i: nat, now: int, duration: int)
    requires Consistent(sv.state) && i < |sv.state.jobs|
    requires sv.state.jobs[i].job.state.Running? && sv.state.jobs[i].worker == Some(w.id) && w.running == 0
    ensures var s' := RegisterWorker(sv, w, now, duration).0.state;
            && UniqueJobs(s'.jobs) && Stranded(s', i, w.id)
            && s'.jobs[i].lease == Some(now + duration) && s'.jobs[i].job == sv.state.jobs[i].job
  {
    var s := sv.state;
    LeasedIsHeld(s, i);
    ConsistentIsUnique(s);
    var mid := Reregister(s, w).state;
    FindsSameWorker(s.workers, mid.workers, w.id);
    hide Consistent, RenewFirst, UniqueJobs;
    HeartbeatKeepsStranded(mid, i, w.id, now, duration);
    HeartbeatKeepsUnique(mid, w.id, now, duration);
    hide Heartbeat;
  }

  lemma HeartbeatKeepsUnique(s: State, id: Id, time: int, duration: int)
    requires UniqueJobs(s.jobs)
    ensures UniqueJobs(Heartbeat(s, id, time, duration).state.jobs)
  {
  }

  /** The holder's report on a running job is accepted exactly when its ledger takes back what the job needs. */
  lemma FinishIsAcceptedIff(sv: Server, i: nat, id: Id, succeeded: bool)
    requires Consistent(sv.state) && i < |sv.state.jobs|
    requires sv.state.jobs[i].job.state.Running? && sv.state.jobs[i].worker == Some(id)
    ensures FindWorker(sv.state.workers, id) < |sv.state.workers|
    ensures var holder := sv.state.workers[FindWorker(sv.state.workers, id)].worker;
            FinishJob(sv, id, sv.state.jobs[i].job.id, Some(succeeded)).outcome.Done?
            <==> AfterRelease(holder, sv.state.jobs[i].job.needs).Ok?
  {
    LeasedIsHeld(sv.state, i);
    ConsistentIsUnique(sv.state);
    JobFindsItself(sv.state.jobs, i);
    hide Consistent, AfterRelease, FindJob, UniqueJobs;
  }

  lemma RunningJobFinishes(sv: Server, i: nat, id: Id, succeeded: bool)
    requires Sound(sv.state) && i < |sv.state.jobs|
    requires sv.state.jobs[i].job.state.Running? && sv.state.jobs[i].worker == Some(id)
    ensures FinishJob(sv, id, sv.state.jobs[i].job.id, Some(succeeded)).outcome.Done?
  {
    var s := sv.state;
    var base :| Inv(s, base) && Covers(base, s.workers);
    LeasedIsHeld(s, i);
    assert s.workers[FindWorker(s.workers, id)].worker.id in base;
    ReleaseIsNeverRefused(s, base, i);
    FinishIsAcceptedIff(sv, i, id, succeeded);
  }

  // ---------- repeated calls ----------

  /**
   * An acquire that answered with a job leaves a server that answers every further acquire of that
   * worker, at any time and whatever the policy has come to, with the same job and no change.
   */
  lemma AcquireIsIdempotent(sv: Server, workerId: Id, now: int, later: int, duration: int, policy: PolicyState)
    requires AcquireJob(sv, workerId, now, duration).job.Some?
    ensures var first := AcquireJob(sv, workerId, now, duration);
            var server := first.server.(policy := policy);
            AcquireJob(server, workerId, later, duration) == Reply(server, Done, first.job)
  {
    var first := AcquireJob(sv, workerId, now, duration);
    var s' := first.server.state;
    assert LeasedJob(s'.jobs, workerId) == first.job;
    KnownAfterAcquire(sv, workerId, now, duration);
  }

  lemma DispatchKeepsWorkers(s: State, jobId: Id, workerId: Id, now: int, duration: int)
    ensures var s' := Dispatch(s, jobId, workerId, now, duration).state;
            && |s'.workers| == |s.workers|
            && forall k :: 0 <= k < |s.workers| ==> s.workers[k].worker.id == s'.workers[k].worker.id
  {
  }

  lemma KnownAfterAcquire(sv: Server, workerId: Id, now: int, duration: int)
    requires FindWorker(sv.state.workers, workerId) < |sv.state.workers|
    ensures var s' := AcquireJob(sv, workerId, now, duration).server.state;
            FindWorker(s'.workers, workerId) < |s'.workers|
  {
    var s, k := sv.state, FindWorker(sv.state.workers, workerId);
    var plan := PlanFor(sv.policy, s.queue, [s.workers[k].worker]);
    if plan.decision.Some? {
      var d := plan.decision.value;
      DispatchKeepsWorkers(s, d.jobId, d.workerId, now, duration);
      hide Dispatch, PlanFor;
      FindsSameWorker(s.workers, Dispatch(s, d.jobId, d.workerId, now, duration).state.workers, workerId);
    }
  }

  /** Starting a job that already runs on the caller changes nothing; so a second start is the first one's answer. */
  lemma StartIsIdempotent(sv: Server, workerId: Id, jobId: Id, now: int, later: int, duration: int)
    requires StartJob(sv, workerId, jobId, now, duration).outcome.Done?
    ensures var first := StartJob(sv, workerId, jobId, now, duration);
            && first.job.Some? && first.job.value.state.Running? && first.job.value.id == jobId
            && StartJob(first.server, workerId, jobId, later, duration) == first
  {
    var s, s' := sv.state, StartJob(sv, workerId, jobId, now, duration).server.state;
    var i := FindJob(s.jobs, jobId);
    assert |s'.jobs| == |s.jobs| && forall m :: 0 <= m < |s.jobs| ==> s'.jobs[m].job.id == s.jobs[m].job.id;
    var i' := FindJob(s'.jobs, jobId);
    assert s'.jobs[i].job.id == jobId;
    assert s.jobs[i'].job.id == jobId;
  }

  /** The answer is the first queued job in running order that fits the worker, leased, with one more attempt. */
  ghost predicate IsNext(answer: Job, queue: seq<Job>, w: Worker)
  {
    exists j :: j in queue && RunsFirst(j, queue, [w]) && IsLeaseOf(answer, j)
  }

  predicate IsLeaseOf(answer: Job, j: Job)
  {
    CanAttempt(j) && answer == j.(state := Leased, attempts := j.attempts + 1)
  }

  /** What one worker is sent when it holds no lease. */
  lemma DispatchForAnswers(sv: Server, k: nat, now: int, duration: int)
    requires Consistent(sv.state) && k < |sv.state.workers|
    ensures var w := sv.state.workers[k].worker;
            var (sv', o) := DispatchFor(sv, k, now, duration);
            && o.Done?
            && (if exists j :: j in sv.state.queue && Eligible(j.needs, w)
                then LeasedJob(sv'.state.jobs, w.id).Some?
                     && (LeasedJob(sv.state.jobs, w.id).None? ==>
                           IsNext(LeasedJob(sv'.state.jobs, w.id).value, sv.state.queue, w))
                else sv'.state == sv.state)
  {
    var s := sv.state;
    var ws := [s.workers[k].worker];
    PlanSendsTheFirstRunnableJob(sv.policy, s.queue, ws);
    if PlanFor(sv.policy, s.queue, ws).decision.Some? {
      var j, w := PlannedPair(sv.policy, s.queue, ws);
      assert Snapshots(s.workers)[k] in Snapshots(s.workers);
      EligiblePairApplies(s, j, w, now, duration);
      DispatchedIsLeased(s, j, w.id, now, duration);
      hide RunsFirst, Dispatch, Consistent, LeasedJob, Eligible, Runnable, PlanFor;
      if LeasedJob(s.jobs, w.id).None? {
        var answer := LeasedJob(DispatchFor(sv, k, now, duration).0.state.jobs, w.id).value;
        assert RunsFirst(j, s.queue, ws) && IsLeaseOf(answer, j);
      }
    } else {
      assert forall j :: j in s.queue && Eligible(j.needs, ws[0]) ==> Runnable(j, ws);
    }
  }

  lemma StrangersAcquireNothing(sv: Server, workerId: Id, now: int, duration: int)
    requires forall k :: 0 <= k < |sv.state.workers| ==> sv.state.workers[k].worker.id != workerId
    ensures AcquireJob(sv, workerId, now, duration) == Reply(sv, Thrown(UnknownWorker), None)
  {
  }

  /**
   * An acquire asks the policy about its one caller, so a round-robin policy starts again from position 0 whenever a
   * job is sent: among one worker there is nothing to go round.
   */
  lemma AcquireResetsTheRing(sv: Server, workerId: Id, now: int, duration: int)
    requires Consistent(sv.state) && FindWorker(sv.state.workers, workerId) < |sv.state.workers|
    ensures var p, p' := sv.policy, AcquireJob(sv, workerId, now, duration).server.policy;
            p' == if p.kind.RoundRobin? && LeasedJob(sv.state.jobs, workerId).None?
                     && AcquireJob(sv, workerId, now, duration).job.Some?
                  then p.(nextIndex := 0) else p
  {
    var s, k := sv.state, FindWorker(sv.state.workers, workerId);
    var w := s.workers[k].worker;
    QueueIdsDiffer(s);
    PlanIsOneDecision(sv.policy, s.queue, [w]);
    DispatchForAnswers(sv, k, now, duration);
    PlanSendsTheFirstRunnableJob(sv.policy, s.queue, [w]);
    var plan := PlanFor(sv.policy, s.queue, [w]);
    if plan.decision.Some? {
      AdvanceAmongOne(sv.policy, s.queue[FindQueued(s.queue, plan.decision.value.jobId)].needs, w);
      var j, v := PlannedPair(sv.policy, s.queue, [w]);
      assert j in s.queue && Eligible(j.needs, w);
    } else {
      assert forall j :: j in s.queue && Eligible(j.needs, w) ==> Runnable(j, [w]);
    }
    hide Consistent, PlanFor, Dispatch, LeasedJob, Eligible, Runnable;
  }

  lemma AdvanceAmongOne(p: PolicyState, needs: Requirements, w: Worker)
    requires Decide(p, needs, [w]).Some?
    ensures Advanced(p, needs, [w]) == if p.kind.RoundRobin? then p.(nextIndex := 0) else p
  {
    assert [w][..0] == [];
    assert EligibleOnly(needs, [w]) == [] + (if Eligible(needs, w) then [w] else []);
    assert |Candidates(needs, [w])| == |multiset(Candidates(needs, [w]))| == |multiset(EligibleOnly(needs, [w]))|;
  }

  lemma DispatchedIsLeased(s: State, j: Job, workerId: Id, now: int, duration: int)
    requires Consistent(s) && Dispatch(s, j.id, workerId, now, duration).outcome.Done?
    requires FindQueued(s.queue, j.id) < |s.queue| && s.queue[FindQueued(s.queue, j.id)] == j
    ensures var jobs := Dispatch(s, j.id, workerId, now, duration).state.jobs;
            && LeasedJob(jobs, workerId).Some?
            && (LeasedJob(s.jobs, workerId).None? ==> IsLeaseOf(LeasedJob(jobs, workerId).value, j))
  {
    var e := Dispatch(s, j.id, workerId, now, duration);
    var i := FindJob(s.jobs, j.id);
    assert LeasedTo(e.state.jobs[i], workerId) && IsLeaseOf(e.state.jobs[i].job, j);
    hide Consistent, RolledBack;
    if LeasedJob(s.jobs, workerId).None? {
      assert forall m :: 0 <= m < |s.jobs| ==> !LeasedTo(s.jobs[m], workerId);
      assert FindLeased(e.state.jobs, workerId) == i;
    }
  }

  /** The job is stored as leased to this worker. */
  ghost predicate IsHeldLease(jobs: seq<JobRecord>, workerId: Id, job: Job)
  {
    job.state.Leased? && exists i :: 0 <= i < |jobs| && jobs[i].job == job && jobs[i].worker == Some(workerId)
  }

  lemma LeasedJobIsHeld(jobs: seq<JobRecord>, workerId: Id)
    ensures LeasedJob(jobs, workerId).Some? ==> IsHeldLease(jobs, workerId, LeasedJob(jobs, workerId).value)
  {
  }

  predicate IsKnown(s: State, workerId: Id)
  {
    FindWorker(s.workers, workerId) < |s.workers|
  }

  /** A job is leased to the worker, or some queued job fits it. */
  ghost predicate IsServed(s: State, workerId: Id)
    requires IsKnown(s, workerId)
  {
    || LeasedJob(s.jobs, workerId).Some?
    || exists j :: j in s.queue && Eligible(j.needs, s.workers[FindWorker(s.workers, workerId)].worker)
  }

  /**
   * In a consistent state an acquire never fails, and answers with a job exactly when one is leased or fits: the one
   * that is leased, or else the first in running order that fits.
   */
  lemma AcquireAnswers(sv: Server, workerId: Id, now: int, duration: int)
    requires Consistent(sv.state) && IsKnown(sv.state, workerId)
    ensures AcquireJob(sv, workerId, now, duration).outcome.Done?
    ensures AcquireJob(sv, workerId, now, duration).job.Some? <==> IsServed(sv.state, workerId)
    ensures var leased, answer := LeasedJob(sv.state.jobs, workerId), AcquireJob(sv, workerId, now, duration).job;
            answer.Some? ==>
              && IsHeldLease(AcquireJob(sv, workerId, now, duration).server.state.jobs, workerId, answer.value)
              && if leased.Some? then answer == leased
              else IsNext(answer.value, sv.state.queue, sv.state.workers[FindWorker(sv.state.workers, workerId)].worker)
  {
    var k := FindWorker(sv.state.workers, workerId);
    DispatchForAnswers(sv, k, now, duration);
    LeasedJobIsHeld(AcquireJob(sv, workerId, now, duration).server.state.jobs, workerId);
    hide DispatchFor, LeasedJob, Consistent, Eligible, IsNext, IsHeldLease;
  }
}

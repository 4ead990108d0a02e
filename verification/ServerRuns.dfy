/** Whole runs of the server: every call is a short run of coordinator events, so what holds of those holds of it. */
module ServerRuns {
  import opened Errors
  import opened JobStates
  import opened Jobs
  import opened Workers
  import opened Ledger
  import opened JobQueues
  import opened Policies
  import opened Planning
  import opened Store
  import opened Protocol
  import opened Conservation
  import opened Preservation
  import opened Recovery
  import opened Scans
  import opened Runs
  import opened Histories
  import opened Timing
  import opened Draining
  import opened Rpc

  /** A handler call or a monitor pass; `CutShort` is one that a rejected write ended, leaving what the event leaves. */
  datatype Call =
    | SubmitCall(job: Job)
    | RegisterCall(worker: Worker, now: int)
    | HeartbeatCall(workerId: Id, now: int)
    | AcquireCall(workerId: Id, now: int)
    | StartCall(workerId: Id, jobId: Id, now: int)
    | FinishCall(workerId: Id, jobId: Id, succeeded: Option<bool>)
    | MonitorPass(now: int)
    | CutShort(event: Event, policy: PolicyState)
    | Restart(point: CrashPoint)

  function Serve(sv: Server, c: Call): Server
  {
    match c
    case SubmitCall(j) => sv.(state := Submit(sv.state, j).state)
    case RegisterCall(w, now) => RegisterWorker(sv, w, now, LEASE_DURATION).0
    case HeartbeatCall(id, now) => sv.(state := Heartbeat(sv.state, id, now, LEASE_DURATION).state)
    case AcquireCall(id, now) => AcquireJob(sv, id, now, LEASE_DURATION).server
    case StartCall(id, jobId, now) => StartJob(sv, id, jobId, now, LEASE_DURATION).server
    case FinishCall(id, jobId, ok) => FinishJob(sv, id, jobId, ok).server
    case MonitorPass(now) => sv.(state := MonitorScan(sv.state, now, HEARTBEAT_TIMEOUT).state)
    case CutShort(e, policy) => Server(Apply(sv.state, e, LEASE_DURATION), policy)
    case Restart(point) => Server(Recover(sv.state.jobs, StoredWorkersAt(sv.state, point)), PolicyState(sv.policy.kind, 0))
  }

  /** The coordinator events a call consists of. A stopped expiry scan ends the pass. */
  function EventsOf(sv: Server, c: Call): seq<Event>
  {
    match c
    case SubmitCall(j) => [Submission(j)]
    case RegisterCall(w, now) =>
      [if FindWorker(sv.state.workers, w.id) < |sv.state.workers| then Reregistration(w) else Registration(w, now),
       WorkerHeartbeat(w.id, now)]
    case HeartbeatCall(id, now) => [WorkerHeartbeat(id, now)]
    case AcquireCall(id, now) => DispatchEvents(sv, id, now)
    case StartCall(id, jobId, now) =>
      if AssignedTo(sv.state, jobId, id) && sv.state.jobs[FindJob(sv.state.jobs, jobId)].job.state.Leased?
      then [Starting(jobId, now)] else []
    case FinishCall(id, jobId, ok) =>
      if AssignedTo(sv.state, jobId, id) && sv.state.jobs[FindJob(sv.state.jobs, jobId)].job.state.Running? && ok.Some?
      then [Finishing(jobId, ok.value)] else []
    case MonitorPass(now) => MonitorEvents(sv.state, now)
    case CutShort(e, _) => [e]
    case Restart(point) => [CrashAndRestart(point)]
  }

  function MonitorEvents(s: State, now: int): seq<Event>
  {
    var scans := [StaleScan(now, HEARTBEAT_TIMEOUT, |s.workers|), ExpiryScan(now, |s.jobs|)];
    if Expire(MarkStale(s, now, HEARTBEAT_TIMEOUT).state, now).outcome.Thrown? then scans
    else scans + [RequeueScan(|s.jobs|)]
  }

  function DispatchEvents(sv: Server, id: Id, now: int): seq<Event>
  {
    var k := FindWorker(sv.state.workers, id);
    if k == |sv.state.workers| || LeasedJob(sv.state.jobs, id).Some? then []
    else
      match PlanFor(sv.policy, sv.state.queue, [sv.state.workers[k].worker]).decision
      case None => []
      case Some(d) => [Dispatching(d.jobId, d.workerId, now)]
  }

  /** Submitted jobs have attempts left; what a rejected write leaves of a call is one of these events. */
  predicate Allowed(c: Call)
  {
    match c
    case SubmitCall(j) => CanAttempt(j)
    case CutShort(e, _) =>
      || e.HeartbeatCutShort? || e.Registration? || e.Reregistration?
      || e.StaleScan? || e.ExpiryScan? || e.RequeueScan? || e.DispatchUndone?
    case _ => true
  }

  /** `run` leads from `s` to `s'` by admissible events. */
  ghost predicate LeadsTo(s: State, run: seq<Event>, s': State)
  {
    StateAt(s, run, |run|, LEASE_DURATION) == s' && AdmissibleRun(s, run, |run|, LEASE_DURATION)
  }

  lemma OneEvent(s: State, e: Event)
    requires Admissible(s, e)
    ensures LeadsTo(s, [e], Apply(s, e, LEASE_DURATION))
  {
    hide Apply, Admissible;
    assert StateAt(s, [e], 0, LEASE_DURATION) == s;
    assert AdmissibleRun(s, [e], 0, LEASE_DURATION);
  }

  lemma NoEvent(s: State)
    ensures LeadsTo(s, [], s)
  {
  }

  lemma {:induction false} BeginsAlike(s: State, a: seq<Event>, b: seq<Event>, n: nat)
    requires n <= |a|
    ensures StateAt(s, a + b, n, LEASE_DURATION) == StateAt(s, a, n, LEASE_DURATION)
    ensures AdmissibleRun(s, a + b, n, LEASE_DURATION) == AdmissibleRun(s, a, n, LEASE_DURATION)
  {
    hide Apply, Admissible;
    if n > 0 {
      BeginsAlike(s, a, b, n - 1);
    }
  }

  lemma {:induction false} GoesOnAlike(s: State, a: seq<Event>, b: seq<Event>, n: nat)
    requires n <= |b| && AdmissibleRun(s, a, |a|, LEASE_DURATION)
    ensures StateAt(s, a + b, |a| + n, LEASE_DURATION) == StateAt(StateAt(s, a, |a|, LEASE_DURATION), b, n, LEASE_DURATION)
    ensures AdmissibleRun(s, a + b, |a| + n, LEASE_DURATION)
            == AdmissibleRun(StateAt(s, a, |a|, LEASE_DURATION), b, n, LEASE_DURATION)
  {
    hide Apply, Admissible;
    if n == 0 {
      BeginsAlike(s, a, b, |a|);
    } else {
      GoesOnAlike(s, a, b, n - 1);
    }
  }

  /** Runs can be strung together. */
  lemma RunsCompose(s: State, a: seq<Event>, mid: State, b: seq<Event>, s': State)
    requires LeadsTo(s, a, mid) && LeadsTo(mid, b, s')
    ensures LeadsTo(s, a + b, s')
  {
    hide Apply, Admissible, StateAt, AdmissibleRun;
    GoesOnAlike(s, a, b, |b|);
    assert |a + b| == |a| + |b|;
  }

  lemma TwoEvents(s: State, e: Event, f: Event)
    requires Admissible(s, e) && Admissible(Apply(s, e, LEASE_DURATION), f)
    ensures LeadsTo(s, [e, f], Apply(Apply(s, e, LEASE_DURATION), f, LEASE_DURATION))
  {
    hide Apply, Admissible;
    var mid := Apply(s, e, LEASE_DURATION);
    OneEvent(s, e);
    OneEvent(mid, f);
    RunsCompose(s, [e], mid, [f], Apply(mid, f, LEASE_DURATION));
    assert [e] + [f] == [e, f];
  }

  /** What the scans of a monitor pass leave behind, one after the other. */
  lemma MonitorSteps(s: State, now: int) returns (a: State, b: State)
    ensures a == Apply(s, StaleScan(now, HEARTBEAT_TIMEOUT, |s.workers|), LEASE_DURATION)
    ensures b == Apply(a, ExpiryScan(now, |s.jobs|), LEASE_DURATION)
    ensures MonitorScan(s, now, HEARTBEAT_TIMEOUT).state
            == if Expire(MarkStale(s, now, HEARTBEAT_TIMEOUT).state, now).outcome.Thrown? then b
               else Apply(b, RequeueScan(|s.jobs|), LEASE_DURATION)
  {
    hide CheckFirst, ExpireFirst, RequeueFirst;
    a := MarkStale(s, now, HEARTBEAT_TIMEOUT).state;
    b := Expire(a, now).state;
  }

  lemma MonitorIsARun(s: State, now: int)
    ensures LeadsTo(s, MonitorEvents(s, now), MonitorScan(s, now, HEARTBEAT_TIMEOUT).state)
  {
    hide Apply, MonitorScan, LeadsTo, Expire, MarkStale;
    var e, f, g := StaleScan(now, HEARTBEAT_TIMEOUT, |s.workers|), ExpiryScan(now, |s.jobs|), RequeueScan(|s.jobs|);
    var a, b := MonitorSteps(s, now);
    TwoEvents(s, e, f);
    OneEvent(b, g);
    RunsCompose(s, [e, f], b, [g], Apply(b, g, LEASE_DURATION));
  }

  /** Every allowed call is a run of admissible coordinator events. */
  lemma CallIsARun(sv: Server, c: Call)
    requires Allowed(c)
    ensures LeadsTo(sv.state, EventsOf(sv, c), Serve(sv, c).state)
  {
    hide Dispatch, Start, Finish, Heartbeat, HeartbeatInPart, Recover, PlanFor;
    hide LeadsTo, Submit, Register, Reregister, MonitorScan, MonitorEvents;
    var events := EventsOf(sv, c);
    if c.MonitorPass? {
      MonitorIsARun(sv.state, c.now);
    } else if c.RegisterCall? {
      TwoEvents(sv.state, events[0], events[1]);
    } else if events == [] {
      NoEvent(sv.state);
    } else {
      OneEvent(sv.state, events[0]);
      assert events == [events[0]];
    }
  }

  // ---------- runs of calls ----------

  function ServerAt(sv: Server, calls: seq<Call>, n: nat): Server
    requires n <= |calls|
  {
    if n == 0 then sv else Serve(ServerAt(sv, calls, n - 1), calls[n - 1])
  }

  /** The events of the first `n` calls. */
  function EventsBefore(sv: Server, calls: seq<Call>, n: nat): seq<Event>
    requires n <= |calls|
  {
    if n == 0 then [] else EventsBefore(sv, calls, n - 1) + EventsOf(ServerAt(sv, calls, n - 1), calls[n - 1])
  }

  ghost predicate AllowedRun(calls: seq<Call>, n: nat)
    requires n <= |calls|
  {
    forall m :: 0 <= m < n ==> Allowed(calls[m])
  }

  /** A run of the server is a run of the coordinator; from a consistent state it stays consistent. */
  lemma {:induction false} ServerRunIsARun(sv: Server, calls: seq<Call>, n: nat)
    requires n <= |calls| && AllowedRun(calls, n)
    ensures LeadsTo(sv.state, EventsBefore(sv, calls, n), ServerAt(sv, calls, n).state)
    ensures Consistent(sv.state) ==> Consistent(ServerAt(sv, calls, n).state)
  {
    hide Serve, Allowed, EventsOf, Consistent, LeadsTo;
    if n == 0 {
      NoEvent(sv.state);
    } else {
      ServerRunIsARun(sv, calls, n - 1);
      var mid := ServerAt(sv, calls, n - 1);
      CallIsARun(mid, calls[n - 1]);
      RunsCompose(sv.state, EventsBefore(sv, calls, n - 1), mid.state, EventsOf(mid, calls[n - 1]),
                  ServerAt(sv, calls, n).state);
    }
    if Consistent(sv.state) {
      LeadsToConsistent(sv.state, EventsBefore(sv, calls, n), ServerAt(sv, calls, n).state);
    }
  }

  lemma LeadsToConsistent(s: State, run: seq<Event>, s': State)
    requires Consistent(s) && LeadsTo(s, run, s')
    ensures Consistent(s')
  {
    hide Consistent, StateAt, AdmissibleRun;
    RunsStayConsistent(s, run, |run|, LEASE_DURATION);
  }

  /** What clients see of one job over a run of the server: attempts and changes of state are bounded, outcomes final. */
  lemma ServerHistories(sv: Server, calls: seq<Call>, n: nat, i: nat)
    requires Consistent(sv.state) && n <= |calls| && AllowedRun(calls, n) && i < |sv.state.jobs|
    ensures var events := EventsBefore(sv, calls, n);
            && i < |ServerAt(sv, calls, n).state.jobs|
            && History(sv.state.jobs[i].job, ServerAt(sv, calls, n).state.jobs[i].job,
                       Attempted(sv.state, events, |events|, LEASE_DURATION, i),
                       Changes(sv.state, events, |events|, LEASE_DURATION, i))
            && (IsTerminal(sv.state.jobs[i].job.state) ==>
                  ServerAt(sv, calls, n).state.jobs[i].job == sv.state.jobs[i].job)
  {
    var events := EventsBefore(sv, calls, n);
    ServerRunIsARun(sv, calls, n);
    hide Apply, Serve, Consistent, ServerAt, EventsBefore, StateAt, Attempted, Changes, History;
    WorkIsAccountedFor(sv.state, events, |events|, LEASE_DURATION, i);
    if IsTerminal(sv.state.jobs[i].job.state) {
      OutcomesAreFinal(sv.state, events, |events|, LEASE_DURATION, i);
    }
  }

  /** A worker that always registered with enough is never over-committed, whatever the other workers reported. */
  lemma TruthfulWorkersAreNotOvercommitted(jobs: seq<JobRecord>, workers: seq<StoredWorker>, policy: PolicyState,
                                           calls: seq<Call>, n: nat, k: nat)
    requires UniqueJobs(jobs) && UniqueWorkers(workers) && n <= |calls| && AllowedRun(calls, n)
    requires k < |ServerAt(Server(Recover(jobs, workers), policy), calls, n).state.workers|
    requires var sv := Server(Recover(jobs, workers), policy);
             var events := EventsBefore(sv, calls, n);
             TruthfulRun(sv.state, events, |events|, LEASE_DURATION, ServerAt(sv, calls, n).state.workers[k].worker.id)
    ensures var s := ServerAt(Server(Recover(jobs, workers), policy), calls, n).state;
            AtMost(Load(s.jobs, s.workers[k].worker.id), Capacity(s.workers[k].worker))
  {
    hide Recover, ServerAt, EventsBefore, TruthfulRun, AllowedRun, Balanced, Consistent, AtMost;
    var sv := Server(Recover(jobs, workers), policy);
    ServerRunIsARun(sv, calls, n);
    var events := EventsBefore(sv, calls, n);
    EveryReachableStateIsSound(jobs, workers, events, |events|, LEASE_DURATION);
  }

  /**
   * A restart of a consistent server, wherever it stopped: every ledger balances, nothing is active or waits, workers
   * are what they reported, and the policy begins anew.
   */
  lemma RestartsBeginAnew(sv: Server, point: CrashPoint)
    requires Consistent(sv.state)
    ensures var sv' := Serve(sv, Restart(point));
            && Sound(sv'.state) && AtRest(sv'.state) && SameWorkers(sv.state.workers, sv'.state.workers)
            && sv'.policy == PolicyState(sv.policy.kind, 0)
  {
    hide Recover, Sound, AtRest, SameWorkers, Consistent, Inv, Covers, StoredWorkersAt, Unused, WorkerIds, UniqueJobs;
    hide UniqueWorkers, Apply;
    CrashPointDoesNotMatter(sv.state, point);
    ConsistentIsUnique(sv.state);
    RecoverEstablishes(sv.state.jobs, sv.state.workers);
  }

  // ---------- one lease per worker ----------

  /** No worker has two leased jobs. */
  ghost predicate OneLease(jobs: seq<JobRecord>)
  {
    forall i, j, id :: 0 <= i < j < |jobs| && LeasedTo(jobs[i], id) ==> !LeasedTo(jobs[j], id)
  }

  /** Every lease there is afterwards was there before, on the same record, to the same worker. */
  ghost predicate NoNewLease(jobs: seq<JobRecord>, jobs': seq<JobRecord>)
  {
    && |jobs| <= |jobs'|
    && (forall i, id :: 0 <= i < |jobs| && LeasedTo(jobs'[i], id) ==> LeasedTo(jobs[i], id))
    && (forall i :: |jobs| <= i < |jobs'| ==> !jobs'[i].job.state.Leased?)
  }

  lemma NoNewLeaseKeepsOne(jobs: seq<JobRecord>, jobs': seq<JobRecord>)
    requires OneLease(jobs) && NoNewLease(jobs, jobs')
    ensures OneLease(jobs')
  {
  }

  /** Only a dispatch leases. */
  lemma EventLeasesNothing(s: State, e: Event)
    requires !e.Dispatching?
    ensures NoNewLease(s.jobs, Apply(s, e, LEASE_DURATION).jobs)
  {
    hide ExpireOne, RequeueOne, Expired, Retried, RolledBack, Recover, AfterRelease;
    match e {
      case ExpiryScan(now, stop) => ExpiryLeasesNothing(s, Min(stop, |s.jobs|), now);
      case RequeueScan(stop) => RequeueLeasesNothing(s, Min(stop, |s.jobs|));
      case DispatchUndone(jobId) => RolledBackKeepsJobs(s, jobId);
      case Finishing(jobId, ok) => FinishLeasesNothing(s, jobId, if ok then Succeeded else Failed);
      case CrashAndRestart(point) =>
        CrashPointDoesNotMatter(s, point);
        RestartLeasesNothing(s.jobs, s.workers);
      case _ =>
    }
  }

  lemma ExpiryLeasesNothing(s: State, n: nat, now: int)
    requires n <= |s.jobs|
    ensures NoNewLease(s.jobs, ExpireFirst(s, n, now).state.jobs)
  {
    ExpireFirstIsPointwise(s, n, now);
    hide ExpireFirst, SameWorkers;
  }

  lemma RequeueLeasesNothing(s: State, n: nat)
    requires n <= |s.jobs|
    ensures NoNewLease(s.jobs, RequeueFirst(s, n).state.jobs)
  {
    RequeueFirstIsPointwise(s, n);
    hide RequeueFirst;
  }

  lemma FinishLeasesNothing(s: State, jobId: Id, final: JobState)
    requires final.Succeeded? || final.Failed?
    ensures NoNewLease(s.jobs, Finish(s, jobId, final).state.jobs)
  {
    hide AfterRelease;
  }

  lemma RestartLeasesNothing(jobs: seq<JobRecord>, workers: seq<StoredWorker>)
    ensures NoNewLease(jobs, Recover(jobs, workers).jobs)
  {
    forall i | 0 <= i < |jobs|
      ensures !Recover(jobs, workers).jobs[i].job.state.Leased?
    {
      RecoveredIsAtRest(jobs[i]);
    }
  }

  lemma {:induction false} RunLeasesNothing(s: State, run: seq<Event>, n: nat)
    requires n <= |run| && forall m :: 0 <= m < n ==> !run[m].Dispatching?
    requires OneLease(s.jobs)
    ensures OneLease(StateAt(s, run, n, LEASE_DURATION).jobs)
  {
    hide Apply, OneLease, NoNewLease;
    if n > 0 {
      RunLeasesNothing(s, run, n - 1);
      var mid := StateAt(s, run, n - 1, LEASE_DURATION);
      EventLeasesNothing(mid, run[n - 1]);
      NoNewLeaseKeepsOne(mid.jobs, Apply(mid, run[n - 1], LEASE_DURATION).jobs);
    }
  }

  lemma AcquireKeepsOneLease(sv: Server, id: Id, now: int, duration: int)
    requires Consistent(sv.state) && OneLease(sv.state.jobs)
    ensures OneLease(AcquireJob(sv, id, now, duration).server.state.jobs)
  {
    var s := sv.state;
    var k := FindWorker(s.workers, id);
    QueueIdsDiffer(s);
    hide Consistent, OneLease, Dispatch, PlanFor, RolledBack, RunsFirst, Eligible;
    if k < |s.workers| && LeasedJob(s.jobs, id).None? {
      var plan := PlanFor(sv.policy, s.queue, [s.workers[k].worker]);
      if plan.decision.Some? {
        var j, w := PlannedPair(sv.policy, s.queue, [s.workers[k].worker]);
        DispatchKeepsOneLease(s, j.id, w.id, now, duration);
      }
    }
  }

  lemma DispatchKeepsOneLease(s: State, jobId: Id, workerId: Id, now: int, duration: int)
    requires OneLease(s.jobs) && LeasedJob(s.jobs, workerId).None?
    ensures OneLease(Dispatch(s, jobId, workerId, now, duration).state.jobs)
  {
    hide OneLease, RolledBack, Leasing, AfterReserve;
    var e := Dispatch(s, jobId, workerId, now, duration);
    if e.outcome.Done? {
      DispatchLeasesOne(s, jobId, workerId, now, duration);
      OneMoreLease(s.jobs, e.state.jobs, FindJob(s.jobs, jobId), workerId);
    } else {
      RolledBackKeepsJobs(s, jobId);
    }
  }

  lemma OneMoreLease(jobs: seq<JobRecord>, jobs': seq<JobRecord>, i: nat, id: Id)
    requires OneLease(jobs) && |jobs| == |jobs'| && i < |jobs|
    requires forall m :: 0 <= m < |jobs| && m != i ==> jobs'[m] == jobs[m]
    requires jobs'[i].worker == Some(id) && FindLeased(jobs, id) == |jobs|
    ensures OneLease(jobs')
  {
  }

  lemma CallKeepsOneLease(sv: Server, c: Call)
    requires Consistent(sv.state) && Allowed(c) && OneLease(sv.state.jobs)
    ensures OneLease(Serve(sv, c).state.jobs)
  {
    if c.AcquireCall? {
      AcquireKeepsOneLease(sv, c.workerId, c.now, LEASE_DURATION);
    } else {
      CallIsARun(sv, c);
      OnlyAcquireDispatches(sv, c);
      hide Consistent, OneLease, Serve, EventsOf;
      RunLeasesNothing(sv.state, EventsOf(sv, c), |EventsOf(sv, c)|);
    }
  }

  lemma OnlyAcquireDispatches(sv: Server, c: Call)
    requires Allowed(c) && !c.AcquireCall?
    ensures forall m :: 0 <= m < |EventsOf(sv, c)| ==> !EventsOf(sv, c)[m].Dispatching?
  {
    hide Expire, MarkStale, AssignedTo;
  }

  /** Over every run of calls, monitor passes, rejected writes and restarts, no worker has two leased jobs. */
  lemma {:induction false} ServerKeepsOneLease(sv: Server, calls: seq<Call>, n: nat)
    requires Consistent(sv.state) && OneLease(sv.state.jobs) && n <= |calls| && AllowedRun(calls, n)
    ensures OneLease(ServerAt(sv, calls, n).state.jobs)
  {
    hide Serve, Consistent, OneLease, Allowed, LeadsTo, EventsBefore;
    if n > 0 {
      ServerKeepsOneLease(sv, calls, n - 1);
      ServerRunIsARun(sv, calls, n - 1);
      CallKeepsOneLease(ServerAt(sv, calls, n - 1), calls[n - 1]);
    }
  }

  // ---------- leases and heartbeats ----------

  /** No stored heartbeat is later than `t`. */
  ghost predicate StampedBy(s: State, t: int)
  {
    forall k :: 0 <= k < |s.workers| ==> s.workers[k].heartbeat <= t
  }

  predicate Stamps(e: Event, t: int)
  {
    match e
    case Registration(_, now) => now <= t
    case WorkerHeartbeat(_, now) => now <= t
    case HeartbeatCutShort(_, now, _) => now <= t
    case _ => true
  }

  lemma EventKeepsStamps(s: State, e: Event, t: int)
    requires StampedBy(s, t) && Stamps(e, t)
    ensures StampedBy(Apply(s, e, LEASE_DURATION), t)
  {
    hide Expired, ExpireOne, AfterRelease, AfterReserve, RolledBack, Leasing, Submit;
    match e {
      case Submission(j) => SubmitKeepsWorkers(s, j);
      case ExpiryScan(now, stop) => ExpireFirstIsPointwise(s, Min(stop, |s.jobs|), now);
      case RequeueScan(stop) => RequeueFirstIsPointwise(s, Min(stop, |s.jobs|));
      case CrashAndRestart(point) => CrashPointDoesNotMatter(s, point);
      case DispatchUndone(jobId) => RollbackKeepsWorkers(s, jobId);
      case Dispatching(jobId, workerId, now) => RollbackKeepsWorkers(s, jobId);
      case _ =>
    }
  }

  lemma RollbackKeepsWorkers(s: State, jobId: Id)
    ensures RolledBack(s, jobId).workers == s.workers
  {
  }

  lemma {:induction false} RunKeepsStamps(s: State, run: seq<Event>, n: nat, t: int)
    requires StampedBy(s, t) && n <= |run| && forall m :: 0 <= m < n ==> Stamps(run[m], t)
    ensures StampedBy(StateAt(s, run, n, LEASE_DURATION), t)
  {
    hide Apply, StampedBy, Stamps;
    if n > 0 {
      RunKeepsStamps(s, run, n - 1, t);
      EventKeepsStamps(StateAt(s, run, n - 1, LEASE_DURATION), run[n - 1], t);
    }
  }

  /** The clock reading that a call stores as a heartbeat, if any, is at most `t`. */
  predicate StampsCall(c: Call, t: int)
  {
    match c
    case RegisterCall(_, now) => now <= t
    case HeartbeatCall(_, now) => now <= t
    case CutShort(e, _) => Stamps(e, t)
    case _ => true
  }

  lemma EventsStampAsTheCall(sv: Server, c: Call, t: int)
    requires StampsCall(c, t)
    ensures forall m :: 0 <= m < |EventsOf(sv, c)| ==> Stamps(EventsOf(sv, c)[m], t)
  {
    hide PlanFor, LeasedJob, AssignedTo, Expire, MarkStale;
  }

  lemma CallKeepsStamps(sv: Server, c: Call, t: int)
    requires Allowed(c) && StampedBy(sv.state, t) && StampsCall(c, t)
    ensures StampedBy(Serve(sv, c).state, t)
  {
    hide Serve, EventsOf, StampedBy, Stamps;
    CallIsARun(sv, c);
    EventsStampAsTheCall(sv, c, t);
    RunKeepsStamps(sv.state, EventsOf(sv, c), |EventsOf(sv, c)|, t);
  }

  lemma {:induction false} CallsKeepStamps(sv: Server, calls: seq<Call>, n: nat, t: int)
    requires n <= |calls| && AllowedRun(calls, n)
    requires StampedBy(sv.state, t) && forall m :: 0 <= m < n ==> StampsCall(calls[m], t)
    ensures StampedBy(ServerAt(sv, calls, n).state, t)
  {
    hide Serve, Allowed, StampedBy, StampsCall, LeadsTo, EventsBefore;
    if n > 0 {
      CallsKeepStamps(sv, calls, n - 1, t);
      CallKeepsStamps(ServerAt(sv, calls, n - 1), calls[n - 1], t);
    }
  }

  /**
   * A call that leases or renews reads its clock no earlier than every heartbeat stored before it, and a heartbeat
   * that a rejected write cut short after it was stored has no lease left to renew.
   */
  ghost predicate ClocksFollow(sv: Server, calls: seq<Call>, n: nat)
    requires n <= |calls|
  {
    && (forall m :: 0 <= m < n && (calls[m].AcquireCall? || calls[m].StartCall?) ==>
          StampedBy(sv.state, calls[m].now) && forall l :: 0 <= l < m ==> StampsCall(calls[l], calls[m].now))
    && (forall m :: 0 <= m < n && calls[m].CutShort? ==>
          ClockAdvances(ServerAt(sv, calls, m).state, calls[m].event, LEASE_DURATION))
  }

  lemma CallKeepsTimed(sv: Server, c: Call)
    requires Consistent(sv.state) && Allowed(c) && Timed(sv.state, LEASE_DURATION)
    requires c.AcquireCall? || c.StartCall? ==> StampedBy(sv.state, c.now)
    requires c.CutShort? ==> ClockAdvances(sv.state, c.event, LEASE_DURATION)
    ensures Timed(Serve(sv, c).state, LEASE_DURATION)
  {
    var events := EventsOf(sv, c);
    CallIsARun(sv, c);
    EventsAdvance(sv, c);
    hide Consistent, Timed, Apply, Serve, EventsOf, ClockAdvances;
    RunsKeepTimed(sv.state, events, |events|, LEASE_DURATION);
  }

  lemma EventsAdvance(sv: Server, c: Call)
    requires Allowed(c)
    requires c.AcquireCall? || c.StartCall? ==> StampedBy(sv.state, c.now)
    requires c.CutShort? ==> ClockAdvances(sv.state, c.event, LEASE_DURATION)
    ensures var events := EventsOf(sv, c);
            forall m :: 0 <= m < |events| ==>
              ClockAdvances(StateAt(sv.state, events, m, LEASE_DURATION), events[m], LEASE_DURATION)
  {
    hide PlanFor, LeasedJob, AssignedTo, Expire, MarkStale, Apply, LongEnough;
    assert StateAt(sv.state, EventsOf(sv, c), 0, LEASE_DURATION) == sv.state;
  }

  /** Over every run of the server whose clocks follow, leases outlive their holders' heartbeats. */
  lemma {:induction false} LeasesOutliveHeartbeats(sv: Server, calls: seq<Call>, n: nat)
    requires Consistent(sv.state) && Timed(sv.state, LEASE_DURATION) && n <= |calls|
    requires AllowedRun(calls, n) && ClocksFollow(sv, calls, n)
    ensures Timed(ServerAt(sv, calls, n).state, LEASE_DURATION)
  {
    hide Consistent, Timed, Serve, StampedBy, StampsCall, ClockAdvances, Allowed, LeadsTo, EventsBefore;
    if n > 0 {
      LeasesOutliveHeartbeats(sv, calls, n - 1);
      ServerRunIsARun(sv, calls, n - 1);
      if calls[n - 1].AcquireCall? || calls[n - 1].StartCall? {
        CallsKeepStamps(sv, calls, n - 1, calls[n - 1].now);
      }
      CallKeepsTimed(ServerAt(sv, calls, n - 1), calls[n - 1]);
    }
  }

  // ---------- silence ----------

  predicate AnnouncesItself(c: Call, id: Id)
  {
    match c
    case HeartbeatCall(w, _) => w == id
    case RegisterCall(w, _) => w.id == id
    case CutShort(e, _) => Announces(e, id)
    case _ => false
  }

  /** A worker that is not online acquires nothing new: it is told of the lease it has, if any. */
  lemma SilentWorkersAcquireNothing(sv: Server, id: Id, now: int)
    requires Consistent(sv.state) && Silent(sv.state, id)
    ensures var reply := AcquireJob(sv, id, now, LEASE_DURATION);
            reply.server.state == sv.state && reply.outcome.Done? && reply.job == LeasedJob(sv.state.jobs, id)
  {
    QueueIdsDiffer(sv.state);
    NoPlanForSilentWorkers(sv.policy, sv.state.queue, sv.state.workers[FindWorker(sv.state.workers, id)].worker);
    hide Consistent, LeasedJob, Dispatch, PlanFor;
  }

  lemma NoPlanForSilentWorkers(p: PolicyState, queue: seq<Job>, w: Worker)
    requires DistinctIds(queue) && !w.state.Online?
    ensures PlanFor(p, queue, [w]).decision.None?
  {
    PlanSendsTheFirstRunnableJob(p, queue, [w]);
    hide PlanFor, RunsBefore, Sends;
    assert forall j :: !Runnable(j, [w]);
  }

  /** A silent worker stays so, whatever else is called, until it announces itself. */
  lemma {:induction false} SilentUntilAnnounced(sv: Server, calls: seq<Call>, n: nat, id: Id)
    requires n <= |calls| && AllowedRun(calls, n) && Silent(sv.state, id)
    requires forall m :: 0 <= m < n ==> !AnnouncesItself(calls[m], id)
    ensures Silent(ServerAt(sv, calls, n).state, id)
  {
    hide Serve, Allowed, Silent, AnnouncesItself, LeadsTo, EventsBefore;
    if n > 0 {
      SilentUntilAnnounced(sv, calls, n - 1, id);
      CallKeepsSilent(ServerAt(sv, calls, n - 1), calls[n - 1], id);
    }
  }

  lemma EventsAnnounceAsTheCall(sv: Server, c: Call, id: Id)
    requires !AnnouncesItself(c, id)
    ensures forall m :: 0 <= m < |EventsOf(sv, c)| ==> !Announces(EventsOf(sv, c)[m], id)
  {
    hide PlanFor, LeasedJob, AssignedTo, Expire, MarkStale;
  }

  lemma CallKeepsSilent(sv: Server, c: Call, id: Id)
    requires Allowed(c) && Silent(sv.state, id) && !AnnouncesItself(c, id)
    ensures Silent(Serve(sv, c).state, id)
  {
    hide Serve, Silent, EventsOf, Announces;
    CallIsARun(sv, c);
    EventsAnnounceAsTheCall(sv, c, id);
    StaysSilent(sv.state, EventsOf(sv, c), |EventsOf(sv, c)|, LEASE_DURATION, id);
  }

  lemma AtRestIsTimed(s: State)
    requires AtRest(s)
    ensures Timed(s, LEASE_DURATION)
  {
  }

  /**
   * From a restart on, whatever stores it found and whatever was called since: a monitor pass with the production
   * timeouts, completed or not, leaves the holder of every lease that ran out not online.
   */
  lemma ExpiredHoldersAreSilenced(jobs: seq<JobRecord>, workers: seq<StoredWorker>, policy: PolicyState,
                                  calls: seq<Call>, n: nat, now: int, i: nat)
    requires UniqueJobs(jobs) && UniqueWorkers(workers) && n <= |calls| && AllowedRun(calls, n)
    requires ClocksFollow(Server(Recover(jobs, workers), policy), calls, n)
    requires var s := ServerAt(Server(Recover(jobs, workers), policy), calls, n).state;
             i < |s.jobs| && IsActive(s.jobs[i].job.state) && IsDue(s.jobs[i], now)
    ensures var sv := ServerAt(Server(Recover(jobs, workers), policy), calls, n);
            && sv.state.jobs[i].worker.Some?
            && Silent(Serve(sv, MonitorPass(now)).state, sv.state.jobs[i].worker.value)
  {
    hide Consistent, Recover, AllowedRun, ClocksFollow, MonitorScan, LeadsTo, Timed, AtRest, IsDue, Silent;
    var s := Recover(jobs, workers);
    var sv := Server(s, policy);
    RecoverEstablishes(jobs, workers);
    SoundIsConsistent(s);
    AtRestIsTimed(s);
    LeasesOutliveHeartbeats(sv, calls, n);
    ServerRunIsARun(sv, calls, n);
    ExpiredHolderIsNotOnline(ServerAt(sv, calls, n).state, now, HEARTBEAT_TIMEOUT, LEASE_DURATION, i);
  }

  /** No call gives the job back to a silent worker that does not announce itself. */
  lemma {:induction false} StaysAwayFromServer(sv: Server, calls: seq<Call>, n: nat, i: nat, id: Id)
    requires Consistent(sv.state) && Silent(sv.state, id) && n <= |calls| && AllowedRun(calls, n)
    requires forall m :: 0 <= m < n ==> !AnnouncesItself(calls[m], id)
    requires i < |sv.state.jobs| && !HeldBy(sv.state.jobs[i], id)
    ensures i < |ServerAt(sv, calls, n).state.jobs| && !HeldBy(ServerAt(sv, calls, n).state.jobs[i], id)
  {
    hide Consistent, Serve, Allowed, Silent, AnnouncesItself, HeldBy, LeadsTo, EventsBefore;
    if n > 0 {
      StaysAwayFromServer(sv, calls, n - 1, i, id);
      SilentUntilAnnounced(sv, calls, n - 1, id);
      ServerRunIsARun(sv, calls, n - 1);
      CallKeepsAway(ServerAt(sv, calls, n - 1), calls[n - 1], i, id);
    }
  }

  lemma CallKeepsAway(sv: Server, c: Call, i: nat, id: Id)
    requires Consistent(sv.state) && Silent(sv.state, id) && Allowed(c) && !AnnouncesItself(c, id)
    requires i < |sv.state.jobs| && !HeldBy(sv.state.jobs[i], id)
    ensures i < |Serve(sv, c).state.jobs| && !HeldBy(Serve(sv, c).state.jobs[i], id)
  {
    hide Consistent, Serve, Allowed, Silent, AnnouncesItself, EventsOf, HeldBy, Announces;
    CallIsARun(sv, c);
    EventsAnnounceAsTheCall(sv, c, id);
    StaysAway(sv.state, EventsOf(sv, c), |EventsOf(sv, c)|, LEASE_DURATION, i, id);
  }

  /**
   * A completed pass takes an expired job from its holder, and in no continuation does the holder get that job back
   * before it announces itself.
   */
  lemma ExpiredJobsStayAway(sv: Server, now: int, calls: seq<Call>, n: nat, i: nat)
    requires Consistent(sv.state) && Timed(sv.state, LEASE_DURATION)
    requires i < |sv.state.jobs| && IsActive(sv.state.jobs[i].job.state) && IsDue(sv.state.jobs[i], now)
    requires MonitorScan(sv.state, now, HEARTBEAT_TIMEOUT).outcome.Done?
    requires n <= |calls| && AllowedRun(calls, n) && sv.state.jobs[i].worker.Some?
    requires forall m :: 0 <= m < n ==> !AnnouncesItself(calls[m], sv.state.jobs[i].worker.value)
    ensures var s' := ServerAt(Serve(sv, MonitorPass(now)), calls, n).state;
            i < |s'.jobs| && !HeldBy(s'.jobs[i], sv.state.jobs[i].worker.value)
  {
    hide Consistent, Timed, MonitorScan, Silent, ServerAt, AnnouncesItself, AllowedRun, Preserves, AllAccept, Sound;
    ExpiredHolderIsNotOnline(sv.state, now, HEARTBEAT_TIMEOUT, LEASE_DURATION, i);
    MonitorSettlesEveryDueJob(sv.state, now, HEARTBEAT_TIMEOUT);
    PreservesSoundness(sv.state, MonitorScan(sv.state, now, HEARTBEAT_TIMEOUT).state);
    assert SettledBy(sv.state.jobs[i], MonitorScan(sv.state, now, HEARTBEAT_TIMEOUT).state.jobs[i], now);
    StaysAwayFromServer(Serve(sv, MonitorPass(now)), calls, n, i, sv.state.jobs[i].worker.value);
  }

  // ---------- reclaim ----------

  /** If the worker makes the call, or it gives it time, its clock reads `t` or less. */
  predicate CalledBy(c: Call, id: Id, t: int)
  {
    match c
    case RegisterCall(w, now) => w.id == id ==> now <= t
    case HeartbeatCall(w, now) => w == id ==> now <= t
    case AcquireCall(w, now) => w == id ==> now <= t
    case StartCall(w, _, now) => w == id ==> now <= t
    case CutShort(e, _) => e.HeartbeatCutShort? && e.workerId == id ==> e.now <= t
    case _ => true
  }

  lemma EventsGrantAsTheCall(sv: Server, c: Call, id: Id, t: int)
    requires Consistent(sv.state) && Allowed(c) && CalledBy(c, id, t)
    ensures var events := EventsOf(sv, c);
            forall m :: 0 <= m < |events| ==> GrantsAt(StateAt(sv.state, events, m, LEASE_DURATION), events[m], id, t)
  {
    assert StateAt(sv.state, EventsOf(sv, c), 0, LEASE_DURATION) == sv.state;
    if c.AcquireCall? {
      DispatchesToTheCaller(sv, c.workerId, c.now);
    }
    hide Consistent, PlanFor, LeasedJob, Expire, MarkStale, Apply;
  }

  lemma DispatchesToTheCaller(sv: Server, id: Id, now: int)
    requires Consistent(sv.state)
    ensures DispatchEvents(sv, id, now) == []
            || exists jobId :: DispatchEvents(sv, id, now) == [Dispatching(jobId, id, now)]
  {
    var s, k := sv.state, FindWorker(sv.state.workers, id);
    QueueIdsDiffer(s);
    hide Consistent, PlanFor, LeasedJob, RunsFirst;
    if DispatchEvents(sv, id, now) != [] {
      var j, w := PlannedPair(sv.policy, s.queue, [s.workers[k].worker]);
      assert DispatchEvents(sv, id, now) == [Dispatching(j.id, id, now)];
    }
  }

  /** No lease of the worker lasts longer than a full duration beyond its last call. */
  lemma {:induction false} CallsGrantNoMore(sv: Server, calls: seq<Call>, n: nat, id: Id, t: int)
    requires Consistent(sv.state) && n <= |calls| && AllowedRun(calls, n)
    requires HoldsUntil(sv.state, id, t + LEASE_DURATION) && forall m :: 0 <= m < n ==> CalledBy(calls[m], id, t)
    ensures HoldsUntil(ServerAt(sv, calls, n).state, id, t + LEASE_DURATION)
  {
    hide Consistent, Serve, Allowed, HoldsUntil, CalledBy, LeadsTo, EventsBefore;
    if n > 0 {
      CallsGrantNoMore(sv, calls, n - 1, id, t);
      ServerRunIsARun(sv, calls, n - 1);
      CallGrantsNoMore(ServerAt(sv, calls, n - 1), calls[n - 1], id, t);
    }
  }

  lemma CallGrantsNoMore(sv: Server, c: Call, id: Id, t: int)
    requires Consistent(sv.state) && Allowed(c) && CalledBy(c, id, t) && HoldsUntil(sv.state, id, t + LEASE_DURATION)
    ensures HoldsUntil(Serve(sv, c).state, id, t + LEASE_DURATION)
  {
    hide Consistent, Serve, Allowed, HoldsUntil, CalledBy, EventsOf, GrantsAt;
    CallIsARun(sv, c);
    EventsGrantAsTheCall(sv, c, id, t);
    RunsGrantNoMore(sv.state, EventsOf(sv, c), |EventsOf(sv, c)|, LEASE_DURATION, id, t);
  }

  /**
   * From a restart on: once a worker made its last call at `t`, every completed pass 15 s later or more leaves it
   * without a single active job.
   */
  lemma LostWorkersAreReclaimed(jobs: seq<JobRecord>, workers: seq<StoredWorker>, policy: PolicyState,
                                calls: seq<Call>, n: nat, id: Id, t: int, now: int, i: nat)
    requires UniqueJobs(jobs) && UniqueWorkers(workers) && n <= |calls| && AllowedRun(calls, n)
    requires (forall m :: 0 <= m < n ==> CalledBy(calls[m], id, t)) && now >= t + 15_000
    requires var s := ServerAt(Server(Recover(jobs, workers), policy), calls, n).state;
             && MonitorScan(s, now, HEARTBEAT_TIMEOUT).outcome.Done?
             && i < |MonitorScan(s, now, HEARTBEAT_TIMEOUT).state.jobs|
    ensures var sv := ServerAt(Server(Recover(jobs, workers), policy), calls, n);
            i < |Serve(sv, MonitorPass(now)).state.jobs| && !HeldBy(Serve(sv, MonitorPass(now)).state.jobs[i], id)
  {
    hide Consistent, Recover, AllowedRun, MonitorScan, LeadsTo, HoldsUntil, ServerAt, CalledBy, HeldBy, AtRest;
    var sv := Server(Recover(jobs, workers), policy);
    RecoverEstablishes(jobs, workers);
    SoundIsConsistent(sv.state);
    RestHoldsNothing(sv.state, id, t + LEASE_DURATION);
    CallsGrantNoMore(sv, calls, n, id, t);
    ServerRunIsARun(sv, calls, n);
    HoldsNoLonger(ServerAt(sv, calls, n).state, id, t + LEASE_DURATION, now);
    PassReclaims(ServerAt(sv, calls, n).state, now, HEARTBEAT_TIMEOUT, id, i);
  }

  lemma RestHoldsNothing(s: State, id: Id, t: int)
    requires AtRest(s)
    ensures HoldsUntil(s, id, t)
  {
  }

  lemma HoldsNoLonger(s: State, id: Id, t: int, now: int)
    requires HoldsUntil(s, id, t) && t <= now
    ensures HoldsUntil(s, id, now)
  {
  }
}

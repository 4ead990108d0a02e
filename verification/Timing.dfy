/** Leases and heartbeats: a lease cannot run out while its holder still counts as alive. */
module Timing {
  import opened Errors
  import opened JobStates
  import opened Jobs
  import opened Workers
  import opened Ledger
  import opened Store
  import opened Protocol
  import opened Conservation
  import opened Preservation
  import opened Recovery
  import opened Scans
  import opened Runs

  /** The lease of an active record lasts a full duration beyond its holder's last heartbeat. */
  predicate OutlivesHeartbeat(r: JobRecord, workers: seq<StoredWorker>, duration: int)
  {
    IsActive(r.job.state) && r.worker.Some? && r.lease.Some? ==>
      var k := FindWorker(workers, r.worker.value);
      k < |workers| ==> r.lease.value >= workers[k].heartbeat + duration
  }

  ghost predicate Timed(s: State, duration: int)
  {
    forall i :: 0 <= i < |s.jobs| ==> OutlivesHeartbeat(s.jobs[i], s.workers, duration)
  }

  predicate NotBefore(now: int, workers: seq<StoredWorker>, id: Id)
  {
    var k := FindWorker(workers, id);
    k < |workers| ==> now >= workers[k].heartbeat
  }

  /** The leases that a heartbeat cut short after `n` records did not come to are long enough already. */
  predicate LongEnough(jobs: seq<JobRecord>, n: nat, id: Id, lease: int)
  {
    forall i :: n <= i < |jobs| && HeldBy(jobs[i], id) && jobs[i].lease.Some? ==> jobs[i].lease.value >= lease
  }

  /**
   * Dispatch and start read a clock no earlier than the worker's stored heartbeat, and a heartbeat that is stored has
   * its leases renewed.
   */
  predicate ClockAdvances(s: State, e: Event, duration: int)
  {
    match e
    case Dispatching(jobId, workerId, now) => NotBefore(now, s.workers, workerId)
    case Starting(jobId, now) =>
      var i := FindJob(s.jobs, jobId);
      i < |s.jobs| && s.jobs[i].worker.Some? ==> NotBefore(now, s.workers, s.jobs[i].worker.value)
    case HeartbeatCutShort(id, now, renewed) =>
      FindWorker(s.workers, id) < |s.workers| && renewed.Some? ==> LongEnough(s.jobs, renewed.value, id, now + duration)
    case _ => true
  }

  /** The same heartbeats under the same ids, possibly with more workers after them. */
  ghost predicate SameHeartbeats(a: seq<StoredWorker>, b: seq<StoredWorker>)
  {
    && |a| <= |b|
    && forall k :: 0 <= k < |a| ==> a[k].worker.id == b[k].worker.id && a[k].heartbeat == b[k].heartbeat
  }

  lemma SameHeartbeatFound(a: seq<StoredWorker>, b: seq<StoredWorker>, id: Id)
    requires SameHeartbeats(a, b) && FindWorker(a, id) < |a|
    ensures FindWorker(b, id) == FindWorker(a, id)
  {
    var k := FindWorker(a, id);
    assert b[k].worker.id == id;
    var m := FindWorker(b, id);
    assert a[m].worker.id == id;
  }

  /** A record whose lease was not shortened and whose holder did not change stays timed. */
  lemma StaysTimed(r: JobRecord, r': JobRecord, a: seq<StoredWorker>, b: seq<StoredWorker>, duration: int)
    requires SameHeartbeats(a, b) && OutlivesHeartbeat(r, a, duration)
    requires IsActive(r'.job.state) ==>
               && IsActive(r.job.state) && r'.worker == r.worker && r.worker.Some?
               && FindWorker(a, r.worker.value) < |a|
               && r'.lease == r.lease
    ensures OutlivesHeartbeat(r', b, duration)
  {
    if IsActive(r'.job.state) {
      SameHeartbeatFound(a, b, r.worker.value);
    }
  }

  /** What events other than heartbeats, dispatches, starts and restarts do to leases and heartbeats. */
  ghost predicate QuietStep(s: State, s': State)
  {
    && SameHeartbeats(s.workers, s'.workers)
    && |s'.jobs| >= |s.jobs|
    && (forall i :: 0 <= i < |s.jobs| ==> QuietMove(s.jobs[i], s'.jobs[i]))
    && (forall i :: |s.jobs| <= i < |s'.jobs| ==> !IsActive(s'.jobs[i].job.state))
  }

  predicate QuietMove(r: JobRecord, r': JobRecord)
  {
    IsActive(r'.job.state) ==> IsActive(r.job.state) && r'.worker == r.worker && r'.lease == r.lease
  }

  lemma QuietStepKeepsTimed(s: State, s': State, duration: int)
    requires Consistent(s) && Timed(s, duration) && QuietStep(s, s')
    ensures Timed(s', duration)
  {
    forall i | 0 <= i < |s'.jobs|
      ensures OutlivesHeartbeat(s'.jobs[i], s'.workers, duration)
    {
      if i < |s.jobs| {
        assert WellShaped(s.jobs[i]) && QuietMove(s.jobs[i], s'.jobs[i]);
        StaysTimed(s.jobs[i], s'.jobs[i], s.workers, s'.workers, duration);
      }
    }
  }

  lemma SameWorkersSameHeartbeats(a: seq<StoredWorker>, b: seq<StoredWorker>)
    requires SameWorkers(a, b)
    ensures SameHeartbeats(a, b)
  {
    forall k | 0 <= k < |a|
      ensures a[k].worker.id == b[k].worker.id
    {
      assert SameCapacity(a[k].worker, b[k].worker);
    }
  }

  lemma FinishIsQuiet(s: State, jobId: Id, final: JobState)
    requires final.Succeeded? || final.Failed?
    ensures QuietStep(s, Finish(s, jobId, final).state)
  {
  }

  lemma RegistrationsAreQuiet(s: State, w: Worker, now: int)
    ensures QuietStep(s, Register(s, w, now).state)
    ensures QuietStep(s, Reregister(s, w).state)
  {
  }

  lemma SubmissionIsQuiet(s: State, j: Job)
    ensures QuietStep(s, Submit(s, j).state)
  {
  }

  lemma StaleScanIsQuiet(s: State, n: nat, now: int, timeout: int)
    requires n <= |s.workers|
    ensures QuietStep(s, s.(workers := CheckFirst(s.workers, n, now, timeout)))
  {
  }

  lemma NoStepIsQuiet(s: State, queue: seq<Job>)
    ensures QuietStep(s, s.(queue := queue))
  {
  }

  lemma ExpiryIsQuiet(s: State, n: nat, now: int)
    requires n <= |s.jobs|
    ensures QuietStep(s, ExpireFirst(s, n, now).state)
  {
    ExpireFirstIsPointwise(s, n, now);
    SameWorkersSameHeartbeats(s.workers, ExpireFirst(s, n, now).state.workers);
    hide ExpireFirst, SameHeartbeats;
  }

  lemma RequeueIsQuiet(s: State, n: nat)
    requires n <= |s.jobs|
    ensures QuietStep(s, RequeueFirst(s, n).state)
  {
    RequeueFirstIsPointwise(s, n);
    hide RequeueFirst;
  }

  lemma RollbackIsQuiet(s: State, jobId: Id)
    ensures QuietStep(s, RolledBack(s, jobId))
  {
  }

  predicate IsQuiet(e: Event)
  {
    !e.WorkerHeartbeat? && !e.HeartbeatCutShort? && !e.Dispatching? && !e.Starting? && !e.CrashAndRestart?
  }

  lemma QuietEvents(s: State, e: Event, duration: int)
    requires IsQuiet(e)
    ensures QuietStep(s, Apply(s, e, duration))
  {
    NoStepIsQuiet(s, s.queue);
    hide QuietStep, Finish, ExpireFirst, RequeueFirst, RolledBack, CheckFirst, Submit, Register, Reregister;
    match e {
      case Submission(j) => SubmissionIsQuiet(s, j);
      case Registration(w, now) => RegistrationsAreQuiet(s, w, now);
      case Reregistration(w) => RegistrationsAreQuiet(s, w, 0);
      case StaleScan(now, timeout, stop) => StaleScanIsQuiet(s, Min(stop, |s.workers|), now, timeout);
      case DispatchUndone(jobId) => RollbackIsQuiet(s, jobId);
      case ExpiryScan(now, stop) => ExpiryIsQuiet(s, Min(stop, |s.jobs|), now);
      case RequeueScan(stop) => RequeueIsQuiet(s, Min(stop, |s.jobs|));
      case Finishing(jobId, ok) => FinishIsQuiet(s, jobId, if ok then Succeeded else Failed);
    }
  }

  lemma HeartbeatKeepsTimed(s: State, id: Id, time: int, duration: int)
    requires Consistent(s) && Timed(s, duration)
    ensures Timed(Heartbeat(s, id, time, duration).state, duration)
  {
    var s' := Heartbeat(s, id, time, duration).state;
    forall i | 0 <= i < |s'.jobs|
      ensures OutlivesHeartbeat(s'.jobs[i], s'.workers, duration)
    {
      assert WellShaped(s.jobs[i]) && OutlivesHeartbeat(s.jobs[i], s.workers, duration);
      if IsActive(s.jobs[i].job.state) {
        FindsSameWorker(s.workers, s'.workers, s.jobs[i].worker.value);
      }
    }
  }

  /** A heartbeat cut short keeps leases ahead exactly when those it did not come to are long enough already. */
  lemma CutShortKeepsTimed(s: State, id: Id, time: int, duration: int, renewed: Option<nat>)
    requires Consistent(s) && Timed(s, duration) && FindWorker(s.workers, id) < |s.workers|
    ensures Timed(HeartbeatInPart(s, id, time, duration, renewed), duration)
            <==> (renewed.Some? ==> LongEnough(s.jobs, renewed.value, id, time + duration))
  {
    var s' := HeartbeatInPart(s, id, time, duration, renewed);
    assert SameIds(s.workers, s'.workers);
    forall i | 0 <= i < |s'.jobs|
      ensures OutlivesHeartbeat(s'.jobs[i], s'.workers, duration)
              <==> (renewed.Some? && renewed.value <= i && HeldBy(s.jobs[i], id) && s.jobs[i].lease.Some?
                    ==> s.jobs[i].lease.value >= time + duration)
    {
      LeasedIsHeld(s, i);
      assert OutlivesHeartbeat(s.jobs[i], s.workers, duration);
      RecordOfACutHeartbeat(s, id, time, duration, renewed, i);
      if IsActive(s.jobs[i].job.state) {
        FindsSameWorker(s.workers, s'.workers, s.jobs[i].worker.value);
      }
    }
  }

  lemma RecordOfACutHeartbeat(s: State, id: Id, time: int, duration: int, renewed: Option<nat>, i: nat)
    requires FindWorker(s.workers, id) < |s.workers| && i < |s.jobs|
    ensures var s', k := HeartbeatInPart(s, id, time, duration, renewed), FindWorker(s.workers, id);
            && |s'.jobs| == |s.jobs| && |s'.workers| == |s.workers|
            && s'.jobs[i] == (if renewed.Some? && i < renewed.value then Renewed(s.jobs[i], id, time + duration) else s.jobs[i])
            && s'.workers[k].heartbeat == (if renewed.Some? then time else s.workers[k].heartbeat)
            && forall m :: 0 <= m < |s.workers| && m != k ==> s'.workers[m] == s.workers[m]
  {
  }

  /** One record is leased afresh: leases stay ahead exactly when the clock is not before its holder's heartbeat. */
  lemma FreshLeaseKeepsTimed(s: State, s': State, i: nat, now: int, duration: int)
    requires Consistent(s) && Timed(s, duration)
    requires SameHeartbeats(s.workers, s'.workers) && |s'.jobs| == |s.jobs| && i < |s.jobs|
    requires forall m :: 0 <= m < |s.jobs| && m != i ==> s'.jobs[m] == s.jobs[m]
    requires s'.jobs[i].worker.Some? && FindWorker(s.workers, s'.jobs[i].worker.value) < |s.workers|
    requires IsActive(s'.jobs[i].job.state) && s'.jobs[i].lease == Some(now + duration)
    ensures Timed(s', duration) <==> NotBefore(now, s.workers, s'.jobs[i].worker.value)
  {
    SameHeartbeatFound(s.workers, s'.workers, s'.jobs[i].worker.value);
    forall m | 0 <= m < |s'.jobs| && m != i
      ensures OutlivesHeartbeat(s'.jobs[m], s'.workers, duration)
    {
      assert WellShaped(s.jobs[m]);
      StaysTimed(s.jobs[m], s'.jobs[m], s.workers, s'.workers, duration);
    }
  }

  /** An accepted dispatch leases one record to the chosen worker and touches no other. */
  lemma DispatchLeasesOne(s: State, jobId: Id, workerId: Id, now: int, duration: int)
    requires Dispatch(s, jobId, workerId, now, duration).outcome.Done?
    ensures var s', i := Dispatch(s, jobId, workerId, now, duration).state, FindJob(s.jobs, jobId);
            && i < |s.jobs| && |s'.jobs| == |s.jobs| && FindWorker(s.workers, workerId) < |s.workers|
            && (forall m :: 0 <= m < |s.jobs| && m != i ==> s'.jobs[m] == s.jobs[m])
            && s'.jobs[i].worker == Some(workerId) && s'.jobs[i].lease == Some(now + duration)
            && IsActive(s'.jobs[i].job.state) && SameHeartbeats(s.workers, s'.workers)
  {
  }

  /** A dispatch keeps leases ahead exactly when it is refused or its clock is not before the worker's heartbeat. */
  lemma DispatchKeepsTimed(s: State, jobId: Id, workerId: Id, now: int, duration: int)
    requires Consistent(s) && Timed(s, duration)
    ensures var e := Dispatch(s, jobId, workerId, now, duration);
            Timed(e.state, duration) <==> (e.outcome.Done? ==> NotBefore(now, s.workers, workerId))
  {
    var e := Dispatch(s, jobId, workerId, now, duration);
    if e.outcome.Done? {
      DispatchLeasesOne(s, jobId, workerId, now, duration);
      hide Dispatch;
      FreshLeaseKeepsTimed(s, e.state, FindJob(s.jobs, jobId), now, duration);
    } else {
      RollbackIsQuiet(s, jobId);
      NoStepIsQuiet(s, s.queue);
      hide RolledBack, QuietStep, Consistent;
      QuietStepKeepsTimed(s, e.state, duration);
    }
  }

  /** So does a start, with the heartbeat of the worker that holds the job. */
  lemma StartKeepsTimed(s: State, jobId: Id, now: int, duration: int)
    requires Consistent(s) && Timed(s, duration)
    ensures var e := Start(s, jobId, now, duration);
            Timed(e.state, duration) <==> (e.outcome.Done? ==> ClockAdvances(s, Starting(jobId, now), duration))
  {
    var e := Start(s, jobId, now, duration);
    if e.outcome.Done? {
      var i := FindJob(s.jobs, jobId);
      LeasedIsHeld(s, i);
      FreshLeaseKeepsTimed(s, e.state, i, now, duration);
    }
  }

  lemma EventKeepsTimed(s: State, e: Event, duration: int)
    requires Consistent(s) && Timed(s, duration) && ClockAdvances(s, e, duration)
    ensures Timed(Apply(s, e, duration), duration)
  {
    hide Consistent, Timed, QuietStep, NotBefore, LongEnough, HeartbeatInPart, Heartbeat, Dispatch, Start, Recover;
    match e {
      case WorkerHeartbeat(id, now) => HeartbeatKeepsTimed(s, id, now, duration);
      case HeartbeatCutShort(id, now, renewed) =>
        if FindWorker(s.workers, id) < |s.workers| {
          CutShortKeepsTimed(s, id, now, duration, renewed);
        } else {
          StrangersHeartbeat(s, id, now, duration, renewed);
        }
      case Dispatching(jobId, workerId, now) => DispatchKeepsTimed(s, jobId, workerId, now, duration);
      case Starting(jobId, now) => StartKeepsTimed(s, jobId, now, duration);
      case CrashAndRestart(point) =>
        CrashPointDoesNotMatter(s, point);
        RestartIsTimed(s, duration);
      case _ =>
        QuietEvents(s, e, duration);
        QuietStepKeepsTimed(s, Apply(s, e, duration), duration);
    }
  }

  lemma StrangersHeartbeat(s: State, id: Id, time: int, duration: int, renewed: Option<nat>)
    requires FindWorker(s.workers, id) == |s.workers|
    ensures HeartbeatInPart(s, id, time, duration, renewed) == s
  {
  }

  lemma RestartIsTimed(s: State, duration: int)
    requires Consistent(s)
    ensures Timed(Recover(s.jobs, s.workers), duration)
  {
    RecoverEstablishes(s.jobs, s.workers);
    hide Recover;
  }

  /** Over every run with advancing clocks, leases outlive heartbeats. */
  lemma {:induction false} RunsKeepTimed(s: State, run: seq<Event>, n: nat, duration: int)
    requires Consistent(s) && Timed(s, duration) && n <= |run|
    requires AdmissibleRun(s, run, n, duration)
    requires forall m :: 0 <= m < n ==> ClockAdvances(StateAt(s, run, m, duration), run[m], duration)
    ensures Timed(StateAt(s, run, n, duration), duration)
  {
    hide Apply, Admissible, ClockAdvances, Timed, Consistent;
    if n > 0 {
      RunsKeepTimed(s, run, n - 1, duration);
      RunsStayConsistent(s, run, n - 1, duration);
      var a := StateAt(s, run, n - 1, duration);
      assert ClockAdvances(a, run[n - 1], duration);
      EventKeepsTimed(a, run[n - 1], duration);
      assert StateAt(s, run, n, duration) == Apply(a, run[n - 1], duration);
    }
  }

  // ---------- silence ----------

  /** The worker is known, and not online. */
  predicate Silent(s: State, id: Id)
  {
    var k := FindWorker(s.workers, id);
    k < |s.workers| && !s.workers[k].worker.state.Online?
  }

  /**
   * When the heartbeat timeout is no longer than a lease, one monitor pass, completed or not, leaves the holder of
   * every expired lease not online.
   */
  lemma ExpiredHolderIsNotOnline(s: State, now: int, timeout: int, duration: int, i: nat)
    requires Consistent(s) && Timed(s, duration) && 0 < timeout <= duration
    requires i < |s.jobs| && IsActive(s.jobs[i].job.state) && IsDue(s.jobs[i], now)
    ensures s.jobs[i].worker.Some? && Silent(MonitorScan(s, now, timeout).state, s.jobs[i].worker.value)
  {
    LeasedIsHeld(s, i);
    assert OutlivesHeartbeat(s.jobs[i], s.workers, duration);
    var id := s.jobs[i].worker.value;
    var a := MarkStale(s, now, timeout).state;
    hide Consistent, Timed, CheckFirst, ExpireFirst, RequeueFirst;
    FindsSameWorker(s.workers, a.workers, id);
    ExpireFirstIsPointwise(a, |a.jobs|, now);
    var b := Expire(a, now).state;
    assert SameCapacity(a.workers[FindWorker(a.workers, id)].worker, b.workers[FindWorker(a.workers, id)].worker);
    StatesStaySilent(a, b, id);
    RequeueFirstIsPointwise(b, |b.jobs|);
  }

  lemma StatesStaySilent(a: State, b: State, id: Id)
    requires Silent(a, id) && SameWorkers(a.workers, b.workers)
    ensures Silent(b, id)
  {
    assert forall k :: 0 <= k < |a.workers| ==> SameCapacity(a.workers[k].worker, b.workers[k].worker);
    FindsSameWorker(a.workers, b.workers, id);
  }

  /** Does the worker let the coordinator know that it is there? */
  predicate Announces(e: Event, id: Id)
  {
    match e
    case WorkerHeartbeat(w, _) => w == id
    case HeartbeatCutShort(w, _, _) => w == id
    case Reregistration(w) => w.id == id
    case _ => false
  }

  /** A worker that is not online comes back only by announcing itself. */
  lemma OnlyTheWorkerRevivesItself(s: State, e: Event, duration: int, id: Id)
    requires Silent(s, id) && !Announces(e, id)
    ensures Silent(Apply(s, e, duration), id)
  {
    EventExtends(s, e, duration);
    FoundInExtension(s.workers, Apply(s, e, duration).workers, id);
    hide Extends, SameIds;
    OthersLeaveItOffline(s, e, duration, FindWorker(s.workers, id));
  }

  lemma OthersLeaveItOffline(s: State, e: Event, duration: int, k: nat)
    requires k < |s.workers| && !s.workers[k].worker.state.Online? && FindWorker(s.workers, s.workers[k].worker.id) == k
    requires !Announces(e, s.workers[k].worker.id)
    ensures k < |Apply(s, e, duration).workers| && !Apply(s, e, duration).workers[k].worker.state.Online?
  {
    hide Expired, ExpireOne, AfterRelease, AfterReserve, Leasing, AfterTransition, RenewFirst, RolledBack, Submit;
    match e {
      case Submission(j) => SubmitKeepsWorkers(s, j);
      case ExpiryScan(now, stop) =>
        ExpireFirstIsPointwise(s, Min(stop, |s.jobs|), now);
        assert SameCapacity(s.workers[k].worker, Apply(s, e, duration).workers[k].worker);
      case RequeueScan(stop) => RequeueFirstIsPointwise(s, Min(stop, |s.jobs|));
      case CrashAndRestart(point) => CrashPointDoesNotMatter(s, point);
      case Dispatching(jobId, workerId, now) => DispatchLeavesStates(s, jobId, workerId, now, duration, k);
      case DispatchUndone(jobId) => DispatchLeavesStates(s, jobId, jobId, 0, duration, k);
      case Finishing(jobId, ok) => FinishLeavesStates(s, jobId, if ok then Succeeded else Failed, k);
      case _ =>
    }
  }

  lemma FinishLeavesStates(s: State, jobId: Id, final: JobState, k: nat)
    requires k < |s.workers|
    ensures var s' := Finish(s, jobId, final).state;
            k < |s'.workers| && s'.workers[k].worker.state == s.workers[k].worker.state
  {
  }

  lemma DispatchLeavesStates(s: State, jobId: Id, workerId: Id, now: int, duration: int, k: nat)
    requires k < |s.workers|
    ensures var s' := Dispatch(s, jobId, workerId, now, duration).state;
            k < |s'.workers| && s'.workers[k].worker.state == s.workers[k].worker.state
    ensures RolledBack(s, jobId).workers == s.workers
  {
  }

  lemma {:induction false} StaysSilent(s: State, run: seq<Event>, n: nat, duration: int, id: Id)
    requires Silent(s, id) && n <= |run| && forall m :: 0 <= m < n ==> !Announces(run[m], id)
    ensures Silent(StateAt(s, run, n, duration), id)
  {
    hide Apply, Silent, Announces;
    if n > 0 {
      StaysSilent(s, run, n - 1, duration, id);
      OnlyTheWorkerRevivesItself(StateAt(s, run, n - 1, duration), run[n - 1], duration, id);
    }
  }

  /** Until a worker that is not online announces itself, no dispatch to it succeeds, in any run from any state. */
  lemma NoDispatchBeforeAnnouncement(s: State, run: seq<Event>, n: nat, duration: int, id: Id)
    requires Silent(s, id) && n < |run| && forall m :: 0 <= m < n ==> !Announces(run[m], id)
    requires run[n].Dispatching? && run[n].workerId == id
    ensures Dispatch(StateAt(s, run, n, duration), run[n].jobId, id, run[n].now, duration).outcome.Thrown?
  {
    hide Apply;
    StaysSilent(s, run, n, duration, id);
  }

  /** No event gives a job back to a silent worker that does not announce itself. */
  lemma EventKeepsAway(s: State, e: Event, duration: int, i: nat, id: Id)
    requires Consistent(s) && Silent(s, id) && !Announces(e, id)
    requires i < |s.jobs| && !HeldBy(s.jobs[i], id)
    ensures i < |Apply(s, e, duration).jobs| && !HeldBy(Apply(s, e, duration).jobs[i], id)
  {
    hide Consistent, QuietStep, RenewFirst, Recover, RolledBack, Leasing;
    match e {
      case WorkerHeartbeat(w, now) =>
      case HeartbeatCutShort(w, now, renewed) =>
        if FindWorker(s.workers, w) < |s.workers| {
          RecordOfACutHeartbeat(s, w, now, duration, renewed, i);
        }
      case Dispatching(jobId, workerId, now) => DispatchKeepsAway(s, jobId, workerId, now, duration, i, id);
      case Starting(jobId, now) =>
      case CrashAndRestart(point) =>
        CrashPointDoesNotMatter(s, point);
        NothingHeldAfterRestart(s, i, id);
      case _ =>
        QuietEvents(s, e, duration);
        QuietKeepsAway(s, Apply(s, e, duration), i, id);
    }
  }

  lemma QuietKeepsAway(s: State, s': State, i: nat, id: Id)
    requires QuietStep(s, s') && i < |s.jobs| && !HeldBy(s.jobs[i], id)
    ensures i < |s'.jobs| && !HeldBy(s'.jobs[i], id)
  {
    assert QuietMove(s.jobs[i], s'.jobs[i]);
  }

  lemma NothingHeldAfterRestart(s: State, i: nat, id: Id)
    requires Consistent(s) && i < |s.jobs|
    ensures var s' := Recover(s.jobs, s.workers); i < |s'.jobs| && !HeldBy(s'.jobs[i], id)
  {
    RecoverLosesNothing(s.jobs, s.workers, i);
    RecoverEstablishes(s.jobs, s.workers);
    hide Recover;
  }

  lemma DispatchKeepsAway(s: State, jobId: Id, workerId: Id, now: int, duration: int, i: nat, id: Id)
    requires Silent(s, id) && i < |s.jobs| && !HeldBy(s.jobs[i], id)
    ensures var s' := Dispatch(s, jobId, workerId, now, duration).state; i < |s'.jobs| && !HeldBy(s'.jobs[i], id)
  {
    hide Leasing;
  }

  lemma {:induction false} StaysAway(s: State, run: seq<Event>, n: nat, duration: int, i: nat, id: Id)
    requires Consistent(s) && Silent(s, id) && n <= |run| && AdmissibleRun(s, run, n, duration)
    requires forall m :: 0 <= m < n ==> !Announces(run[m], id)
    requires i < |s.jobs| && !HeldBy(s.jobs[i], id)
    ensures i < |StateAt(s, run, n, duration).jobs| && !HeldBy(StateAt(s, run, n, duration).jobs[i], id)
  {
    hide Apply, Silent, Announces, Consistent, Admissible, HeldBy;
    if n > 0 {
      StaysAway(s, run, n - 1, duration, i, id);
      StaysSilent(s, run, n - 1, duration, id);
      RunsStayConsistent(s, run, n - 1, duration);
      EventKeepsAway(StateAt(s, run, n - 1, duration), run[n - 1], duration, i, id);
    }
  }

  // ---------- reclaim ----------

  /** The worker holds no job beyond `t`. */
  ghost predicate HoldsUntil(s: State, id: Id, t: int)
  {
    forall i :: 0 <= i < |s.jobs| && HeldBy(s.jobs[i], id) && s.jobs[i].lease.Some? ==> s.jobs[i].lease.value <= t
  }

  /** If the event grants the worker any time, it reads its clock at `t` or before. */
  predicate GrantsAt(s: State, e: Event, id: Id, t: int)
  {
    match e
    case WorkerHeartbeat(w, now) => w == id ==> now <= t
    case HeartbeatCutShort(w, now, _) => w == id ==> now <= t
    case Dispatching(_, w, now) => w == id ==> now <= t
    case Starting(jobId, now) =>
      var i := FindJob(s.jobs, jobId);
      i < |s.jobs| && s.jobs[i].worker == Some(id) ==> now <= t
    case _ => true
  }

  /** No lease lasts longer than a full duration beyond the last heartbeat, dispatch or start of its holder. */
  lemma EventGrantsNoMore(s: State, e: Event, duration: int, id: Id, t: int)
    requires Consistent(s) && HoldsUntil(s, id, t + duration) && GrantsAt(s, e, id, t)
    ensures HoldsUntil(Apply(s, e, duration), id, t + duration)
  {
    hide Consistent, QuietStep, RenewFirst, Recover, RolledBack, Leasing, Dispatch;
    var s' := Apply(s, e, duration);
    match e {
      case WorkerHeartbeat(w, now) =>
      case HeartbeatCutShort(w, now, renewed) =>
        if FindWorker(s.workers, w) < |s.workers| {
          forall i | 0 <= i < |s.jobs|
            ensures |s'.jobs| == |s.jobs|
            ensures HeldBy(s'.jobs[i], id) && s'.jobs[i].lease.Some? ==> s'.jobs[i].lease.value <= t + duration
          {
            RecordOfACutHeartbeat(s, w, now, duration, renewed, i);
          }
        }
      case Dispatching(jobId, workerId, now) => DispatchGrantsNoMore(s, jobId, workerId, now, duration, id, t);
      case Starting(jobId, now) =>
      case CrashAndRestart(point) =>
        CrashPointDoesNotMatter(s, point);
        ConsistentIsUnique(s);
        RecoverEstablishes(s.jobs, s.workers);
      case _ =>
        QuietEvents(s, e, duration);
        QuietGrantsNothing(s, s', id, t + duration);
    }
  }

  lemma QuietGrantsNothing(s: State, s': State, id: Id, t: int)
    requires Consistent(s) && QuietStep(s, s') && HoldsUntil(s, id, t)
    ensures HoldsUntil(s', id, t)
  {
    forall i | 0 <= i < |s'.jobs| && HeldBy(s'.jobs[i], id) && s'.jobs[i].lease.Some?
      ensures s'.jobs[i].lease.value <= t
    {
      assert QuietMove(s.jobs[i], s'.jobs[i]);
    }
  }

  lemma DispatchGrantsNoMore(s: State, jobId: Id, workerId: Id, now: int, duration: int, id: Id, t: int)
    requires Consistent(s) && HoldsUntil(s, id, t + duration) && (workerId == id ==> now <= t)
    ensures HoldsUntil(Dispatch(s, jobId, workerId, now, duration).state, id, t + duration)
  {
    var e := Dispatch(s, jobId, workerId, now, duration);
    if e.outcome.Done? {
      DispatchLeasesOne(s, jobId, workerId, now, duration);
      hide Dispatch, Consistent;
    } else {
      RollbackIsQuiet(s, jobId);
      NoStepIsQuiet(s, s.queue);
      hide RolledBack, QuietStep, Consistent;
      QuietGrantsNothing(s, e.state, id, t + duration);
    }
  }

  lemma {:induction false} RunsGrantNoMore(s: State, run: seq<Event>, n: nat, duration: int, id: Id, t: int)
    requires Consistent(s) && HoldsUntil(s, id, t + duration) && n <= |run| && AdmissibleRun(s, run, n, duration)
    requires forall m :: 0 <= m < n ==> GrantsAt(StateAt(s, run, m, duration), run[m], id, t)
    ensures HoldsUntil(StateAt(s, run, n, duration), id, t + duration)
  {
    hide Apply, HoldsUntil, GrantsAt, Consistent, Admissible;
    if n > 0 {
      RunsGrantNoMore(s, run, n - 1, duration, id, t);
      RunsStayConsistent(s, run, n - 1, duration);
      var a := StateAt(s, run, n - 1, duration);
      assert GrantsAt(a, run[n - 1], id, t);
      EventGrantsNoMore(a, run[n - 1], duration, id, t);
      assert StateAt(s, run, n, duration) == Apply(a, run[n - 1], duration);
    }
  }

  /** A completed pass takes every job away from a worker whose last leases it finds run out. */
  lemma PassReclaims(s: State, now: int, timeout: int, id: Id, i: nat)
    requires Consistent(s) && timeout > 0 && HoldsUntil(s, id, now) && MonitorScan(s, now, timeout).outcome.Done?
    requires i < |MonitorScan(s, now, timeout).state.jobs|
    ensures !HeldBy(MonitorScan(s, now, timeout).state.jobs[i], id)
  {
    hide Consistent, MonitorScan, Preserves, AllAccept, Sound;
    MonitorSettlesEveryDueJob(s, now, timeout);
    LeasedIsHeld(s, i);
    assert SettledBy(s.jobs[i], MonitorScan(s, now, timeout).state.jobs[i], now);
  }
}

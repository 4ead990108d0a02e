/**
 * The server's promise to its workers: who is heard of in time stays online, keeps its jobs and can deliver them, and
 * who was thought offline is back with its next heartbeat.
 */
module Tenure {
  import opened Errors
  import opened JobStates
  import opened Jobs
  import opened Workers
  import opened JobQueues
  import opened Planning
  import opened Store
  import opened Protocol
  import opened Conservation
  import opened Preservation
  import opened Scans
  import opened Runs
  import opened Timing
  import opened Liveness
  import opened Draining
  import opened Rpc
  import opened ServerRuns

  // ---------- staying online ----------

  /** When the worker was last heard of, if it was at `beat` before the call. */
  function HeardAt(beat: int, c: Call, id: Id): int
  {
    match c
    case RegisterCall(w, now) => if w.id == id then now else beat
    case HeartbeatCall(w, now) => if w == id then now else beat
    case CutShort(e, _) => if e.HeartbeatCutShort? && e.workerId == id && e.renewed.Some? then e.now else beat
    case _ => beat
  }

  function LastHeard(beat: int, calls: seq<Call>, n: nat, id: Id): int
    requires n <= |calls|
  {
    if n == 0 then beat else HeardAt(LastHeard(beat, calls, n - 1, id), calls[n - 1], id)
  }

  /** A monitor pass comes less than 6 s after the worker was heard of; its registrations do not put it out of service. */
  predicate InTime(c: Call, id: Id, beat: int)
  {
    match c
    case MonitorPass(now) => now < beat + 6_000
    case RegisterCall(w, _) => w.id == id ==> w.state.Online? || w.state.Offline?
    case CutShort(e, _) => FindsItAlive(e, id, beat)
    case _ => true
  }

  lemma CallIsHeard(sv: Server, c: Call, k: nat)
    requires Consistent(sv.state) && Allowed(c) && k < |sv.state.workers|
    ensures var sw := sv.state.workers[k];
            && k < |Serve(sv, c).state.workers|
            && var sw' := Serve(sv, c).state.workers[k];
               && sw'.worker.id == sw.worker.id && sw'.heartbeat == HeardAt(sw.heartbeat, c, sw.worker.id)
               && (sw.worker.state.Online? && InTime(c, sw.worker.id, sw.heartbeat) ==> sw'.worker.state.Online?)
  {
    if c.RegisterCall? {
      RegistrationIsHeard(sv, c.worker, c.now, k);
    } else {
      var events := EventsOf(sv, c);
      var sw := sv.state.workers[k];
      CallIsARun(sv, c);
      EventsAreHeard(sv, c, sw.worker.id, sw.heartbeat);
      hide Consistent, Serve, EventsOf, FindsItAlive, LastBeat, Allowed;
      PunctualWorkersStayOnline(sv.state, events, |events|, LEASE_DURATION, k);
    }
  }

  lemma RegistrationIsHeard(sv: Server, w: Worker, now: int, k: nat)
    requires Consistent(sv.state) && k < |sv.state.workers|
    ensures var s, s' := sv.state, RegisterWorker(sv, w, now, LEASE_DURATION).0.state;
            && k < |s'.workers|
            && if w.id == s.workers[k].worker.id
               then IsBack(w, s'.workers[k].worker) && s'.workers[k].heartbeat == now
               else s'.workers[k] == s.workers[k]
  {
    ConsistentIsUnique(sv.state);
    WorkerFindsItself(sv.state.workers, k);
    RegistrationIsStored(sv, w, now, LEASE_DURATION);
    hide Consistent, RegisterWorker, IsBack, UniqueJobs, UniqueWorkers;
  }

  lemma EventsAreHeard(sv: Server, c: Call, id: Id, beat: int)
    requires Allowed(c) && !c.RegisterCall?
    ensures var events := EventsOf(sv, c);
            && LastBeat(beat, events, |events|, id) == HeardAt(beat, c, id)
            && (InTime(c, id, beat) ==>
                  forall m :: 0 <= m < |events| ==> FindsItAlive(events[m], id, LastBeat(beat, events, m, id)))
  {
    hide PlanFor, LeasedJob, AssignedTo, Expire, MarkStale;
    var events := EventsOf(sv, c);
    assert LastBeat(beat, events, 0, id) == beat;
    assert |events| >= 1 && c.MonitorPass? ==> LastBeat(beat, events, 1, id) == beat && LastBeat(beat, events, 2, id) == beat;
  }

  /**
   * Over every run of the server the stored heartbeat is the time of the worker's last heartbeat or registration, and
   * a worker that every monitor pass finds heard of less than 6 s ago is online throughout.
   */
  lemma {:induction false} WorkersHeardOfStayOnline(sv: Server, calls: seq<Call>, n: nat, k: nat)
    requires Consistent(sv.state) && n <= |calls| && AllowedRun(calls, n) && k < |sv.state.workers|
    ensures k < |ServerAt(sv, calls, n).state.workers|
    ensures ServerAt(sv, calls, n).state.workers[k].worker.id == sv.state.workers[k].worker.id
    ensures ServerAt(sv, calls, n).state.workers[k].heartbeat
            == LastHeard(sv.state.workers[k].heartbeat, calls, n, sv.state.workers[k].worker.id)
    ensures sv.state.workers[k].worker.state.Online?
            && (forall m :: 0 <= m < n ==>
                  InTime(calls[m], sv.state.workers[k].worker.id,
                         LastHeard(sv.state.workers[k].heartbeat, calls, m, sv.state.workers[k].worker.id)))
            ==> ServerAt(sv, calls, n).state.workers[k].worker.state.Online?
  {
    hide Consistent, Serve, Allowed, InTime, HeardAt, LeadsTo, EventsBefore;
    if n > 0 {
      WorkersHeardOfStayOnline(sv, calls, n - 1, k);
      ServerRunIsARun(sv, calls, n - 1);
      CallIsHeard(ServerAt(sv, calls, n - 1), calls[n - 1], k);
    }
  }

  /** A monitor pass leaves an online worker online exactly if it was heard of less than 6 s ago. */
  lemma MissedForSixSeconds(sv: Server, now: int, k: nat)
    requires k < |sv.state.workers| && sv.state.workers[k].worker.state.Online?
    ensures var s' := Serve(sv, MonitorPass(now)).state;
            k < |s'.workers|
            && (s'.workers[k].worker.state.Online? <==> now - sv.state.workers[k].heartbeat < 6_000)
            && (s'.workers[k].worker.state.Offline? <==> now - sv.state.workers[k].heartbeat >= 6_000)
  {
    MissedWorkersGoOffline(sv.state, now, HEARTBEAT_TIMEOUT, k);
    PassChecksEveryWorker(sv.state, now, HEARTBEAT_TIMEOUT);
    hide MonitorScan, IsCheckedUpTo;
    CheckedWorkersAreOnOrOff(sv.state.workers[k], Serve(sv, MonitorPass(now)).state.workers[k], now, HEARTBEAT_TIMEOUT);
  }

  lemma CheckedWorkersAreOnOrOff(sw: StoredWorker, sw': StoredWorker, now: int, timeout: int)
    requires IsCheckedUpTo(sw, sw', now, timeout) && sw.worker.state.Online?
    ensures sw'.worker.state.Online? || sw'.worker.state.Offline?
  {
  }

  // ---------- coming back ----------

  /**
   * A worker thought offline is back with its heartbeat: its next acquire is answered exactly if it has a leased job
   * or some queued job fits it once it is online, and then with the first of these in running order.
   */
  lemma HeartbeatBringsBack(sv: Server, k: nat, time: int, now: int)
    requires Consistent(sv.state) && k < |sv.state.workers| && sv.state.workers[k].worker.state.Offline?
    ensures var w := sv.state.workers[k].worker;
            var back := w.(state := Online);
            var reply := AcquireJob(Serve(sv, HeartbeatCall(w.id, time)), w.id, now, LEASE_DURATION);
            && reply.outcome.Done?
            && (reply.job.Some? <==> LeasedJob(sv.state.jobs, w.id).Some?
                                     || exists j :: j in sv.state.queue && Eligible(j.needs, back))
            && (reply.job.Some? && LeasedJob(sv.state.jobs, w.id).None? ==> IsNext(reply.job.value, sv.state.queue, back))
  {
    var s, w := sv.state, sv.state.workers[k].worker;
    var sv' := Serve(sv, HeartbeatCall(w.id, time));
    ConsistentIsUnique(s);
    WorkerFindsItself(s.workers, k);
    HeartbeatIsExact(s, w.id, time, LEASE_DURATION);
    CallIsHeard(sv, HeartbeatCall(w.id, time), k);
    EventKeepsConsistent(s, WorkerHeartbeat(w.id, time), LEASE_DURATION);
    hide Consistent, Heartbeat, UniqueJobs, UniqueWorkers, Eligible, IsNext;
    SameWorkerFound(s.workers, sv'.state.workers, w.id);
    SameLeasedJob(s.jobs, sv'.state.jobs, w.id);
    AcquireAnswers(sv', w.id, now, LEASE_DURATION);
    hide AcquireJob, LeasedJob;
  }

  lemma SameWorkerFound(a: seq<StoredWorker>, b: seq<StoredWorker>, id: Id)
    requires |a| == |b| && forall m :: 0 <= m < |a| ==> a[m].worker.id == b[m].worker.id
    ensures FindWorker(b, id) == FindWorker(a, id)
  {
    FindsSameWorker(a, b, id);
  }

  lemma SameLeasedJob(jobs: seq<JobRecord>, jobs': seq<JobRecord>, id: Id)
    requires |jobs| == |jobs'|
    requires forall i :: 0 <= i < |jobs| ==> jobs'[i].job == jobs[i].job && jobs'[i].worker == jobs[i].worker
    ensures LeasedJob(jobs', id) == LeasedJob(jobs, id)
  {
    var i, i' := FindLeased(jobs, id), FindLeased(jobs', id);
    assert i < |jobs| ==> LeasedTo(jobs'[i], id);
    assert i' < |jobs| ==> LeasedTo(jobs[i'], id);
  }

  // ---------- keeping jobs ----------

  /** The event does not end the tenure of the holder of record `i`. */
  predicate Spares(s: State, e: Event, i: nat)
    requires i < |s.jobs|
  {
    match e
    case CrashAndRestart(_) => false
    case Finishing(jobId, _) => jobId != s.jobs[i].job.id
    case ExpiryScan(now, _) => s.jobs[i].lease.Some? && now < s.jobs[i].lease.value
    case _ => true
  }

  /** The same worker still holds the same job, which it may have started. */
  predicate StillHeld(r: JobRecord, r': JobRecord)
  {
    && IsActive(r.job.state) && r'.worker == r.worker && IsActive(r'.job.state)
    && (r'.job == r.job || (r.job.state.Leased? && r'.job == r.job.(state := Running)))
  }

  lemma EventSpares(s: State, e: Event, duration: int, i: nat)
    requires Consistent(s) && i < |s.jobs| && IsActive(s.jobs[i].job.state) && Spares(s, e, i)
    ensures i < |Apply(s, e, duration).jobs| && StillHeld(s.jobs[i], Apply(s, e, duration).jobs[i])
  {
    hide Consistent, CheckFirst, Start, RolledBack, Finish, Dispatch, ExpireFirst, RequeueFirst, Recover, FindJob, FindWorker;
    hide Heartbeat, HeartbeatInPart, StoredWorkersAt;
    match e {
      case Dispatching(jobId, workerId, now) => DispatchSpares(s, jobId, workerId, now, duration, i);
      case ExpiryScan(now, stop) => ScansSpare(s, e, duration, i);
      case RequeueScan(stop) => ScansSpare(s, e, duration, i);
      case DispatchUndone(jobId) => RolledBackKeepsStores(s, jobId);
      case Finishing(jobId, ok) => FinishSpares(s, jobId, if ok then Succeeded else Failed, i);
      case Starting(jobId, now) => StartSpares(s, jobId, now, duration, i);
      case WorkerHeartbeat(w, now) => HeartbeatSpares(s, w, now, duration, None, i);
      case HeartbeatCutShort(w, now, renewed) => HeartbeatSpares(s, w, now, duration, renewed, i);
      case _ =>
    }
  }

  lemma HeartbeatSpares(s: State, id: Id, now: int, duration: int, renewed: Option<nat>, i: nat)
    requires i < |s.jobs| && IsActive(s.jobs[i].job.state)
    ensures var s' := Heartbeat(s, id, now, duration).state; i < |s'.jobs| && StillHeld(s.jobs[i], s'.jobs[i])
    ensures var s' := HeartbeatInPart(s, id, now, duration, renewed); i < |s'.jobs| && StillHeld(s.jobs[i], s'.jobs[i])
  {
    hide RenewFirst, FindWorker, Revived;
  }

  lemma StartSpares(s: State, jobId: Id, now: int, duration: int, i: nat)
    requires i < |s.jobs| && IsActive(s.jobs[i].job.state)
    ensures var s' := Start(s, jobId, now, duration).state; i < |s'.jobs| && StillHeld(s.jobs[i], s'.jobs[i])
  {
    hide FindJob;
  }

  lemma ScansSpare(s: State, e: Event, duration: int, i: nat)
    requires i < |s.jobs| && IsActive(s.jobs[i].job.state) && Spares(s, e, i) && (e.ExpiryScan? || e.RequeueScan?)
    ensures i < |Apply(s, e, duration).jobs| && Apply(s, e, duration).jobs[i] == s.jobs[i]
  {
    hide ExpireFirst, RequeueFirst;
    if e.ExpiryScan? {
      ExpireFirstIsPointwise(s, Min(e.stop, |s.jobs|), e.now);
    } else {
      RequeueFirstIsPointwise(s, Min(e.stop, |s.jobs|));
    }
  }

  lemma FinishSpares(s: State, jobId: Id, final: JobState, i: nat)
    requires i < |s.jobs| && jobId != s.jobs[i].job.id
    ensures var s' := Finish(s, jobId, final).state; i < |s'.jobs| && s'.jobs[i] == s.jobs[i]
  {
    hide AfterRelease;
  }

  lemma DispatchSpares(s: State, jobId: Id, workerId: Id, now: int, duration: int, i: nat)
    requires Consistent(s) && i < |s.jobs| && IsActive(s.jobs[i].job.state)
    ensures var s' := Dispatch(s, jobId, workerId, now, duration).state; i < |s'.jobs| && s'.jobs[i] == s.jobs[i]
  {
    DispatchIsExact(s, jobId, workerId, now, duration);
    if FindQueued(s.queue, jobId) < |s.queue| {
      QueuedJobIsStored(s, FindQueued(s.queue, jobId));
    }
    hide Consistent, Dispatch, Eligible;
  }

  lemma StillHeldFurther(a: JobRecord, b: JobRecord, c: JobRecord)
    requires StillHeld(a, b) && StillHeld(b, c)
    ensures StillHeld(a, c)
  {
  }

  lemma {:induction false} RunSpares(s: State, run: seq<Event>, n: nat, i: nat)
    requires Consistent(s) && i < |s.jobs| && IsActive(s.jobs[i].job.state)
    requires n <= |run| && AdmissibleRun(s, run, n, LEASE_DURATION)
    requires forall m :: 0 <= m < n && i < |StateAt(s, run, m, LEASE_DURATION).jobs| ==>
               Spares(StateAt(s, run, m, LEASE_DURATION), run[m], i)
    ensures i < |StateAt(s, run, n, LEASE_DURATION).jobs|
    ensures StillHeld(s.jobs[i], StateAt(s, run, n, LEASE_DURATION).jobs[i])
  {
    hide Consistent, Apply, Admissible, Spares;
    if n > 0 {
      RunSpares(s, run, n - 1, i);
      RunsStayConsistent(s, run, n - 1, LEASE_DURATION);
      var a := StateAt(s, run, n - 1, LEASE_DURATION);
      EventSpares(a, run[n - 1], LEASE_DURATION, i);
      StillHeldFurther(s.jobs[i], a.jobs[i], Apply(a, run[n - 1], LEASE_DURATION).jobs[i]);
    }
  }

  /** The call is no restart and no report of the holder on this job, and no expiry scan 15 s after the holder was heard. */
  predicate Undisturbing(c: Call, id: Id, jobId: Id, beat: int)
  {
    match c
    case Restart(_) => false
    case FinishCall(w, reported, _) => !(w == id && reported == jobId)
    case MonitorPass(now) => now < beat + 15_000
    case CutShort(e, _) => e.ExpiryScan? ==> e.now < beat + 15_000
    case _ => true
  }

  lemma CallSpares(sv: Server, c: Call, i: nat, k: nat)
    requires Consistent(sv.state) && Timed(sv.state, LEASE_DURATION) && Allowed(c) && i < |sv.state.jobs|
    requires k < |sv.state.workers| && HeldBy(sv.state.jobs[i], sv.state.workers[k].worker.id)
    requires Undisturbing(c, sv.state.workers[k].worker.id, sv.state.jobs[i].job.id, sv.state.workers[k].heartbeat)
    ensures i < |Serve(sv, c).state.jobs| && StillHeld(sv.state.jobs[i], Serve(sv, c).state.jobs[i])
  {
    var events := EventsOf(sv, c);
    CallIsARun(sv, c);
    LeaseReaches(sv.state, i, k);
    EventsSpare(sv, c, i, k);
    hide Consistent, Timed, Serve, EventsOf, Spares;
    RunSpares(sv.state, events, |events|, i);
  }

  /** The lease of a job held lasts 15 s from when its holder was last heard of. */
  lemma LeaseReaches(s: State, i: nat, k: nat)
    requires Consistent(s) && Timed(s, LEASE_DURATION) && i < |s.jobs|
    requires k < |s.workers| && HeldBy(s.jobs[i], s.workers[k].worker.id)
    ensures s.jobs[i].lease.Some? && s.jobs[i].lease.value >= s.workers[k].heartbeat + 15_000
    ensures FindJob(s.jobs, s.jobs[i].job.id) == i
  {
    LeasedIsHeld(s, i);
    ConsistentIsUnique(s);
    WorkerFindsItself(s.workers, k);
    JobFindsItself(s.jobs, i);
    assert OutlivesHeartbeat(s.jobs[i], s.workers, LEASE_DURATION);
  }

  lemma EventsSpare(sv: Server, c: Call, i: nat, k: nat)
    requires Allowed(c) && i < |sv.state.jobs| && k < |sv.state.workers|
    requires HeldBy(sv.state.jobs[i], sv.state.workers[k].worker.id) && FindJob(sv.state.jobs, sv.state.jobs[i].job.id) == i
    requires sv.state.jobs[i].lease.Some? && sv.state.jobs[i].lease.value >= sv.state.workers[k].heartbeat + 15_000
    requires Undisturbing(c, sv.state.workers[k].worker.id, sv.state.jobs[i].job.id, sv.state.workers[k].heartbeat)
    ensures var events := EventsOf(sv, c);
            forall m :: 0 <= m < |events| && i < |StateAt(sv.state, events, m, LEASE_DURATION).jobs| ==>
              Spares(StateAt(sv.state, events, m, LEASE_DURATION), events[m], i)
  {
    hide PlanFor, LeasedJob, Expire, MarkStale, Heartbeat, Register, Reregister, CheckFirst;
    var events := EventsOf(sv, c);
    assert StateAt(sv.state, events, 0, LEASE_DURATION) == sv.state;
    if c.MonitorPass? {
      assert StateAt(sv.state, events, 1, LEASE_DURATION) == Apply(sv.state, events[0], LEASE_DURATION);
      assert StateAt(sv.state, events, 1, LEASE_DURATION).jobs == sv.state.jobs;
    }
    hide Apply;
  }

  /**
   * Over every run of the server whose clocks follow, without a restart and without a report on it, a worker keeps a
   * job it holds for as long as every monitor pass comes less than 15 s after the worker was heard of.
   */
  lemma {:induction false} WorkersHeardOfKeepTheirJobs(sv: Server, calls: seq<Call>, n: nat, i: nat, k: nat)
    requires Consistent(sv.state) && Timed(sv.state, LEASE_DURATION) && n <= |calls|
    requires AllowedRun(calls, n) && ClocksFollow(sv, calls, n) && i < |sv.state.jobs|
    requires k < |sv.state.workers| && HeldBy(sv.state.jobs[i], sv.state.workers[k].worker.id)
    requires forall m :: 0 <= m < n ==>
               Undisturbing(calls[m], sv.state.workers[k].worker.id, sv.state.jobs[i].job.id,
                            LastHeard(sv.state.workers[k].heartbeat, calls, m, sv.state.workers[k].worker.id))
    ensures i < |ServerAt(sv, calls, n).state.jobs|
    ensures StillHeld(sv.state.jobs[i], ServerAt(sv, calls, n).state.jobs[i])
  {
    hide Consistent, Timed, Serve, Allowed, LeadsTo, EventsBefore, Undisturbing, ClocksFollow, LastHeard, HeldBy, InTime;
    hide StillHeld;
    if n == 0 {
      HeldAtFirst(sv.state.jobs[i], sv.state.workers[k].worker.id);
    } else {
      ClocksFollowedSooner(sv, calls, n);
      WorkersHeardOfKeepTheirJobs(sv, calls, n - 1, i, k);
      ServerRunIsARun(sv, calls, n - 1);
      LeasesOutliveHeartbeats(sv, calls, n - 1);
      WorkersHeardOfStayOnline(sv, calls, n - 1, k);
      var a := ServerAt(sv, calls, n - 1);
      HeldStillBy(sv.state.jobs[i], a.state.jobs[i], sv.state.workers[k].worker.id);
      CallSpares(a, calls[n - 1], i, k);
      StillHeldFurther(sv.state.jobs[i], a.state.jobs[i], ServerAt(sv, calls, n).state.jobs[i]);
    }
  }

  lemma HeldAtFirst(r: JobRecord, id: Id)
    requires HeldBy(r, id)
    ensures StillHeld(r, r)
  {
  }

  lemma HeldStillBy(r: JobRecord, r': JobRecord, id: Id)
    requires HeldBy(r, id) && StillHeld(r, r')
    ensures HeldBy(r', id) && r'.job.id == r.job.id
  {
  }

  lemma ClocksFollowedSooner(sv: Server, calls: seq<Call>, n: nat)
    requires 0 < n <= |calls| && ClocksFollow(sv, calls, n)
    ensures ClocksFollow(sv, calls, n - 1)
  {
    hide StampedBy, StampsCall, ClockAdvances, ServerAt;
  }

  /**
   * ... and if the ledgers balance then, its report is accepted, and recorded as it was made.
   */
  lemma WorkersHeardOfDeliver(sv: Server, calls: seq<Call>, n: nat, i: nat, k: nat, succeeded: bool)
    requires Consistent(sv.state) && Timed(sv.state, LEASE_DURATION) && n <= |calls|
    requires AllowedRun(calls, n) && ClocksFollow(sv, calls, n) && i < |sv.state.jobs|
    requires k < |sv.state.workers| && sv.state.jobs[i].worker == Some(sv.state.workers[k].worker.id)
    requires sv.state.jobs[i].job.state.Running? && Sound(ServerAt(sv, calls, n).state)
    requires forall m :: 0 <= m < n ==>
               Undisturbing(calls[m], sv.state.workers[k].worker.id, sv.state.jobs[i].job.id,
                            LastHeard(sv.state.workers[k].heartbeat, calls, m, sv.state.workers[k].worker.id))
    ensures var job := sv.state.jobs[i].job;
            var reply := FinishJob(ServerAt(sv, calls, n), sv.state.workers[k].worker.id, job.id, Some(succeeded));
            && reply.outcome.Done?
            && reply.job == Some(job.(state := if succeeded then Succeeded else Failed))
  {
    hide Consistent, Timed, Sound, Serve, AllowedRun, ClocksFollow, Undisturbing, LastHeard, ServerAt, FinishJob, UniqueJobs;
    hide LeadsTo, EventsBefore;
    WorkersHeardOfKeepTheirJobs(sv, calls, n, i, k);
    var end := ServerAt(sv, calls, n);
    ServerRunIsARun(sv, calls, n);
    RunningJobFinishes(end, i, sv.state.workers[k].worker.id, succeeded);
    ConsistentIsUnique(end.state);
    JobFindsItself(end.state.jobs, i);
    FinishRecordsTheReport(end, sv.state.workers[k].worker.id, sv.state.jobs[i].job.id, Some(succeeded));
  }
}

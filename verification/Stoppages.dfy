/**
 * A worker that registers again as idle while it runs a job can stop the monitor for the whole cluster: a reachable
 * state from which, whatever the others do, no pass completes once the job's lease has run out, until a restart or
 * until that worker itself does more than start what it holds, send heartbeats and report on that job.
 */
module Stoppages {
  import opened Errors
  import opened JobStates
  import opened Jobs
  import opened Workers
  import opened Ordering
  import opened JobQueues
  import opened Policies
  import opened Planning
  import opened Store
  import opened Protocol
  import opened Conservation
  import opened Recovery
  import opened Scans
  import opened Runs
  import opened Timing
  import opened Jams
  import opened Draining
  import opened Rpc
  import opened ServerRuns

  /** Two fresh jobs and a worker: either job fits the idle worker, and the first needs more CPU than the second. */
  datatype Cast = Cast(big: Job, small: Job, idle: Worker)

  predicate CanStop(c: Cast)
  {
    && IsFresh(c.big) && IsFresh(c.small) && c.big.id != c.small.id && !RunsBefore(c.small, c.big)
    && c.idle.running == 0 && c.idle.totalCpu == c.idle.availableCpu
    && Eligible(c.big.needs, c.idle) && Eligible(c.small.needs, c.idle)
    && c.big.needs.cpu > c.small.needs.cpu + CPU_TOLERANCE
  }

  predicate IsFresh(j: Job)
  {
    j.state.Queued? && CanAttempt(j)
  }

  /** The worker starts the big job, its process restarts and registers as idle at `t`, and is given the small job. */
  function Calls(c: Cast, t: int): seq<Call>
  {
    [SubmitCall(c.big), SubmitCall(c.small), RegisterCall(c.idle, 0), AcquireCall(c.idle.id, 0),
     StartCall(c.idle.id, c.big.id, 0), RegisterCall(c.idle, t), AcquireCall(c.idle.id, t)]
  }

  function Attempting(j: Job, state: JobState): Job
    requires CanAttempt(j)
  {
    j.(state := state, attempts := j.attempts + 1)
  }

  function Waiting(j: Job): JobRecord
  {
    JobRecord(j, None, None)
  }

  function Held(j: Job, state: JobState, w: Worker, start: int): JobRecord
    requires CanAttempt(j)
  {
    JobRecord(Attempting(j, state), Some(w.id), Some(start + LEASE_DURATION))
  }

  function Busy(c: Cast, j: Job): Worker
    requires Eligible(j.needs, c.idle)
  {
    AfterReserve(c.idle, j.needs).value
  }

  lemma FirstTryIsLeased(j: Job, w: Worker)
    requires IsFresh(j) && Eligible(j.needs, w)
    ensures LeaseOn(j, w) == Ok(Reservation(Attempting(j, Leased), AfterReserve(w, j.needs).value))
  {
  }

  /** The planner sends the job that comes first in the queue, if the worker can take it. */
  lemma PlanPicks(p: PolicyState, queue: seq<Job>, j: Job, w: Worker)
    requires DistinctIds(queue) && j in queue && Eligible(j.needs, w)
    requires forall k :: k in queue && k != j ==> !RunsBefore(k, j)
    ensures PlanFor(p, queue, [w]).decision.Some?
    ensures PlanFor(p, queue, [w]).decision.value.jobId == j.id && PlanFor(p, queue, [w]).decision.value.workerId == w.id
  {
    hide PlanFor, RunsBefore, Eligible;
    PlanSendsTheFirstRunnableJob(p, queue, [w]);
    assert w in [w] && Eligible(j.needs, w);
    assert Runnable(j, [w]);
    var k, v := PlannedPair(p, queue, [w]);
    assert v == w;
  }

  /** A worker without a leased job acquires the job that comes first, if it can take it. */
  lemma AcquireTakes(sv: Server, q: nat, i: nat, now: int)
    requires |sv.state.workers| == 1 && LeasedJob(sv.state.jobs, sv.state.workers[0].worker.id).None?
    requires DistinctIds(sv.state.queue) && UniqueJobs(sv.state.jobs)
    requires q < |sv.state.queue| && i < |sv.state.jobs| && sv.state.jobs[i].job.id == sv.state.queue[q].id
    requires IsFresh(sv.state.queue[q]) && Eligible(sv.state.queue[q].needs, sv.state.workers[0].worker)
    requires forall k :: k in sv.state.queue && k != sv.state.queue[q] ==> !RunsBefore(k, sv.state.queue[q])
    ensures var s, w := sv.state, sv.state.workers[0].worker;
            Serve(sv, AcquireCall(w.id, now)).state
            == State(s.jobs[i := Held(s.queue[q], Leased, w, now)],
                     [StoredWorker(AfterReserve(w, s.queue[q].needs).value, s.workers[0].heartbeat)], Without(s.queue, q))
  {
    var s, w := sv.state, sv.state.workers[0].worker;
    hide RunsBefore, Eligible, UniqueJobs, DistinctIds, PlanFor;
    hide LeaseOn, AfterReserve, Attempting, LeasedJob, Without;
    PlanPicks(sv.policy, s.queue, s.queue[q], w);
    OnlyWorker(s.workers);
    AcquireDispatches(sv, s.queue[q].id, now);
    DispatchGoes(s, q, i, now);
    hide Serve, Dispatch;
  }

  lemma AcquireDispatches(sv: Server, jobId: Id, now: int)
    requires |sv.state.workers| == 1 && FindWorker(sv.state.workers, sv.state.workers[0].worker.id) == 0
    requires LeasedJob(sv.state.jobs, sv.state.workers[0].worker.id).None?
    requires var plan := PlanFor(sv.policy, sv.state.queue, [sv.state.workers[0].worker]);
             plan.decision.Some? && plan.decision.value.jobId == jobId
             && plan.decision.value.workerId == sv.state.workers[0].worker.id
    ensures var id := sv.state.workers[0].worker.id;
            Serve(sv, AcquireCall(id, now)).state == Dispatch(sv.state, jobId, id, now, LEASE_DURATION).state
  {
    hide PlanFor, Dispatch, LeasedJob, FindWorker;
  }

  lemma DispatchGoes(s: State, q: nat, i: nat, now: int)
    requires |s.workers| == 1 && DistinctIds(s.queue) && UniqueJobs(s.jobs)
    requires q < |s.queue| && i < |s.jobs| && s.jobs[i].job.id == s.queue[q].id
    requires IsFresh(s.queue[q]) && Eligible(s.queue[q].needs, s.workers[0].worker)
    ensures var w := s.workers[0].worker;
            Dispatch(s, s.queue[q].id, w.id, now, LEASE_DURATION).state
            == State(s.jobs[i := Held(s.queue[q], Leased, w, now)],
                     [StoredWorker(AfterReserve(w, s.queue[q].needs).value, s.workers[0].heartbeat)], Without(s.queue, q))
  {
    hide Eligible, UniqueJobs, DistinctIds, LeaseOn, AfterReserve, Attempting;
    hide Without, FindWorker, FindQueued, FindJob, RolledBack;
    QueuedFindsItself(s.queue, q);
    JobFindsItself(s.jobs, i);
    FirstTryIsLeased(s.queue[q], s.workers[0].worker);
    OnlyWorker(s.workers);
  }

  lemma OnlyWorker(workers: seq<StoredWorker>)
    requires |workers| == 1
    ensures FindWorker(workers, workers[0].worker.id) == 0
    ensures forall sw :: workers[0 := sw] == [sw]
  {
    hide FindWorker;
  }

  // ---------- the states along the way ----------

  function Registered(c: Cast): State
  {
    State([Waiting(c.big), Waiting(c.small)], [StoredWorker(c.idle, 0)], [c.big, c.small])
  }

  function Acquired(c: Cast, state: JobState): State
    requires CanStop(c)
  {
    State([Held(c.big, state, c.idle, 0), Waiting(c.small)], [StoredWorker(Busy(c, c.big), 0)], [c.small])
  }

  function Stranding(c: Cast, t: int): State
    requires CanStop(c)
  {
    State([Held(c.big, Running, c.idle, t), Waiting(c.small)], [StoredWorker(c.idle, t)], [c.small])
  }

  function Stopped(c: Cast, t: int): State
    requires CanStop(c)
  {
    State([Held(c.big, Running, c.idle, t), Held(c.small, Leased, c.idle, t)], [StoredWorker(Busy(c, c.small), t)], [])
  }

  lemma Submissions(c: Cast, p: PolicyState)
    requires CanStop(c)
    ensures Serve(Server(State([], [], []), p), SubmitCall(c.big)) == Server(State([Waiting(c.big)], [], [c.big]), p)
    ensures Serve(Server(State([Waiting(c.big)], [], [c.big]), p), SubmitCall(c.small))
            == Server(Registered(c).(workers := []), p)
  {
    hide RunsBefore, Eligible;
    var one := [Waiting(c.big)];
    assert one[0].job.id != c.small.id;
    assert FindJob(one, c.small.id) == 1;
  }

  lemma NothingToRenew(jobs: seq<JobRecord>, id: Id, lease: int)
    requires forall i :: 0 <= i < |jobs| ==> !HeldBy(jobs[i], id)
    ensures RenewFirst(jobs, |jobs|, id, lease) == jobs
  {
    hide RenewFirst;
    assert forall i :: 0 <= i < |jobs| ==> RenewFirst(jobs, |jobs|, id, lease)[i] == jobs[i];
  }

  lemma FirstRegistration(c: Cast, p: PolicyState)
    requires CanStop(c)
    ensures Serve(Server(Registered(c).(workers := []), p), RegisterCall(c.idle, 0)) == Server(Registered(c), p)
  {
    hide RunsBefore, RenewFirst;
    var s := Registered(c);
    OnlyWorker(s.workers);
    NothingToRenew(s.jobs, c.idle.id, LEASE_DURATION);
    hide HeldBy;
    assert FindWorker([], c.idle.id) == 0;
    assert [] + [StoredWorker(c.idle, 0)] == s.workers;
    assert Register(s.(workers := []), c.idle, 0).state == s;
    assert Revived(c.idle) == c.idle;
  }

  lemma FirstAcquire(c: Cast, p: PolicyState)
    requires CanStop(c)
    ensures Serve(Server(Registered(c), p), AcquireCall(c.idle.id, 0)).state == Acquired(c, Leased)
  {
    var s := Registered(c);
    assert s.queue[0] == c.big && s.queue[1] == c.small;
    hide RunsBefore, Eligible, Serve, AfterReserve, Attempting;
    AcquireTakes(Server(s, p), 0, 0, 0);
    assert Without(s.queue, 0) == [c.small];
  }

  lemma FirstStart(c: Cast, p: PolicyState)
    requires CanStop(c)
    ensures Serve(Server(Acquired(c, Leased), p), StartCall(c.idle.id, c.big.id, 0)) == Server(Acquired(c, Running), p)
  {
    hide RunsBefore, Eligible, AfterReserve, FindJob;
    var s := Acquired(c, Leased);
    assert s.jobs[0].job.id == c.big.id;
    assert FindJob(s.jobs, c.big.id) == 0;
    assert Start(s, c.big.id, 0, LEASE_DURATION).state.jobs == Acquired(c, Running).jobs;
  }

  lemma SecondRegistration(c: Cast, p: PolicyState, t: int)
    requires CanStop(c)
    ensures Serve(Server(Acquired(c, Running), p), RegisterCall(c.idle, t)) == Server(Stranding(c, t), p)
  {
    hide RunsBefore, AfterReserve, RenewFirst;
    var s := Acquired(c, Running);
    BusyIsTheSameWorker(c);
    OnlyWorker(s.workers);
    var mid := s.(workers := [StoredWorker(c.idle, 0)]);
    OnlyWorker(mid.workers);
    assert Reregister(s, c.idle).state == mid;
    assert RenewFirst(mid.jobs, 2, c.idle.id, t + LEASE_DURATION) == Stranding(c, t).jobs;
    assert Revived(c.idle) == c.idle;
  }

  lemma BusyIsTheSameWorker(c: Cast)
    requires CanStop(c)
    ensures Busy(c, c.big).id == c.idle.id && Busy(c, c.small).id == c.idle.id
  {
    hide RunsBefore;
  }

  lemma SecondAcquire(c: Cast, p: PolicyState, t: int)
    requires CanStop(c)
    ensures Serve(Server(Stranding(c, t), p), AcquireCall(c.idle.id, t)).state == Stopped(c, t)
  {
    var s := Stranding(c, t);
    assert s.queue[0] == c.small;
    hide RunsBefore, Eligible, Serve, AfterReserve, Attempting;
    assert s.jobs[1].job.id == c.small.id;
    assert LeasedJob(s.jobs, c.idle.id).None?;
    AcquireTakes(Server(s, p), 0, 1, t);
    assert Without(s.queue, 0) == [];
  }

  lemma OneMoreCall(sv: Server, c: Cast, t: int, n: nat)
    requires n < 7
    ensures ServerAt(sv, Calls(c, t), n + 1) == Serve(ServerAt(sv, Calls(c, t), n), Calls(c, t)[n])
  {
  }

  /** The calls, all of them allowed, lead an empty server to the stopped state. */
  lemma StoppedIsReached(c: Cast, policy: PolicyState, t: int)
    requires CanStop(c)
    ensures AllowedRun(Calls(c, t), 7)
    ensures ServerAt(Server(Recover([], []), policy), Calls(c, t), 7).state == Stopped(c, t)
  {
    CallsAreAllowed(c, t);
    var start := Server(Recover([], []), policy);
    assert start.state == State([], [], []);
    Submissions(c, policy);
    FirstRegistration(c, policy);
    FirstAcquire(c, policy);
    hide AllowedRun, Serve, Recover, CanStop, Registered, Acquired, Stranding, Stopped, Waiting;
    assert ServerAt(start, Calls(c, t), 0) == start;
    hide ServerAt;
    OneMoreCall(start, c, t, 0);
    OneMoreCall(start, c, t, 1);
    OneMoreCall(start, c, t, 2);
    OneMoreCall(start, c, t, 3);
    OneMoreCall(start, c, t, 4);
    OneMoreCall(start, c, t, 5);
    OneMoreCall(start, c, t, 6);
    var acquired := ServerAt(start, Calls(c, t), 4);
    FirstStart(c, acquired.policy);
    SecondRegistration(c, acquired.policy, t);
    SecondAcquire(c, acquired.policy, t);
    assert acquired == Server(Acquired(c, Leased), acquired.policy);
  }

  lemma CallsAreAllowed(c: Cast, t: int)
    requires CanStop(c)
    ensures AllowedRun(Calls(c, t), 7)
  {
    hide RunsBefore, Eligible;
  }

  // ---------- every pass from then on ----------

  /** The big job cannot be taken back from a worker that knows only of the small one. */
  function BigJam(c: Cast, t: int): Jam
    requires CanStop(c)
  {
    Jam(0, Attempting(c.big, Running), c.idle.id, t + LEASE_DURATION, Busy(c, c.small))
  }

  lemma SmallDoesNotCoverBig(c: Cast)
    requires CanStop(c)
    ensures Refuses(BigJam(c, 0)) && Busy(c, c.small).id == c.idle.id
  {
    hide RunsBefore;
  }

  lemma StoppedIsJammed(c: Cast, t: int)
    requires CanStop(c)
    ensures Jammed(Stopped(c, t), BigJam(c, t))
  {
    SmallDoesNotCoverBig(c);
    RefusalStands(BigJam(c, 0), t + LEASE_DURATION);
    OnlyWorker(Stopped(c, t).workers);
    hide CanStop, Refuses, Busy, Attempting;
  }

  /**
   * The call is no restart, and of the holder's own calls it is at most a heartbeat, the start of a job with a lease as
   * long, or a report on the jammed job.
   */
  predicate LeavesAlone(call: Call, jam: Jam)
  {
    match call
    case Restart(_) => false
    case RegisterCall(w, _) => w.id != jam.id
    case AcquireCall(id, _) => id != jam.id
    case StartCall(id, jobId, now) =>
      id == jam.id ==> now + LEASE_DURATION >= jam.lease && (jobId == jam.job.id ==> jam.job.state.Running?)
    case FinishCall(id, jobId, _) => id == jam.id ==> jobId == jam.job.id
    case CutShort(e, _) => !Announces(e, jam.id)
    case _ => true
  }

  function JamAfterCall(jam: Jam, call: Call): Jam
  {
    if call.HeartbeatCall? && call.workerId == jam.id then jam.(lease := call.now + LEASE_DURATION) else jam
  }

  function JamOfServer(jam: Jam, calls: seq<Call>, n: nat): Jam
    requires n <= |calls|
  {
    if n == 0 then jam else JamAfterCall(JamOfServer(jam, calls, n - 1), calls[n - 1])
  }

  /** A start of the jammed job, which runs, is no event. */
  lemma StartLeavesAlone(sv: Server, call: Call, jam: Jam)
    requires Consistent(sv.state) && Jammed(sv.state, jam) && call.StartCall? && LeavesAlone(call, jam)
    ensures EventsOf(sv, call) != [] ==> LeavesJam(sv.state, Starting(call.jobId, call.now), LEASE_DURATION, jam)
  {
    ConsistentIsUnique(sv.state);
    JobFindsItself(sv.state.jobs, jam.record);
    hide Consistent, Refuses, IsHolder, UniqueJobs, FindJob;
  }

  lemma FirstLeavesAlone(sv: Server, call: Call, jam: Jam)
    requires Consistent(sv.state) && Jammed(sv.state, jam) && Allowed(call) && LeavesAlone(call, jam)
    ensures var events := EventsOf(sv, call);
            if events == [] then JamAfterCall(jam, call) == jam
            else LeavesJam(sv.state, events[0], LEASE_DURATION, jam)
                 && JamAfter(jam, events[0], LEASE_DURATION) == JamAfterCall(jam, call)
  {
    if call.AcquireCall? {
      DispatchesToTheCaller(sv, call.workerId, call.now);
    } else if call.StartCall? {
      StartLeavesAlone(sv, call, jam);
    }
    hide Consistent, Jammed, PlanFor, LeasedJob, Expire, MarkStale;
  }

  lemma OthersLeaveAlone(sv: Server, call: Call, jam: Jam, s: State, m: nat)
    requires LeavesAlone(call, jam) && 1 <= m < |EventsOf(sv, call)|
    ensures LeavesJam(s, EventsOf(sv, call)[m], LEASE_DURATION, JamAfterCall(jam, call))
    ensures JamAfter(JamAfterCall(jam, call), EventsOf(sv, call)[m], LEASE_DURATION) == JamAfterCall(jam, call)
  {
    hide PlanFor, LeasedJob, Expire, MarkStale;
  }

  lemma {:induction false} EventsLeaveAlone(sv: Server, call: Call, jam: Jam, n: nat)
    requires Consistent(sv.state) && Jammed(sv.state, jam) && Allowed(call) && LeavesAlone(call, jam)
    requires n <= |EventsOf(sv, call)|
    ensures LeavingRun(sv.state, EventsOf(sv, call), n, LEASE_DURATION, jam)
    ensures JamAt(jam, EventsOf(sv, call), n, LEASE_DURATION) == if n == 0 then jam else JamAfterCall(jam, call)
  {
    hide Consistent, Jammed, EventsOf, Allowed, LeavesAlone, LeavesJam, JamAfter, JamAfterCall, Apply;
    if n > 0 {
      EventsLeaveAlone(sv, call, jam, n - 1);
      FirstLeavesAlone(sv, call, jam);
      if n > 1 {
        OthersLeaveAlone(sv, call, jam, StateAt(sv.state, EventsOf(sv, call), n - 1, LEASE_DURATION), n - 1);
      }
    }
  }

  lemma CallKeepsJam(sv: Server, call: Call, jam: Jam)
    requires Consistent(sv.state) && Jammed(sv.state, jam) && Allowed(call) && LeavesAlone(call, jam)
    ensures Jammed(Serve(sv, call).state, JamAfterCall(jam, call))
  {
    hide Consistent, Jammed, Serve, EventsOf, LeavesAlone, JamAfterCall;
    CallIsARun(sv, call);
    EventsLeaveAlone(sv, call, jam, |EventsOf(sv, call)|);
    FirstLeavesAlone(sv, call, jam);
    RunsKeepJam(sv.state, EventsOf(sv, call), |EventsOf(sv, call)|, LEASE_DURATION, jam);
  }

  /**
   * Whatever all other workers, clients and monitor passes do, and whatever writes are rejected, no pass completes
   * once the jammed lease has run out: until a restart, or until the holder does more than start what it holds, send
   * heartbeats, each of which puts that time off by a lease, and try to finish the jammed job, which is refused.
   */
  lemma {:induction false} NoPassCompletes(sv: Server, jam: Jam, calls: seq<Call>, n: nat, now: int)
    requires Consistent(sv.state) && Jammed(sv.state, jam) && n <= |calls| && AllowedRun(calls, n)
    requires forall m :: 0 <= m < n ==> LeavesAlone(calls[m], JamOfServer(jam, calls, m))
    ensures Jammed(ServerAt(sv, calls, n).state, JamOfServer(jam, calls, n))
    ensures now >= JamOfServer(jam, calls, n).lease ==>
              MonitorScan(ServerAt(sv, calls, n).state, now, HEARTBEAT_TIMEOUT).outcome.Thrown?
  {
    hide Consistent, Jammed, Serve, Allowed, JamAfterCall, MonitorScan, LeadsTo, EventsBefore, LeavesAlone;
    if n > 0 {
      NoPassCompletes(sv, jam, calls, n - 1, now);
      ServerRunIsARun(sv, calls, n - 1);
      CallKeepsJam(ServerAt(sv, calls, n - 1), calls[n - 1], JamOfServer(jam, calls, n - 1));
    }
    if now >= JamOfServer(jam, calls, n).lease {
      JamStopsEveryPass(ServerAt(sv, calls, n).state, now, HEARTBEAT_TIMEOUT, JamOfServer(jam, calls, n));
    }
  }

  /** A holder that calls nothing at all leaves the lease where it is, so from then on no pass completes. */
  lemma {:induction false} WithoutHeartbeatsTheLeaseStays(jam: Jam, calls: seq<Call>, n: nat)
    requires n <= |calls| && forall m :: 0 <= m < n && calls[m].HeartbeatCall? ==> calls[m].workerId != jam.id
    ensures JamOfServer(jam, calls, n) == jam
  {
    if n > 0 {
      WithoutHeartbeatsTheLeaseStays(jam, calls, n - 1);
    }
  }

  /** From the stopped state on, which seven calls reach: the theorem for the cluster that goes on from there. */
  lemma StoppedStaysStopped(c: Cast, policy: PolicyState, t: int, calls: seq<Call>, n: nat, now: int)
    requires CanStop(c) && n <= |calls| && AllowedRun(calls, n)
    requires forall m :: 0 <= m < n ==> LeavesAlone(calls[m], JamOfServer(BigJam(c, t), calls, m))
    requires now >= JamOfServer(BigJam(c, t), calls, n).lease
    ensures var stopped := ServerAt(Server(Recover([], []), policy), Calls(c, t), 7);
            MonitorScan(ServerAt(stopped, calls, n).state, now, HEARTBEAT_TIMEOUT).outcome.Thrown?
  {
    hide Consistent, Recover, ServerAt, MonitorScan, CanStop, Stopped, BigJam, JamOfServer, AllowedRun, LeavesAlone;
    hide LeadsTo, Jammed;
    var start := Server(Recover([], []), policy);
    StoppedIsReached(c, policy, t);
    EmptyIsConsistent();
    ServerRunIsARun(start, Calls(c, t), 7);
    StoppedIsJammed(c, t);
    NoPassCompletes(ServerAt(start, Calls(c, t), 7), BigJam(c, t), calls, n, now);
  }

  lemma EmptyIsConsistent()
    ensures Consistent(Recover([], []))
  {
    RecoverEstablishes([], []);
    SoundIsConsistent(Recover([], []));
    hide Recover;
  }

  /** There are such jobs and such a worker. */
  lemma SomeCastCanStop()
    ensures exists c :: CanStop(c)
  {
    var big: Job := JobFields("big", "-", 1, RequirementFields(4.0, 0, 0, false, []), 1, Queued, 0, 0, 3);
    var small: Job := JobFields("small", "-", 0, RequirementFields(1.0, 0, 0, false, []), 1, Queued, 0, 0, 3);
    var idle: Worker := WorkerFields("w", Online, 4.0, 4.0, 0, 0, 0, 0, false, 0, 2, []);
    assert big.id[0] != small.id[0];
    assert CanStop(Cast(big, small, idle));
  }
}

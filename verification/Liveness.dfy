/** Who is taken for alive: what heartbeats, registrations and the stale check do to workers, over whole runs. */
module Liveness {
  import opened Errors
  import opened JobStates
  import opened Jobs
  import opened Workers
  import opened Ledger
  import opened Store
  import opened Protocol
  import opened Conservation
  import opened Preservation
  import opened Recovery
  import opened Scans
  import opened Runs
  import opened Timing

  // ---------- heartbeats ----------

  /** The worker was heard from at `time`: if it was thought offline it is online; it changed in nothing else. */
  predicate HeardFrom(sw: StoredWorker, sw': StoredWorker, time: int)
  {
    sw'.heartbeat == time && IsBack(sw.worker, sw'.worker)
  }

  predicate IsBack(w: Worker, w': Worker)
  {
    && w' == w.(state := w'.state)
    && (w.state.Online? || w.state.Offline? ==> w'.state.Online?)
    && (w.state.Draining? || w.state.Disabled? ==> w'.state == w.state)
  }

  /** An active job of the worker has the new lease; any other record is as it was. */
  predicate LeaseRenewed(r: JobRecord, r': JobRecord, id: Id, lease: int)
  {
    r' == if IsActive(r.job.state) && r.worker == Some(id) then JobRecord(r.job, r.worker, Some(lease)) else r
  }

  /** A heartbeat is refused only to an unknown worker, and then changes nothing. */
  lemma HeartbeatIsExact(s: State, id: Id, time: int, duration: int)
    ensures var e, k := Heartbeat(s, id, time, duration), FindWorker(s.workers, id);
            if k == |s.workers| then e == Effect(s, Thrown(UnknownWorker))
            else
              && e.outcome.Done? && e.state.queue == s.queue
              && |e.state.workers| == |s.workers| && |e.state.jobs| == |s.jobs|
              && HeardFrom(s.workers[k], e.state.workers[k], time)
              && (forall m :: 0 <= m < |s.workers| && m != k ==> e.state.workers[m] == s.workers[m])
              && (forall i :: 0 <= i < |s.jobs| ==> LeaseRenewed(s.jobs[i], e.state.jobs[i], id, time + duration))
  {
    hide RenewFirst;
  }

  /** One that is cut short has brought the worker back; once its time is stored, some first leases are renewed. */
  lemma PartOfAHeartbeatIsExact(s: State, id: Id, time: int, duration: int, renewed: Option<nat>)
    requires FindWorker(s.workers, id) < |s.workers|
    ensures var s', k := HeartbeatInPart(s, id, time, duration, renewed), FindWorker(s.workers, id);
            && s'.queue == s.queue && |s'.workers| == |s.workers| && |s'.jobs| == |s.jobs|
            && IsBack(s.workers[k].worker, s'.workers[k].worker)
            && s'.workers[k].heartbeat == (if renewed.None? then s.workers[k].heartbeat else time)
            && (forall m :: 0 <= m < |s.workers| && m != k ==> s'.workers[m] == s.workers[m])
            && (forall i :: 0 <= i < |s.jobs| ==>
                  if renewed.Some? && i < renewed.value then LeaseRenewed(s.jobs[i], s'.jobs[i], id, time + duration)
                  else s'.jobs[i] == s.jobs[i])
  {
    hide RenewFirst;
  }

  // ---------- what an event does to a worker ----------

  /** The stored record of a worker after an event: what it reported, whether it is online, when it was heard of. */
  predicate WorkerMoves(sw: StoredWorker, sw': StoredWorker, e: Event)
  {
    var id := sw.worker.id;
    match e
    case Reregistration(w) => if w.id == id then sw' == StoredWorker(w, sw.heartbeat) else sw' == sw
    case WorkerHeartbeat(w, now) => if w == id then HeardFrom(sw, sw', now) else sw' == sw
    case HeartbeatCutShort(w, now, renewed) =>
      if w == id
      then IsBack(sw.worker, sw'.worker) && sw'.heartbeat == (if renewed.Some? then now else sw.heartbeat)
      else sw' == sw
    case StaleScan(now, timeout, _) => sw' == sw || (timeout > 0 && CheckedFor(sw, sw', now, timeout))
    case _ => SameCapacity(sw.worker, sw'.worker) && sw'.heartbeat == sw.heartbeat
  }

  /**
   * No event moves a worker in the store or changes what it reported but its own registration; only its heartbeats
   * and the stale check change whether it is online.
   */
  lemma EventMovesWorkers(s: State, e: Event, duration: int, k: nat)
    requires Consistent(s) && k < |s.workers|
    ensures k < |Apply(s, e, duration).workers|
    ensures WorkerMoves(s.workers[k], Apply(s, e, duration).workers[k], e)
  {
    ConsistentIsUnique(s);
    WorkerFindsItself(s.workers, k);
    hide Consistent, UniqueJobs, UniqueWorkers, RenewFirst, CheckFirst, FindWorker, IsBack, HeardFrom, CheckedFor;
    hide Submit, Finish, Dispatch, RolledBack, Expired, ExpireOne, ExpireFirst, RequeueFirst, Recover, SameCapacity;
    match e {
      case Submission(j) => SubmitKeepsWorkers(s, j); StaysTheSame(s.workers[k]);
      case Registration(w, now) => StaysTheSame(s.workers[k]);
      case Reregistration(w) =>
      case WorkerHeartbeat(w, now) => HeartbeatIsExact(s, w, now, duration);
      case HeartbeatCutShort(w, now, renewed) =>
        if FindWorker(s.workers, w) < |s.workers| {
          PartOfAHeartbeatIsExact(s, w, now, duration, renewed);
        } else {
          StrangersHeartbeat(s, w, now, duration, renewed);
        }
      case StaleScan(now, timeout, stop) =>
        if timeout > 0 {
          StaleCheckIsExact(s.workers, Min(stop, |s.workers|), now, timeout);
        }
      case Starting(jobId, now) => StaysTheSame(s.workers[k]);
      case CrashAndRestart(point) =>
        CrashPointDoesNotMatter(s, point);
        RestoredWorkersAreFree(s.workers, |s.workers|);
        RecoveredWorkers(s.jobs, s.workers);
        assert SameCapacity(s.workers[k].worker, RestoreFirst(s.workers, |s.workers|)[k].worker);
      case _ => LedgersMove(s, e, duration, k);
    }
  }

  lemma StaysTheSame(sw: StoredWorker)
    ensures SameCapacity(sw.worker, sw.worker)
  {
  }

  lemma RecoveredWorkers(jobs: seq<JobRecord>, workers: seq<StoredWorker>)
    ensures Recover(jobs, workers).workers == RestoreFirst(workers, |workers|)
  {
  }

  /** Scans of jobs, dispatches and finishes change nothing of a worker but what is available. */
  lemma LedgersMove(s: State, e: Event, duration: int, k: nat)
    requires k < |s.workers|
    requires e.ExpiryScan? || e.RequeueScan? || e.Dispatching? || e.DispatchUndone? || e.Finishing?
    ensures var s' := Apply(s, e, duration);
            && k < |s'.workers| && SameCapacity(s.workers[k].worker, s'.workers[k].worker)
            && s'.workers[k].heartbeat == s.workers[k].heartbeat
  {
    StaysTheSame(s.workers[k]);
    match e {
      case ExpiryScan(now, stop) =>
        hide ExpireOne, SameCapacity;
        ExpireFirstIsPointwise(s, Min(stop, |s.jobs|), now);
      case RequeueScan(stop) =>
        hide RequeueOne, SameCapacity;
        RequeueFirstIsPointwise(s, Min(stop, |s.jobs|));
      case DispatchUndone(jobId) => RolledBackKeepsStores(s, jobId);
      case Dispatching(jobId, workerId, now) => DispatchMovesLedger(s, jobId, workerId, now, duration, k);
      case Finishing(jobId, ok) => FinishMovesLedger(s, jobId, if ok then Succeeded else Failed, k);
    }
  }

  lemma RolledBackKeepsStores(s: State, jobId: Id)
    ensures RolledBack(s, jobId).workers == s.workers && RolledBack(s, jobId).jobs == s.jobs
  {
  }

  lemma DispatchMovesLedger(s: State, jobId: Id, workerId: Id, now: int, duration: int, k: nat)
    requires k < |s.workers|
    ensures var s' := Dispatch(s, jobId, workerId, now, duration).state;
            && k < |s'.workers| && SameCapacity(s.workers[k].worker, s'.workers[k].worker)
            && s'.workers[k].heartbeat == s.workers[k].heartbeat
  {
    RolledBackKeepsStores(s, jobId);
    hide RolledBack, Eligible;
  }

  lemma FinishMovesLedger(s: State, jobId: Id, final: JobState, k: nat)
    requires k < |s.workers|
    ensures var s' := Finish(s, jobId, final).state;
            && k < |s'.workers| && SameCapacity(s.workers[k].worker, s'.workers[k].worker)
            && s'.workers[k].heartbeat == s.workers[k].heartbeat
  {
  }

  // ---------- over runs ----------

  /** One machine: what it reported of itself is the same, whatever is booked on it and whether it is online. */
  predicate SameMachine(v: Worker, w: Worker)
  {
    && w.id == v.id && w.slots == v.slots && w.gpu == v.gpu && w.tags == v.tags
    && w.totalCpu == v.totalCpu && w.totalMemory == v.totalMemory && w.totalDisk == v.totalDisk
  }

  lemma MovesKeepTheMachine(sw: StoredWorker, sw': StoredWorker, e: Event)
    requires WorkerMoves(sw, sw', e) && (e.Reregistration? ==> e.worker.id != sw.worker.id)
    ensures SameMachine(sw.worker, sw'.worker)
  {
  }

  /** Over every run, restarts included, a worker that does not register again stays what it reported, in its place. */
  lemma {:induction false} RunsKeepMachines(s: State, run: seq<Event>, n: nat, duration: int, k: nat)
    requires Consistent(s) && n <= |run| && AdmissibleRun(s, run, n, duration) && k < |s.workers|
    requires forall m :: 0 <= m < n && run[m].Reregistration? ==> run[m].worker.id != s.workers[k].worker.id
    ensures k < |StateAt(s, run, n, duration).workers|
    ensures SameMachine(s.workers[k].worker, StateAt(s, run, n, duration).workers[k].worker)
  {
    hide Apply, Admissible, Consistent, WorkerMoves;
    if n > 0 {
      RunsKeepMachines(s, run, n - 1, duration, k);
      RunsStayConsistent(s, run, n - 1, duration);
      var a := StateAt(s, run, n - 1, duration);
      EventMovesWorkers(a, run[n - 1], duration, k);
      MovesKeepTheMachine(a.workers[k], Apply(a, run[n - 1], duration).workers[k], run[n - 1]);
    }
  }

  /** When the worker was last heard of, counting the first `n` events. */
  function LastBeat(beat: int, run: seq<Event>, n: nat, id: Id): int
    requires n <= |run|
  {
    if n == 0 then beat
    else
      match run[n - 1]
      case WorkerHeartbeat(w, now) => if w == id then now else LastBeat(beat, run, n - 1, id)
      case HeartbeatCutShort(w, now, renewed) =>
        if w == id && renewed.Some? then now else LastBeat(beat, run, n - 1, id)
      case _ => LastBeat(beat, run, n - 1, id)
  }

  /** The event finds the worker heard of within its timeout, and does not report it as out of service. */
  predicate FindsItAlive(e: Event, id: Id, beat: int)
  {
    match e
    case StaleScan(now, timeout, _) => now - beat < timeout
    case Reregistration(w) => w.id == id ==> w.state.Online?
    case _ => true
  }

  lemma MovesKeepItOnline(sw: StoredWorker, sw': StoredWorker, e: Event)
    requires WorkerMoves(sw, sw', e) && sw.worker.state.Online? && FindsItAlive(e, sw.worker.id, sw.heartbeat)
    ensures sw'.worker.state.Online?
  {
  }

  /** The stored heartbeat is the last one sent, and a worker heard of within every timeout is never taken offline. */
  lemma {:induction false} PunctualWorkersStayOnline(s: State, run: seq<Event>, n: nat, duration: int, k: nat)
    requires Consistent(s) && n <= |run| && AdmissibleRun(s, run, n, duration) && k < |s.workers|
    ensures k < |StateAt(s, run, n, duration).workers|
    ensures StateAt(s, run, n, duration).workers[k].worker.id == s.workers[k].worker.id
    ensures StateAt(s, run, n, duration).workers[k].heartbeat == LastBeat(s.workers[k].heartbeat, run, n, s.workers[k].worker.id)
    ensures s.workers[k].worker.state.Online?
            && (forall m :: 0 <= m < n ==>
                  FindsItAlive(run[m], s.workers[k].worker.id, LastBeat(s.workers[k].heartbeat, run, m, s.workers[k].worker.id)))
            ==> StateAt(s, run, n, duration).workers[k].worker.state.Online?
  {
    hide Apply, Admissible, Consistent, FindsItAlive, WorkerMoves;
    if n > 0 {
      PunctualWorkersStayOnline(s, run, n - 1, duration, k);
      RunsStayConsistent(s, run, n - 1, duration);
      var a := StateAt(s, run, n - 1, duration);
      var b := Apply(a, run[n - 1], duration);
      EventMovesWorkers(a, run[n - 1], duration, k);
      BeatMoves(a.workers[k], b.workers[k], run[n - 1]);
      if a.workers[k].worker.state.Online? && FindsItAlive(run[n - 1], a.workers[k].worker.id, a.workers[k].heartbeat) {
        MovesKeepItOnline(a.workers[k], b.workers[k], run[n - 1]);
      }
    }
  }

  lemma BeatMoves(sw: StoredWorker, sw': StoredWorker, e: Event)
    requires WorkerMoves(sw, sw', e)
    ensures sw'.worker.id == sw.worker.id
    ensures sw'.heartbeat == LastBeat(sw.heartbeat, [e], 1, sw.worker.id)
  {
    assert LastBeat(sw.heartbeat, [e], 0, sw.worker.id) == sw.heartbeat;
  }

  /** A monitor pass, completed or not, leaves an online worker online exactly when it was heard of within the timeout. */
  lemma MissedWorkersGoOffline(s: State, now: int, timeout: int, k: nat)
    requires k < |s.workers| && s.workers[k].worker.state.Online? && timeout > 0
    ensures var s' := MonitorScan(s, now, timeout).state;
            k < |s'.workers| && (s'.workers[k].worker.state.Online? <==> now - s.workers[k].heartbeat < timeout)
  {
    PassChecksEveryWorker(s, now, timeout);
    hide MonitorScan, IsCheckedUpTo;
    CheckDecides(s.workers[k], MonitorScan(s, now, timeout).state.workers[k], now, timeout);
  }

  lemma CheckDecides(sw: StoredWorker, sw': StoredWorker, now: int, timeout: int)
    requires IsCheckedUpTo(sw, sw', now, timeout) && sw.worker.state.Online?
    ensures sw'.worker.state.Online? <==> now - sw.heartbeat < timeout
  {
  }
}

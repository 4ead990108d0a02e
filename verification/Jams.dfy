/**
 * When a lease cannot be taken back: its holder's ledger refuses the release, so the expiry scan ends at that record,
 * in every pass, for as long as only others act on the cluster.
 */
module Jams {
  import opened Errors
  import opened JobStates
  import opened Jobs
  import opened Workers
  import opened Ordering
  import opened JobQueues
  import opened Store
  import opened Protocol
  import opened Conservation
  import opened Preservation
  import opened Recovery
  import opened Scans
  import opened Runs
  import opened Timing

  /** The job of record `record` is held by `id` until `lease`; `worker` is that holder, up to whether it is online. */
  datatype Jam = Jam(record: nat, job: Job, id: Id, lease: int, worker: Worker)

  /** The holder is busy and will not take the job's resources back. */
  predicate Refuses(jam: Jam)
  {
    && IsActive(jam.job.state) && jam.worker.id == jam.id
    && jam.worker.running > 0 && AfterRelease(jam.worker, jam.job.needs).Err?
  }

  predicate IsHolder(workers: seq<StoredWorker>, jam: Jam)
  {
    var k := FindWorker(workers, jam.id);
    k < |workers| && workers[k].worker == jam.worker.(state := workers[k].worker.state)
  }

  /** The record is there, no record before it has that holder, and no lease of the holder runs out before. */
  ghost predicate IsRecord(jobs: seq<JobRecord>, jam: Jam)
  {
    && jam.record < |jobs|
    && jobs[jam.record] == JobRecord(jam.job, Some(jam.id), Some(jam.lease))
    && (forall m :: 0 <= m < jam.record ==> !HeldBy(jobs[m], jam.id))
    && (forall m :: 0 <= m < |jobs| && HeldBy(jobs[m], jam.id) && jobs[m].lease.Some? ==> jobs[m].lease.value >= jam.lease)
  }

  ghost predicate Jammed(s: State, jam: Jam)
  {
    Refuses(jam) && IsHolder(s.workers, jam) && IsRecord(s.jobs, jam)
  }

  lemma RefusalIgnoresState(jam: Jam, state: WorkerState)
    requires Refuses(jam)
    ensures var w := jam.worker.(state := state);
            w.running > 0 && AfterRelease(w, jam.job.needs) == Err(AfterRelease(jam.worker, jam.job.needs).error)
  {
  }

  // ---------- the scan ----------

  /** One record of the scan, not the jammed one and not one that its holder has lost. */
  lemma OtherRecordsDoNotMatter(s: State, i: nat, now: int, jam: Jam)
    requires Jammed(s, jam) && i < |s.jobs|
    requires IsDue(s.jobs[i], now) && IsActive(s.jobs[i].job.state) ==> i != jam.record && s.jobs[i].worker != Some(jam.id)
    requires i == jam.record ==> !IsDue(s.jobs[i], now)
    ensures Jammed(ExpireOne(s, i, now).state, jam)
  {
    ExpireOneIsLocal(s, i, now);
    hide AfterRelease;
    var s' := ExpireOne(s, i, now).state;
    FindsSameWorker(s.workers, s'.workers, jam.id) by { ExpireOneKeepsIds(s, i, now); }
  }

  /** The jammed record stops the scan and nothing else happens. */
  lemma JamStopsTheScan(s: State, now: int, jam: Jam)
    requires Jammed(s, jam) && now >= jam.lease
    ensures ExpireOne(s, jam.record, now) == Effect(s, Thrown(AfterRelease(jam.worker, jam.job.needs).error))
  {
    var k := FindWorker(s.workers, jam.id);
    RefusalIgnoresState(jam, s.workers[k].worker.state);
    hide AfterRelease;
  }

  /** The scan leaves the jam as it is, and once the lease has run out does not get past it. */
  lemma {:induction false} ScanKeepsJam(s: State, n: nat, now: int, jam: Jam)
    requires Jammed(s, jam) && n <= |s.jobs|
    ensures Jammed(ExpireFirst(s, n, now).state, jam)
    ensures now >= jam.lease && n > jam.record ==> ExpireFirst(s, n, now).outcome.Thrown?
  {
    hide Jammed, ExpireOne;
    if n > 0 {
      ScanKeepsJam(s, n - 1, now, jam);
      var e := ExpireFirst(s, n - 1, now);
      if e.outcome.Done? {
        ExpireFirstIsPointwise(s, n - 1, now);
        OneMoreRecord(s, e.state, n - 1, now, jam);
      }
    }
  }

  lemma OneMoreRecord(s: State, mid: State, i: nat, now: int, jam: Jam)
    requires Jammed(s, jam) && Jammed(mid, jam) && i < |s.jobs| == |mid.jobs| && mid.jobs[i] == s.jobs[i]
    requires now >= jam.lease ==> i <= jam.record
    ensures Jammed(ExpireOne(mid, i, now).state, jam)
    ensures now >= jam.lease && i == jam.record ==> ExpireOne(mid, i, now).outcome.Thrown?
  {
    if now >= jam.lease && i == jam.record {
      JamStopsTheScan(mid, now, jam);
    } else {
      hide ExpireOne;
      OtherRecordsDoNotMatter(mid, i, now, jam);
    }
  }

  lemma StaleCheckKeepsJam(s: State, n: nat, now: int, timeout: int, jam: Jam)
    requires Jammed(s, jam) && n <= |s.workers|
    ensures Jammed(s.(workers := CheckFirst(s.workers, n, now, timeout)), jam)
  {
    hide AfterRelease;
    FindsSameWorker(s.workers, CheckFirst(s.workers, n, now, timeout), jam.id);
  }

  /** No pass completes once the jammed lease has run out. */
  lemma JamStopsEveryPass(s: State, now: int, timeout: int, jam: Jam)
    requires Jammed(s, jam) && timeout > 0 && now >= jam.lease
    ensures MonitorScan(s, now, timeout).outcome.Thrown?
  {
    StaleCheckKeepsJam(s, |s.workers|, now, timeout, jam);
    var a := MarkStale(s, now, timeout).state;
    hide Refuses, IsHolder;
    assert jam.record < |a.jobs|;
    hide Jammed;
    ScanKeepsJam(a, |a.jobs|, now, jam);
  }

  // ---------- what others do ----------

  /**
   * The event is not a restart, and of the holder's own doing it is at most a heartbeat, the start of another job with
   * a lease as long, or the attempt to finish the jammed job.
   */
  predicate LeavesJam(s: State, e: Event, duration: int, jam: Jam)
  {
    match e
    case CrashAndRestart(_) => false
    case HeartbeatCutShort(id, _, _) => id != jam.id
    case Reregistration(w) => w.id != jam.id
    case Dispatching(_, workerId, _) => workerId != jam.id
    case Starting(jobId, now) =>
      FindJob(s.jobs, jobId) < |s.jobs| && s.jobs[FindJob(s.jobs, jobId)].worker == Some(jam.id) ==>
        jobId != jam.job.id && now + duration >= jam.lease
    case Finishing(jobId, _) =>
      FindJob(s.jobs, jobId) < |s.jobs| && jobId != jam.job.id ==> s.jobs[FindJob(s.jobs, jobId)].worker != Some(jam.id)
    case _ => true
  }

  /** A heartbeat of the holder puts the end of the lease off, and that of all its others with it. */
  function JamAfter(jam: Jam, e: Event, duration: int): Jam
  {
    if e.WorkerHeartbeat? && e.workerId == jam.id then jam.(lease := e.now + duration) else jam
  }

  /** What events other than scans do to the records, seen from the jam: its holder gains none, and no lease too short. */
  ghost predicate KeepsRecords(jobs: seq<JobRecord>, jobs': seq<JobRecord>, jam: Jam)
  {
    && |jobs| <= |jobs'|
    && (jam.record < |jobs| ==> jobs'[jam.record] == jobs[jam.record])
    && (forall m :: 0 <= m < |jobs| && HeldBy(jobs'[m], jam.id) ==>
          && HeldBy(jobs[m], jam.id)
          && (jobs'[m].lease == jobs[m].lease || (jobs'[m].lease.Some? && jobs'[m].lease.value >= jam.lease)))
    && (forall m :: |jobs| <= m < |jobs'| ==> !HeldBy(jobs'[m], jam.id))
  }

  lemma KeptRecordsKeepJam(jobs: seq<JobRecord>, jobs': seq<JobRecord>, jam: Jam)
    requires IsRecord(jobs, jam) && KeepsRecords(jobs, jobs', jam)
    ensures IsRecord(jobs', jam)
  {
  }

  lemma KeptWorkerKeepsJam(a: seq<StoredWorker>, b: seq<StoredWorker>, jam: Jam)
    requires IsHolder(a, jam) && Extends(a, b)
    requires var k := FindWorker(a, jam.id); b[k].worker == a[k].worker.(state := b[k].worker.state)
    ensures IsHolder(b, jam)
  {
    FoundInExtension(a, b, jam.id);
  }

  lemma DispatchKeepsJam(s: State, jobId: Id, workerId: Id, now: int, duration: int, jam: Jam)
    requires Consistent(s) && Jammed(s, jam) && workerId != jam.id
    ensures Jammed(Dispatch(s, jobId, workerId, now, duration).state, jam)
  {
    var e := Dispatch(s, jobId, workerId, now, duration);
    DispatchKeepsIds(s, jobId, workerId, now, duration);
    hide Refuses, RolledBack, PutBack, LeaseOn;
    if e.outcome.Done? {
      DispatchLeasesOne(s, jobId, workerId, now, duration);
      QueuedJobIsStored(s, FindQueued(s.queue, jobId));
      hide Consistent;
      assert KeepsRecords(s.jobs, e.state.jobs, jam);
      KeptRecordsKeepJam(s.jobs, e.state.jobs, jam);
      assert e.state.workers[FindWorker(s.workers, jam.id)] == s.workers[FindWorker(s.workers, jam.id)];
      KeptWorkerKeepsJam(s.workers, e.state.workers, jam);
    } else {
      RollbackKeepsStores(s, jobId);
    }
  }

  lemma RollbackKeepsStores(s: State, jobId: Id)
    ensures RolledBack(s, jobId).jobs == s.jobs && RolledBack(s, jobId).workers == s.workers
  {
  }

  lemma FinishKeepsJam(s: State, jobId: Id, final: JobState, jam: Jam)
    requires Consistent(s) && Jammed(s, jam) && (final.Succeeded? || final.Failed?)
    requires FindJob(s.jobs, jobId) < |s.jobs| && jobId != jam.job.id ==> s.jobs[FindJob(s.jobs, jobId)].worker != Some(jam.id)
    ensures Jammed(Finish(s, jobId, final).state, jam)
  {
    var e := Finish(s, jobId, final);
    if jobId == jam.job.id {
      ConsistentIsUnique(s);
      JobFindsItself(s.jobs, jam.record);
      RefusalIgnoresState(jam, s.workers[FindWorker(s.workers, jam.id)].worker.state);
      hide Consistent, AfterRelease;
    } else if e.outcome.Done? {
      FinishKeepsWorkers(s, jobId, final);
      hide Consistent, Refuses, AfterRelease;
      assert KeepsRecords(s.jobs, e.state.jobs, jam);
      KeptRecordsKeepJam(s.jobs, e.state.jobs, jam);
      assert e.state.workers[FindWorker(s.workers, jam.id)] == s.workers[FindWorker(s.workers, jam.id)];
      KeptWorkerKeepsJam(s.workers, e.state.workers, jam);
    }
  }

  lemma StartKeepsJam(s: State, jobId: Id, now: int, duration: int, jam: Jam)
    requires Consistent(s) && Jammed(s, jam)
    requires LeavesJam(s, Starting(jobId, now), duration, jam)
    ensures Jammed(Start(s, jobId, now, duration).state, jam)
  {
    var s' := Start(s, jobId, now, duration).state;
    hide Refuses, Consistent;
    assert KeepsRecords(s.jobs, s'.jobs, jam);
    KeptRecordsKeepJam(s.jobs, s'.jobs, jam);
  }

  lemma RequeueKeepsJam(s: State, n: nat, jam: Jam)
    requires Jammed(s, jam) && n <= |s.jobs|
    ensures Jammed(RequeueFirst(s, n).state, jam)
  {
    RequeueFirstIsPointwise(s, n);
    var s' := RequeueFirst(s, n).state;
    hide RequeueFirst, AfterRelease;
    assert KeepsRecords(s.jobs, s'.jobs, jam);
    KeptRecordsKeepJam(s.jobs, s'.jobs, jam);
  }

  /** A heartbeat, of the holder or of another worker, stored in full. */
  lemma HeartbeatKeepsJam(s: State, id: Id, now: int, duration: int, jam: Jam)
    requires Jammed(s, jam)
    ensures Jammed(Heartbeat(s, id, now, duration).state, JamAfter(jam, WorkerHeartbeat(id, now), duration))
  {
    var s' := Heartbeat(s, id, now, duration).state;
    FindsSameWorker(s.workers, s'.workers, jam.id);
    RefusalStands(jam, now + duration);
    hide Refuses, RenewFirst;
  }

  lemma RefusalStands(jam: Jam, lease: int)
    requires Refuses(jam)
    ensures Refuses(jam.(lease := lease))
  {
  }

  lemma CutHeartbeatKeepsJam(s: State, id: Id, now: int, duration: int, renewed: Option<nat>, jam: Jam)
    requires Jammed(s, jam) && id != jam.id
    ensures Jammed(HeartbeatInPart(s, id, now, duration, renewed), jam)
  {
    var s' := HeartbeatInPart(s, id, now, duration, renewed);
    FindsSameWorker(s.workers, s'.workers, jam.id);
    hide Refuses, RenewFirst;
  }

  lemma RegistrationsKeepJam(s: State, w: Worker, now: int, jam: Jam)
    requires Jammed(s, jam)
    ensures Jammed(Register(s, w, now).state, jam)
    ensures w.id != jam.id ==> Jammed(Reregister(s, w).state, jam)
  {
    hide Refuses;
    FoundInExtension(s.workers, Register(s, w, now).state.workers, jam.id);
    FindsSameWorker(s.workers, Reregister(s, w).state.workers, jam.id);
  }

  lemma SubmissionKeepsJam(s: State, j: Job, jam: Jam)
    requires Jammed(s, jam)
    ensures Jammed(Submit(s, j).state, jam)
  {
    hide Refuses;
    var s' := Submit(s, j).state;
    assert forall m :: 0 <= m < |s.jobs| ==> s'.jobs[m] == s.jobs[m];
    assert KeepsRecords(s.jobs, s'.jobs, jam);
    KeptRecordsKeepJam(s.jobs, s'.jobs, jam);
  }

  lemma EventKeepsJam(s: State, e: Event, duration: int, jam: Jam)
    requires Consistent(s) && Jammed(s, jam) && LeavesJam(s, e, duration, jam)
    ensures Jammed(Apply(s, e, duration), JamAfter(jam, e, duration))
  {
    hide Consistent, Jammed, Submit, Register, Reregister, Heartbeat, HeartbeatInPart, CheckFirst, ExpireFirst;
    hide RequeueFirst, Dispatch, RolledBack, Start, Finish;
    match e {
      case Submission(j) => SubmissionKeepsJam(s, j, jam);
      case Registration(w, now) => RegistrationsKeepJam(s, w, now, jam);
      case Reregistration(w) => RegistrationsKeepJam(s, w, 0, jam);
      case WorkerHeartbeat(id, now) => HeartbeatKeepsJam(s, id, now, duration, jam);
      case HeartbeatCutShort(id, now, renewed) => CutHeartbeatKeepsJam(s, id, now, duration, renewed, jam);
      case StaleScan(now, timeout, stop) => StaleCheckKeepsJam(s, Min(stop, |s.workers|), now, timeout, jam);
      case ExpiryScan(now, stop) => ScanKeepsJam(s, Min(stop, |s.jobs|), now, jam);
      case RequeueScan(stop) => RequeueKeepsJam(s, Min(stop, |s.jobs|), jam);
      case Dispatching(jobId, workerId, now) => DispatchKeepsJam(s, jobId, workerId, now, duration, jam);
      case DispatchUndone(jobId) => StoresAlone(s, RolledBack(s, jobId), jam) by { RollbackKeepsStores(s, jobId); }
      case Starting(jobId, now) => StartKeepsJam(s, jobId, now, duration, jam);
      case Finishing(jobId, ok) => FinishKeepsJam(s, jobId, if ok then Succeeded else Failed, jam);
    }
  }

  lemma StoresAlone(s: State, s': State, jam: Jam)
    requires Jammed(s, jam) && s'.jobs == s.jobs && s'.workers == s.workers
    ensures Jammed(s', jam)
  {
  }

  // ---------- runs ----------

  function JamAt(jam: Jam, run: seq<Event>, n: nat, duration: int): Jam
    requires n <= |run|
  {
    if n == 0 then jam else JamAfter(JamAt(jam, run, n - 1, duration), run[n - 1], duration)
  }

  /** Each of the first `n` events leaves the jam alone where it happens. */
  ghost predicate LeavingRun(s: State, run: seq<Event>, n: nat, duration: int, jam: Jam)
    requires n <= |run|
  {
    n == 0 || (LeavingRun(s, run, n - 1, duration, jam)
               && LeavesJam(StateAt(s, run, n - 1, duration), run[n - 1], duration, JamAt(jam, run, n - 1, duration)))
  }

  /**
   * In every run without a restart in which the holder at most sends heartbeats, starts what it holds and tries to
   * finish the jammed job, whatever all others do: the jam stays, and no pass after the lease completes.
   */
  lemma {:induction false} RunsKeepJam(s: State, run: seq<Event>, n: nat, duration: int, jam: Jam)
    requires Consistent(s) && Jammed(s, jam) && n <= |run|
    requires AdmissibleRun(s, run, n, duration) && LeavingRun(s, run, n, duration, jam)
    ensures Jammed(StateAt(s, run, n, duration), JamAt(jam, run, n, duration))
    ensures forall now, timeout :: timeout > 0 && now >= JamAt(jam, run, n, duration).lease ==>
              MonitorScan(StateAt(s, run, n, duration), now, timeout).outcome.Thrown?
  {
    hide Apply, Admissible, Consistent, Jammed, LeavesJam, JamAfter, MonitorScan;
    if n > 0 {
      RunsKeepJam(s, run, n - 1, duration, jam);
      RunsStayConsistent(s, run, n - 1, duration);
      EventKeepsJam(StateAt(s, run, n - 1, duration), run[n - 1], duration, JamAt(jam, run, n - 1, duration));
    }
    var s', jam' := StateAt(s, run, n, duration), JamAt(jam, run, n, duration);
    forall now, timeout | timeout > 0 && now >= jam'.lease
      ensures MonitorScan(s', now, timeout).outcome.Thrown?
    {
      JamStopsEveryPass(s', now, timeout, jam');
    }
  }
}

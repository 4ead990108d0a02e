/** Whole runs of the coordinator, with rejected writes and crashes anywhere in them. */
module Runs {
  import opened Errors
  import opened JobStates
  import opened Jobs
  import opened Workers
  import opened Ledger
  import opened JobQueues
  import opened Store
  import opened Protocol
  import opened Conservation
  import opened Preservation
  import opened Recovery
  import opened Scans

  /** Where the process was when it stopped. */
  datatype CrashPoint = BetweenOperations | MidDispatch(jobId: Id, workerId: Id) | MidRelease(record: nat)

  /**
   * One coordinator call with its clock reading. A scan stops before record `stop`, because the
   * store rejected that write, or runs to the end when `stop` is not below the number of records.
   */
  datatype Event =
    | Submission(job: Job)
    | Registration(worker: Worker, now: int)
    | Reregistration(worker: Worker)
    | WorkerHeartbeat(workerId: Id, now: int)
    | HeartbeatCutShort(workerId: Id, now: int, renewed: Option<nat>)
    | StaleScan(now: int, timeout: int, stop: nat)
    | ExpiryScan(now: int, stop: nat)
    | RequeueScan(stop: nat)
    | Dispatching(jobId: Id, workerId: Id, now: int)
    | DispatchUndone(jobId: Id)
    | Starting(jobId: Id, now: int)
    | Finishing(jobId: Id, succeeded: bool)
    | CrashAndRestart(point: CrashPoint)

  function Min(a: nat, b: nat): nat
  {
    if a < b then a else b
  }

  function StoredWorkersAt(s: State, point: CrashPoint): seq<StoredWorker>
  {
    match point
    case BetweenOperations => s.workers
    case MidDispatch(jobId, workerId) => WorkersMidDispatch(s, jobId, workerId)
    case MidRelease(i) => if i < |s.jobs| then WorkersMidRelease(s, i) else s.workers
  }

  function Apply(s: State, e: Event, duration: int): State
  {
    match e
    case Submission(j) => Submit(s, j).state
    case Registration(w, now) => Register(s, w, now).state
    case Reregistration(w) => Reregister(s, w).state
    case WorkerHeartbeat(id, now) => Heartbeat(s, id, now, duration).state
    case HeartbeatCutShort(id, now, renewed) => HeartbeatInPart(s, id, now, duration, renewed)
    case StaleScan(now, timeout, stop) =>
      if timeout <= 0 then s else s.(workers := CheckFirst(s.workers, Min(stop, |s.workers|), now, timeout))
    case ExpiryScan(now, stop) => ExpireFirst(s, Min(stop, |s.jobs|), now).state
    case RequeueScan(stop) => RequeueFirst(s, Min(stop, |s.jobs|)).state
    case Dispatching(jobId, workerId, now) => Dispatch(s, jobId, workerId, now, duration).state
    case DispatchUndone(jobId) => RolledBack(s, jobId)
    case Starting(jobId, now) => Start(s, jobId, now, duration).state
    case Finishing(jobId, ok) => Finish(s, jobId, if ok then Succeeded else Failed).state
    case CrashAndRestart(point) => Recover(s.jobs, StoredWorkersAt(s, point))
  }

  /**
   * What a worker that registers uses becomes its baseline; one that registers again with less than its jobs need
   * loses its own, and a restart gives every worker a baseline of nothing.
   */
  function BaseAfter(s: State, base: Baseline, e: Event): Baseline
  {
    match e
    case Registration(w, now) => if Register(s, w, now).outcome.Done? then base[w.id := Used(w)] else base
    case Reregistration(w) => if Reregister(s, w).outcome.Done? then Rebased(s, base, w) else base
    case CrashAndRestart(_) => Unused(WorkerIds(Recover(s.jobs, s.workers).workers))
    case _ => base
  }

  /** Accepted jobs have attempts left, as the submission handler sees to. */
  predicate Admissible(s: State, e: Event)
  {
    e.Submission? ==> Submit(s, e.job).outcome.Thrown? || CanAttempt(e.job)
  }

  /** A worker that registers again reports no less than its active jobs need. */
  predicate Truthful(s: State, e: Event)
  {
    e.Reregistration? ==> Reregister(s, e.worker).outcome.Thrown? || AtMost(Load(s.jobs, e.worker.id), Used(e.worker))
  }

  lemma HeartbeatInPartKeeps(s: State, base: Baseline, id: Id, now: int, duration: int, renewed: Option<nat>)
    requires Inv(s, base)
    ensures Inv(HeartbeatInPart(s, id, now, duration, renewed), base)
  {
    hide Inv;
    var k := FindWorker(s.workers, id);
    if k < |s.workers| {
      var s' := HeartbeatInPart(s, id, now, duration, renewed);
      match renewed {
        case None =>
          assert s'.jobs == RenewFirst(s.jobs, 0, id, now + duration);
          PartialHeartbeatKeeps(s, base, s', 0, id, now + duration);
        case Some(n) => PartialHeartbeatKeeps(s, base, s', Min(n, |s.jobs|), id, now + duration);
      }
    }
  }

  /** Every event keeps consistency, and every ledger that balanced except that of a worker that reports too little. */
  lemma EventKeeps(s: State, base: Baseline, e: Event, duration: int)
    requires Inv(s, base) && Admissible(s, e)
    ensures Inv(Apply(s, e, duration), BaseAfter(s, base, e))
  {
    hide Inv, Submit, Register, Heartbeat, HeartbeatInPart, ExpireFirst;
    hide RequeueFirst, Dispatch, RolledBack, Start, Finish, Recover;
    match e {
      case Submission(j) => SubmitKeeps(s, base, j);
      case Registration(w, now) => RegisterKeeps(s, base, w, now);
      case Reregistration(w) => if Reregister(s, w).outcome.Done? { ReregisterKeeps(s, base, w); }
      case WorkerHeartbeat(id, now) => HeartbeatKeeps(s, base, id, now, duration);
      case HeartbeatCutShort(id, now, renewed) => HeartbeatInPartKeeps(s, base, id, now, duration, renewed);
      case StaleScan(now, timeout, stop) => StaleCheckPreserves(s, Min(stop, |s.workers|), now, timeout);
      case ExpiryScan(now, stop) => ExpireFirstKeeps(s, base, Min(stop, |s.jobs|), now);
      case RequeueScan(stop) => RequeueFirstKeeps(s, base, Min(stop, |s.jobs|));
      case Dispatching(jobId, workerId, now) => DispatchKeeps(s, base, jobId, workerId, now, duration);
      case DispatchUndone(jobId) => PutBackKeeps(s, base, jobId);
      case Starting(jobId, now) => StartKeeps(s, base, jobId, now, duration);
      case Finishing(jobId, ok) => FinishKeeps(s, base, jobId, if ok then Succeeded else Failed);
      case CrashAndRestart(point) => CrashKeeps(s, base, point);
    }
  }

  lemma EventKeepsConsistent(s: State, e: Event, duration: int)
    requires Consistent(s) && Admissible(s, e)
    ensures Consistent(Apply(s, e, duration))
  {
    hide Apply, BaseAfter, Admissible;
    ConsistentNeedsNoLedger(s);
    EventKeeps(s, UNKNOWN, e, duration);
  }

  /** Nothing weaker would do for consistency: a job without attempts left would be queued for ever. */
  lemma AdmissibleIsExact(s: State, e: Event, duration: int)
    requires Consistent(s)
    ensures Admissible(s, e) <==> Consistent(Apply(s, e, duration))
  {
    hide Apply, Consistent, Admissible;
    if Admissible(s, e) {
      EventKeepsConsistent(s, e, duration);
    } else {
      InadmissibleIsInconsistent(s, e, duration);
    }
  }

  lemma InadmissibleIsInconsistent(s: State, e: Event, duration: int)
    requires !Admissible(s, e)
    ensures !Consistent(Apply(s, e, duration))
  {
    ExhaustedIsUnsound(s, UNKNOWN, e.job);
    ConsistentNeedsNoLedger(Apply(s, e, duration));
    hide Consistent;
  }

  lemma CrashKeeps(s: State, base: Baseline, point: CrashPoint)
    requires Inv(s, base)
    ensures Inv(Recover(s.jobs, StoredWorkersAt(s, point)), Unused(WorkerIds(Recover(s.jobs, s.workers).workers)))
  {
    CrashPointDoesNotMatter(s, point);
    RecoverEstablishes(s.jobs, s.workers);
  }

  /** Wherever the process stopped, the restart is the restart from the state before the operation. */
  lemma CrashPointDoesNotMatter(s: State, point: CrashPoint)
    ensures Recover(s.jobs, StoredWorkersAt(s, point)) == Recover(s.jobs, s.workers)
  {
    match point {
      case BetweenOperations =>
      case MidDispatch(jobId, workerId) =>
        RecoverForgetsLedgers(s.jobs, WorkersMidDispatch(s, jobId, workerId), s.workers);
      case MidRelease(i) =>
        if i < |s.jobs| {
          RecoverForgetsLedgers(s.jobs, WorkersMidRelease(s, i), s.workers);
        }
    }
  }

  // ---------- which ledgers are accounted for ----------

  /** Workers stay where they are in the store, under their ids; only a registration adds one, at the end. */
  ghost predicate Extends(a: seq<StoredWorker>, b: seq<StoredWorker>)
  {
    |a| <= |b| && forall k :: 0 <= k < |a| ==> a[k].worker.id == b[k].worker.id
  }

  lemma FoundInExtension(a: seq<StoredWorker>, b: seq<StoredWorker>, id: Id)
    requires Extends(a, b) && FindWorker(a, id) < |a|
    ensures FindWorker(b, id) == FindWorker(a, id)
  {
    var k := FindWorker(a, id);
    assert b[k].worker.id == id;
    var m := FindWorker(b, id);
    assert a[m].worker.id == id;
  }

  lemma EventExtends(s: State, e: Event, duration: int)
    ensures Extends(s.workers, Apply(s, e, duration).workers)
    ensures !e.Registration? ==> SameIds(s.workers, Apply(s, e, duration).workers)
  {
    hide Submit, Finish, ExpireFirst, RequeueFirst, Dispatch;
    hide RolledBack, Recover, CheckFirst, RenewFirst, AfterReserve;
    match e {
      case Submission(j) => SubmitKeepsWorkers(s, j);
      case ExpiryScan(now, stop) => ExpireFirstKeepsIds(s, Min(stop, |s.jobs|), now);
      case RequeueScan(stop) => RequeueFirstKeepsWorkers(s, Min(stop, |s.jobs|));
      case Dispatching(jobId, workerId, now) => DispatchKeepsIds(s, jobId, workerId, now, duration);
      case DispatchUndone(jobId) => DispatchKeepsIds(s, jobId, jobId, 0, duration);
      case Finishing(jobId, ok) => FinishKeepsWorkers(s, jobId, if ok then Succeeded else Failed);
      case CrashAndRestart(point) =>
        CrashPointDoesNotMatter(s, point);
        RecoverKeepsIds(s.jobs, s.workers);
      case _ =>
    }
  }

  lemma SubmitKeepsWorkers(s: State, j: Job)
    ensures Submit(s, j).state.workers == s.workers
  {
  }

  lemma RecoverKeepsIds(jobs: seq<JobRecord>, workers: seq<StoredWorker>)
    ensures SameIds(workers, Recover(jobs, workers).workers)
  {
  }

  /** One event loses the account of no worker but one that then reports too little, and gains that of every new one. */
  lemma EventKeepsAccounts(s: State, base: Baseline, e: Event, duration: int, id: Id)
    requires FindWorker(s.workers, id) < |s.workers| ==> id in base
    requires e.Reregistration? && e.worker.id == id ==> Truthful(s, e)
    requires FindWorker(Apply(s, e, duration).workers, id) < |Apply(s, e, duration).workers|
    ensures id in BaseAfter(s, base, e)
  {
    EventExtends(s, e, duration);
    if e.Registration? {
      RegistrationKeepsAccounts(s, base, e.worker, e.now, id);
    } else {
      hide Submit, Heartbeat, HeartbeatInPart, Finish, ExpireFirst;
      hide RequeueFirst, Dispatch, RolledBack, Start, Recover;
      var workers' := Apply(s, e, duration).workers;
      assert s.workers[FindWorker(workers', id)].worker.id == id;
      if e.CrashAndRestart? {
        CrashPointDoesNotMatter(s, e.point);
        assert workers'[FindWorker(workers', id)].worker.id in WorkerIds(workers');
      }
    }
  }

  lemma RegistrationKeepsAccounts(s: State, base: Baseline, w: Worker, now: int, id: Id)
    requires FindWorker(s.workers, id) < |s.workers| ==> id in base
    requires FindWorker(Register(s, w, now).state.workers, id) < |Register(s, w, now).state.workers|
    ensures id in BaseAfter(s, base, Registration(w, now))
  {
    var workers' := Register(s, w, now).state.workers;
    assert forall k :: 0 <= k < |s.workers| ==> workers'[k] == s.workers[k];
    assert id != w.id ==> s.workers[FindWorker(workers', id)].worker.id == id;
  }

  /** For soundness, that is for every ledger to balance, truthful reports are needed besides, and nothing else is. */
  lemma SoundnessIsExact(s: State, e: Event, duration: int)
    requires Sound(s)
    ensures Admissible(s, e) && Truthful(s, e) <==> Sound(Apply(s, e, duration))
  {
    hide Inv, Consistent, Apply, BaseAfter, Admissible, Truthful, Covers;
    var base :| Inv(s, base) && Covers(base, s.workers);
    InvIsConsistent(s, base);
    AdmissibleIsExact(s, e, duration);
    if Admissible(s, e) && Truthful(s, e) {
      EventKeeps(s, base, e, duration);
      var s' := Apply(s, e, duration);
      forall k | 0 <= k < |s'.workers|
        ensures s'.workers[k].worker.id in BaseAfter(s, base, e)
      {
        KnownIsCovered(s, base, s'.workers[k].worker.id);
        EventKeepsAccounts(s, base, e, duration, s'.workers[k].worker.id);
      }
      AccountedForIsSound(s', BaseAfter(s, base, e));
    } else if Admissible(s, e) {
      UntruthfulIsUnsound(s, e, duration);
    } else {
      InadmissibleIsInconsistent(s, e, duration);
      SoundIsConsistent(Apply(s, e, duration));
    }
  }

  lemma KnownIsCovered(s: State, base: Baseline, id: Id)
    requires Covers(base, s.workers)
    ensures FindWorker(s.workers, id) < |s.workers| ==> id in base
  {
  }

  lemma SoundIsConsistent(s: State)
    ensures Sound(s) ==> Consistent(s)
  {
    hide Consistent;
  }

  lemma UntruthfulIsUnsound(s: State, e: Event, duration: int)
    requires Consistent(s) && !Truthful(s, e)
    ensures !Sound(Apply(s, e, duration))
  {
    var s' := Reregister(s, e.worker).state;
    ReportIsExact(s, e.worker, s');
    hide Consistent, Conserved;
    assert s'.workers[FindWorker(s.workers, e.worker.id)].worker.id == e.worker.id;
  }

  // ---------- runs ----------

  /** The state after the first `n` events. */
  function StateAt(s: State, run: seq<Event>, n: nat, duration: int): State
    requires n <= |run|
  {
    if n == 0 then s else Apply(StateAt(s, run, n - 1, duration), run[n - 1], duration)
  }

  /** Each of the first `n` events is admissible where it happens. */
  ghost predicate AdmissibleRun(s: State, run: seq<Event>, n: nat, duration: int)
    requires n <= |run|
  {
    n == 0 || (AdmissibleRun(s, run, n - 1, duration) && Admissible(StateAt(s, run, n - 1, duration), run[n - 1]))
  }

  /** Whenever the worker `id` registered again, in the first `n` events, it reported enough. */
  ghost predicate TruthfulRun(s: State, run: seq<Event>, n: nat, duration: int, id: Id)
    requires n <= |run|
  {
    n == 0
    || (&& TruthfulRun(s, run, n - 1, duration, id)
        && (run[n - 1].Reregistration? && run[n - 1].worker.id == id ==>
              Truthful(StateAt(s, run, n - 1, duration), run[n - 1])))
  }

  function BaseAt(s: State, base: Baseline, run: seq<Event>, n: nat, duration: int): Baseline
    requires n <= |run|
  {
    if n == 0 then base
    else BaseAfter(StateAt(s, run, n - 1, duration), BaseAt(s, base, run, n - 1, duration), run[n - 1])
  }

  /**
   * Over every run, whatever is rejected, retried or crashed on the way: the ledgers that are accounted for balance,
   * the queue agrees with the store, and every record is well shaped.
   */
  lemma {:induction false} RunsKeepTheInvariant(s: State, base: Baseline, run: seq<Event>, n: nat, duration: int)
    requires Inv(s, base) && n <= |run| && AdmissibleRun(s, run, n, duration)
    ensures Inv(StateAt(s, run, n, duration), BaseAt(s, base, run, n, duration))
  {
    hide Apply, BaseAfter, Admissible, Inv;
    if n > 0 {
      RunsKeepTheInvariant(s, base, run, n - 1, duration);
      EventKeeps(StateAt(s, run, n - 1, duration), BaseAt(s, base, run, n - 1, duration), run[n - 1], duration);
    }
  }

  /** ... in particular, whatever workers report, every run stays consistent. */
  lemma RunsStayConsistent(s: State, run: seq<Event>, n: nat, duration: int)
    requires Consistent(s) && n <= |run| && AdmissibleRun(s, run, n, duration)
    ensures Consistent(StateAt(s, run, n, duration))
  {
    hide Apply, BaseAfter, Admissible, StateAt, BaseAt, AdmissibleRun;
    ConsistentNeedsNoLedger(s);
    RunsKeepTheInvariant(s, UNKNOWN, run, n, duration);
  }

  /** Every worker that always reported enough is accounted for, whatever the others did. */
  lemma {:induction false} TruthfulWorkersAreAccountedFor(s: State, base: Baseline, run: seq<Event>, n: nat, duration: int,
                                                          id: Id)
    requires n <= |run| && Covers(base, s.workers) && TruthfulRun(s, run, n, duration, id)
    requires FindWorker(StateAt(s, run, n, duration).workers, id) < |StateAt(s, run, n, duration).workers|
    ensures id in BaseAt(s, base, run, n, duration)
  {
    hide Apply, BaseAfter, Truthful;
    if n > 0 {
      var a := StateAt(s, run, n - 1, duration);
      if FindWorker(a.workers, id) < |a.workers| {
        TruthfulWorkersAreAccountedFor(s, base, run, n - 1, duration, id);
      }
      EventKeepsAccounts(a, BaseAt(s, base, run, n - 1, duration), run[n - 1], duration, id);
    }
  }

  /**
   * A coordinator started on any stores with unique ids stays consistent for ever after, and no worker that always
   * reported enough is ever committed beyond its capacity; its ledger is exactly what its jobs need.
   */
  lemma EveryReachableStateIsSound(jobs: seq<JobRecord>, workers: seq<StoredWorker>, run: seq<Event>, n: nat, duration: int)
    requires UniqueJobs(jobs) && UniqueWorkers(workers)
    requires n <= |run| && AdmissibleRun(Recover(jobs, workers), run, n, duration)
    ensures Consistent(StateAt(Recover(jobs, workers), run, n, duration))
    ensures var s, s' := Recover(jobs, workers), StateAt(Recover(jobs, workers), run, n, duration);
            forall k :: 0 <= k < |s'.workers| && TruthfulRun(s, run, n, duration, s'.workers[k].worker.id) ==>
              && Balanced(s'.jobs, s'.workers[k].worker, BaseAt(s, Unused(WorkerIds(s.workers)), run, n, duration))
              && AtMost(Load(s'.jobs, s'.workers[k].worker.id), Capacity(s'.workers[k].worker))
    ensures var s, s' := Recover(jobs, workers), StateAt(Recover(jobs, workers), run, n, duration);
            (forall k :: 0 <= k < |s'.workers| ==> TruthfulRun(s, run, n, duration, s'.workers[k].worker.id)) ==> Sound(s')
  {
    hide Inv, Consistent, Apply, Admissible, Recover, Truthful, TruthfulRun, BaseAt, StateAt, Covers, Balanced;
    var s := Recover(jobs, workers);
    var base := Unused(WorkerIds(s.workers));
    RecoverEstablishes(jobs, workers);
    RunsKeepTheInvariant(s, base, run, n, duration);
    var s' := StateAt(s, run, n, duration);
    InvIsConsistent(s', BaseAt(s, base, run, n, duration));
    forall k | 0 <= k < |s'.workers| && TruthfulRun(s, run, n, duration, s'.workers[k].worker.id)
      ensures s'.workers[k].worker.id in BaseAt(s, base, run, n, duration)
      ensures Balanced(s'.jobs, s'.workers[k].worker, BaseAt(s, base, run, n, duration))
      ensures AtMost(Load(s'.jobs, s'.workers[k].worker.id), Capacity(s'.workers[k].worker))
    {
      TruthfulWorkersAreAccountedFor(s, base, run, n, duration, s'.workers[k].worker.id);
      NoWorkerIsOvercommitted(s', BaseAt(s, base, run, n, duration), k);
      InvBalances(s', BaseAt(s, base, run, n, duration), k);
    }
    if forall k :: 0 <= k < |s'.workers| ==> TruthfulRun(s, run, n, duration, s'.workers[k].worker.id) {
      AccountedForIsSound(s', BaseAt(s, base, run, n, duration));
    }
  }

  lemma InvBalances(s: State, base: Baseline, k: nat)
    requires Inv(s, base) && k < |s.workers| && s.workers[k].worker.id in base
    ensures Balanced(s.jobs, s.workers[k].worker, base)
  {
  }

  lemma AccountedForIsSound(s: State, base: Baseline)
    requires Inv(s, base) && forall k :: 0 <= k < |s.workers| ==> s.workers[k].worker.id in base
    ensures Sound(s)
  {
    assert Covers(base, s.workers);
  }

  // ---------- how jobs move ----------

  /** A move a running coordinator may make: an edge of the life cycle, an attempt per lease. */
  predicate LiveMove(a: Job, b: Job)
  {
    || a == b
    || (&& SameIdentity(a, b)
        && CanTransition(a.state, b.state)
        && (a.state.Queued? ==> b.state.Leased? && CanAttempt(a))
        && b.attempts == a.attempts + (if b.state.Leased? then 1 else 0))
  }

  /** A move a restart may make: a path of edges, no attempt, and never out of a terminal state. */
  ghost predicate RestartMove(a: Job, b: Job)
  {
    a == b || (b == InState(a, b.state) && Reaches(a.state, b.state)
           && !IsTerminal(a.state) && !a.state.Queued?
           && !IsActive(b.state) && !b.state.RetryWait?)
  }

  ghost predicate Moves(a: Job, b: Job, restart: bool)
  {
    if restart then RestartMove(a, b) else LiveMove(a, b)
  }

  /** Does this event begin an attempt of record `i`? */
  predicate Dispatches(s: State, e: Event, i: nat, duration: int)
  {
    && e.Dispatching?
    && Dispatch(s, e.jobId, e.workerId, e.now, duration).outcome.Done?
    && FindJob(s.jobs, e.jobId) == i
  }

  lemma RecoveredMoves(r: JobRecord)
    requires r.job.state.Queued? ==> CanAttempt(r.job)
    ensures RestartMove(r.job, Recovered(r).job)
  {
    var a, b := r.job.state, Recovered(r).job.state;
    assert IsPath([Leased, RetryWait, Queued]) && IsPath([Running, RetryWait, Queued]);
    assert IsPath([Leased, RetryWait, Failed]);
    assert a != b && CanTransition(a, b) ==> IsPath([a, b]);
  }

  lemma ScannedMoves(r: JobRecord, now: int)
    ensures LiveMove(r.job, Expired(r, now).job) && Expired(r, now).job.attempts == r.job.attempts
    ensures LiveMove(r.job, Retried(r).job) && Retried(r).job.attempts == r.job.attempts
  {
  }

  lemma DispatchMoves(s: State, e: Event, duration: int, i: nat)
    requires Consistent(s) && e.Dispatching? && i < |s.jobs|
    ensures var s' := Apply(s, e, duration);
            && |s'.jobs| == |s.jobs|
            && LiveMove(s.jobs[i].job, s'.jobs[i].job)
            && s'.jobs[i].job.attempts == s.jobs[i].job.attempts + (if Dispatches(s, e, i, duration) then 1 else 0)
  {
    var q := FindQueued(s.queue, e.jobId);
    if q < |s.queue| {
      QueuedJobIsStored(s, q);
    }
    hide Consistent, RolledBack, AfterReserve;
    RolledBackKeepsJobs(s, e.jobId);
  }

  lemma RolledBackKeepsJobs(s: State, jobId: Id)
    ensures RolledBack(s, jobId).jobs == s.jobs
  {
  }

  lemma SimpleMoves(s: State, e: Event, duration: int, i: nat)
    requires i < |s.jobs|
    requires !e.ExpiryScan? && !e.RequeueScan? && !e.Dispatching? && !e.CrashAndRestart?
    ensures var s' := Apply(s, e, duration);
            && i < |s'.jobs|
            && LiveMove(s.jobs[i].job, s'.jobs[i].job)
            && s'.jobs[i].job.attempts == s.jobs[i].job.attempts
  {
  }

  /** No event removes a record, changes what a job keeps for life, or moves it off the life cycle. */
  lemma EventMoves(s: State, e: Event, duration: int, i: nat)
    requires Consistent(s) && i < |s.jobs|
    ensures var s' := Apply(s, e, duration);
            && i < |s'.jobs|
            && Moves(s.jobs[i].job, s'.jobs[i].job, e.CrashAndRestart?)
            && s'.jobs[i].job.attempts == s.jobs[i].job.attempts + (if Dispatches(s, e, i, duration) then 1 else 0)
  {
    LeasedIsHeld(s, i);
    hide Consistent;
    match e {
      case ExpiryScan(now, stop) =>
        ExpireFirstIsPointwise(s, Min(stop, |s.jobs|), now);
        ScannedMoves(s.jobs[i], now);
      case RequeueScan(stop) =>
        RequeueFirstIsPointwise(s, Min(stop, |s.jobs|));
        ScannedMoves(s.jobs[i], 0);
      case Dispatching(jobId, workerId, now) => DispatchMoves(s, e, duration, i);
      case CrashAndRestart(point) =>
        RecoveredMoves(s.jobs[i]);
      case _ => SimpleMoves(s, e, duration, i);
    }
  }
}

/**
 * What each coordinator operation does to the stored jobs, the stored workers and the queue:
 * libs/coordinator/src/in_memory_coordinator.cpp. A function here is the specification of the
 * method of the same purpose in `Coordination`, errors included.
 */
module Protocol {
  import opened Errors
  import opened JobStates
  import opened Jobs
  import opened Workers
  import opened Ordering
  import opened JobQueues
  import opened Store

  datatype State = State(jobs: seq<JobRecord>, workers: seq<StoredWorker>, queue: seq<Job>)

  /** The state a call leaves behind and how it ended. */
  datatype Effect = Effect(state: State, outcome: Outcome)

  /** Ids identify jobs, workers and queue entries. */
  ghost predicate Structural(s: State)
  {
    UniqueJobs(s.jobs) && UniqueWorkers(s.workers) && DistinctIds(s.queue)
  }

  // ---------- submission and registration ----------

  function Submit(s: State, j: Job): Effect
  {
    if FindJob(s.jobs, j.id) < |s.jobs| then Effect(s, Thrown(DuplicateJob))
    else if !j.state.Queued? then Effect(s, Thrown(NotQueued))
    else if Contains(s.queue, j.id) then Effect(s, Thrown(AlreadyQueued))
    else Effect(s.(jobs := s.jobs + [JobRecord(j, None, None)], queue := s.queue + [j]), Done)
  }

  function Register(s: State, w: Worker, now: int): Effect
  {
    if FindWorker(s.workers, w.id) < |s.workers| then Effect(s, Thrown(DuplicateWorker))
    else Effect(s.(workers := s.workers + [StoredWorker(w, now)]), Done)
  }

  /** A known worker announces itself again: its record is replaced, whatever the coordinator had booked on it. */
  function Reregister(s: State, w: Worker): Effect
  {
    var k := FindWorker(s.workers, w.id);
    if k == |s.workers| then Effect(s, Thrown(UnknownWorker))
    else Effect(s.(workers := s.workers[k := s.workers[k].(worker := w)]), Done)
  }

  // ---------- heartbeats and liveness ----------

  function Revived(w: Worker): Worker
  {
    if w.state.Offline? then w.(state := Online) else w
  }

  predicate HeldBy(r: JobRecord, id: Id)
  {
    IsActive(r.job.state) && r.worker == Some(id)
  }

  function Renewed(r: JobRecord, id: Id, lease: int): JobRecord
  {
    if HeldBy(r, id) then r.(lease := Some(lease)) else r
  }

  /** The first `n` records after their leases were renewed. */
  function RenewFirst(jobs: seq<JobRecord>, n: nat, id: Id, lease: int): (r: seq<JobRecord>)
    requires n <= |jobs|
    ensures |r| == |jobs|
    ensures forall i :: 0 <= i < |r| ==> r[i] == if i < n then Renewed(jobs[i], id, lease) else jobs[i]
  {
    if n == 0 then jobs else RenewFirst(jobs, n - 1, id, lease)[n - 1 := Renewed(jobs[n - 1], id, lease)]
  }

  function Heartbeat(s: State, id: Id, time: int, duration: int): Effect
  {
    var k := FindWorker(s.workers, id);
    if k == |s.workers| then Effect(s, Thrown(UnknownWorker))
    else Effect(s.(workers := s.workers[k := StoredWorker(Revived(s.workers[k].worker), time)],
                   jobs := RenewFirst(s.jobs, |s.jobs|, id, time + duration)), Done)
  }

  /**
   * A heartbeat that a rejected write cut short: the worker is online again but its time was not stored, or that too
   * and `renewed` records were looked at.
   */
  function HeartbeatInPart(s: State, id: Id, time: int, duration: int, renewed: Option<nat>): State
  {
    var k := FindWorker(s.workers, id);
    if k == |s.workers| then s
    else
      match renewed
      case None => s.(workers := s.workers[k := s.workers[k].(worker := Revived(s.workers[k].worker))])
      case Some(n) =>
        s.(workers := s.workers[k := StoredWorker(Revived(s.workers[k].worker), time)],
           jobs := RenewFirst(s.jobs, if n < |s.jobs| then n else |s.jobs|, id, time + duration))
  }

  predicate IsStale(sw: StoredWorker, now: int, timeout: int)
  {
    sw.worker.state.Online? && now >= sw.heartbeat && now - sw.heartbeat >= timeout
  }

  function Checked(sw: StoredWorker, now: int, timeout: int): StoredWorker
  {
    if IsStale(sw, now, timeout) then sw.(worker := sw.worker.(state := Offline)) else sw
  }

  function CheckFirst(workers: seq<StoredWorker>, n: nat, now: int, timeout: int): (r: seq<StoredWorker>)
    requires n <= |workers|
    ensures |r| == |workers|
    ensures forall i :: 0 <= i < |r| ==> r[i] == if i < n then Checked(workers[i], now, timeout) else workers[i]
  {
    if n == 0 then workers else CheckFirst(workers, n - 1, now, timeout)[n - 1 := Checked(workers[n - 1], now, timeout)]
  }

  function StaleCount(workers: seq<StoredWorker>, n: nat, now: int, timeout: int): nat
    requires n <= |workers|
  {
    if n == 0 then 0
    else StaleCount(workers, n - 1, now, timeout) + (if IsStale(workers[n - 1], now, timeout) then 1 else 0)
  }

  function MarkStale(s: State, now: int, timeout: int): Effect
  {
    if timeout <= 0 then Effect(s, Thrown(InvalidTimeout))
    else Effect(s.(workers := CheckFirst(s.workers, |s.workers|, now, timeout)), Done)
  }

  // ---------- lease expiry ----------

  predicate IsDue(r: JobRecord, now: int)
  {
    r.lease.Some? && r.lease.value <= now
  }

  function ExpiredState(state: JobState): JobState
  {
    if state.CancellationRequested? then Cancelled else RetryWait
  }

  /** What expiry makes of one record. */
  function Expired(r: JobRecord, now: int): JobRecord
  {
    if !IsDue(r, now) then r
    else if !IsActive(r.job.state) then r.(lease := None)
    else JobRecord(InState(r.job, ExpiredState(r.job.state)), None, None)
  }

  /** The workers after the holder of an abandoned job, if it is known and busy, gets its resources back. */
  function ReleaseHolder(workers: seq<StoredWorker>, r: JobRecord): Result<seq<StoredWorker>>
  {
    if r.worker.None? then Ok(workers)
    else
      var k := FindWorker(workers, r.worker.value);
      if k == |workers| || workers[k].worker.running == 0 then Ok(workers)
      else
        match AfterRelease(workers[k].worker, r.job.needs)
        case Ok(w) => Ok(workers[k := workers[k].(worker := w)])
        case Err(e) => Err(e)
  }

  function ExpireOne(s: State, i: nat, now: int): Effect
    requires i < |s.jobs|
  {
    var r := s.jobs[i];
    var s' := s.(jobs := s.jobs[i := Expired(r, now)]);
    if !IsDue(r, now) || !IsActive(r.job.state) then Effect(s', Done)
    else
      match ReleaseHolder(s.workers, r)
      case Ok(workers) => Effect(s'.(workers := workers), Done)
      case Err(e) => Effect(s, Thrown(e))
  }

  /** The first `n` records of the scan. A refused release ends it, keeping what was already done. */
  function ExpireFirst(s: State, n: nat, now: int): (e: Effect)
    requires n <= |s.jobs|
    ensures |e.state.jobs| == |s.jobs|
  {
    if n == 0 then Effect(s, Done)
    else
      var e := ExpireFirst(s, n - 1, now);
      if e.outcome.Thrown? then e else ExpireOne(e.state, n - 1, now)
  }

  function Expire(s: State, now: int): Effect
  {
    ExpireFirst(s, |s.jobs|, now)
  }

  function ExpiredCount(jobs: seq<JobRecord>, n: nat, now: int): nat
    requires n <= |jobs|
  {
    if n == 0 then 0
    else ExpiredCount(jobs, n - 1, now) + (if IsDue(jobs[n - 1], now) && IsActive(jobs[n - 1].job.state) then 1 else 0)
  }

  // ---------- requeueing ----------

  function Retried(r: JobRecord): JobRecord
  {
    if !r.job.state.RetryWait? then r
    else r.(job := InState(r.job, if CanAttempt(r.job) then Queued else Failed))
  }

  function RequeueOne(s: State, i: nat): Effect
    requires i < |s.jobs|
  {
    var r := s.jobs[i];
    var s' := s.(jobs := s.jobs[i := Retried(r)]);
    if !r.job.state.RetryWait? then Effect(s, Done)
    else if r.worker.Some? || r.lease.Some? then Effect(s, Thrown(StrandedRetry))
    else if !CanAttempt(r.job) then Effect(s', Done)
    else if Contains(s.queue, r.job.id) then Effect(s, Thrown(AlreadyQueued))
    else Effect(s'.(queue := s.queue + [Retried(r).job]), Done)
  }

  function RequeueFirst(s: State, n: nat): (e: Effect)
    requires n <= |s.jobs|
    ensures |e.state.jobs| == |s.jobs|
  {
    if n == 0 then Effect(s, Done)
    else
      var e := RequeueFirst(s, n - 1);
      if e.outcome.Thrown? then e else RequeueOne(e.state, n - 1)
  }

  function Requeue(s: State): Effect
  {
    RequeueFirst(s, |s.jobs|)
  }

  function RequeuedCount(jobs: seq<JobRecord>, n: nat): nat
    requires n <= |jobs|
  {
    if n == 0 then 0
    else RequeuedCount(jobs, n - 1) + (if jobs[n - 1].job.state.RetryWait? && CanAttempt(jobs[n - 1].job) then 1 else 0)
  }

  // ---------- dispatch ----------

  /** A job that starts an attempt and is leased. */
  function Leasing(j: Job): Result<Job>
  {
    match AfterAttempt(j)
    case Err(e) => Err(e)
    case Ok(j') => AfterTransition(j', Leased)
  }

  /** A job and a worker once the one is leased to the other. */
  datatype Reservation = Reservation(job: Job, worker: Worker)

  function LeaseOn(j: Job, w: Worker): (r: Result<Reservation>)
    ensures r.Ok? ==> r.value.job.id == j.id && r.value.worker.id == w.id
    ensures r != Err(StorageFailure)
  {
    if !CanAttempt(j) then Err(AttemptsExhausted)
    else
      match Leasing(j)
      case Err(e) => Err(e)
      case Ok(job) =>
        match AfterReserve(w, j.needs)
        case Err(e) => Err(e)
        case Ok(w') => Ok(Reservation(job, w'))
  }

  /** The queue after a failed dispatch: the job is back, unless it could not be queued. */
  function PutBack(queue: seq<Job>, j: Job): seq<Job>
  {
    if Contains(queue, j.id) || !j.state.Queued? then queue else queue + [j]
  }

  /** The state a dispatch leaves when it is rejected after it took the job from the queue. */
  function RolledBack(s: State, jobId: Id): State
  {
    var q, i := FindQueued(s.queue, jobId), FindJob(s.jobs, jobId);
    if q == |s.queue| then s
    else if i == |s.jobs| then s.(queue := PutBack(Without(s.queue, q), s.queue[q]))
    else s.(queue := PutBack(Without(s.queue, q), s.jobs[i].job))
  }

  function Dispatch(s: State, jobId: Id, workerId: Id, now: int, duration: int): Effect
  {
    var k, q, i := FindWorker(s.workers, workerId), FindQueued(s.queue, jobId), FindJob(s.jobs, jobId);
    if k == |s.workers| then Effect(s, Thrown(UnknownWorker))
    else if q == |s.queue| then Effect(s, Thrown(UnknownJob))
    else if i == |s.jobs| then
      Effect(RolledBack(s, jobId), Thrown(if s.queue[q].state.Queued? then UnknownJob else NotQueued))
    else
      match LeaseOn(s.queue[q], s.workers[k].worker)
      case Err(e) => Effect(RolledBack(s, jobId), Thrown(e))
      case Ok(r) =>
        Effect(State(s.jobs[i := JobRecord(r.job, Some(workerId), Some(now + duration))],
                     s.workers[k := s.workers[k].(worker := r.worker)],
                     Without(s.queue, q)), Done)
  }

  // ---------- start and finish ----------

  function Start(s: State, jobId: Id, now: int, duration: int): Effect
  {
    var i := FindJob(s.jobs, jobId);
    if i == |s.jobs| then Effect(s, Thrown(UnknownJob))
    else if s.jobs[i].worker.None? then Effect(s, Thrown(UnassignedJob))
    else
      match AfterTransition(s.jobs[i].job, Running)
      case Err(e) => Effect(s, Thrown(e))
      case Ok(job) => Effect(s.(jobs := s.jobs[i := s.jobs[i].(job := job, lease := Some(now + duration))]), Done)
  }

  function Finish(s: State, jobId: Id, final: JobState): Effect
  {
    var i := FindJob(s.jobs, jobId);
    if i == |s.jobs| then Effect(s, Thrown(UnknownJob))
    else if s.jobs[i].worker.None? then Effect(s, Thrown(UnassignedJob))
    else
      match AfterTransition(s.jobs[i].job, final)
      case Err(e) => Effect(s, Thrown(e))
      case Ok(job) =>
        var k := FindWorker(s.workers, s.jobs[i].worker.value);
        if k == |s.workers| then Effect(s, Thrown(UnknownWorker))
        else
          match AfterRelease(s.workers[k].worker, job.needs)
          case Err(e) => Effect(s, Thrown(e))
          case Ok(w) =>
            Effect(s.(jobs := s.jobs[i := s.jobs[i].(job := job, lease := None)],
                      workers := s.workers[k := s.workers[k].(worker := w)]), Done)
  }

  // ---------- restart ----------

  function FullCapacity(w: Worker): Worker
  {
    w.(availableCpu := w.totalCpu, availableMemory := w.totalMemory, availableDisk := w.totalDisk, running := 0)
  }

  function RestoreFirst(workers: seq<StoredWorker>, n: nat): (r: seq<StoredWorker>)
    requires n <= |workers|
    ensures |r| == |workers|
    ensures forall i :: 0 <= i < |r| ==>
              r[i] == if i < n then workers[i].(worker := FullCapacity(workers[i].worker)) else workers[i]
  {
    if n == 0 then workers
    else RestoreFirst(workers, n - 1)[n - 1 := workers[n - 1].(worker := FullCapacity(workers[n - 1].worker))]
  }

  /** What a restart makes of one record. */
  function Recovered(r: JobRecord): JobRecord
  {
    match r.job.state
    case Queued => JobRecord(if CanAttempt(r.job) then r.job else InState(r.job, Failed), None, None)
    case Leased => Abandoned(r)
    case Running => Abandoned(r)
    case RetryWait => Abandoned(r)
    case CancellationRequested => JobRecord(InState(r.job, Cancelled), None, None)
    case _ => r.(lease := None)
  }

  function Abandoned(r: JobRecord): JobRecord
  {
    JobRecord(InState(r.job, if CanAttempt(r.job) then Queued else Failed), None, None)
  }

  function RecoverFirst(jobs: seq<JobRecord>, n: nat): (r: seq<JobRecord>)
    requires n <= |jobs|
    ensures |r| == |jobs|
    ensures forall i :: 0 <= i < |r| ==> r[i] == if i < n then Recovered(jobs[i]) else jobs[i]
  {
    if n == 0 then jobs else RecoverFirst(jobs, n - 1)[n - 1 := Recovered(jobs[n - 1])]
  }

  /** The jobs of the first `n` records that are queued, in store order. */
  function QueuedAmong(jobs: seq<JobRecord>, n: nat): seq<Job>
    requires n <= |jobs|
  {
    if n == 0 then []
    else QueuedAmong(jobs, n - 1) + (if jobs[n - 1].job.state.Queued? then [jobs[n - 1].job] else [])
  }

  /** A coordinator started on these stores. */
  function Recover(jobs: seq<JobRecord>, workers: seq<StoredWorker>): State
  {
    var jobs' := RecoverFirst(jobs, |jobs|);
    State(jobs', RestoreFirst(workers, |workers|), QueuedAmong(jobs', |jobs'|))
  }
}

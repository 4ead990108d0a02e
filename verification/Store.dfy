/** Stored records and the repositories: libs/persistence/src/in_memory_*_repository.cpp. */
module Store {
  import opened Errors
  import opened Jobs
  import opened Workers
  import opened Ordering

  /** A job with the coordinator's own data about it: its holder and when the lease runs out. */
  datatype JobRecord = JobRecord(job: Job, worker: Option<Id>, lease: Option<int>)

  /** A worker with the time of its last heartbeat. Times are in milliseconds. */
  datatype StoredWorker = StoredWorker(worker: Worker, heartbeat: int)

  ghost predicate UniqueJobs(jobs: seq<JobRecord>)
  {
    forall i, j :: 0 <= i < j < |jobs| ==> jobs[i].job.id != jobs[j].job.id
  }

  ghost predicate UniqueWorkers(workers: seq<StoredWorker>)
  {
    forall i, j :: 0 <= i < j < |workers| ==> workers[i].worker.id != workers[j].worker.id
  }

  /** The index `std::find_if` yields for an id, or the length. */
  function FindJob(jobs: seq<JobRecord>, id: Id): (i: nat)
    ensures i <= |jobs|
    ensures i < |jobs| ==> jobs[i].job.id == id
    ensures forall k :: 0 <= k < i ==> jobs[k].job.id != id
  {
    if jobs == [] then 0
    else
      var before := jobs[..|jobs| - 1];
      var i := FindJob(before, id);
      if i < |before| || jobs[|jobs| - 1].job.id == id then i else |jobs|
  }

  function FindWorker(workers: seq<StoredWorker>, id: Id): (i: nat)
    ensures i <= |workers|
    ensures i < |workers| ==> workers[i].worker.id == id
    ensures forall k :: 0 <= k < i ==> workers[k].worker.id != id
  {
    if workers == [] then 0
    else
      var before := workers[..|workers| - 1];
      var i := FindWorker(before, id);
      if i < |before| || workers[|workers| - 1].worker.id == id then i else |workers|
  }

  lemma JobFindsItself(jobs: seq<JobRecord>, i: nat)
    requires UniqueJobs(jobs) && i < |jobs|
    ensures FindJob(jobs, jobs[i].job.id) == i
  {
  }

  lemma WorkerFindsItself(workers: seq<StoredWorker>, k: nat)
    requires UniqueWorkers(workers) && k < |workers|
    ensures FindWorker(workers, workers[k].worker.id) == k
  {
  }

  function Snapshots(workers: seq<StoredWorker>): (r: seq<Worker>)
    ensures |r| == |workers| && forall i :: 0 <= i < |r| ==> r[i] == workers[i].worker
  {
    if workers == [] then [] else Snapshots(workers[..|workers| - 1]) + [workers[|workers| - 1].worker]
  }

  /**
   * The job store. Any write to it may be rejected without effect when it is not `reliable`;
   * the in-memory repository is, a database need not be. `rejections` counts the rejected writes.
   */
  class JobRepository {
    const reliable: bool
    var records: seq<JobRecord>
    ghost var rejections: nat

    ghost predicate Valid()
      reads this
    {
      UniqueJobs(records) && (reliable ==> rejections == 0)
    }

    constructor (reliable: bool, records: seq<JobRecord>)
      requires UniqueJobs(records)
      ensures Valid() && this.records == records && this.reliable == reliable && rejections == 0
    {
      this.reliable := reliable;
      this.records := records;
      this.rejections := 0;
    }

    /** Whether the storage rejects the write that is about to be made. */
    method Rejects() returns (rejected: bool)
      requires Valid()
      modifies this`rejections
      ensures Valid()
      ensures rejections == old(rejections) + (if rejected then 1 else 0)
    {
      rejected := *;
      rejected := rejected && !reliable;
      rejections := if rejected then rejections + 1 else rejections;
    }

    method Insert(r: JobRecord) returns (o: Outcome)
      requires Valid()
      modifies this
      ensures Valid()
      ensures o == Done ==> FindJob(old(records), r.job.id) == |old(records)| && records == old(records) + [r]
      ensures o != Done ==> records == old(records)
      ensures o == Thrown(DuplicateJob) <==> FindJob(old(records), r.job.id) < |old(records)|
      ensures o in {Done, Thrown(DuplicateJob), Thrown(StorageFailure)}
      ensures rejections == old(rejections) + (if o == Thrown(StorageFailure) then 1 else 0)
    {
      if FindJob(records, r.job.id) < |records| {
        return Thrown(DuplicateJob);
      }
      var rejected := Rejects();
      if rejected {
        return Thrown(StorageFailure);
      }
      records := records + [r];
      return Done;
    }

    method Update(r: JobRecord) returns (o: Outcome)
      requires Valid()
      modifies this
      ensures Valid()
      ensures var i := FindJob(old(records), r.job.id);
              if o == Done then i < |old(records)| && records == old(records)[i := r]
              else records == old(records)
      ensures o == Thrown(UnknownJob) <==> FindJob(old(records), r.job.id) == |old(records)|
      ensures o in {Done, Thrown(UnknownJob), Thrown(StorageFailure)}
      ensures rejections == old(rejections) + (if o == Thrown(StorageFailure) then 1 else 0)
    {
      var i := FindJob(records, r.job.id);
      if i == |records| {
        return Thrown(UnknownJob);
      }
      var rejected := Rejects();
      if rejected {
        return Thrown(StorageFailure);
      }
      records := records[i := r];
      return Done;
    }

    method Get(id: Id) returns (r: Option<JobRecord>)
      ensures var i := FindJob(records, id);
              r == if i < |records| then Some(records[i]) else None
    {
      var i := FindJob(records, id);
      r := if i < |records| then Some(records[i]) else None;
    }

    method List() returns (r: seq<JobRecord>)
      ensures r == records
    {
      r := records;
    }

    method Erase(id: Id) returns (o: Outcome)
      requires Valid()
      modifies this
      ensures Valid()
      ensures var i := FindJob(old(records), id);
              if o == Done then i < |old(records)| && records == Without(old(records), i)
              else records == old(records)
      ensures o == Thrown(UnknownJob) <==> FindJob(old(records), id) == |old(records)|
      ensures o in {Done, Thrown(UnknownJob), Thrown(StorageFailure)}
      ensures rejections == old(rejections) + (if o == Thrown(StorageFailure) then 1 else 0)
    {
      var i := FindJob(records, id);
      if i == |records| {
        return Thrown(UnknownJob);
      }
      var rejected := Rejects();
      if rejected {
        return Thrown(StorageFailure);
      }
      records := Without(records, i);
      return Done;
    }
  }

  /** The worker store. Updating a worker leaves its heartbeat alone. */
  class WorkerRepository {
    const reliable: bool
    var records: seq<StoredWorker>
    ghost var rejections: nat

    ghost predicate Valid()
      reads this
    {
      UniqueWorkers(records) && (reliable ==> rejections == 0)
    }

    constructor (reliable: bool, records: seq<StoredWorker>)
      requires UniqueWorkers(records)
      ensures Valid() && this.records == records && this.reliable == reliable && rejections == 0
    {
      this.reliable := reliable;
      this.records := records;
      this.rejections := 0;
    }

    /** Whether the storage rejects the write that is about to be made. */
    method Rejects() returns (rejected: bool)
      requires Valid()
      modifies this`rejections
      ensures Valid()
      ensures rejections == old(rejections) + (if rejected then 1 else 0)
    {
      rejected := *;
      rejected := rejected && !reliable;
      rejections := if rejected then rejections + 1 else rejections;
    }

    method Insert(w: Worker, now: int) returns (o: Outcome)
      requires Valid()
      modifies this
      ensures Valid()
      ensures o == Done ==>
                FindWorker(old(records), w.id) == |old(records)| && records == old(records) + [StoredWorker(w, now)]
      ensures o != Done ==> records == old(records)
      ensures o == Thrown(DuplicateWorker) <==> FindWorker(old(records), w.id) < |old(records)|
      ensures o in {Done, Thrown(DuplicateWorker), Thrown(StorageFailure)}
      ensures rejections == old(rejections) + (if o == Thrown(StorageFailure) then 1 else 0)
    {
      if FindWorker(records, w.id) < |records| {
        return Thrown(DuplicateWorker);
      }
      var rejected := Rejects();
      if rejected {
        return Thrown(StorageFailure);
      }
      records := records + [StoredWorker(w, now)];
      return Done;
    }

    method Update(w: Worker) returns (o: Outcome)
      requires Valid()
      modifies this
      ensures Valid()
      ensures var i := FindWorker(old(records), w.id);
              if o == Done then i < |old(records)| && records == old(records)[i := old(records)[i].(worker := w)]
              else records == old(records)
      ensures o == Thrown(UnknownWorker) <==> FindWorker(old(records), w.id) == |old(records)|
      ensures o in {Done, Thrown(UnknownWorker), Thrown(StorageFailure)}
      ensures rejections == old(rejections) + (if o == Thrown(StorageFailure) then 1 else 0)
    {
      var i := FindWorker(records, w.id);
      if i == |records| {
        return Thrown(UnknownWorker);
      }
      var rejected := Rejects();
      if rejected {
        return Thrown(StorageFailure);
      }
      records := records[i := records[i].(worker := w)];
      return Done;
    }

    method RecordHeartbeat(id: Id, time: int) returns (o: Outcome)
      requires Valid()
      modifies this
      ensures Valid()
      ensures var i := FindWorker(old(records), id);
              if o == Done then i < |old(records)| && records == old(records)[i := old(records)[i].(heartbeat := time)]
              else records == old(records)
      ensures o == Thrown(UnknownWorker) <==> FindWorker(old(records), id) == |old(records)|
      ensures o in {Done, Thrown(UnknownWorker), Thrown(StorageFailure)}
      ensures rejections == old(rejections) + (if o == Thrown(StorageFailure) then 1 else 0)
    {
      var i := FindWorker(records, id);
      if i == |records| {
        return Thrown(UnknownWorker);
      }
      var rejected := Rejects();
      if rejected {
        return Thrown(StorageFailure);
      }
      records := records[i := records[i].(heartbeat := time)];
      return Done;
    }

    method Get(id: Id) returns (r: Option<Worker>)
      ensures var i := FindWorker(records, id);
              r == if i < |records| then Some(records[i].worker) else None
    {
      var i := FindWorker(records, id);
      r := if i < |records| then Some(records[i].worker) else None;
    }

    method LastHeartbeat(id: Id) returns (r: Option<int>)
      ensures var i := FindWorker(records, id);
              r == if i < |records| then Some(records[i].heartbeat) else None
    {
      var i := FindWorker(records, id);
      r := if i < |records| then Some(records[i].heartbeat) else None;
    }

    method List() returns (r: seq<Worker>)
      ensures r == Snapshots(records)
    {
      r := [];
      for i := 0 to |records|
        invariant r == Snapshots(records[..i])
      {
        assert records[..i + 1][..i] == records[..i];
        r := r + [records[i].worker];
      }
      assert records[..|records|] == records;
    }
  }
}

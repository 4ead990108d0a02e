/** Jobs and their mutators: libs/domain/src/job.cpp and resource.cpp. */
module Jobs {
  import opened Errors
  import opened JobStates

  const TWO_TO_64: int := 0x1_0000_0000_0000_0000

  /** A 64-bit unsigned quantity: bytes, slots and counters. */
  type u64 = x: int | 0 <= x < TWO_TO_64

  /** Tags are not empty. */
  type Tag = s: string | |s| > 0 witness "-"

  datatype RequirementFields = RequirementFields(cpu: real, memory: u64, disk: u64, gpu: bool, tags: seq<Tag>)

  /** What the constructor accepts. */
  predicate ValidRequirements(q: RequirementFields)
  {
    q.cpu > 0.0
  }

  type Requirements = q: RequirementFields | ValidRequirements(q)
    witness RequirementFields(1.0, 0, 0, false, [])

  datatype JobFields = JobFields(
    id: Id,
    name: string,
    priority: int,
    needs: Requirements,
    sleepMillis: int,
    state: JobState,
    createdAt: int,
    attempts: u64,
    maxAttempts: u64)

  /** What the constructor accepts. */
  predicate ValidJob(j: JobFields)
  {
    |j.name| > 0 && j.maxAttempts > 0 && j.attempts <= j.maxAttempts
  }

  type Job = j: JobFields | ValidJob(j)
    witness JobFields("-", "-", 0, RequirementFields(1.0, 0, 0, false, []), 1, Queued, 0, 0, 1)

  /** Rebuilds a job from stored fields, in any state. */
  function Restore(fields: JobFields): (r: Result<Job>)
    ensures r.Ok? <==> ValidJob(fields)
    ensures r.Ok? ==> r.value == fields
  {
    if |fields.name| == 0 || fields.maxAttempts == 0 || fields.attempts > fields.maxAttempts
    then Err(InvalidJob)
    else Ok(fields)
  }

  /** A copy of `j` in another state; restoring a job's own fields is never refused. */
  function InState(j: Job, state: JobState): (r: Job)
    ensures Restore(j.(state := state)) == Ok(r)
  {
    j.(state := state)
  }

  predicate CanAttempt(j: Job)
  {
    j.attempts < j.maxAttempts
  }

  function AfterAttempt(j: Job): Result<Job>
  {
    if !j.state.Queued? then Err(NotQueued)
    else if !CanAttempt(j) then Err(AttemptsExhausted)
    else Ok(j.(attempts := j.attempts + 1))
  }

  function AfterTransition(j: Job, next: JobState): Result<Job>
  {
    if CanTransition(j.state, next) then Ok(InState(j, next)) else Err(IllegalTransition)
  }

  /** Everything a job keeps from submission to its outcome. */
  predicate SameIdentity(a: Job, b: Job)
  {
    b == a.(state := b.state, attempts := b.attempts)
  }

  /** The mutable job object; `state` and `attempts` are the fields its methods update. */
  class JobObject {
    const initial: Job
    var state: JobState
    var attempts: u64

    ghost predicate Valid()
      reads this
    {
      attempts <= initial.maxAttempts
    }

    function Value(): Job
      requires Valid()
      reads this
    {
      initial.(state := state, attempts := attempts)
    }

    constructor (j: Job)
      ensures Valid() && Value() == j
    {
      initial := j;
      state := j.state;
      attempts := j.attempts;
    }

    method RecordAttempt() returns (o: Outcome)
      requires Valid()
      modifies this
      ensures Valid()
      ensures match AfterAttempt(old(Value()))
              case Ok(j) => o == Done && Value() == j
              case Err(e) => o == Thrown(e) && Value() == old(Value())
      ensures o.Done? <==> old(state).Queued? && old(attempts) < initial.maxAttempts
      ensures o == Thrown(NotQueued) <==> !old(state).Queued?
      ensures o.Thrown? ==> o.error in {NotQueued, AttemptsExhausted}
      ensures state == old(state) && attempts == old(attempts) + (if o.Done? then 1 else 0)
    {
      if !state.Queued? {
        return Thrown(NotQueued);
      }
      if attempts >= initial.maxAttempts {
        return Thrown(AttemptsExhausted);
      }
      attempts := attempts + 1;
      return Done;
    }

    method TransitionTo(next: JobState) returns (o: Outcome)
      requires Valid()
      modifies this
      ensures Valid()
      ensures match AfterTransition(old(Value()), next)
              case Ok(j) => o == Done && Value() == j
              case Err(e) => o == Thrown(e) && Value() == old(Value())
      ensures o == if CanTransition(old(state), next) then Done else Thrown(IllegalTransition)
      ensures state == (if o.Done? then next else old(state)) && attempts == old(attempts)
    {
      if !CanTransition(state, next) {
        return Thrown(IllegalTransition);
      }
      state := next;
      return Done;
    }
  }
}

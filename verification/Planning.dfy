/** The search over (job, worker) pairs: libs/scheduler/src/dispatch_planner.cpp. */
module Planning {
  import opened Errors
  import opened Jobs
  import opened Workers
  import opened Ordering
  import opened JobQueues
  import opened Policies

  datatype DispatchDecision = DispatchDecision(
    jobId: Id,
    workerId: Id,
    policyName: string,
    eligibleCount: nat,
    score: Option<real>)

  /** A decision, if any, and the policy state it leaves behind. */
  datatype Plan = Plan(decision: Option<DispatchDecision>, policy: PolicyState)

  function Combined(j: Job, d: SchedulingDecision): DispatchDecision
  {
    DispatchDecision(j.id, d.workerId, d.policyName, d.eligibleCount, d.score)
  }

  /** Asks the policy about each job in turn until it selects a worker. */
  function PlanAlong(p: PolicyState, ordered: seq<Job>, ws: seq<Worker>): Plan
  {
    if ordered == [] then Plan(None, p)
    else
      var decision := Decide(p, ordered[0].needs, ws);
      var p' := Advanced(p, ordered[0].needs, ws);
      if decision.Some? then Plan(Some(Combined(ordered[0], decision.value)), p')
      else PlanAlong(p', ordered[1..], ws)
  }

  function PlanFor(p: PolicyState, q: seq<Job>, ws: seq<Worker>): Plan
  {
    PlanAlong(p, Ordered(q), ws)
  }

  ghost predicate Runnable(j: Job, ws: seq<Worker>)
  {
    exists w :: w in ws && Eligible(j.needs, w)
  }

  /** `d` sends job `j` to a worker that can take it. */
  ghost predicate Sends(d: DispatchDecision, j: Job, ws: seq<Worker>)
  {
    d.jobId == j.id && exists w :: w in ws && Eligible(j.needs, w) && w.id == d.workerId
  }

  /**
   * The position at which the search stops: the first job that fits some worker, or the end. The decision is the
   * policy's for that job, and the policy advances by that decision alone.
   */
  lemma {:induction false} PlanAlongIsFirst(p: PolicyState, ordered: seq<Job>, ws: seq<Worker>) returns (i: nat)
    ensures i <= |ordered| && forall k :: 0 <= k < i ==> !Runnable(ordered[k], ws)
    ensures PlanAlong(p, ordered, ws).decision.None? ==> i == |ordered|
    ensures PlanAlong(p, ordered, ws).decision.Some? ==>
              i < |ordered| && Sends(PlanAlong(p, ordered, ws).decision.value, ordered[i], ws)
    ensures i < |ordered| ==> IsDecision(PlanAlong(p, ordered, ws), ordered[i], p, ws)
    ensures i == |ordered| ==> PlanAlong(p, ordered, ws).policy == p
  {
    i := 0;
    if ordered != [] {
      DecidesIffEligible(p, ordered[0].needs, ws);
      if Decide(p, ordered[0].needs, ws).None? {
        assert !Runnable(ordered[0], ws);
        assert Advanced(p, ordered[0].needs, ws) == p;
        i := PlanAlongIsFirst(p, ordered[1..], ws);
        i := i + 1;
      }
    }
  }

  /** The plan is what the policy decides for job `j`, in every field, and leaves the policy as that decision does. */
  predicate IsDecision(plan: Plan, j: Job, p: PolicyState, ws: seq<Worker>)
  {
    var choice := Decide(p, j.needs, ws);
    && plan.decision.Some? && choice.Some?
    && plan.policy == Advanced(p, j.needs, ws)
    && var d, c := plan.decision.value, choice.value;
       && d.jobId == j.id && d.workerId == c.workerId && d.policyName == c.policyName
       && d.eligibleCount == c.eligibleCount && d.score == c.score
  }

  /**
   * The planner finds nothing exactly when no queued job fits any worker; otherwise it sends the
   * first job, in running order, that fits some worker, to a worker it fits.
   */
  lemma PlanSendsTheFirstRunnableJob(p: PolicyState, q: seq<Job>, ws: seq<Worker>)
    requires DistinctIds(q)
    ensures PlanFor(p, q, ws).decision.None? <==> forall j :: j in q ==> !Runnable(j, ws)
    ensures PlanFor(p, q, ws).decision.Some? ==>
              var d := PlanFor(p, q, ws).decision.value;
              exists j :: j in q && Sends(d, j, ws) &&
                          forall k :: k in q && k != j && Runnable(k, ws) ==> RunsBefore(j, k)
  {
    var ordered := Ordered(q);
    var i := PlanAlongIsFirst(p, ordered, ws);
    SameElements(ordered, q);
    OrderedIsTheSortedPermutation(q, ordered);
    if i < |ordered| {
      var j := ordered[i];
      assert j in ordered && Runnable(j, ws);
      forall k | k in q && k != j && Runnable(k, ws)
        ensures RunsBefore(j, k)
      {
        var m :| 0 <= m < |ordered| && ordered[m] == k;
        assert m > i;
      }
    }
  }

  /** A plan is one decision of the policy, about the queued job it sends; a plan that sends nothing asks nothing. */
  lemma PlanIsOneDecision(p: PolicyState, q: seq<Job>, ws: seq<Worker>)
    requires DistinctIds(q)
    ensures var plan := PlanFor(p, q, ws);
            if plan.decision.None? then plan.policy == p
            else
              var i := FindQueued(q, plan.decision.value.jobId);
              i < |q| && IsDecision(plan, q[i], p, ws)
  {
    hide PlanAlong, Ordered, IsDecision, DistinctIds, Runnable, Eligible;
    var ordered := Ordered(q);
    var i := PlanAlongIsFirst(p, ordered, ws);
    SameElements(ordered, q);
    if i < |ordered| {
      assert ordered[i] in q;
      var m :| 0 <= m < |q| && q[m] == ordered[i];
      QueuedFindsItself(q, m);
    }
  }

  // ---------- fairness of whole plans ----------

  /** The queue and the workers that one plan is made from. */
  datatype Round = Round(queue: seq<Job>, workers: seq<Worker>)

  function PolicyAfter(p: PolicyState, rounds: seq<Round>, n: nat): PolicyState
    requires n <= |rounds|
  {
    if n == 0 then p
    else PlanFor(PolicyAfter(p, rounds, n - 1), rounds[n - 1].queue, rounds[n - 1].workers).policy
  }

  function PlanAt(p: PolicyState, rounds: seq<Round>, n: nat): Plan
    requires n < |rounds|
  {
    PlanFor(PolicyAfter(p, rounds, n), rounds[n].queue, rounds[n].workers)
  }

  /** The plan sends a job for which exactly the workers `ids` are eligible. */
  ghost predicate ChoosesAmong(plan: Plan, round: Round, ids: seq<Id>)
  {
    && plan.decision.Some?
    && var i := FindQueued(round.queue, plan.decision.value.jobId);
       i < |round.queue| && CandidateIds(round.queue[i].needs, round.workers) == ids
  }

  /**
   * Whatever jobs come and go and whatever capacity changes: as long as the same n workers are eligible for the job
   * that is sent, plan k sends it to position (start + k) mod n among them, in id order.
   */
  lemma {:induction false} PlansGoRound(p: PolicyState, rounds: seq<Round>, ids: seq<Id>, k: nat)
    requires p.kind.RoundRobin? && k < |rounds| && ids != []
    requires forall m :: 0 <= m <= k ==> DistinctIds(rounds[m].queue) && ChoosesAmong(PlanAt(p, rounds, m), rounds[m], ids)
    ensures PlanAt(p, rounds, k).decision.Some?
    ensures PlanAt(p, rounds, k).decision.value.workerId == ids[(p.nextIndex + k) % |ids|]
    ensures PolicyAfter(p, rounds, k).kind == p.kind
    ensures PolicyAfter(p, rounds, k).nextIndex % |ids| == (p.nextIndex + k) % |ids|
  {
    hide PlanFor, DistinctIds, ChoosesAmong;
    assert ChoosesAmong(PlanAt(p, rounds, k), rounds[k], ids);
    if k > 0 {
      PlansGoRound(p, rounds, ids, k - 1);
      assert ChoosesAmong(PlanAt(p, rounds, k - 1), rounds[k - 1], ids);
      OneRound(PolicyAfter(p, rounds, k - 1), rounds[k - 1], ids);
      ModSuccessor(p.nextIndex + k - 1, |ids|);
    }
    OneRound(PolicyAfter(p, rounds, k), rounds[k], ids);
  }

  lemma OneRound(p: PolicyState, round: Round, ids: seq<Id>)
    requires p.kind.RoundRobin? && ids != [] && DistinctIds(round.queue)
    requires ChoosesAmong(PlanFor(p, round.queue, round.workers), round, ids)
    ensures var plan, n := PlanFor(p, round.queue, round.workers), |ids|;
            && plan.decision.Some? && plan.decision.value.workerId == ids[p.nextIndex % n]
            && plan.policy.kind == p.kind
            && plan.policy.nextIndex % n == if p.nextIndex % n + 1 == n then 0 else p.nextIndex % n + 1
  {
    var plan := PlanFor(p, round.queue, round.workers);
    PlanIsOneDecision(p, round.queue, round.workers);
    FirstSelection(p, round.queue[FindQueued(round.queue, plan.decision.value.jobId)].needs, round.workers);
    hide PlanFor, Decide, Advanced, DistinctIds;
  }

  class DispatchPlanner {
    const policy: Policy

    constructor (policy: Policy)
      ensures this.policy == policy
    {
      this.policy := policy;
    }

    method Plan(queue: JobQueue, ws: seq<Worker>) returns (d: Option<DispatchDecision>)
      modifies policy
      ensures d == PlanFor(old(policy.State()), queue.jobs, ws).decision
      ensures policy.State() == PlanFor(old(policy.State()), queue.jobs, ws).policy
    {
      var ordered := queue.OrderedJobs();
      for i := 0 to |ordered|
        invariant PlanAlong(policy.State(), ordered[i..], ws) == PlanAlong(old(policy.State()), ordered, ws)
      {
        var decision := policy.SelectWorker(ordered[i].needs, ws);
        if decision.Some? {
          return Some(Combined(ordered[i], decision.value));
        }
        assert ordered[i..][1..] == ordered[i + 1..];
      }
      return None;
    }
  }
}

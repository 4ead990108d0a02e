/** Planned dispatches apply, and repeating them empties the queue as far as capacity allows. */
module Draining {
  import opened Errors
  import opened JobStates
  import opened Jobs
  import opened Workers
  import opened Ledger
  import opened Ordering
  import opened JobQueues
  import opened Policies
  import opened Planning
  import opened Store
  import opened Protocol
  import opened Conservation
  import opened Preservation

  /** A queued job and a stored worker that is eligible for it can always be brought together. */
  lemma EligiblePairApplies(s: State, j: Job, w: Worker, now: int, duration: int)
    requires Consistent(s) && j in s.queue && w in Snapshots(s.workers) && Eligible(j.needs, w)
    ensures var e := Dispatch(s, j.id, w.id, now, duration);
            && e.outcome.Done?
            && FindQueued(s.queue, j.id) < |s.queue| && s.queue[FindQueued(s.queue, j.id)] == j
            && FindWorker(s.workers, w.id) < |s.workers| && s.workers[FindWorker(s.workers, w.id)].worker == w
  {
    var m :| 0 <= m < |s.queue| && s.queue[m] == j;
    var k :| 0 <= k < |s.workers| && Snapshots(s.workers)[k] == w;
    QueuedJobIsStored(s, m);
    QueuedFindsItself(s.queue, m);
    WorkerFindsItself(s.workers, k);
    hide Consistent, RolledBack, Eligible;
    ReserveTakes(w, j.needs);
  }

  /**
   * In a consistent state a dispatch succeeds exactly for a queued job and a known worker that may take it: the job is
   * leased to the worker, at the cost of an attempt, and its needs are reserved. Otherwise the stores are as before.
   */
  lemma DispatchIsExact(s: State, jobId: Id, workerId: Id, now: int, duration: int)
    requires Consistent(s)
    ensures var e, s' := Dispatch(s, jobId, workerId, now, duration), Dispatch(s, jobId, workerId, now, duration).state;
            var k, q, i := FindWorker(s.workers, workerId), FindQueued(s.queue, jobId), FindJob(s.jobs, jobId);
            if k == |s.workers| then e == Effect(s, Thrown(UnknownWorker))
            else if q == |s.queue| then e == Effect(s, Thrown(UnknownJob))
            else if !Eligible(s.queue[q].needs, s.workers[k].worker)
            then e.outcome == Thrown(CannotReserve) && s'.jobs == s.jobs && s'.workers == s.workers
            else
              var j, w := s.queue[q], s.workers[k].worker;
              && e.outcome.Done? && i < |s.jobs| && s.jobs[i].job == j && j.attempts < j.maxAttempts
              && s'.jobs == s.jobs[i := JobRecord(j.(state := Leased, attempts := j.attempts + 1), Some(workerId),
                                                  Some(now + duration))]
              && s'.queue == Without(s.queue, q) && |s'.workers| == |s.workers|
              && Equal(Used(s'.workers[k].worker), Plus(Used(w), Need(j.needs)))
              && SameCapacity(w, s'.workers[k].worker)
              && s'.workers == s.workers[k := StoredWorker(s'.workers[k].worker, s.workers[k].heartbeat)]
  {
    var k, q := FindWorker(s.workers, workerId), FindQueued(s.queue, jobId);
    if q < |s.queue| {
      QueuedJobIsStored(s, q);
      RolledBackStores(s, jobId);
      if k < |s.workers| {
        ReserveTakes(s.workers[k].worker, s.queue[q].needs);
      }
    }
    hide Consistent, RolledBack, Eligible;
  }

  lemma RolledBackStores(s: State, jobId: Id)
    ensures RolledBack(s, jobId).workers == s.workers && RolledBack(s, jobId).jobs == s.jobs
  {
  }

  /** Whatever the planner decides in a sound state is applied; the error paths of dispatch are for other callers. */
  lemma PlannedDispatchApplies(s: State, p: PolicyState, ws: seq<Worker>, now: int, duration: int)
    requires Consistent(s) && (forall w :: w in ws ==> w in Snapshots(s.workers))
    requires PlanFor(p, s.queue, ws).decision.Some?
    ensures var d := PlanFor(p, s.queue, ws).decision.value;
            Dispatch(s, d.jobId, d.workerId, now, duration).outcome.Done?
  {
    var j, w := PlannedPair(p, s.queue, ws);
    EligiblePairApplies(s, j, w, now, duration);
  }

  lemma AcceptedDispatch(s: State, jobId: Id, workerId: Id, now: int, duration: int)
    requires Dispatch(s, jobId, workerId, now, duration).outcome.Done?
    ensures var s' := Dispatch(s, jobId, workerId, now, duration).state;
            var q, k := FindQueued(s.queue, jobId), FindWorker(s.workers, workerId);
            && q < |s.queue| && k < |s.workers|
            && s'.queue == Without(s.queue, q)
            && AfterReserve(s.workers[k].worker, s.queue[q].needs).Ok?
            && s'.workers == s.workers[k := s.workers[k].(worker := AfterReserve(s.workers[k].worker, s.queue[q].needs).value)]
  {
  }

  /** What repeated dispatching ends with: the state, the policy, and the jobs it sent, in order. */
  datatype Drain = Drain(state: State, policy: PolicyState, sent: seq<Job>)

  /** Dispatches until the planner finds nothing; call `n` reads the clock as `clock(n)`. */
  function DispatchAll(s: State, p: PolicyState, duration: int, clock: nat -> int, n: nat): Drain
    decreases |s.queue|
  {
    var plan := PlanFor(p, s.queue, Snapshots(s.workers));
    if plan.decision.None? then Drain(s, plan.policy, [])
    else
      var d := plan.decision.value;
      var e := Dispatch(s, d.jobId, d.workerId, clock(n), duration);
      if e.outcome.Thrown? then Drain(e.state, plan.policy, [])
      else
        AcceptedDispatch(s, d.jobId, d.workerId, clock(n), duration);
        hide Dispatch;
        var rest := DispatchAll(e.state, plan.policy, duration, clock, n + 1);
        rest.(sent := [s.queue[FindQueued(s.queue, d.jobId)]] + rest.sent)
  }

  /** Reserving on one worker makes no job runnable that was not runnable before. */
  lemma ReservationsOnlyShrink(workers: seq<StoredWorker>, k: nat, q: Requirements, j: Job)
    requires k < |workers| && AfterReserve(workers[k].worker, q).Ok?
    requires Runnable(j, Snapshots(workers[k := workers[k].(worker := AfterReserve(workers[k].worker, q).value)]))
    ensures Runnable(j, Snapshots(workers))
  {
    var w' := AfterReserve(workers[k].worker, q).value;
    var after := Snapshots(workers[k := workers[k].(worker := w')]);
    var v :| v in after && Eligible(j.needs, v);
    var m :| 0 <= m < |after| && after[m] == v;
    assert Snapshots(workers)[m] in Snapshots(workers) && Eligible(j.needs, Snapshots(workers)[m]);
  }

  /** The jobs were runnable from the start, went out in strictly increasing queue order, and left nothing runnable. */
  ghost predicate Drains(s: State, d: Drain)
  {
    && (forall j :: j in d.sent ==> j in s.queue && Runnable(j, Snapshots(s.workers)))
    && SortedBy(RunsBefore, d.sent)
    && multiset(d.sent) + multiset(d.state.queue) == multiset(s.queue)
    && (forall j :: j in d.state.queue ==> !Runnable(j, Snapshots(d.state.workers)))
  }

  /** `j` is runnable, and before every other runnable job. */
  ghost predicate RunsFirst(j: Job, queue: seq<Job>, ws: seq<Worker>)
  {
    && Runnable(j, ws)
    && forall k :: k in queue && k != j && Runnable(k, ws) ==> RunsBefore(j, k)
  }

  /** The job a plan sends, with the worker it goes to. */
  lemma PlannedPair(p: PolicyState, queue: seq<Job>, ws: seq<Worker>) returns (j: Job, w: Worker)
    requires DistinctIds(queue) && PlanFor(p, queue, ws).decision.Some?
    ensures j in queue && w in ws && Eligible(j.needs, w) && RunsFirst(j, queue, ws)
    ensures PlanFor(p, queue, ws).decision.value.jobId == j.id
    ensures PlanFor(p, queue, ws).decision.value.workerId == w.id
  {
    PlanSendsTheFirstRunnableJob(p, queue, ws);
    var d := PlanFor(p, queue, ws).decision.value;
    j :| j in queue && Sends(d, j, ws) && forall k :: k in queue && k != j && Runnable(k, ws) ==> RunsBefore(j, k);
    w :| w in ws && Eligible(j.needs, w) && w.id == d.workerId;
  }

  /** The first dispatch of a drain, seen from the state it leaves. */
  lemma FirstDispatch(s: State, p: PolicyState, now: int, duration: int) returns (j: Job)
    requires Consistent(s) && PlanFor(p, s.queue, Snapshots(s.workers)).decision.Some?
    ensures var d := PlanFor(p, s.queue, Snapshots(s.workers)).decision.value;
            var e := Dispatch(s, d.jobId, d.workerId, now, duration);
            var q := FindQueued(s.queue, d.jobId);
            && e.outcome.Done? && Preserves(s, e.state)
            && q < |s.queue| && s.queue[q] == j && e.state.queue == Without(s.queue, q)
            && RunsFirst(j, s.queue, Snapshots(s.workers))
            && (forall k :: Runnable(k, Snapshots(e.state.workers)) ==> Runnable(k, Snapshots(s.workers)))
  {
    var ws := Snapshots(s.workers);
    var w;
    j, w := PlannedPair(p, s.queue, ws);
    EligiblePairApplies(s, j, w, now, duration);
    DispatchPreserves(s, j.id, w.id, now, duration);
    AcceptedDispatch(s, j.id, w.id, now, duration);
    var e := Dispatch(s, j.id, w.id, now, duration);
    hide Consistent, Preserves, Dispatch, PlanFor, RunsFirst;
    forall k | Runnable(k, Snapshots(e.state.workers))
      ensures Runnable(k, ws)
    {
      ReservationsOnlyShrink(s.workers, FindWorker(s.workers, w.id), j.needs, k);
    }
  }

  lemma SortedOneMore(j: Job, sent: seq<Job>)
    requires SortedBy(RunsBefore, sent) && forall k :: k in sent ==> RunsBefore(j, k)
    ensures SortedBy(RunsBefore, [j] + sent)
  {
    hide RunsBefore;
    var all := [j] + sent;
    forall a, b | 0 <= a < b < |all|
      ensures RunsBefore(all[a], all[b])
    {
      assert all[b] == sent[b - 1] && sent[b - 1] in sent;
      assert a > 0 ==> all[a] == sent[a - 1];
    }
  }

  lemma DrainsOneMore(s: State, mid: State, d: Drain, j: Job, q: nat)
    requires DistinctIds(s.queue) && q < |s.queue| && s.queue[q] == j && mid.queue == Without(s.queue, q)
    requires RunsFirst(j, s.queue, Snapshots(s.workers))
    requires forall k :: Runnable(k, Snapshots(mid.workers)) ==> Runnable(k, Snapshots(s.workers))
    requires Drains(mid, d)
    ensures Drains(s, d.(sent := [j] + d.sent))
  {
    hide RunsBefore, Runnable;
    WithoutKeepsDistinct(s.queue, q);
    forall k | k in d.sent
      ensures k in s.queue && Runnable(k, Snapshots(s.workers)) && RunsBefore(j, k)
    {
      assert k in mid.queue;
      var m :| 0 <= m < |mid.queue| && mid.queue[m] == k;
      assert k.id != j.id;
    }
    SortedOneMore(j, d.sent);
    assert multiset([j] + d.sent) == multiset{j} + multiset(d.sent);
    assert s.queue[q] in s.queue;
    assert multiset([j] + d.sent) + multiset(d.state.queue) == multiset(s.queue);
    forall k | k in [j] + d.sent
      ensures k in s.queue && Runnable(k, Snapshots(s.workers))
    {
      assert k == j || k in d.sent;
    }
  }

  /**
   * Greedy draining from any sound state: it ends within as many dispatches as there are queued
   * jobs, sends jobs in strictly increasing queue order (one passed over never fits later), loses
   * none, and stops only when no remaining job fits any worker.
   */
  lemma {:induction false} DrainingIsGreedy(s: State, p: PolicyState, duration: int,
                                            clock: nat -> int, n: nat)
    requires Consistent(s)
    ensures var d := DispatchAll(s, p, duration, clock, n);
            && Preserves(s, d.state)
            && |d.sent| <= |s.queue|
            && Drains(s, d)
    decreases |s.queue|
  {
    hide Consistent, Preserves, Drains, Dispatch, Runnable, PlanFor;
    var plan := PlanFor(p, s.queue, Snapshots(s.workers));
    if plan.decision.None? {
      NoStepPreserves(s);
      NothingToDrain(s, p);
    } else {
      var j := FirstDispatch(s, p, clock(n), duration);
      var mid := Dispatch(s, plan.decision.value.jobId, plan.decision.value.workerId, clock(n), duration).state;
      PreservesSoundness(s, mid);
      DrainingIsGreedy(mid, plan.policy, duration, clock, n + 1);
      PreservesComposes(s, mid, DispatchAll(mid, plan.policy, duration, clock, n + 1).state);
      QueueIdsDiffer(s);
      DrainsOneMore(s, mid, DispatchAll(mid, plan.policy, duration, clock, n + 1), j,
                    FindQueued(s.queue, plan.decision.value.jobId));
    }
  }

  lemma QueueIdsDiffer(s: State)
    requires Consistent(s)
    ensures DistinctIds(s.queue)
  {
  }

  lemma NothingToDrain(s: State, p: PolicyState)
    requires Consistent(s) && PlanFor(p, s.queue, Snapshots(s.workers)).decision.None?
    ensures forall p' :: Drains(s, Drain(s, p', []))
  {
    QueueIdsDiffer(s);
    PlanSendsTheFirstRunnableJob(p, s.queue, Snapshots(s.workers));
    hide Consistent, DistinctIds, PlanFor, RunsBefore, Sends, Runnable;
  }
}

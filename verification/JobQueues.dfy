/** The transient queue of runnable jobs: libs/scheduler/src/job_queue.cpp. */
module JobQueues {
  import opened Errors
  import opened Jobs
  import opened Ordering

  /** Higher priority first, then older, then the smaller id. */
  predicate RunsBefore(a: Job, b: Job)
  {
    if a.priority != b.priority then a.priority > b.priority
    else if a.createdAt != b.createdAt then a.createdAt < b.createdAt
    else LexLess(a.id, b.id)
  }

  ghost predicate DistinctIds(q: seq<Job>)
  {
    forall i, j :: 0 <= i < j < |q| ==> q[i].id != q[j].id
  }

  lemma RunsBeforeIsTransitive(a: Job, b: Job, c: Job)
    requires RunsBefore(a, b) && RunsBefore(b, c)
    ensures RunsBefore(a, c)
  {
    if a.priority == b.priority == c.priority && a.createdAt == b.createdAt == c.createdAt {
      LexTransitive(a.id, b.id, c.id);
    }
  }

  /** On jobs with distinct ids the running order is a strict total order. */
  lemma RunsBeforeOrders(q: seq<Job>)
    requires DistinctIds(q)
    ensures Orders(RunsBefore, q) && Distinct(q)
  {
    forall x | x in q
      ensures !RunsBefore(x, x)
    {
      LexIrreflexive(x.id);
    }
    forall x, y | x in q && y in q && x != y
      ensures RunsBefore(x, y) || RunsBefore(y, x)
    {
      LexTotal(x.id, y.id);
    }
    forall x, y, z | x in q && y in q && z in q && RunsBefore(x, y) && RunsBefore(y, z)
      ensures RunsBefore(x, z)
    {
      RunsBeforeIsTransitive(x, y, z);
    }
  }

  /** The queue in running order. */
  function Ordered(q: seq<Job>): (r: seq<Job>)
    ensures multiset(r) == multiset(q)
  {
    Sort(RunsBefore, q)
  }

  /** The running order is the sorted permutation, and the only one. */
  lemma OrderedIsTheSortedPermutation(q: seq<Job>, r: seq<Job>)
    requires DistinctIds(q)
    ensures r == Ordered(q) <==> multiset(r) == multiset(q) && SortedBy(RunsBefore, r)
  {
    RunsBeforeOrders(q);
    SortSorts(RunsBefore, q);
    if multiset(r) == multiset(q) && SortedBy(RunsBefore, r) {
      SameElements(Ordered(q), q);
      OrdersOnFewer(RunsBefore, q, Ordered(q));
      SortedUnique(RunsBefore, Ordered(q), r);
    }
  }

  /** In running order no job has a lower priority than a later one, nor among equals is it younger. */
  lemma OrderedByUrgency(q: seq<Job>, i: nat, j: nat)
    requires DistinctIds(q) && i < j < |Ordered(q)|
    ensures var a, b := Ordered(q)[i], Ordered(q)[j];
            && a.priority >= b.priority
            && (a.priority == b.priority ==> a.createdAt <= b.createdAt)
            && (a.priority == b.priority && a.createdAt == b.createdAt ==> exists n: nat :: DifferAt(a.id, b.id, n))
  {
    OrderedIsTheSortedPermutation(q, Ordered(q));
    LexLessIsFirstDifference(Ordered(q)[i].id, Ordered(q)[j].id);
  }

  /** The index `std::find_if` yields for an id, or the length. */
  function FindQueued(q: seq<Job>, id: Id): (i: nat)
    ensures i <= |q|
    ensures i < |q| ==> q[i].id == id
    ensures forall k :: 0 <= k < i ==> q[k].id != id
  {
    if q == [] then 0
    else if q[0].id == id then 0
    else
      var k := FindQueued(q[1..], id);
      assert forall j :: 0 < j < k + 1 ==> q[j] == q[1..][j - 1];
      k + 1
  }

  lemma QueuedFindsItself(queue: seq<Job>, q: nat)
    requires DistinctIds(queue) && q < |queue|
    ensures FindQueued(queue, queue[q].id) == q
  {
  }

  predicate Contains(q: seq<Job>, id: Id)
  {
    exists i :: 0 <= i < |q| && q[i].id == id
  }

  lemma WithoutKeepsDistinct(q: seq<Job>, i: nat)
    requires DistinctIds(q) && i < |q|
    ensures DistinctIds(Without(q, i)) && !Contains(Without(q, i), q[i].id)
    ensures multiset(q) == multiset(Without(q, i)) + multiset{q[i]}
  {
    assert q == q[..i] + [q[i]] + q[i + 1..];
  }

  lemma DistinctWithLast(q: seq<Job>, j: Job)
    requires DistinctIds(q) && forall x :: x in q ==> x.id != j.id
    ensures DistinctIds(q + [j])
  {
    assert forall m :: 0 <= m < |q| ==> q[m] in q;
  }

  /** Removing the first job in running order leaves the rest in running order. */
  lemma OrderedAfterFirst(q: seq<Job>, i: nat)
    requires DistinctIds(q) && i < |q|
    requires forall k :: 0 <= k < |q| && k != i ==> RunsBefore(q[i], q[k])
    ensures Ordered(q) == [q[i]] + Ordered(Without(q, i))
  {
    hide RunsBefore, Sort;
    var rest := Without(q, i);
    WithoutKeepsDistinct(q, i);
    RunsBeforeOrders(rest);
    SortSorts(RunsBefore, rest);
    SameElements(Ordered(rest), rest);
    var r := [q[i]] + Ordered(rest);
    forall x | x in Ordered(rest)
      ensures RunsBefore(q[i], x)
    {
      assert x in rest;
    }
    SortedWithFirst(RunsBefore, q[i], Ordered(rest));
    assert multiset(r) == multiset{q[i]} + multiset(Ordered(rest));
    hide SortedBy, DistinctIds;
    OrderedIsTheSortedPermutation(q, r);
  }

  /** The linear scan for the job to run next. */
  function NextIndex(q: seq<Job>): (i: nat)
    requires DistinctIds(q) && q != []
    ensures i < |q|
    ensures forall k :: 0 <= k < |q| && k != i ==> RunsBefore(q[i], q[k])
  {
    var last := |q| - 1;
    if last == 0 then 0
    else
      var best := NextIndex(q[..last]);
      assert q[..last][best] == q[best];
      RunsBeforeOrders(q);
      assert q[best] in q && q[last] in q && forall k :: 0 <= k < last ==> q[k] == q[..last][k] && q[k] in q;
      if RunsBefore(q[last], q[best]) then last else best
  }

  /** The jobs in the order in which popping one at a time yields them. */
  function Drained(q: seq<Job>): seq<Job>
    requires DistinctIds(q)
    decreases |q|
  {
    if q == [] then []
    else
      var i := NextIndex(q);
      WithoutKeepsDistinct(q, i);
      [q[i]] + Drained(Without(q, i))
  }

  /**
   * The two orderings agree: popping until the queue is empty yields the sorted sequence,
   * whatever the order in which the jobs were enqueued.
   */
  lemma {:induction false} PoppingYieldsTheOrder(q: seq<Job>, enqueued: seq<Job>)
    requires DistinctIds(q) && DistinctIds(enqueued) && multiset(enqueued) == multiset(q)
    ensures Drained(enqueued) == Ordered(q)
    decreases |q|
  {
    RunsBeforeOrders(q);
    RunsBeforeOrders(enqueued);
    SortIsCanonical(RunsBefore, q, enqueued);
    if enqueued != [] {
      var i := NextIndex(enqueued);
      OrderedAfterFirst(enqueued, i);
      WithoutKeepsDistinct(enqueued, i);
      SameElements(q, enqueued);
      PoppingYieldsTheOrder(Without(enqueued, i), Without(enqueued, i));
    } else {
      SameElements(q, enqueued);
    }
  }

  class JobQueue {
    var jobs: seq<Job>

    ghost predicate Valid()
      reads this
    {
      DistinctIds(jobs)
    }

    constructor ()
      ensures Valid() && jobs == []
    {
      jobs := [];
    }

    method Enqueue(j: Job) returns (o: Outcome)
      requires Valid()
      modifies this
      ensures Valid()
      ensures o == if !j.state.Queued? then Thrown(NotQueued)
                   else if Contains(old(jobs), j.id) then Thrown(AlreadyQueued)
                   else Done
      ensures jobs == if o == Done then old(jobs) + [j] else old(jobs)
    {
      if !j.state.Queued? {
        return Thrown(NotQueued);
      }
      if Contains(jobs, j.id) {
        return Thrown(AlreadyQueued);
      }
      jobs := jobs + [j];
      return Done;
    }

    /** Takes the job that comes first in running order. */
    method PopNext() returns (r: Option<Job>)
      requires Valid()
      modifies this
      ensures Valid()
      ensures old(jobs) == [] ==> r == None && jobs == []
      ensures old(jobs) != [] ==> r == Some(Ordered(old(jobs))[0])
      ensures old(jobs) != [] ==> Ordered(jobs) == Ordered(old(jobs))[1..]
      ensures old(jobs) != [] ==> multiset(jobs) == multiset(old(jobs)) - multiset{r.value}
    {
      if jobs == [] {
        return None;
      }
      RunsBeforeOrders(jobs);
      var best := 0;
      for i := 1 to |jobs|
        invariant best < i
        invariant jobs == old(jobs)
        invariant forall k :: 0 <= k < i && k != best ==> RunsBefore(jobs[best], jobs[k])
      {
        assert forall k :: 0 <= k <= i ==> jobs[k] in jobs;
        if RunsBefore(jobs[i], jobs[best]) {
          best := i;
        }
      }
      OrderedAfterFirst(jobs, best);
      WithoutKeepsDistinct(jobs, best);
      r := Some(jobs[best]);
      jobs := Without(jobs, best);
    }

    /** Takes the job with this id, leaving the others in place. */
    method Take(id: Id) returns (r: Option<Job>)
      requires Valid()
      modifies this
      ensures Valid() && !Contains(jobs, id)
      ensures var i := FindQueued(old(jobs), id);
              if i == |old(jobs)| then r == None && jobs == old(jobs)
              else r == Some(old(jobs)[i]) && jobs == Without(old(jobs), i)
    {
      var i := FindQueued(jobs, id);
      if i == |jobs| {
        return None;
      }
      WithoutKeepsDistinct(jobs, i);
      r := Some(jobs[i]);
      jobs := Without(jobs, i);
    }

    method OrderedJobs() returns (r: seq<Job>)
      ensures r == Ordered(jobs)
    {
      r := [];
      for i := 0 to |jobs|
        invariant r == jobs[..i]
      {
        r := r + [jobs[i]];
      }
      assert r == jobs;
      r := Sort(RunsBefore, r);
    }
  }
}

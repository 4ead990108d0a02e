/** What jobs take from a worker, and what any sequence of reservations and releases leaves of it. */
module Ledger {
  import opened Errors
  import opened Jobs
  import opened Ordering
  import opened Workers

  /** An amount of every resource a job holds, with the number of jobs holding it. */
  datatype Usage = Usage(cpu: real, memory: int, disk: int, jobs: int)

  const ZERO := Usage(0.0, 0, 0, 0)

  function Plus(a: Usage, b: Usage): Usage
  {
    Usage(a.cpu + b.cpu, a.memory + b.memory, a.disk + b.disk, a.jobs + b.jobs)
  }

  function Minus(a: Usage, b: Usage): Usage
  {
    Usage(a.cpu - b.cpu, a.memory - b.memory, a.disk - b.disk, a.jobs - b.jobs)
  }

  /** Equality, amount by amount: the form in which arithmetic establishes and uses it. */
  predicate Equal(a: Usage, b: Usage)
  {
    a.cpu == b.cpu && a.memory == b.memory && a.disk == b.disk && a.jobs == b.jobs
  }

  predicate AtMost(a: Usage, b: Usage)
  {
    a.cpu <= b.cpu && a.memory <= b.memory && a.disk <= b.disk && a.jobs <= b.jobs
  }

  function Need(q: Requirements): Usage
  {
    Usage(q.cpu, q.memory, q.disk, 1)
  }

  /** The part of a worker's capacity that is taken. */
  function Used(w: Worker): Usage
  {
    Usage(w.totalCpu - w.availableCpu, w.totalMemory - w.availableMemory, w.totalDisk - w.availableDisk, w.running)
  }

  /** Two records of one worker that may differ in what is available, but in nothing else. */
  predicate SameCapacity(v: Worker, w: Worker)
  {
    w == v.(availableCpu := w.availableCpu, availableMemory := w.availableMemory,
            availableDisk := w.availableDisk, running := w.running)
  }

  lemma SameUsageSameWorker(v: Worker, w: Worker)
    requires SameCapacity(v, w) && Equal(Used(v), Used(w))
    ensures v == w
  {
  }

  lemma ReserveTakes(w: Worker, q: Requirements)
    ensures AfterReserve(w, q).Ok? <==> Eligible(q, w)
    ensures AfterReserve(w, q).Ok? ==>
              && Equal(Used(AfterReserve(w, q).value), Plus(Used(w), Need(q)))
              && SameCapacity(w, AfterReserve(w, q).value)
  {
  }

  /** What is in use can always be released, and exactly that much comes back. */
  lemma ReleaseReturns(w: Worker, q: Requirements)
    requires AtMost(Need(q), Used(w))
    ensures AfterRelease(w, q).Ok?
    ensures Equal(Used(AfterRelease(w, q).value), Minus(Used(w), Need(q)))
    ensures SameCapacity(w, AfterRelease(w, q).value)
  {
  }

  function Capacity(w: Worker): Usage
  {
    Usage(w.totalCpu, w.totalMemory, w.totalDisk, w.slots)
  }

  /** A job may run exactly on an online worker that has the GPU and tags it asks for and stays within its capacity. */
  lemma EligibleIffItFits(w: Worker, q: Requirements)
    ensures Eligible(q, w) <==>
              && w.state == Online && (w.gpu || !q.gpu) && (forall i :: 0 <= i < |q.tags| ==> q.tags[i] in w.tags)
              && AtMost(Plus(Used(w), Need(q)), Capacity(w))
  {
    assert Eligible(q, w) ==> forall i :: 0 <= i < |q.tags| ==> q.tags[i] in w.tags;
  }

  /**
   * A release is accepted exactly when a job runs and the amounts are in use, the CPU up to a millionth; an amount of
   * CPU beyond what is in use is cut.
   */
  lemma ReleaseIsAcceptedIff(w: Worker, q: Requirements)
    ensures AfterRelease(w, q).Ok? <==>
              && w.running >= 1 && Used(w).cpu >= q.cpu - 0.000001
              && Used(w).memory >= q.memory && Used(w).disk >= q.disk
    ensures AfterRelease(w, q).Ok? ==>
              && SameCapacity(w, AfterRelease(w, q).value)
              && var over := q.cpu - Used(w).cpu;
                 Equal(Used(AfterRelease(w, q).value),
                       Plus(Minus(Used(w), Need(q)), ZERO.(cpu := if over > 0.0 then over else 0.0)))
    ensures AfterRelease(w, q).Err? ==>
              (AfterRelease(w, q).error == NothingToRelease <==> w.running == 0)
              && AfterRelease(w, q).error in {NothingToRelease, OverRelease}
  {
  }

  /** An accepted release is exact unless the tolerance let it through and the cap cut it. */
  lemma ReleaseIsExactIffCovered(w: Worker, q: Requirements)
    requires AfterRelease(w, q).Ok?
    ensures Equal(Used(AfterRelease(w, q).value), Minus(Used(w), Need(q))) <==> q.cpu <= w.totalCpu - w.availableCpu
    ensures SameCapacity(w, AfterRelease(w, q).value)
  {
  }

  /** Releasing before reserving can lose capacity: the cap absorbs the release but not the reservation. */
  lemma UncoveredReleaseLosesCpu()
    ensures exists w: Worker, q: Requirements ::
              && AfterRelease(w, q).Ok?
              && AfterReserve(AfterRelease(w, q).value, q).Ok?
              && AfterReserve(AfterRelease(w, q).value, q).value.availableCpu < w.availableCpu
  {
    var w: Worker := WorkerFields("w", Online, 4.0, 4.0, 8, 8, 8, 8, false, 1, 2, []);
    var q: Requirements := RequirementFields(0.000001, 0, 0, false, []);
    assert AfterReserve(AfterRelease(w, q).value, q).value.availableCpu < w.availableCpu;
  }

  /**
   * The worker after these amounts were given back one by one; a worker that runs nothing gives nothing back, and the
   * first refusal ends it.
   */
  function AfterReleases(w: Worker, given: seq<Requirements>): Result<Worker>
  {
    if given == [] then Ok(w)
    else
      match AfterReleases(w, given[..|given| - 1])
      case Err(e) => Err(e)
      case Ok(v) => if v.running == 0 then Ok(v) else AfterRelease(v, given[|given| - 1])
  }

  /** Whether a worker is online does not matter to its ledger. */
  lemma {:induction false} ReleasesIgnoreState(w: Worker, given: seq<Requirements>, state: WorkerState)
    ensures AfterReleases(w.(state := state), given)
            == match AfterReleases(w, given)
               case Ok(v) => Ok(v.(state := state))
               case Err(e) => Err(e)
  {
    if given != [] {
      ReleasesIgnoreState(w, given[..|given| - 1], state);
    }
  }

  // ---------- sequences of calls ----------

  /** A holder reserves for a job, or releases one of the reservations it still holds. */
  datatype Call = ReserveFor(needs: Requirements) | ReleaseHeld(index: nat)

  datatype Account = Account(worker: Worker, held: seq<Requirements>)

  function Total(held: seq<Requirements>): Usage
  {
    if held == [] then ZERO else Plus(Total(held[..|held| - 1]), Need(held[|held| - 1]))
  }

  /** A refused call changes nothing. */
  function AfterCall(a: Account, c: Call): Account
  {
    match c
    case ReserveFor(q) =>
      (match AfterReserve(a.worker, q)
       case Ok(w) => Account(w, a.held + [q])
       case Err(_) => a)
    case ReleaseHeld(i) =>
      if i >= |a.held| then a
      else
        match AfterRelease(a.worker, a.held[i])
        case Ok(w) => Account(w, Without(a.held, i))
        case Err(_) => a
  }

  function AfterCalls(a: Account, calls: seq<Call>): Account
  {
    if calls == [] then a
    else AfterCall(AfterCalls(a, calls[..|calls| - 1]), calls[|calls| - 1])
  }

  lemma {:induction false} TotalWithout(held: seq<Requirements>, i: nat)
    requires i < |held|
    ensures Equal(Total(Without(held, i)), Minus(Total(held), Need(held[i])))
    ensures AtMost(Need(held[i]), Total(held)) && AtMost(ZERO, Total(held))
  {
    var last := |held| - 1;
    if i < last {
      TotalWithout(held[..last], i);
      assert Without(held, i) == Without(held[..last], i) + [held[last]];
      assert Without(held, i)[..last - 1] == Without(held[..last], i);
    } else {
      assert Without(held, i) == held[..last];
      TotalIsNonnegative(held[..last]);
    }
  }

  lemma {:induction false} TotalIsNonnegative(held: seq<Requirements>)
    ensures AtMost(ZERO, Total(held))
  {
    if held != [] {
      TotalIsNonnegative(held[..|held| - 1]);
    }
  }

  /**
   * Whatever reservations and releases are attempted, in whatever order and whichever are refused,
   * what is in use is what was in use at the start plus what is still held; so releasing
   * everything held restores the starting record, field for field.
   */
  lemma {:induction false} CallsBalance(start: Worker, calls: seq<Call>)
    ensures var end := AfterCalls(Account(start, []), calls);
            && SameCapacity(start, end.worker)
            && Equal(Used(end.worker), Plus(Used(start), Total(end.held)))
            && (end.held == [] ==> end.worker == start)
            && (forall i :: 0 <= i < |end.held| ==> AfterRelease(end.worker, end.held[i]).Ok?)
  {
    var end := AfterCalls(Account(start, []), calls);
    if calls != [] {
      CallsBalance(start, calls[..|calls| - 1]);
      OneCallBalances(start, AfterCalls(Account(start, []), calls[..|calls| - 1]), calls[|calls| - 1]);
    }
    HeldIsReleasable(start, end);
    if end.held == [] {
      SameUsageSameWorker(start, end.worker);
    }
  }

  lemma HeldIsReleasable(start: Worker, a: Account)
    requires Equal(Used(a.worker), Plus(Used(start), Total(a.held)))
    ensures forall i :: 0 <= i < |a.held| ==> AfterRelease(a.worker, a.held[i]).Ok?
  {
    forall i | 0 <= i < |a.held|
      ensures AfterRelease(a.worker, a.held[i]).Ok?
    {
      TotalWithout(a.held, i);
      ReleaseReturns(a.worker, a.held[i]);
    }
  }

  lemma TotalWithOneMore(held: seq<Requirements>, q: Requirements)
    ensures Total(held + [q]) == Plus(Total(held), Need(q))
  {
    assert (held + [q])[..|held|] == held;
  }

  lemma OneCallBalances(start: Worker, a: Account, c: Call)
    requires SameCapacity(start, a.worker) && Equal(Used(a.worker), Plus(Used(start), Total(a.held)))
    ensures var b := AfterCall(a, c);
            SameCapacity(start, b.worker) && Equal(Used(b.worker), Plus(Used(start), Total(b.held)))
  {
    match c {
      case ReserveFor(q) =>
        ReserveTakes(a.worker, q);
        TotalWithOneMore(a.held, q);
      case ReleaseHeld(i) =>
        if i < |a.held| {
          TotalWithout(a.held, i);
          ReleaseReturns(a.worker, a.held[i]);
        }
    }
  }
}

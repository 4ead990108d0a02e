/** What one pass of the liveness monitor does, record by record. */
module Scans {
  import opened Errors
  import opened JobStates
  import opened Jobs
  import opened Workers
  import opened Ledger
  import opened JobQueues
  import opened Store
  import opened Protocol
  import opened Conservation
  import opened Preservation
  import opened Recovery

  lemma ExpireOneIsLocal(s: State, i: nat, now: int)
    requires i < |s.jobs|
    ensures var e := ExpireOne(s, i, now);
            && e.state.queue == s.queue
            && e.state.jobs == (if e.outcome.Done? then s.jobs[i := Expired(s.jobs[i], now)] else s.jobs)
            && SameWorkers(s.workers, e.state.workers)
  {
  }

  lemma SameWorkersIsTransitive(a: seq<StoredWorker>, b: seq<StoredWorker>, c: seq<StoredWorker>)
    requires SameWorkers(a, b) && SameWorkers(b, c)
    ensures SameWorkers(a, c)
  {
    forall k | 0 <= k < |a|
      ensures SameCapacity(a[k].worker, c[k].worker) && a[k].heartbeat == c[k].heartbeat
    {
      assert SameCapacity(a[k].worker, b[k].worker) && SameCapacity(b[k].worker, c[k].worker);
    }
  }

  lemma SameWorkersIsReflexive(a: seq<StoredWorker>)
    ensures SameWorkers(a, a)
  {
  }

  /** Each record is what expiry makes of it, as far as the scan got, or untouched. */
  lemma {:induction false} ExpireFirstIsPointwise(s: State, n: nat, now: int)
    requires n <= |s.jobs|
    ensures var e := ExpireFirst(s, n, now);
            && e.state.queue == s.queue
            && SameWorkers(s.workers, e.state.workers)
            && (forall i :: n <= i < |s.jobs| ==> e.state.jobs[i] == s.jobs[i])
            && (forall i :: 0 <= i < n ==>
                  || e.state.jobs[i] == Expired(s.jobs[i], now)
                  || (e.outcome.Thrown? && e.state.jobs[i] == s.jobs[i]))
  {
    hide ExpireOne, Expired, SameWorkers;
    SameWorkersIsReflexive(s.workers);
    if n > 0 {
      ExpireFirstIsPointwise(s, n - 1, now);
      var e := ExpireFirst(s, n - 1, now);
      if e.outcome.Done? {
        ExpireOneIsLocal(e.state, n - 1, now);
        SameWorkersIsTransitive(s.workers, e.state.workers, ExpireOne(e.state, n - 1, now).state.workers);
      }
    }
  }

  lemma {:induction false} NothingDueNothingDone(s: State, n: nat, now: int)
    requires n <= |s.jobs| && forall i :: 0 <= i < n ==> !IsDue(s.jobs[i], now)
    ensures ExpireFirst(s, n, now) == Effect(s, Done)
    ensures ExpiredCount(s.jobs, n, now) == 0
  {
    if n > 0 {
      NothingDueNothingDone(s, n - 1, now);
      assert s.jobs[n - 1 := s.jobs[n - 1]] == s.jobs;
    }
  }

  /** A scan that was stopped does not go on. */
  lemma {:induction false} EarlyEnd(s: State, n: nat, m: nat, now: int)
    requires n <= m <= |s.jobs| && ExpireFirst(s, n, now).outcome.Thrown?
    ensures ExpireFirst(s, m, now) == ExpireFirst(s, n, now)
    decreases m
  {
    if n < m {
      EarlyEnd(s, n, m - 1, now);
    }
  }

  // ---------- when the expiry scan completes ----------

  /** What the worker's expired jobs give back, in the order of the scan. */
  function DueOn(jobs: seq<JobRecord>, n: nat, id: Id, now: int): seq<Requirements>
    requires n <= |jobs|
  {
    if n == 0 then []
    else
      var r := jobs[n - 1];
      DueOn(jobs, n - 1, id, now) + (if IsDue(r, now) && HeldBy(r, id) then [r.job.needs] else [])
  }

  /** The worker accepts all that its expired jobs among the first `n` give back. */
  predicate Accepts(w: Worker, jobs: seq<JobRecord>, n: nat, now: int)
    requires n <= |jobs|
  {
    AfterReleases(w, DueOn(jobs, n, w.id, now)).Ok?
  }

  /** Every worker does. */
  ghost predicate AllAccept(s: State, n: nat, now: int)
    requires n <= |s.jobs|
  {
    forall k :: 0 <= k < |s.workers| ==> Accepts(s.workers[k].worker, s.jobs, n, now)
  }

  /** The ledgers are those that the expired jobs among the first `n` leave. */
  ghost predicate Released(s: State, workers: seq<StoredWorker>, n: nat, now: int)
    requires n <= |s.jobs|
  {
    && |workers| == |s.workers|
    && forall k :: 0 <= k < |s.workers| ==>
         AfterReleases(s.workers[k].worker, DueOn(s.jobs, n, s.workers[k].worker.id, now)) == Ok(workers[k].worker)
  }

  lemma DueOnOneMore(jobs: seq<JobRecord>, n: nat, w: Worker, now: int)
    requires n < |jobs|
    ensures var given, r := DueOn(jobs, n, w.id, now), jobs[n];
            AfterReleases(w, DueOn(jobs, n + 1, w.id, now))
            == if !(IsDue(r, now) && HeldBy(r, w.id)) then AfterReleases(w, given)
               else match AfterReleases(w, given)
                    case Err(e) => Err(e)
                    case Ok(v) => if v.running == 0 then Ok(v) else AfterRelease(v, r.job.needs)
  {
    var given := DueOn(jobs, n, w.id, now);
    assert (given + [jobs[n].job.needs])[..|given|] == given;
    assert given + [] == given;
  }

  /** A record that is not due, or that nobody holds, takes nothing from any worker. */
  lemma NobodyGives(s: State, mid: State, n: nat, now: int)
    requires n < |s.jobs| && |mid.jobs| == |s.jobs| && mid.jobs[n] == s.jobs[n] && Released(s, mid.workers, n, now)
    requires !IsDue(s.jobs[n], now)
    ensures Released(s, mid.workers, n + 1, now)
  {
    hide AfterReleases, DueOn;
    forall k | 0 <= k < |s.workers|
      ensures AfterReleases(s.workers[k].worker, DueOn(s.jobs, n + 1, s.workers[k].worker.id, now)) == Ok(mid.workers[k].worker)
    {
      DueOnOneMore(s.jobs, n, s.workers[k].worker, now);
    }
  }

  /** The release of one due record, seen from the ledgers at the start of the scan. */
  lemma HolderGives(s: State, mid: State, n: nat, now: int, h: nat)
    requires n < |s.jobs| && |mid.jobs| == |s.jobs| && mid.jobs[n] == s.jobs[n] && Released(s, mid.workers, n, now)
    requires UniqueWorkers(s.workers) && SameWorkers(s.workers, mid.workers)
    requires IsDue(s.jobs[n], now) && h < |s.workers| && HeldBy(s.jobs[n], s.workers[h].worker.id)
    ensures FindWorker(mid.workers, s.workers[h].worker.id) == h
    ensures match ReleaseHolder(mid.workers, s.jobs[n])
            case Ok(workers) => Released(s, workers, n + 1, now)
            case Err(e) => AfterReleases(s.workers[h].worker, DueOn(s.jobs, n + 1, s.workers[h].worker.id, now)) == Err(e)
  {
    hide AfterReleases, DueOn, AfterRelease;
    assert forall k :: 0 <= k < |s.workers| ==> SameCapacity(s.workers[k].worker, mid.workers[k].worker);
    assert UniqueWorkers(mid.workers);
    WorkerFindsItself(mid.workers, h);
    forall k | 0 <= k < |s.workers|
      ensures k != h ==>
                AfterReleases(s.workers[k].worker, DueOn(s.jobs, n + 1, s.workers[k].worker.id, now)) == Ok(mid.workers[k].worker)
    {
      DueOnOneMore(s.jobs, n, s.workers[k].worker, now);
    }
    DueOnOneMore(s.jobs, n, s.workers[h].worker, now);
  }

  /** A refusal among fewer records is a refusal among more. */
  lemma AcceptsFewer(s: State, n: nat, k: nat, now: int)
    requires n < |s.jobs| && k < |s.workers| && !Accepts(s.workers[k].worker, s.jobs, n, now)
    ensures !Accepts(s.workers[k].worker, s.jobs, n + 1, now)
  {
    DueOnOneMore(s.jobs, n, s.workers[k].worker, now);
  }

  /**
   * From any consistent state the first `n` records are scanned to the end if and only if every worker accepts, from
   * the ledger it starts with, what its expired jobs among them give back.
   */
  lemma {:induction false} ScanCompletesIff(s: State, n: nat, now: int)
    requires Consistent(s) && n <= |s.jobs|
    ensures var e := ExpireFirst(s, n, now);
            && (e.outcome.Done? <==> AllAccept(s, n, now))
            && (e.outcome.Done? ==> Released(s, e.state.workers, n, now))
  {
    hide Consistent, AllAccept, Released, ExpireOne, Expired, AfterReleases, DueOn;
    NothingReleased(s, now);
    if n > 0 {
      ScanCompletesIff(s, n - 1, now);
      if ExpireFirst(s, n - 1, now).outcome.Thrown? {
        RefusalLasts(s, n - 1, now);
      } else {
        ScanStep(s, n - 1, now);
      }
    }
  }

  lemma NothingReleased(s: State, now: int)
    ensures AllAccept(s, 0, now) && Released(s, s.workers, 0, now)
  {
  }

  lemma RefusalLasts(s: State, n: nat, now: int)
    requires n < |s.jobs| && !AllAccept(s, n, now)
    ensures !AllAccept(s, n + 1, now)
  {
    hide Accepts;
    var k :| 0 <= k < |s.workers| && !Accepts(s.workers[k].worker, s.jobs, n, now);
    AcceptsFewer(s, n, k, now);
  }

  lemma ReleasedIsAccepted(s: State, workers: seq<StoredWorker>, n: nat, now: int)
    requires n <= |s.jobs| && Released(s, workers, n, now)
    ensures AllAccept(s, n, now)
  {
    hide AfterReleases, DueOn;
  }

  lemma ScanStep(s: State, n: nat, now: int)
    requires Consistent(s) && n < |s.jobs| && ExpireFirst(s, n, now).outcome.Done?
    requires Released(s, ExpireFirst(s, n, now).state.workers, n, now)
    ensures var e := ExpireFirst(s, n + 1, now);
            && (e.outcome.Done? <==> AllAccept(s, n + 1, now))
            && (e.outcome.Done? ==> Released(s, e.state.workers, n + 1, now))
  {
    hide Released, AllAccept, ExpireFirst, ExpireOne, SameWorkers, Expired, UniqueWorkers, UniqueJobs;
    var mid := ExpireFirst(s, n, now).state;
    ExpireFirstIsPointwise(s, n, now);
    ScanGoesOn(s, n, now);
    ExpireOneIsARelease(mid, n, now);
    ReleaseStep(s, mid, n, now);
  }

  lemma ReleaseStep(s: State, mid: State, n: nat, now: int)
    requires Consistent(s) && n < |s.jobs| && |mid.jobs| == |s.jobs| && mid.jobs[n] == s.jobs[n]
    requires SameWorkers(s.workers, mid.workers) && Released(s, mid.workers, n, now)
    ensures IsDue(s.jobs[n], now) ==> IsActive(s.jobs[n].job.state)
    ensures if IsDue(s.jobs[n], now)
            then match ReleaseHolder(mid.workers, s.jobs[n])
                 case Ok(workers) => Released(s, workers, n + 1, now) && AllAccept(s, n + 1, now)
                 case Err(_) => !AllAccept(s, n + 1, now)
            else Released(s, mid.workers, n + 1, now) && AllAccept(s, n + 1, now)
  {
    LeasedIsHeld(s, n);
    ConsistentIsUnique(s);
    hide Consistent, UniqueWorkers, UniqueJobs, AfterReleases, DueOn, SameWorkers, AllAccept, Released, ReleaseHolder;
    var r := s.jobs[n];
    if IsDue(r, now) {
      var h := FindWorker(s.workers, r.worker.value);
      HolderGives(s, mid, n, now, h);
      match ReleaseHolder(mid.workers, r) {
        case Ok(workers) => ReleasedIsAccepted(s, workers, n + 1, now);
        case Err(e) => OneRefusal(s, n + 1, now, h);
      }
    } else {
      NobodyGives(s, mid, n, now);
      ReleasedIsAccepted(s, mid.workers, n + 1, now);
    }
  }

  lemma ScanGoesOn(s: State, n: nat, now: int)
    requires n < |s.jobs| && ExpireFirst(s, n, now).outcome.Done?
    ensures ExpireFirst(s, n + 1, now) == ExpireOne(ExpireFirst(s, n, now).state, n, now)
  {
  }

  lemma ExpireOneIsARelease(s: State, i: nat, now: int)
    requires i < |s.jobs|
    ensures var e := ExpireOne(s, i, now);
            if IsDue(s.jobs[i], now) && IsActive(s.jobs[i].job.state)
            then match ReleaseHolder(s.workers, s.jobs[i])
                 case Ok(workers) => e.outcome.Done? && e.state.workers == workers
                 case Err(error) => e.outcome == Thrown(error)
            else e.outcome.Done? && e.state.workers == s.workers
  {
  }

  lemma ConsistentIsUnique(s: State)
    requires Consistent(s)
    ensures UniqueJobs(s.jobs) && UniqueWorkers(s.workers)
  {
  }

  lemma OneRefusal(s: State, n: nat, now: int, h: nat)
    requires n <= |s.jobs| && h < |s.workers|
    requires AfterReleases(s.workers[h].worker, DueOn(s.jobs, n, s.workers[h].worker.id, now)).Err?
    ensures !AllAccept(s, n, now)
  {
    hide AfterReleases, DueOn;
    assert !Accepts(s.workers[h].worker, s.jobs, n, now);
  }

  /**
   * The expiry scan, from any consistent state: it completes exactly when every worker accepts what its expired jobs
   * give back; then no lease that is due survives, records that were not due are untouched, and a second scan at the
   * same time finds nothing to do.
   */
  lemma ExpiryIsExact(s: State, now: int)
    requires Consistent(s)
    ensures Expire(s, now).outcome.Done? <==> AllAccept(s, |s.jobs|, now)
    ensures Sound(s) ==> Expire(s, now).outcome.Done?
    ensures Expire(s, now).outcome.Done? ==>
              var s' := Expire(s, now).state;
              && s'.queue == s.queue
              && (forall i :: 0 <= i < |s.jobs| ==> s'.jobs[i] == Expired(s.jobs[i], now) && !IsDue(s'.jobs[i], now))
              && (forall i :: 0 <= i < |s.jobs| && !IsDue(s.jobs[i], now) ==> s'.jobs[i] == s.jobs[i])
              && Expire(s', now) == Effect(s', Done)
              && ExpiredCount(s'.jobs, |s'.jobs|, now) == 0
    ensures Preserves(s, Expire(s, now).state)
  {
    hide Inv, Consistent, AllAccept, Preserves, Covers, SameWorkers;
    ScanCompletesIff(s, |s.jobs|, now);
    if Sound(s) {
      var base :| Inv(s, base) && Covers(base, s.workers);
      ExpireFirstCompletes(s, base, |s.jobs|, now);
    }
    ExpiryPreserves(s, |s.jobs|, now);
    ExpireFirstIsPointwise(s, |s.jobs|, now);
    if Expire(s, now).outcome.Done? {
      var s' := Expire(s, now).state;
      NothingDueNothingDone(s', |s'.jobs|, now);
    }
  }

  /** The record at which a scan is stopped. */
  lemma {:induction false} FirstRefusal(s: State, n: nat, now: int) returns (i: nat)
    requires n <= |s.jobs| && ExpireFirst(s, n, now).outcome.Thrown?
    ensures i < n && ExpireFirst(s, i, now).outcome.Done?
    ensures ExpireOne(ExpireFirst(s, i, now).state, i, now) == ExpireFirst(s, n, now)
    ensures ExpireFirst(s, n, now).state == ExpireFirst(s, i, now).state
  {
    if ExpireFirst(s, n - 1, now).outcome.Thrown? {
      i := FirstRefusal(s, n - 1, now);
    } else {
      i := n - 1;
    }
  }

  /** Everything from record `i` on is as it was, and that record is due. */
  ghost predicate StoppedAt(jobs: seq<JobRecord>, jobs': seq<JobRecord>, i: nat, now: int)
  {
    && i < |jobs| == |jobs'| && IsDue(jobs[i], now)
    && forall m :: i <= m < |jobs| ==> jobs'[m] == jobs[m]
  }

  /**
   * A scan that is stopped leaves the record at which it stopped and everything behind it as it was, and the same
   * scan is stopped again with the same error.
   */
  lemma RefusedScanRepeats(s: State, now: int)
    requires Expire(s, now).outcome.Thrown?
    ensures exists i: nat :: StoppedAt(s.jobs, Expire(s, now).state.jobs, i, now)
    ensures Expire(Expire(s, now).state, now) == Expire(s, now)
  {
    hide ExpireOne, SameWorkers;
    var i := FirstRefusal(s, |s.jobs|, now);
    var mid := ExpireFirst(s, i, now).state;
    ExpireFirstIsPointwise(s, i, now);
    NothingDueNothingDone(mid, i, now);
    assert ExpireFirst(mid, i + 1, now) == ExpireOne(mid, i, now);
    EarlyEnd(mid, i + 1, |mid.jobs|, now);
    OnlyDueIsRefused(mid, i, now);
    assert StoppedAt(s.jobs, mid.jobs, i, now);
  }

  lemma OnlyDueIsRefused(s: State, i: nat, now: int)
    requires i < |s.jobs| && ExpireOne(s, i, now).outcome.Thrown?
    ensures IsDue(s.jobs[i], now)
  {
  }

  // ---------- what the scans count ----------

  /** The active records among the first `n` whose lease ran out. */
  function DueRecords(jobs: seq<JobRecord>, n: nat, now: int): set<int>
    requires n <= |jobs|
  {
    set i | 0 <= i < n && IsActive(jobs[i].job.state) && jobs[i].lease.Some? && jobs[i].lease.value <= now
  }

  lemma DueRecordsGrow(jobs: seq<JobRecord>, n: nat, now: int)
    requires n < |jobs|
    ensures n !in DueRecords(jobs, n, now)
    ensures DueRecords(jobs, n + 1, now)
            == DueRecords(jobs, n, now) + (if IsActive(jobs[n].job.state) && IsDue(jobs[n], now) then {n} else {})
  {
    hide IsActive;
  }

  /** The expiry scan reports the number of active records that were due. */
  lemma {:induction false} ExpiredCountIsExact(jobs: seq<JobRecord>, n: nat, now: int)
    requires n <= |jobs|
    ensures ExpiredCount(jobs, n, now) == |DueRecords(jobs, n, now)|
  {
    if n > 0 {
      hide IsActive, IsDue, DueRecords;
      ExpiredCountIsExact(jobs, n - 1, now);
      DueRecordsGrow(jobs, n - 1, now);
    }
  }

  /** The online workers among the first `n` that have not been heard of for `timeout` or longer. */
  function UnheardOf(workers: seq<StoredWorker>, n: nat, now: int, timeout: int): set<int>
    requires n <= |workers|
  {
    set k | 0 <= k < n && workers[k].worker.state.Online? && now - workers[k].heartbeat >= timeout
  }

  lemma UnheardOfGrow(workers: seq<StoredWorker>, n: nat, now: int, timeout: int)
    requires n < |workers| && timeout > 0
    ensures n !in UnheardOf(workers, n, now, timeout)
    ensures UnheardOf(workers, n + 1, now, timeout)
            == UnheardOf(workers, n, now, timeout) + (if IsStale(workers[n], now, timeout) then {n} else {})
  {
  }

  /** The stale check reports their number. */
  lemma {:induction false} StaleCountIsExact(workers: seq<StoredWorker>, n: nat, now: int, timeout: int)
    requires n <= |workers| && timeout > 0
    ensures StaleCount(workers, n, now, timeout) == |UnheardOf(workers, n, now, timeout)|
  {
    if n > 0 {
      hide IsStale, UnheardOf;
      StaleCountIsExact(workers, n - 1, now, timeout);
      UnheardOfGrow(workers, n - 1, now, timeout);
    }
  }

  /** The records among the first `n` that wait for a retry they still have. */
  function Retryable(jobs: seq<JobRecord>, n: nat): set<int>
    requires n <= |jobs|
  {
    set i | 0 <= i < n && jobs[i].job.state.RetryWait? && jobs[i].job.attempts < jobs[i].job.maxAttempts
  }

  lemma RetryableGrow(jobs: seq<JobRecord>, n: nat)
    requires n < |jobs|
    ensures n !in Retryable(jobs, n)
    ensures Retryable(jobs, n + 1)
            == Retryable(jobs, n) + (if jobs[n].job.state.RetryWait? && CanAttempt(jobs[n].job) then {n} else {})
  {
  }

  /** The requeue scan reports their number. */
  lemma {:induction false} RequeuedCountIsExact(jobs: seq<JobRecord>, n: nat)
    requires n <= |jobs|
    ensures RequeuedCount(jobs, n) == |Retryable(jobs, n)|
  {
    if n > 0 {
      hide Retryable, CanAttempt;
      RequeuedCountIsExact(jobs, n - 1);
      RetryableGrow(jobs, n - 1);
    }
  }

  // ---------- what the scans do to one record or worker ----------

  /** What expiry makes of a record of any store, consistent or not. */
  predicate TakenBack(r: JobRecord, r': JobRecord, now: int)
  {
    if r.lease.None? || r.lease.value > now then r' == r
    else if !IsActive(r.job.state) then r' == JobRecord(r.job, r.worker, None)
    else r' == JobRecord(r.job.(state := if r.job.state.CancellationRequested? then Cancelled else RetryWait), None, None)
  }

  /** A completed expiry scan, on any stores, takes back exactly what is due. */
  lemma ExpiryTakesBack(s: State, now: int)
    requires Expire(s, now).outcome.Done?
    ensures |Expire(s, now).state.jobs| == |s.jobs|
    ensures forall i :: 0 <= i < |s.jobs| ==> TakenBack(s.jobs[i], Expire(s, now).state.jobs[i], now)
  {
    ExpireFirstIsPointwise(s, |s.jobs|, now);
    hide ExpireFirst, SameWorkers;
  }

  /** The worker went offline if it was online and not heard of for `timeout`, and changed in nothing else. */
  predicate CheckedFor(sw: StoredWorker, sw': StoredWorker, now: int, timeout: int)
  {
    && sw' == sw.(worker := sw.worker.(state := sw'.worker.state))
    && (sw.worker.state.Online? ==> sw'.worker.state == if now - sw.heartbeat < timeout then Online else Offline)
    && (!sw.worker.state.Online? ==> sw'.worker.state == sw.worker.state)
  }

  /** The stale check takes exactly those workers offline that have not been heard of for the timeout. */
  lemma StaleCheckIsExact(workers: seq<StoredWorker>, n: nat, now: int, timeout: int)
    requires n <= |workers| && timeout > 0
    ensures var checked := CheckFirst(workers, n, now, timeout);
            && |checked| == |workers|
            && (forall k :: 0 <= k < n ==> CheckedFor(workers[k], checked[k], now, timeout))
            && (forall k :: n <= k < |workers| ==> checked[k] == workers[k])
  {
    hide CheckFirst;
  }

  lemma {:induction false} RequeueFirstIsPointwise(s: State, n: nat)
    requires n <= |s.jobs|
    ensures var e := RequeueFirst(s, n);
            && e.state.workers == s.workers
            && (forall i :: n <= i < |s.jobs| ==> e.state.jobs[i] == s.jobs[i])
            && (forall i :: 0 <= i < n ==>
                  || e.state.jobs[i] == Retried(s.jobs[i])
                  || (e.outcome.Thrown? && e.state.jobs[i] == s.jobs[i]))
  {
    if n > 0 {
      RequeueFirstIsPointwise(s, n - 1);
    }
  }

  /** The jobs that the requeue scan puts back, in store order. */
  function PutBackAmong(jobs: seq<JobRecord>, n: nat): seq<Job>
    requires n <= |jobs|
  {
    if n == 0 then []
    else
      var j := jobs[n - 1].job;
      PutBackAmong(jobs, n - 1)
      + if j.state.RetryWait? && j.attempts < j.maxAttempts then [j.(state := Queued)] else []
  }

  /** A waiting record that nobody holds any more, and that is not in the queue if it is to be put there. */
  predicate MayRetry(r: JobRecord, queue: seq<Job>)
  {
    r.job.state.RetryWait? ==>
      && r.worker.None? && r.lease.None?
      && (r.job.attempts < r.job.maxAttempts ==> forall j :: j in queue ==> j.id != r.job.id)
  }

  lemma {:induction false} PutBackIsStored(jobs: seq<JobRecord>, n: nat, r: JobRecord)
    requires n <= |jobs| && forall i :: 0 <= i < n ==> jobs[i].job.id != r.job.id
    ensures forall j :: j in PutBackAmong(jobs, n) ==> j.id != r.job.id
  {
    if n > 0 {
      PutBackIsStored(jobs, n - 1, r);
    }
  }

  /**
   * On any stores with unique ids, consistent or not, the requeue scan completes exactly if every waiting record may
   * be retried, and then appends to the queue what it puts back.
   */
  lemma {:induction false} RequeueCompletesIff(s: State, n: nat)
    requires UniqueJobs(s.jobs) && n <= |s.jobs|
    ensures RequeueFirst(s, n).outcome.Done? <==> forall i :: 0 <= i < n ==> MayRetry(s.jobs[i], s.queue)
    ensures RequeueFirst(s, n).outcome.Done? ==> RequeueFirst(s, n).state.queue == s.queue + PutBackAmong(s.jobs, n)
  {
    hide RequeueOne, MayRetry;
    if n > 0 {
      RequeueCompletesIff(s, n - 1);
      var e := RequeueFirst(s, n - 1);
      if e.outcome.Done? {
        RequeueFirstIsPointwise(s, n - 1);
        PutBackIsStored(s.jobs, n - 1, s.jobs[n - 1]);
        OneMoreRetry(s, e.state, n - 1);
      }
    }
  }

  lemma OneMoreRetry(s: State, mid: State, i: nat)
    requires i < |s.jobs| == |mid.jobs| && mid.jobs[i] == s.jobs[i] && mid.queue == s.queue + PutBackAmong(s.jobs, i)
    requires forall j :: j in PutBackAmong(s.jobs, i) ==> j.id != s.jobs[i].job.id
    ensures RequeueOne(mid, i).outcome.Done? <==> MayRetry(s.jobs[i], s.queue)
    ensures RequeueOne(mid, i).outcome.Done? ==> RequeueOne(mid, i).state.queue == s.queue + PutBackAmong(s.jobs, i + 1)
  {
    var back := PutBackAmong(s.jobs, i);
    assert Contains(mid.queue, s.jobs[i].job.id) <==> exists j :: j in s.queue && j.id == s.jobs[i].job.id by {
      assert forall m :: 0 <= m < |s.queue| ==> mid.queue[m] == s.queue[m] && s.queue[m] in s.queue;
      assert forall m :: |s.queue| <= m < |mid.queue| ==> mid.queue[m] in back;
      assert forall j :: j in s.queue ==> j in mid.queue;
    }
    assert s.queue + (back + []) == s.queue + back;
  }

  /** Requeueing is never stopped in a consistent state. */
  lemma RequeueCompletes(s: State, n: nat)
    requires Consistent(s) && n <= |s.jobs|
    ensures RequeueFirst(s, n).outcome.Done?
    ensures forall i :: 0 <= i < n ==> RequeueFirst(s, n).state.jobs[i] == Retried(s.jobs[i])
  {
    ConsistentNeedsNoLedger(s);
    RequeueFirstKeeps(s, UNKNOWN, n);
    hide Consistent;
    RequeueFirstIsPointwise(s, n);
  }

  /** The stale check, the expiry scan and the requeue scan, under one lock. */
  function MonitorScan(s: State, now: int, timeout: int): Effect
  {
    var a := MarkStale(s, now, timeout);
    if a.outcome.Thrown? then a
    else
      var b := Expire(a.state, now);
      if b.outcome.Thrown? then b else Requeue(b.state)
  }

  /** Where a job whose lease ran out ends up after the scan. */
  function Settled(j: Job): JobState
  {
    if j.state.CancellationRequested? then Cancelled
    else if j.attempts < j.maxAttempts then Queued
    else Failed
  }

  /** What the expiry and requeue scans together make of one record. */
  predicate SettledBy(r: JobRecord, r': JobRecord, now: int)
  {
    if (r.lease.Some? && r.lease.value <= now) || r.job.state.RetryWait?
    then r' == JobRecord(r.job.(state := Settled(r.job)), None, None)
    else r' == r
  }

  lemma RecordSettles(r: JobRecord, now: int)
    requires WellShaped(r)
    ensures SettledBy(r, Retried(Expired(r, now)), now)
  {
  }

  /** The stale check decides whether the worker is online; of the rest, only what is available may differ. */
  predicate IsCheckedUpTo(sw: StoredWorker, sw': StoredWorker, now: int, timeout: int)
  {
    && SameCapacity(sw.worker.(state := sw'.worker.state), sw'.worker) && sw'.heartbeat == sw.heartbeat
    && (sw.worker.state.Online? ==> sw'.worker.state == if now - sw.heartbeat < timeout then Online else Offline)
    && (!sw.worker.state.Online? ==> sw'.worker.state == sw.worker.state)
  }

  /** Whatever becomes of the pass, the stale check has been made of every worker. */
  lemma PassChecksEveryWorker(s: State, now: int, timeout: int)
    requires timeout > 0
    ensures var s' := MonitorScan(s, now, timeout).state;
            && |s'.workers| == |s.workers|
            && forall k :: 0 <= k < |s.workers| ==> IsCheckedUpTo(s.workers[k], s'.workers[k], now, timeout)
  {
    hide CheckFirst, ExpireFirst, RequeueFirst;
    var a := MarkStale(s, now, timeout).state;
    StaleCheckIsExact(s.workers, |s.workers|, now, timeout);
    ExpireFirstIsPointwise(a, |a.jobs|, now);
    var b := Expire(a, now).state;
    RequeueFirstIsPointwise(b, |b.jobs|);
    forall k | 0 <= k < |s.workers|
      ensures IsCheckedUpTo(s.workers[k], b.workers[k], now, timeout)
    {
      assert CheckedFor(s.workers[k], a.workers[k], now, timeout);
      assert SameCapacity(a.workers[k].worker, b.workers[k].worker);
    }
  }

  lemma StaleCheckKeepsAcceptance(s: State, now: int, timeout: int)
    requires timeout > 0
    ensures AllAccept(MarkStale(s, now, timeout).state, |s.jobs|, now) <==> AllAccept(s, |s.jobs|, now)
  {
    var s' := MarkStale(s, now, timeout).state;
    forall k | 0 <= k < |s.workers|
      ensures Accepts(s'.workers[k].worker, s'.jobs, |s.jobs|, now) <==> Accepts(s.workers[k].worker, s.jobs, |s.jobs|, now)
    {
      ReleasesIgnoreState(s.workers[k].worker, DueOn(s.jobs, |s.jobs|, s.workers[k].worker.id, now), s'.workers[k].worker.state);
    }
  }

  /**
   * One monitor pass from any consistent state. It completes exactly when every worker accepts what its expired jobs
   * give back, as every worker does in a sound state; then each job whose lease was due or that waited for a retry is
   * settled by its attempts and state, every other job is as it was, and exactly the workers not heard of are offline
   * that were online. Completed or not, what was consistent and balanced still is.
   */
  lemma MonitorSettlesEveryDueJob(s: State, now: int, timeout: int)
    requires Consistent(s) && timeout > 0
    ensures MonitorScan(s, now, timeout).outcome.Done? <==> AllAccept(s, |s.jobs|, now)
    ensures Sound(s) ==> MonitorScan(s, now, timeout).outcome.Done?
    ensures Preserves(s, MonitorScan(s, now, timeout).state)
    ensures MonitorScan(s, now, timeout).outcome.Done? ==>
              var s' := MonitorScan(s, now, timeout).state;
              && |s'.jobs| == |s.jobs| && |s'.workers| == |s.workers|
              && (forall i :: 0 <= i < |s.jobs| ==> SettledBy(s.jobs[i], s'.jobs[i], now))
              && (forall k :: 0 <= k < |s.workers| ==> IsCheckedUpTo(s.workers[k], s'.workers[k], now, timeout))
  {
    hide Consistent, AllAccept, Preserves, Sound, SettledBy, CheckFirst, ExpireFirst, RequeueFirst, IsCheckedUpTo;
    PassChecksEveryWorker(s, now, timeout);
    StaleCheckPreserves(s, |s.workers|, now, timeout);
    var a := MarkStale(s, now, timeout).state;
    PreservesSoundness(s, a);
    StaleCheckKeepsAcceptance(s, now, timeout);
    ExpiryIsExact(a, now);
    var b := Expire(a, now).state;
    PreservesSoundness(a, b);
    PreservesComposes(s, a, b);
    RequeueCompletes(b, |b.jobs|);
    RequeuePreserves(b, |b.jobs|);
    PreservesComposes(s, b, Requeue(b).state);
    if Expire(a, now).outcome.Done? {
      forall i | 0 <= i < |s.jobs|
        ensures SettledBy(s.jobs[i], MonitorScan(s, now, timeout).state.jobs[i], now)
      {
        LeasedIsHeld(s, i);
        RecordSettles(s.jobs[i], now);
      }
    }
  }

  function WentOffline(s: State, s': State): set<int>
  {
    set k | 0 <= k < |s.workers| && k < |s'.workers| && s.workers[k].worker.state.Online? && s'.workers[k].worker.state.Offline?
  }

  function NoLongerActive(s: State, s': State): set<int>
  {
    set i | 0 <= i < |s.jobs| && i < |s'.jobs| && IsActive(s.jobs[i].job.state) && !IsActive(s'.jobs[i].job.state)
  }

  function NewlyQueued(s: State, s': State): set<int>
  {
    set i | 0 <= i < |s.jobs| && i < |s'.jobs| && !s.jobs[i].job.state.Queued? && s'.jobs[i].job.state.Queued?
  }

  /** What a completed pass reports is what changed: workers gone offline, jobs taken back, jobs queued again. */
  lemma PassReportsWhatChanged(s: State, now: int, timeout: int)
    requires Consistent(s) && timeout > 0 && MonitorScan(s, now, timeout).outcome.Done?
    ensures var s' := MonitorScan(s, now, timeout).state;
            var mid := Expire(MarkStale(s, now, timeout).state, now).state;
            && StaleCount(s.workers, |s.workers|, now, timeout) == |WentOffline(s, s')|
            && ExpiredCount(s.jobs, |s.jobs|, now) == |NoLongerActive(s, s')|
            && RequeuedCount(mid.jobs, |mid.jobs|) == |NewlyQueued(s, s')|
  {
    hide Consistent, AllAccept, Preserves, Sound, SameWorkers, CheckFirst, ExpireFirst, RequeueFirst, SettledBy, MonitorScan;
    var s' := MonitorScan(s, now, timeout).state;
    MonitorSettlesEveryDueJob(s, now, timeout);
    StaleCountIsExact(s.workers, |s.workers|, now, timeout);
    ExpiredCountIsExact(s.jobs, |s.jobs|, now);
    PassMovesRecords(s, now, timeout);
    assert UnheardOf(s.workers, |s.workers|, now, timeout) == WentOffline(s, s') by {
      assert forall k :: 0 <= k < |s.workers| ==> IsCheckedUpTo(s.workers[k], s'.workers[k], now, timeout);
    }
  }

  lemma PassMovesRecords(s: State, now: int, timeout: int)
    requires Consistent(s) && timeout > 0 && MonitorScan(s, now, timeout).outcome.Done?
    requires |MonitorScan(s, now, timeout).state.jobs| == |s.jobs|
    requires forall i :: 0 <= i < |s.jobs| ==> SettledBy(s.jobs[i], MonitorScan(s, now, timeout).state.jobs[i], now)
    ensures var s' := MonitorScan(s, now, timeout).state;
            var mid := Expire(MarkStale(s, now, timeout).state, now).state;
            && DueRecords(s.jobs, |s.jobs|, now) == NoLongerActive(s, s')
            && RequeuedCount(mid.jobs, |mid.jobs|) == |NewlyQueued(s, s')|
  {
    var s' := MonitorScan(s, now, timeout).state;
    var a := MarkStale(s, now, timeout).state;
    hide CheckFirst, ExpireFirst, RequeueFirst, TakenBack, SettledBy;
    ExpiryTakesBack(a, now);
    var mid := Expire(a, now).state;
    RequeuedCountIsExact(mid.jobs, |mid.jobs|);
    hide MonitorScan, Expire, MarkStale;
    forall i | 0 <= i < |s.jobs|
      ensures i in DueRecords(s.jobs, |s.jobs|, now) <==> i in NoLongerActive(s, s')
      ensures i in Retryable(mid.jobs, |mid.jobs|) <==> i in NewlyQueued(s, s')
    {
      LeasedIsHeld(s, i);
      RecordMoves(s.jobs[i], mid.jobs[i], s'.jobs[i], now);
    }
    assert DueRecords(s.jobs, |s.jobs|, now) == NoLongerActive(s, s');
    assert Retryable(mid.jobs, |mid.jobs|) == NewlyQueued(s, s');
  }

  lemma RecordMoves(r: JobRecord, mid: JobRecord, r': JobRecord, now: int)
    requires WellShaped(r) && TakenBack(r, mid, now) && SettledBy(r, r', now)
    ensures IsActive(r.job.state) && r.lease.Some? && r.lease.value <= now
            <==> IsActive(r.job.state) && !IsActive(r'.job.state)
    ensures mid.job.state.RetryWait? && mid.job.attempts < mid.job.maxAttempts
            <==> !r.job.state.Queued? && r'.job.state.Queued?
  {
  }

  lemma StaleCheckIsIdempotent(workers: seq<StoredWorker>, later: seq<StoredWorker>, now: int, timeout: int)
    requires SameWorkers(CheckFirst(workers, |workers|, now, timeout), later)
    ensures CheckFirst(later, |later|, now, timeout) == later
  {
    hide CheckFirst, Checked, SameCapacity;
    var checked := CheckFirst(workers, |workers|, now, timeout);
    forall k | 0 <= k < |later|
      ensures Checked(later[k], now, timeout) == later[k]
    {
      CheckedRecord(workers, k, now, timeout);
      CheckedStays(workers[k], checked[k], later[k], now, timeout);
    }
    NothingToCheck(later, |later|, now, timeout);
  }

  lemma {:induction false} NothingToCheck(workers: seq<StoredWorker>, n: nat, now: int, timeout: int)
    requires n <= |workers| && forall k :: 0 <= k < |workers| ==> Checked(workers[k], now, timeout) == workers[k]
    ensures CheckFirst(workers, n, now, timeout) == workers
  {
    hide Checked;
    if n > 0 {
      NothingToCheck(workers, n - 1, now, timeout);
      assert workers[n - 1 := workers[n - 1]] == workers;
    }
  }

  lemma CheckedRecord(workers: seq<StoredWorker>, k: nat, now: int, timeout: int)
    requires k < |workers|
    ensures CheckFirst(workers, |workers|, now, timeout)[k] == Checked(workers[k], now, timeout)
  {
    hide CheckFirst, Checked;
  }

  lemma CheckedStays(sw: StoredWorker, checked: StoredWorker, later: StoredWorker, now: int, timeout: int)
    requires checked == Checked(sw, now, timeout)
    requires SameCapacity(checked.worker, later.worker) && later.heartbeat == checked.heartbeat
    ensures Checked(later, now, timeout) == later
  {
  }

  /**
   * A pass that is stopped requeues nothing, leaves the record at which it stopped and everything behind it as it
   * was, and comes to the same when it is repeated.
   */
  lemma StoppedPassRepeats(s: State, now: int, timeout: int)
    requires Consistent(s) && timeout > 0 && MonitorScan(s, now, timeout).outcome.Thrown?
    ensures var e := MonitorScan(s, now, timeout);
            && e.state.queue == s.queue
            && (exists i: nat :: StoppedAt(s.jobs, e.state.jobs, i, now))
            && MonitorScan(e.state, now, timeout) == e
  {
    var a := MarkStale(s, now, timeout).state;
    StaleCheckPreserves(s, |s.workers|, now, timeout);
    PreservesSoundness(s, a);
    ExpiryPreserves(a, |a.jobs|, now);
    var b := Expire(a, now).state;
    PreservesSoundness(a, b);
    RequeueCompletes(b, |b.jobs|);
    RefusedScanRepeats(a, now);
    ExpireFirstIsPointwise(a, |a.jobs|, now);
    StaleCheckIsIdempotent(s.workers, b.workers, now, timeout);
    hide Consistent, Preserves, CheckFirst, ExpireFirst, RequeueFirst, SameWorkers;
  }
}

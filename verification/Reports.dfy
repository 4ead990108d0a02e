/** Where outcomes come from: over whole runs, a job ends as its holder reported, or because it had no attempt left. */
module Reports {
  import opened Errors
  import opened JobStates
  import opened Jobs
  import opened Workers
  import opened Store
  import opened Protocol
  import opened Conservation
  import opened Preservation
  import opened Recovery
  import opened Scans
  import opened Runs
  import opened Histories
  import opened JobQueues
  import opened Planning
  import opened Draining
  import opened Rpc
  import opened ServerRuns

  /** The event is an accepted report on record `i`, of success or of failure. */
  predicate IsReport(s: State, e: Event, i: nat, succeeded: bool)
  {
    && e.Finishing? && e.succeeded == succeeded && FindJob(s.jobs, e.jobId) == i
    && Finish(s, e.jobId, if succeeded then Succeeded else Failed).outcome.Done?
  }

  /** What the states of one record before and after an event may be, outcomes considered. */
  predicate OutcomeMove(r: JobRecord, r': JobRecord, success: bool, failure: bool)
  {
    && (r'.job.state.Succeeded? <==> r.job.state.Succeeded? || success)
    && (r.job.state.Failed? || failure ==> r'.job.state.Failed?)
    && (r'.job.state.Failed? ==> r.job.state.Failed? || failure || r'.job.attempts == r'.job.maxAttempts)
    && (r'.job.state.Cancelled? ==> r.job.state.Cancelled? || r.job.state.CancellationRequested?)
    && (r'.job.state.CancellationRequested? ==> r.job.state.CancellationRequested?)
    && (r.job.state.Cancelled? ==> r'.job.state.Cancelled?)
  }

  lemma EventMovesOutcomes(s: State, e: Event, duration: int, i: nat)
    requires Consistent(s) && i < |s.jobs|
    ensures i < |Apply(s, e, duration).jobs|
    ensures OutcomeMove(s.jobs[i], Apply(s, e, duration).jobs[i], IsReport(s, e, i, true), IsReport(s, e, i, false))
  {
    LeasedIsHeld(s, i);
    ConsistentIsUnique(s);
    JobFindsItself(s.jobs, i);
    EventMoves(s, e, duration, i);
    hide Consistent, UniqueJobs, FindJob, OutcomeMove, ExpireFirst, RequeueFirst, Recover, Dispatch, Finish, Submit;
    hide Register, Reregister, Heartbeat, HeartbeatInPart, CheckFirst, RolledBack, Start;
    match e {
      case Finishing(jobId, ok) => FinishMovesOutcomes(s, jobId, ok, i);
      case ExpiryScan(now, stop) => ScansMoveOutcomes(s, e, duration, i);
      case RequeueScan(stop) => ScansMoveOutcomes(s, e, duration, i);
      case CrashAndRestart(point) => RestartMovesOutcomes(s, e, duration, i);
      case Dispatching(jobId, workerId, now) => DispatchMovesOutcomes(s, e, duration, i);
      case _ => OtherOutcomesStay(s, e, duration, i);
    }
  }

  lemma FinishMovesOutcomes(s: State, jobId: Id, ok: bool, i: nat)
    requires i < |s.jobs| && FindJob(s.jobs, s.jobs[i].job.id) == i && WellShaped(s.jobs[i])
    requires LiveMove(s.jobs[i].job, Finish(s, jobId, if ok then Succeeded else Failed).state.jobs[i].job)
    ensures var e := Finishing(jobId, ok);
            OutcomeMove(s.jobs[i], Finish(s, jobId, if ok then Succeeded else Failed).state.jobs[i],
                        IsReport(s, e, i, true), IsReport(s, e, i, false))
  {
    hide AfterRelease, FindWorker;
  }

  lemma ScansMoveOutcomes(s: State, e: Event, duration: int, i: nat)
    requires (e.ExpiryScan? || e.RequeueScan?) && i < |s.jobs| && WellShaped(s.jobs[i])
    ensures i < |Apply(s, e, duration).jobs|
    ensures OutcomeMove(s.jobs[i], Apply(s, e, duration).jobs[i], false, false)
  {
    hide ExpireFirst, RequeueFirst, SameWorkers;
    if e.ExpiryScan? {
      ExpireFirstIsPointwise(s, Min(e.stop, |s.jobs|), e.now);
    } else {
      RequeueFirstIsPointwise(s, Min(e.stop, |s.jobs|));
    }
  }

  lemma RestartMovesOutcomes(s: State, e: Event, duration: int, i: nat)
    requires Consistent(s) && e.CrashAndRestart? && i < |s.jobs| && WellShaped(s.jobs[i])
    ensures i < |Apply(s, e, duration).jobs|
    ensures OutcomeMove(s.jobs[i], Apply(s, e, duration).jobs[i], false, false)
  {
    CrashPointDoesNotMatter(s, e.point);
    ConsistentIsUnique(s);
    hide Consistent, UniqueJobs, UniqueWorkers, Recover, Reaches;
    RecoverLosesNothing(s.jobs, s.workers, i);
  }

  lemma DispatchMovesOutcomes(s: State, e: Event, duration: int, i: nat)
    requires Consistent(s) && e.Dispatching? && i < |s.jobs|
    ensures i < |Apply(s, e, duration).jobs|
    ensures OutcomeMove(s.jobs[i], Apply(s, e, duration).jobs[i], false, false)
  {
    DispatchIsExact(s, e.jobId, e.workerId, e.now, duration);
    if FindQueued(s.queue, e.jobId) < |s.queue| {
      QueuedJobIsStored(s, FindQueued(s.queue, e.jobId));
    }
    hide Consistent, Dispatch, Eligible;
  }

  lemma OtherOutcomesStay(s: State, e: Event, duration: int, i: nat)
    requires i < |s.jobs| && WellShaped(s.jobs[i])
    requires !e.Finishing? && !e.ExpiryScan? && !e.RequeueScan? && !e.Dispatching? && !e.CrashAndRestart?
    ensures i < |Apply(s, e, duration).jobs|
    ensures OutcomeMove(s.jobs[i], Apply(s, e, duration).jobs[i], false, false)
  {
    hide CheckFirst, RolledBack, FindWorker;
    if e.DispatchUndone? {
      RolledBackKeepsJobs(s, e.jobId);
    }
  }

  /** Among the first `n` events is an accepted report on record `i`. */
  ghost predicate Reported(s: State, run: seq<Event>, n: nat, duration: int, i: nat, succeeded: bool)
    requires n <= |run|
  {
    exists m :: 0 <= m < n && IsReport(StateAt(s, run, m, duration), run[m], i, succeeded)
  }

  /**
   * Over every run: a job has succeeded exactly if it had before or its success was reported and accepted; it has failed
   * only if it had before, its failure was reported and accepted, or it has used up its attempts; and it is cancelled
   * only if that was requested before the run began.
   */
  lemma {:induction false} OutcomesAreReported(s: State, run: seq<Event>, n: nat, duration: int, i: nat)
    requires Consistent(s) && n <= |run| && AdmissibleRun(s, run, n, duration) && i < |s.jobs|
    ensures i < |StateAt(s, run, n, duration).jobs|
    ensures OutcomeMove(s.jobs[i], StateAt(s, run, n, duration).jobs[i], Reported(s, run, n, duration, i, true),
                        Reported(s, run, n, duration, i, false))
  {
    hide Apply, Admissible, Consistent, IsReport;
    if n == 0 {
      NothingMoves(s.jobs[i], s, run, duration, i);
    } else {
      OutcomesAreReported(s, run, n - 1, duration, i);
      RunsStayConsistent(s, run, n - 1, duration);
      var a, e := StateAt(s, run, n - 1, duration), run[n - 1];
      EventMovesOutcomes(a, e, duration, i);
      WorkIsAccountedFor(s, run, n - 1, duration, i);
      EventMoves(a, e, duration, i);
      OneMoreReport(s, run, n - 1, duration, i, true);
      OneMoreReport(s, run, n - 1, duration, i, false);
      hide Reported, StateAt, LiveMove, RestartMove;
      FailureLasts(a.jobs[i].job, Apply(a, e, duration).jobs[i].job, e.CrashAndRestart?);
    }
  }

  lemma NothingMoves(r: JobRecord, s: State, run: seq<Event>, duration: int, i: nat)
    ensures !Reported(s, run, 0, duration, i, true) && !Reported(s, run, 0, duration, i, false)
    ensures OutcomeMove(r, r, false, false)
  {
  }

  lemma OneMoreReport(s: State, run: seq<Event>, n: nat, duration: int, i: nat, ok: bool)
    requires n < |run|
    ensures Reported(s, run, n + 1, duration, i, ok)
            <==> Reported(s, run, n, duration, i, ok) || IsReport(StateAt(s, run, n, duration), run[n], i, ok)
  {
    hide IsReport, StateAt;
  }

  lemma FailureLasts(a: Job, b: Job, restart: bool)
    requires Moves(a, b, restart)
    ensures IsTerminal(a.state) ==> a == b
  {
    if IsTerminal(a.state) {
      TerminalMovesNowhere(a, b, restart);
    }
  }

  // ---------- what clients are told ----------

  /** The call reports on record `i` and is answered with success. */
  predicate AnswersReport(sv: Server, c: Call, i: nat, succeeded: bool)
  {
    && c.FinishCall? && c.succeeded == Some(succeeded) && FindJob(sv.state.jobs, c.jobId) == i
    && FinishJob(sv, c.workerId, c.jobId, c.succeeded).outcome.Done?
  }

  lemma CallMovesOutcomes(sv: Server, c: Call, i: nat)
    requires Consistent(sv.state) && Allowed(c) && i < |sv.state.jobs|
    ensures i < |Serve(sv, c).state.jobs|
    ensures OutcomeMove(sv.state.jobs[i], Serve(sv, c).state.jobs[i], AnswersReport(sv, c, i, true),
                        AnswersReport(sv, c, i, false))
  {
    var events := EventsOf(sv, c);
    CallIsARun(sv, c);
    ReportsOfACall(sv, c, i, true);
    ReportsOfACall(sv, c, i, false);
    hide Consistent, Serve, EventsOf, Reported, AnswersReport, OutcomeMove;
    OutcomesAreReported(sv.state, events, |events|, LEASE_DURATION, i);
  }

  lemma ReportsOfACall(sv: Server, c: Call, i: nat, ok: bool)
    requires Allowed(c) && i < |sv.state.jobs|
    ensures var events := EventsOf(sv, c);
            Reported(sv.state, events, |events|, LEASE_DURATION, i, ok) <==> AnswersReport(sv, c, i, ok)
  {
    hide Expire, MarkStale, PlanFor, LeasedJob, Apply, Finish;
    var events := EventsOf(sv, c);
    assert StateAt(sv.state, events, 0, LEASE_DURATION) == sv.state;
    if c.FinishCall? && events != [] {
      assert events == [Finishing(c.jobId, c.succeeded.value)];
      assert IsReport(sv.state, events[0], i, ok) <==> AnswersReport(sv, c, i, ok);
      assert Reported(sv.state, events, 1, LEASE_DURATION, i, ok) <==> IsReport(sv.state, events[0], i, ok);
    } else {
      assert forall m :: 0 <= m < |events| ==> !events[m].Finishing?;
    }
  }

  ghost predicate Answered(sv: Server, calls: seq<Call>, n: nat, i: nat, succeeded: bool)
    requires n <= |calls|
  {
    exists m :: 0 <= m < n && AnswersReport(ServerAt(sv, calls, m), calls[m], i, succeeded)
  }

  /** The same over every run of the server: outcomes are those of the reports that were answered with success. */
  lemma {:induction false} OutcomesAreAnswered(sv: Server, calls: seq<Call>, n: nat, i: nat)
    requires Consistent(sv.state) && n <= |calls| && AllowedRun(calls, n) && i < |sv.state.jobs|
    ensures i < |ServerAt(sv, calls, n).state.jobs|
    ensures OutcomeMove(sv.state.jobs[i], ServerAt(sv, calls, n).state.jobs[i], Answered(sv, calls, n, i, true),
                        Answered(sv, calls, n, i, false))
  {
    hide Serve, Allowed, Consistent, AnswersReport, LeadsTo, EventsBefore, History, Attempted, Changes;
    if n > 0 {
      OutcomesAreAnswered(sv, calls, n - 1, i);
      ServerRunIsARun(sv, calls, n - 1);
      var a := ServerAt(sv, calls, n - 1);
      CallMovesOutcomes(a, calls[n - 1], i);
      ServerHistories(a, [calls[n - 1]], 1, i);
      assert ServerAt(a, [calls[n - 1]], 0) == a;
      assert ServerAt(a, [calls[n - 1]], 1) == ServerAt(sv, calls, n);
      OneMoreAnswer(sv, calls, n - 1, i, true);
      OneMoreAnswer(sv, calls, n - 1, i, false);
      hide Answered, ServerAt;
    }
  }

  lemma OneMoreAnswer(sv: Server, calls: seq<Call>, n: nat, i: nat, ok: bool)
    requires n < |calls|
    ensures Answered(sv, calls, n + 1, i, ok)
            <==> Answered(sv, calls, n, i, ok) || AnswersReport(ServerAt(sv, calls, n), calls[n], i, ok)
  {
    hide AnswersReport, ServerAt;
  }
}

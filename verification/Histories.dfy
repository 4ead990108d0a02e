/** What can happen to one job over a whole run. */
module Histories {
  import opened JobStates
  import opened Errors
  import opened Jobs
  import opened Store
  import opened Protocol
  import opened Conservation
  import opened Runs

  /** How often, in the first `n` events, an attempt of record `i` was begun. */
  function Attempted(s: State, run: seq<Event>, n: nat, duration: int, i: nat): nat
    requires n <= |run|
  {
    if n == 0 then 0
    else Attempted(s, run, n - 1, duration, i)
         + (if Dispatches(StateAt(s, run, n - 1, duration), run[n - 1], i, duration) then 1 else 0)
  }

  predicate ChangesState(a: State, b: State, i: nat)
  {
    i < |a.jobs| && i < |b.jobs| && a.jobs[i].job.state != b.jobs[i].job.state
  }

  /** How often, in the first `n` events, record `i` changed state. */
  function Changes(s: State, run: seq<Event>, n: nat, duration: int, i: nat): nat
    requires n <= |run|
  {
    if n == 0 then 0
    else Changes(s, run, n - 1, duration, i)
         + (if ChangesState(StateAt(s, run, n - 1, duration), StateAt(s, run, n, duration), i) then 1 else 0)
  }

  /** The work a job may still cause. */
  function Remaining(j: Job): nat
  {
    4 * (j.maxAttempts - j.attempts) + Rank(j.state)
  }

  lemma EveryMoveCosts(a: Job, b: Job, restart: bool)
    requires Moves(a, b, restart)
    ensures Remaining(b) + (if a.state != b.state then 1 else 0) <= Remaining(a)
  {
  }

  predicate Accounted(a: Job, b: Job, dispatched: bool)
  {
    && SameIdentity(a, b)
    && b.attempts == a.attempts + (if dispatched then 1 else 0)
    && Remaining(b) + (if a.state != b.state then 1 else 0) <= Remaining(a)
  }

  lemma EventIsAccountedFor(s: State, e: Event, duration: int, i: nat)
    requires Consistent(s) && i < |s.jobs|
    ensures i < |Apply(s, e, duration).jobs|
    ensures Accounted(s.jobs[i].job, Apply(s, e, duration).jobs[i].job, Dispatches(s, e, i, duration))
  {
    EventMoves(s, e, duration, i);
    EveryMoveCosts(s.jobs[i].job, Apply(s, e, duration).jobs[i].job, e.CrashAndRestart?);
  }

  /** From `a` to `b` a job began this many attempts and changed state at most this often. */
  predicate History(a: Job, b: Job, attempted: nat, changes: nat)
  {
    && SameIdentity(a, b)
    && b.attempts == a.attempts + attempted
    && Remaining(b) + changes <= Remaining(a)
  }

  lemma HistoryGrows(a: Job, b: Job, c: Job, attempted: nat, changes: nat, dispatched: bool)
    requires History(a, b, attempted, changes) && Accounted(b, c, dispatched)
    ensures History(a, c, attempted + (if dispatched then 1 else 0), changes + (if b.state != c.state then 1 else 0))
  {
  }

  /** Attempts count dispatches, and every change of state uses up remaining work. */
  lemma {:induction false} WorkIsAccountedFor(s: State, run: seq<Event>, n: nat, duration: int, i: nat)
    requires Consistent(s) && n <= |run| && i < |s.jobs| && AdmissibleRun(s, run, n, duration)
    ensures i < |StateAt(s, run, n, duration).jobs|
    ensures History(s.jobs[i].job, StateAt(s, run, n, duration).jobs[i].job,
                    Attempted(s, run, n, duration, i), Changes(s, run, n, duration, i))
  {
    hide Apply, Consistent, Admissible, Accounted, Dispatches;
    if n > 0 {
      WorkIsAccountedFor(s, run, n - 1, duration, i);
      RunsStayConsistent(s, run, n - 1, duration);
      var a, b := StateAt(s, run, n - 1, duration), StateAt(s, run, n, duration);
      EventIsAccountedFor(a, run[n - 1], duration, i);
      HistoryGrows(s.jobs[i].job, a.jobs[i].job, b.jobs[i].job, Attempted(s, run, n - 1, duration, i),
                   Changes(s, run, n - 1, duration, i), Dispatches(a, run[n - 1], i, duration));
    }
  }

  /**
   * A freshly submitted job is stored and queued as submitted, keeps what it was submitted with, and is dispatched at
   * most `maxAttempts` times. Its attempt count is the number of its dispatches, and it changes state at most four
   * times per attempt, however many leases expire and however often the coordinator restarts.
   */
  lemma WorkPerJobIsBounded(s: State, j: Job, run: seq<Event>, n: nat, duration: int)
    requires Consistent(s) && Submit(s, j).outcome.Done? && j.attempts == 0
    requires n <= |run| && AdmissibleRun(Submit(s, j).state, run, n, duration)
    ensures var s0 := Submit(s, j).state;
            var i := |s.jobs|;
            var s' := StateAt(s0, run, n, duration);
            && s0.jobs == s.jobs + [JobRecord(j, None, None)] && s0.queue == s.queue + [j] && s0.workers == s.workers
            && i < |s'.jobs| && s'.jobs[i].job == j.(state := s'.jobs[i].job.state, attempts := s'.jobs[i].job.attempts)
            && s'.jobs[i].job.attempts == Attempted(s0, run, n, duration, i) <= j.maxAttempts
            && Changes(s0, run, n, duration, i) <= 4 * j.maxAttempts
  {
    EventKeepsConsistent(s, Submission(j), duration);
    WorkIsAccountedFor(Submit(s, j).state, run, n, duration, |s.jobs|);
  }

  lemma TerminalMovesNowhere(a: Job, b: Job, restart: bool)
    requires Moves(a, b, restart) && IsTerminal(a.state)
    ensures a == b
  {
  }

  /** Once a job has an outcome, no run changes it; so no job has two outcomes. */
  lemma {:induction false} OutcomesAreFinal(s: State, run: seq<Event>, n: nat, duration: int, i: nat)
    requires Consistent(s) && n <= |run| && AdmissibleRun(s, run, n, duration)
    requires i < |s.jobs| && IsTerminal(s.jobs[i].job.state)
    ensures i < |StateAt(s, run, n, duration).jobs|
    ensures StateAt(s, run, n, duration).jobs[i].job == s.jobs[i].job
  {
    hide Apply, Consistent, Admissible;
    if n > 0 {
      OutcomesAreFinal(s, run, n - 1, duration, i);
      RunsStayConsistent(s, run, n - 1, duration);
      var a := StateAt(s, run, n - 1, duration);
      EventMoves(a, run[n - 1], duration, i);
      TerminalMovesNowhere(a.jobs[i].job, StateAt(s, run, n, duration).jobs[i].job, run[n - 1].CrashAndRestart?);
    }
  }
}

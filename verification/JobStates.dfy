/** The job life cycle: libs/domain/src/job_state.cpp. */
module JobStates {

  datatype JobState =
    | Queued
    | Leased
    | Running
    | RetryWait
    | CancellationRequested
    | Succeeded
    | Failed
    | Cancelled

  predicate CanTransition(from: JobState, to: JobState)
  {
    match from
    case Queued => to.Leased? || to.Cancelled?
    case Leased => to.Running? || to.RetryWait? || to.Cancelled?
    case Running => to.Succeeded? || to.Failed? || to.RetryWait? || to.CancellationRequested?
    case RetryWait => to.Queued? || to.Failed? || to.Cancelled?
    case CancellationRequested => to.Cancelled? || to.Succeeded? || to.Failed?
    case Succeeded => false
    case Failed => false
    case Cancelled => false
  }

  predicate IsTerminal(s: JobState)
  {
    s.Succeeded? || s.Failed? || s.Cancelled?
  }

  /** The states that hold a worker slot. */
  predicate IsActive(s: JobState)
  {
    s.Leased? || s.Running? || s.CancellationRequested?
  }

  /** The transitive closure of `CanTransition`, witnessed by a path of edges. */
  ghost predicate Reaches(from: JobState, to: JobState)
  {
    exists path: seq<JobState> :: IsPath(path) && path[0] == from && path[|path| - 1] == to
  }

  ghost predicate IsPath(path: seq<JobState>)
  {
    |path| >= 2 && forall i :: 0 < i < |path| ==> CanTransition(path[i - 1], path[i])
  }

  /** The terminal states are exactly the states nothing is reachable from. */
  lemma TerminalIffStuck(s: JobState)
    ensures IsTerminal(s) <==> !exists t :: Reaches(s, t)
  {
    if IsTerminal(s) {
      forall path | IsPath(path)
        ensures path[0] != s
      {
        assert CanTransition(path[1 - 1], path[1]);
      }
    } else {
      var t := match s
        case Queued => Leased
        case Leased => Running
        case Running => Succeeded
        case RetryWait => Queued
        case _ => Cancelled;
      assert IsPath([s, t]);
      assert Reaches(s, t);
    }
  }

  /** The life cycle read backwards: from where each state is entered. */
  lemma EntriesAreExact(from: JobState)
    ensures CanTransition(from, Queued) <==> from.RetryWait?
    ensures CanTransition(from, Leased) <==> from.Queued?
    ensures CanTransition(from, Running) <==> from.Leased?
    ensures CanTransition(from, RetryWait) <==> from.Leased? || from.Running?
    ensures CanTransition(from, CancellationRequested) <==> from.Running?
    ensures CanTransition(from, Succeeded) <==> from.Running? || from.CancellationRequested?
    ensures CanTransition(from, Failed) <==> from.Running? || from.RetryWait? || from.CancellationRequested?
    ensures CanTransition(from, Cancelled) <==>
              from.Queued? || from.Leased? || from.RetryWait? || from.CancellationRequested?
  {
  }

  /** A job that is not over waits, for a worker or for a retry, or occupies a slot. */
  lemma WaitsWorksOrIsOver(s: JobState)
    ensures IsActive(s) <==> !(s.Queued? || s.RetryWait? || s.Succeeded? || s.Failed? || s.Cancelled?)
    ensures IsTerminal(s) <==> !IsActive(s) && !s.Queued? && !s.RetryWait?
  {
  }

  /** How many state changes a job may still make in its current attempt. */
  function Rank(s: JobState): nat
  {
    match s
    case Leased => 4
    case Running => 3
    case RetryWait => 2
    case CancellationRequested => 2
    case _ => 1
  }
}

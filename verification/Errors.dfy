/** Results and the exceptions the modelled code can throw, as values. */
module Errors {

  datatype Option<+T> = None | Some(value: T)

  /** One constructor per distinct `throw` in the modelled files. */
  datatype Error =
    | InvalidJob
    | UnknownJob
    | UnknownWorker
    | DuplicateJob
    | DuplicateWorker
    | NotQueued
    | AlreadyQueued
    | AttemptsExhausted
    | IllegalTransition
    | CannotReserve
    | NothingToRelease
    | OverRelease
    | UnassignedJob
    | StrandedRetry
    | InvalidTimeout
    | InvalidOutcome
    /** A repository write that was rejected without taking effect. */
    | StorageFailure

  datatype Result<+T> = Ok(value: T) | Err(error: Error)

  /** How a call that returns nothing ended. */
  datatype Outcome = Done | Thrown(error: Error)

  /** Non-empty identifiers: the id constructor rejects the empty string. */
  type Id = s: string | |s| > 0 witness "-"
}

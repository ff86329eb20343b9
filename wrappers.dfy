/** Optional values and pass/fail outcomes shared by the modules of the model. */
module Wrappers {

  /** `T | undefined` (or `T | null`) in the source. */
  datatype Option<+T> = None | Some(value: T)

  /** A value, or the message of the `Error` thrown instead of returning one. */
  datatype Result<+T> = Success(value: T) | Failure(error: string)

  /** The result of an event handler that may throw: `Fail` carries the message of the thrown `Error`. */
  datatype Outcome = Pass | Fail(error: string)
}

/** Failure-compatible wrappers used across the model. */
module Wrappers {

  /** An optional value: a JavaScript field that may be missing. */
  datatype Option<+T> = None | Some(value: T)

  /** The result of an updater that may throw: `Failure` carries the error text. */
  datatype Result<+T> = Success(value: T) | Failure(error: string)
}

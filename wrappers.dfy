/** Failure-carrying values shared by the modules of this model. */
module Wrappers {

  /** A value that may be absent: JavaScript's `null` / `undefined`. */
  datatype Option<+T> = None | Some(value: T)

  /** The outcome of an operation that may throw: its value, or the error message it threw. */
  datatype Result<+T> = Ok(value: T) | Err(message: string)
}

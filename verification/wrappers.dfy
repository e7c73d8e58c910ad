/** Failure-carrying results shared by every module of the model. */
module Wrappers {

  /** A value that may be absent (JavaScript's `undefined`/`null`). */
  datatype Option<+T> = None | Some(value: T)

  /** The outcome of an operation that either returns a value or throws an
      `Error` whose `message` the callers inspect. */
  datatype Result<+T> = Ok(value: T) | Err(message: string)
}

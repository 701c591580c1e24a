/** Failure-carrying values used in place of JavaScript's `undefined` and thrown errors. */
module Wrappers {

  /** A value that may be missing: `undefined` in the source. */
  datatype Option<+T> = None | Some(value: T)

  /** The result of an operation that either returns a value or throws. */
  datatype Result<+T, +E> = Ok(value: T) | Err(error: E)

  /** The result of an operation that returns nothing or throws. */
  datatype Outcome<+E> = Pass | Fail(error: E)
}

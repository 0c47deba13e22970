/** Failure-carrying datatypes used in place of the source's exceptions and `None` values. */
module Wrappers {

  /** A value that may be absent (Python's `None`). */
  datatype Option<+T> = None | Some(value: T)

  /** A value or the error that took its place. */
  datatype Result<+T, +E> = Ok(value: T) | Err(error: E)

  /** A check that either passes or fails with an error, and carries no value. */
  datatype Outcome<+E> = Pass | Fail(error: E)
}

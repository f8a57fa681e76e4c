/** Failure-carrying values: Java's `null` returns and caught exceptions become these. */
module Wrappers {

  /** A value that may be absent (a Java method that can return null). */
  datatype Option<+T> = None | Some(value: T)

  /** A value or an error message (a Java method that can throw). */
  datatype Result<+T, +E> = Ok(value: T) | Err(error: E)
}

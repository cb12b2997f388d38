/** Optional values, results and outcomes used in place of Java's null, Optional and exceptions. */
module Wrappers {

  datatype Option<+T> = None | Some(value: T)

  /** A computation that either yields a value or fails with an error (a thrown exception). */
  datatype Result<+R, +E> = Success(value: R) | Failure(error: E)

  /** A computation with no value that either completes or fails with an error (a void method that may throw). */
  datatype Outcome<+E> = Pass | Fail(error: E)
}

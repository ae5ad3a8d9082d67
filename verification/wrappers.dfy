/** Option and Result: a value that may be missing, and a computation that may fail. */
module Wrappers {

  /** A value that may be absent; `None` stands for an undefined (not-a-number) reading. */
  datatype Option<+T> = None | Some(value: T)

  /** The outcome of an operation that either succeeds with a value or fails with an error. */
  datatype Result<+R, +E> = Success(value: R) | Failure(error: E)
}

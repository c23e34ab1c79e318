/** Optional values and results of calls that may fail. */
module Wrappers {

  /** A value that may be absent (a nil pointer or a missing error in Go). */
  datatype Option<+T> = None | Some(value: T)

  /** The (value, error) pair a Go call returns, with exactly one side present. */
  datatype Result<+R, +E> = Success(value: R) | Failure(error: E)
}

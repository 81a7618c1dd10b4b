/** Option and Result datatypes shared by the speed-test model. */
module Wrappers {

  /** A value that may be absent (a parse that failed, a generator that is exhausted). */
  datatype Option<+T> = None | Some(value: T)

  /** The outcome of a Python operation that may raise. */
  datatype Result<+R, +E> = Success(value: R) | Failure(error: E)
}

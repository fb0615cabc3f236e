/** Optional values and results with an error side, shared by the other modules. */
module Outcomes {

  /** A value that may be absent (a field that was not supplied, a parse that failed). */
  datatype Option<+T> = None | Some(value: T)

  /** The outcome of an operation that either produces a value or raises an error. */
  datatype Result<+T, +E> = Success(value: T) | Failure(error: E)
}

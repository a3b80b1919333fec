/** Optional values and results shared by the other modules. */
module Wrappers {

  /** A value that may be absent: SQL NULL, Python None. */
  datatype Option<+T> = None | Some(value: T)

  /** The outcome of an operation that may raise. */
  datatype Result<+T, +E> = Success(value: T) | Failure(error: E)
}

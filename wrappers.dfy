/** Optional values and results with an error, as the store and the handlers return them. */
module Wrappers {

  /** A value that may be absent (`undefined` or SQL null). */
  datatype Option<+T> = None | Some(value: T)

  /** The outcome of one database statement: the row it produced or the error it raised. */
  datatype Result<+R, +E> = Success(value: R) | Failure(error: E)
}

/** Optional values and error-carrying results shared by the other modules. */
module Wrappers {

  /** A value that may be absent: a NULL column, an unset environment variable. */
  datatype Option<+T> = None | Some(value: T)

  /** The outcome of a request handler: a response body, or the HTTP error it raises. */
  datatype Result<+T, +E> = Success(value: T) | Failure(error: E)
}

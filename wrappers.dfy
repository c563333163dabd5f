/** Optional values and results with an error, shared by the modules of the model. */
module Wrappers {

  /** A value that may be absent, such as a query parameter missing from the request. */
  datatype Option<+T> = None | Some(value: T)

  /** The outcome of an operation that either succeeds with a value or fails with an error. */
  datatype Result<+T, +E> = Ok(value: T) | Err(error: E)
}

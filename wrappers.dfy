/** Option and Result, the usual failure-carrying wrappers. */
module Wrappers {

  /** A JavaScript value that may be `undefined`. */
  datatype Option<+T> = None | Some(value: T)

  /** The outcome of an operation that may throw (or reject) with an error of type E. */
  datatype Result<+T, +E> = Ok(value: T) | Err(error: E)
}

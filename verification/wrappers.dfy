/** Option and Result, the failure-carrying values used by the rest of the model. */
module Wrappers {

  /** A value that may be absent. */
  datatype Option<+T> = None | Some(value: T)

  /** Either a computed value or the reason there is none. */
  datatype Result<+R, +E> = Success(value: R) | Failure(error: E)
}

/** Option and Result, the two failure-carrying datatypes the model uses. */
module Wrappers {

  /** A cell that may be empty (pandas' NaN). */
  datatype Option<+T> = None | Some(value: T)

  /** The outcome of a request: a value, or the error the request ends with. */
  datatype Result<+R, +E> = Success(value: R) | Failure(error: E)
}

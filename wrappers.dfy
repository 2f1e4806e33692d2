/** Option and Result, the two failure-carrying shapes the model needs. */
module Wrappers {

  /** Rust's `Option<T>`. */
  datatype Option<+T> = None | Some(value: T)

  /** A computation that either succeeds or stops with an error. */
  datatype Result<+R, +E> = Success(value: R) | Failure(error: E)
}

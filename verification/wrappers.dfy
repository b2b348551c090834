/** Failure-carrying datatypes used throughout the model. */
module Wrappers {

  /** A value that may be absent: an abstract decode that failed, a search that found nothing. */
  datatype Option<+T> = None | Some(value: T)

  /** Either a value or an error, as Go's `(T, error)` return pairs. */
  datatype Result<+R, +E> = Ok(value: R) | Err(error: E)
}

/** Small value-or-absence datatypes shared by the cart model. */
module Wrappers {

  /** A value that may be absent: the storage slot holds a cart or nothing. */
  datatype Option<+T> = None | Some(value: T)

  /** The outcome of a request to the remote product/stock service: the
      record it answered with, or a failure (network or HTTP error). */
  datatype Fetch<+T> = Ok(value: T) | Failure
}

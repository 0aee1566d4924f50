/** Small failure-carrying datatypes shared by the other modules. */
module Wrappers {

  /** A value that may be absent: a nil pointer or a missing error in the source. */
  datatype Option<+T> = None | Some(value: T)

  /** Either a value or an error: the `(T, error)` return pairs of the source. */
  datatype Result<+T, +E> = Ok(value: T) | Err(error: E)
}

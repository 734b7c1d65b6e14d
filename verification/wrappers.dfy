/** Optional and result types used across the tracker model: an
    operation either yields a value or reports why it could not. */
module Wrappers {

  /** A value that may be absent (Python's `None`). */
  datatype Option<+T> = None | Some(value: T)

  /** Either a value or the error that was raised instead. */
  datatype Result<+T, +E> = Success(value: T) | Failure(error: E)
}

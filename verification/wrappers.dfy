/** Optional values and results with an error, the two shapes every lookup and
    every setter of the decompiler interface reports through. */
module Wrappers {

  /** Python's `Optional[T]`: `None` or a value. */
  datatype Option<+T> = None | Some(value: T)

  /** A return value or the exception that propagated instead. */
  datatype Result<+R, +E> = Success(value: R) | Failure(error: E)
}

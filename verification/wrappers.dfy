/** Failure-carrying result types shared by the model. */
module Wrappers {

  /** A value that may be absent (used for a NumPy NaN outcome). */
  datatype Option<+T> = None | Some(value: T)

  /** A value or the error the source would raise instead. */
  datatype Result<+T, +E> = Success(value: T) | Failure(error: E)
}

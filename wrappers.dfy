/** Option and Result values used for the upgrade engine's lookups and its raised errors. */
module Wrappers {

  datatype Option<+T> = None | Some(value: T)

  /** Either a value or the error the source would raise. */
  datatype Result<+T, +E> = Success(value: T) | Failure(error: E)

  /** A check that either passes or fails with the error it would raise. */
  datatype Outcome<+E> = Pass | Fail(error: E)
}

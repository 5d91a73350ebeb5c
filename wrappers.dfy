/** Failure-carrying values used throughout the model: the `Option`, `Result`
    and unit `Result<()>` of the broker's Rust code. */
module Wrappers {

  datatype Option<+T> = None | Some(value: T)

  datatype Result<+T, +E> = Success(value: T) | Failure(error: E)

  /** A `Result<()>`: either success or an error. */
  datatype Outcome<+E> = Pass | Fail(error: E)
}

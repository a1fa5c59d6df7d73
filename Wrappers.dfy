/** Option, Result and Either values used throughout the model. */
module Wrappers {

  datatype Option<+T> = None | Some(value: T)

  /** The outcome of an operation that can fail with an error of type E. */
  datatype Result<+T, +E> = Ok(value: T) | Err(error: E)

  /** A two-armed union: exactly one of the two sides is populated. */
  datatype Either<+L, +R> = Left(left: L) | Right(right: R)
}

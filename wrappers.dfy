/** Failure-carrying values shared by every module of the model. */
module Wrappers {

  datatype Option<+T> = None | Some(value: T)

  datatype Result<+R, +E> = Success(value: R) | Failure(error: E)

  /** An outcome that carries nothing on success. */
  datatype Outcome<+E> = Pass | Fail(error: E)
}

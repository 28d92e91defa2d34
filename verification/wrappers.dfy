/** Failure-carrying wrappers shared by every module of the model. */
module Wrappers {

  /** A value that may be absent: Go's nil pointer or nil error. */
  datatype Option<+T> = None | Some(value: T)

  /** The outcome of a collaborator call that returns a value or an error. */
  datatype Result<+T, +E> = Ok(value: T) | Err(error: E)
}

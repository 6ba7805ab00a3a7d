/** Failure-carrying values shared by the modules of this model. */
module Wrappers {

  /** A value that may be absent (Go's nil, or "no error"). */
  datatype Option<+T> = None | Some(value: T)

  /** The outcome of a collaborator call: a value, or the error it reported. */
  datatype Result<+T, +E> = Success(value: T) | Failure(error: E)
}

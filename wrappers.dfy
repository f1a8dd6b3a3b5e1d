/** Failure-carrying values shared by every module of the model. */
module Wrappers {

  datatype Option<T> = None | Some(value: T)

  /** The outcome of an operation that can throw: a value, or the message of the thrown error. */
  datatype Result<T, E> = Success(value: T) | Failure(error: E)
}

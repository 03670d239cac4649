/** Failure-carrying wrappers shared by the modules of the model. */
module Common {

  /** A value that may be absent: a cancelled dialog, an unset field. */
  datatype Option<T> = None | Some(value: T)

  /** The outcome of an operation that can be rejected with an error. */
  datatype Result<T, E> = Success(value: T) | Failure(error: E)
}

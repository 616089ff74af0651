/** Failure-carrying wrappers shared by every module of the model. */
module Outcomes {

  /** A value that may be absent: a missing JSON key, or text that does not parse as a number. */
  datatype Option<+T> = None | Some(value: T)

  /** The outcome of an operation that the service either completes or abandons with an exception. */
  datatype Result<+T, +E> = Ok(value: T) | Err(error: E)
}

/** Failure-carrying datatypes shared by the rest of the model. */
module Wrappers {

  /** A value that may be absent, like Python's `None`. */
  datatype Option<+T> = None | Some(value: T)

  /** Either a computed value or the message of the exception that aborted it. */
  datatype Result<+T> = Ok(value: T) | Err(message: string)
}

/** Failure-carrying datatypes shared by the model. */
module Wrappers {

  datatype Option<+T> = None | Some(value: T)

  /** The value of a call that either returns normally or throws a
      BuildException carrying a message. */
  datatype Result<+T> = Ok(value: T) | Err(error: string)

  /** The outcome of a step whose return value, if any, is discarded. */
  datatype Outcome = Pass | Fail(error: string)
}

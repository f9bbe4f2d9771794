/** The failure-carrying values returned by the foreign decoders of the model. */
module Wrappers {

  /** A value that may be absent (a decoder that failed, a missing payload). */
  datatype Option<+T> = None | Some(value: T)

  /** A value or the error that replaced it. */
  datatype Result<+T, +E> = Ok(value: T) | Err(error: E)
}

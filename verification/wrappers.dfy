/** Failure-carrying values shared by the whole model. */
module Wrappers {

  /** A value that may be absent: JavaScript's `null`/`undefined` or a missing optional input. */
  datatype Option<T> = None | Some(value: T)

  /** The outcome of a remote call or of an operation that may throw: either a value, or
      the error description the destination (or the transport) reported. */
  datatype Result<T> = Ok(value: T) | Err(error: string)
}

/** Scan errors and the two failure-carrying wrappers the scanner returns. */
module Errors {

  /** A scan error: the line it was detected on and a human-readable message.
      The `[line N] Error: message` rendering is not modelled. */
  datatype Error = Error(line: nat, message: string)

  datatype Option<+T> = None | Some(value: T)

  /** The outcome of a scanning step: a value, or the error that ends the scan. */
  datatype Result<+T> = Ok(value: T) | Err(error: Error)
}

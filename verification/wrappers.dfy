/** Option for Kotlin's nullable values, and Result for the errors the service raises. */
module Wrappers {

  /** A value that may be absent (Kotlin's `T?`). */
  datatype Option<+T> = None | Some(value: T)

  /** The two exception kinds the service raises; each carries its message. */
  datatype Error =
    | BadRequest(message: string)   // BadRequestException: malformed identifier
    | NotFound(message: string)     // ResourceNotFoundException: a required document is absent

  /** The outcome of an operation: a value, or the error that ended it. */
  datatype Result<+T> = Ok(value: T) | Err(error: Error)
}

/** Option and Result values used for the absent values and thrown errors of the plugins. */
module Wrappers {

  datatype Option<+T> = None | Some(value: T)

  /** A computation that either returns a value or throws an `Error` with a message. */
  datatype Result<+T> = Success(value: T) | Failure(error: string)
}

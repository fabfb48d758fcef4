/**
 * Option, for the source's `null`/`undefined` results, and Result, for
 * operations that throw an `Error` with a message.
 */
module Wrappers {

  datatype Option<+T> = None | Some(value: T)

  datatype Result<+T> = Success(value: T) | Failure(error: string)

}

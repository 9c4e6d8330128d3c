/** Failure-carrying values: Option for the operations whose Java counterpart
    returns null or throws without a message the program shows, Result for
    those that report an error message. */
module Wrappers {

  datatype Option<+T> = None | Some(value: T)

  datatype Result<+R> = Success(value: R) | Failure(error: string)
}

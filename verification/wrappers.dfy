/** The two failure-carrying wrappers the model uses: Option for a value that
    may be absent (a nil error, a nil sub-validator) and Result for a value
    or an error. */
module Wrappers {

  datatype Option<+T> = None | Some(value: T)

  datatype Result<+R, +E> = Success(value: R) | Failure(error: E)
}

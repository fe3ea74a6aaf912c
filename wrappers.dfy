/** Failure-carrying results: an operation either succeeds with a value or
    fails with an error. Used for the network call that may raise. */
module Wrappers {
  datatype Result<+T, +E> = Success(value: T) | Failure(error: E)
}

/** Failure-carrying results, used where the source raises an exception. */
module Wrappers {

  /** Either the value an operation returns or the exception it raises. */
  datatype Result<+R, +E> = Success(value: R) | Failure(error: E)
}

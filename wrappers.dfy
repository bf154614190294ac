/** The outcome of an operation that can fail: the value it computed, or the reason it failed. */
module Wrappers {

  datatype Result<+T, +E> = Success(value: T) | Failure(error: E)
}

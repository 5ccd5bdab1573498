/** Optional values and success-or-failure outcomes, as Swift's `Optional` and the outcome of a model load. */
module Wrappers {

  datatype Option<+T> = None | Some(value: T)

  datatype Result<+R, +E> = Success(value: R) | Failure(error: E)
}

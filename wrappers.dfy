/** Option and Result: the null reference and the thrown exception of the runtime, as values. */
module Wrappers {

  /** `None` stands for a Java `null` argument. */
  datatype Option<+T> = None | Some(value: T)

  /** `Failure` stands for an exception that propagates to the caller. */
  datatype Result<+T, +E> = Success(value: T) | Failure(error: E)
}

/** Optional values and results, used for nullable Kotlin values and for reactive error signals. */
module Wrappers {

  /** A nullable value: `None` stands for Kotlin's `null`. */
  datatype Option<+T> = None | Some(value: T)

  /** The outcome of a reactive pipeline: a value or an error signal. */
  datatype Result<+T, +E> = Success(value: T) | Failure(error: E)

}

/** Option and Result, the two wrappers the model uses for JavaScript's
    `undefined` and for operations that either return or throw. */
module Wrappers {

  /** `None` stands for JavaScript's `undefined` (a missing property, an
      index past the end of an array, an omitted argument). */
  datatype Option<+T> = None | Some(value: T)

  /** The outcome of a call that either returns a value or throws. */
  datatype Result<+R, +E> = Success(value: R) | Failure(error: E)
}

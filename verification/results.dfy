/** Failure-carrying values: the model's stand-in for JavaScript's
    `undefined` and for thrown errors. */
module Results {

  /** A value that may be absent (an absent query parameter or header). */
  datatype Option<+T> = None | Some(value: T)

  /** The outcome of an operation that either produces a value or throws. */
  datatype Result<+R, +E> = Success(value: R) | Failure(error: E)
}

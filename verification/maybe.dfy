/** Failure-carrying values used across the model. */
module Maybe {

  /** A value that may be absent: a prop left `undefined`, or a decode that failed. */
  datatype Option<+T> = None | Some(value: T)

  /** The outcome of a computation that may throw: `Ok` with its value, or `Err`. */
  datatype Result<+T, +E> = Ok(value: T) | Err(error: E)
}

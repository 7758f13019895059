/** Failure-carrying return values used across the model: the source's
    `error` returns become `Err`, its successful results `Ok`. */
module Results {

  /** A value or an error. */
  datatype Result<+T, +E> = Ok(value: T) | Err(error: E)

  /** An optional value, used for the parsers whose Go counterparts return
      a value together with a non-nil error on failure. */
  datatype Option<+T> = Nothing | Some(value: T)
}

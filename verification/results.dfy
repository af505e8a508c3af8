/** Outcome datatypes for the two library calls the handlers depend on.
    `Result` stands for a Go `(value, error)` pair: `Err` carries the text of
    the non-nil error, `Ok` the value returned alongside a nil error. */
module Results {

  /** A value that may be absent, such as a response payload. */
  datatype Option<+T> = None | Some(value: T)

  /** The outcome of a call that either yields a value or fails with a message. */
  datatype Result<+T> = Ok(value: T) | Err(message: string)
}

/** Failure-carrying return values: the model returns these where the Java code
    throws or the Python code yields no match. */
module Results {

  /** A value that may be absent: a regex that did not match, a warning not raised. */
  datatype Option<+T> = None | Some(value: T)

  /** A value, or the error that replaced it (an exception in the source). */
  datatype Result<+T, +E> = Ok(value: T) | Err(error: E)
}

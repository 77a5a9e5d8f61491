/** Small failure-carrying datatypes shared by the model. */
module Results {

  /** A value that may be absent (a regex search that found nothing, a missing colon). */
  datatype Option<+T> = None | Some(value: T)

  /** The outcome of an operation that can raise: a value or the error it raised. */
  datatype Result<+T, +E> = Ok(value: T) | Err(error: E)
}

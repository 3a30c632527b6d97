/** Failure-carrying wrappers shared by the validators and the fence exporter. */
module Results {

  /** A value that may be absent: a regular-expression match, a column lookup. */
  datatype Option<+T> = None | Some(value: T)

  /** The outcome of an operation that the original program ends with an exception. */
  datatype Result<+R, +E> = Success(value: R) | Failure(error: E)
}

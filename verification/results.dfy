/** Failure-carrying wrappers shared by every module of the model. */
module Results {

  /** A value that may be absent; stands for Go's nil pointers and nil errors. */
  datatype Option<+T> = None | Some(value: T)

  /** Either a value or the reason there is none. */
  datatype Result<+T, +E> = Success(value: T) | Failure(error: E)
}

/** The success-or-error value that stands for a Python return or raise, and an optional value. */
module Results {
  datatype Result<+T, +E> = Success(value: T) | Failure(error: E)

  datatype Option<+T> = None | Some(value: T)
}

/** Failure-carrying values shared by the whole model. */
module Wrappers {

  /** A value that may be absent (JavaScript's undefined, Python's None). */
  datatype Option<+T> = None | Some(value: T)

  /**
   * The HTTP errors the backend raises: a 404 with its detail message, or the 500 that
   * an uncaught Python exception becomes.
   */
  datatype HttpError = NotFound(detail: string) | ServerError

  /** A value, or the HTTP error that the route raises instead. */
  datatype Result<+T> = Ok(value: T) | Err(error: HttpError)
}

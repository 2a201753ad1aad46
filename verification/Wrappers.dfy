/** The optional values and error results shared by the model. */
module Wrappers {

  datatype Option<+T> = None | Some(value: T)

  /** The HTTP exceptions the services throw. */
  datatype HttpError = NotFound | Forbidden | Conflict | Unprocessable

  datatype Outcome = Pass | Fail(error: HttpError)

  datatype Result<+T> = Ok(value: T) | Err(error: HttpError)
}

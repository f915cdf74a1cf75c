/** Option and Result values used for the source's `null` returns and thrown
    exceptions, and the NestJS exception kinds the services throw. */
module Wrappers {

  datatype Option<+T> = None | Some(value: T)

  datatype Result<+R, +E> = Success(value: R) | Failure(error: E)

  /** The HTTP exceptions the services and controllers throw. Any other error
      (a failed write, a schema validation error) reaches the client as 500. */
  datatype HttpError =
    | BadRequest        // 400
    | NotFound          // 404
    | Conflict          // 409
    | InternalServerError  // 500
}

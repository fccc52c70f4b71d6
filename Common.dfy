/** Shared vocabulary of the record store: optional values, record ids, HTTP outcomes. */
module Common {

  datatype Option<T> = None | Some(value: T)

  /** A MongoDB ObjectId, modelled as an opaque number handed out by the store. */
  type Id = nat

  /**
   * A JSON number field of a request body. The budget route distinguishes a missing
   * field (`=== undefined`) from an explicit `null`, so both are kept apart here.
   */
  datatype JsNumber = Undefined | Null | Num(n: int)

  /** The HTTP status codes the route handlers answer with: 200, 201, 400, 401, 404, 409, 500. */
  datatype HttpStatus = Ok | Created | BadRequest | Unauthorized | NotFound | Conflict | InternalError

  /** What a handler answers: a status with a payload, or an error status alone. */
  datatype Reply<T> = Success(status: HttpStatus, data: T) | Failure(status: HttpStatus)
}

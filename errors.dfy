/** The exceptions the backend raises, as values. An `HTTPException` carries its status code
    and detail text; the other kinds are the exception classes the error middleware tells
    apart. */
module Errors {

  datatype Error =
    | Http(status: int, detail: string)   // fastapi.HTTPException
    | Database(message: string)           // sqlalchemy.exc.SQLAlchemyError (IntegrityError, ...)
    | Value(message: string)              // ValueError
    | Unexpected(message: string)         // any other Exception

  const BAD_REQUEST: int := 400
  const UNAUTHORIZED: int := 401
  const FORBIDDEN: int := 403
  const NOT_FOUND: int := 404
  const UNPROCESSABLE: int := 422
  const SERVER_ERROR: int := 500

  /** The status a client sees for an error that the HTTP layer turns into a response. */
  predicate HasStatus(e: Error, status: int)
  {
    e.Http? && e.status == status
  }
}

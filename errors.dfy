/** The exceptions the backend raises, and the status and body Nest answers a handler with. */
module Errors {
  import opened Wrappers

  datatype Error =
    | Unauthorized(message: string)   // UnauthorizedException, 401
    | Conflict(message: string)       // ConflictException, 409
    | NotFound(message: string)       // NotFoundException, 404
    | QueryFailed(message: string)    // a database error (unique-constraint violation), 500

  /** The message Nest gives an UnauthorizedException built without arguments. */
  const DefaultUnauthorized: Error := Unauthorized("Unauthorized")

  /** The HTTP status of the response that reports `e`. */
  function Status(e: Error): (code: int)
    ensures 400 <= code < 600
    ensures code == 401 <==> e.Unauthorized?
    ensures code == 409 <==> e.Conflict?
    ensures code == 404 <==> e.NotFound?
  {
    match e
    case Unauthorized(_) => 401
    case Conflict(_) => 409
    case NotFound(_) => 404
    case QueryFailed(_) => 500
  }

  /** A handler's answer: the status Nest sends and the body or the error. */
  datatype Reply<+T> = Reply(status: int, body: Result<T, Error>)

  /** What Nest sends for a handler whose success status is `code` (its `@HttpCode`, or
      Nest's default: 201 for POST, 200 otherwise) and that produced `body`. */
  function Respond<T>(code: int, body: Result<T, Error>): (r: Reply<T>)
    ensures r.body == body
    ensures body.Success? ==> r.status == code
    ensures body.Failure? ==> r.status == Status(body.error)
  {
    Reply(if body.Success? then code else Status(body.error), body)
  }

  const OK: int := 200
  const CREATED: int := 201
  const NO_CONTENT: int := 204
}

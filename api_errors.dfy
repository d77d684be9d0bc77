/**
 * The error hierarchy of the service: a base `ApiError` carrying an HTTP status,
 * a message, a machine-readable code and optional details, and three kinds with
 * fixed status, code and default message.
 */
module ApiErrors {
  import opened Wrappers

  /** The `details` payload: the wrapped message of a failure, or any other JSON value. */
  datatype Details = OriginalError(originalError: string) | Payload(json: string)

  /** The most specific class an error was constructed as. */
  datatype ErrorKind = Base | NotFound | BadRequest | InternalServer

  datatype ApiError = ApiError(
    kind: ErrorKind,
    statusCode: int,
    message: string,
    errorCode: string,
    details: Option<Details>)

  /** What a `catch` block can receive: an `ApiError` or any other `Error`. */
  datatype Thrown = Api(error: ApiError) | Plain(message: string)

  /** The fixed status of each error kind. */
  function StatusOf(kind: ErrorKind): int
    requires kind != Base
  {
    match kind
    case NotFound => 404
    case BadRequest => 400
    case InternalServer => 500
  }

  /** The fixed error code of each error kind. */
  function CodeOf(kind: ErrorKind): string
    requires kind != Base
  {
    match kind
    case NotFound => "NOT_FOUND"
    case BadRequest => "BAD_REQUEST"
    case InternalServer => "INTERNAL_SERVER_ERROR"
  }

  /** A subclass instance carries the status and code its class fixes. */
  predicate WellFormed(e: ApiError)
  {
    e.kind != Base ==> e.statusCode == StatusOf(e.kind) && e.errorCode == CodeOf(e.kind)
  }

  /** `new ApiError(statusCode, message, errorCode, details)`. */
  function NewApiError(statusCode: int, message: string, errorCode: string, details: Option<Details>)
    : (e: ApiError)
    ensures e.kind == Base && WellFormed(e)
    ensures e.statusCode == statusCode && e.message == message
    ensures e.errorCode == errorCode && e.details == details
  {
    ApiError(Base, statusCode, message, errorCode, details)
  }

  /** `new NotFoundError(message?, details?)`; `None` is an omitted argument. */
  function NotFoundError(message: Option<string>, details: Option<Details>): (e: ApiError)
    ensures e.kind == NotFound && WellFormed(e)
    ensures e.statusCode == 404 && e.errorCode == "NOT_FOUND"
    ensures e.message == (if message.Some? then message.value else "Resource not found")
    ensures e.details == details
  {
    NewApiError(404, message.GetOr("Resource not found"), "NOT_FOUND", details).(kind := NotFound)
  }

  /** `new BadRequestError(message?, details?)`. */
  function BadRequestError(message: Option<string>, details: Option<Details>): (e: ApiError)
    ensures e.kind == BadRequest && WellFormed(e)
    ensures e.statusCode == 400 && e.errorCode == "BAD_REQUEST"
    ensures e.message == (if message.Some? then message.value else "Bad request")
    ensures e.details == details
  {
    NewApiError(400, message.GetOr("Bad request"), "BAD_REQUEST", details).(kind := BadRequest)
  }

  /** `new InternalServerError(message?, details?)`. */
  function InternalServerError(message: Option<string>, details: Option<Details>): (e: ApiError)
    ensures e.kind == InternalServer && WellFormed(e)
    ensures e.statusCode == 500 && e.errorCode == "INTERNAL_SERVER_ERROR"
    ensures e.message == (if message.Some? then message.value else "Internal server error")
    ensures e.details == details
  {
    NewApiError(500, message.GetOr("Internal server error"), "INTERNAL_SERVER_ERROR", details)
      .(kind := InternalServer)
  }

  /** `t instanceof BadRequestError`. */
  predicate IsBadRequestError(t: Thrown)
  {
    t.Api? && t.error.kind == BadRequest
  }

  /** `t.message`. */
  function MessageOf(t: Thrown): string
  {
    match t
    case Api(e) => e.message
    case Plain(m) => m
  }

  /** The two kinds used at runtime are told apart by their status alone. */
  lemma {:induction false} StatusDeterminesKind(e1: ApiError, e2: ApiError)
    requires WellFormed(e1) && WellFormed(e2)
    requires e1.kind != Base && e2.kind != Base
    ensures e1.statusCode == e2.statusCode <==> e1.kind == e2.kind
  {
    match e1.kind
    case NotFound =>
    case BadRequest =>
    case InternalServer =>
  }
}

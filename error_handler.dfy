/** The Express error middleware: turns whatever a controller passed on into a status and a JSON body. */
module ErrorHandling {
  import opened Wrappers
  import opened ApiErrors

  /** The JSON error envelope; a `None` detail is a field left out of the JSON. */
  datatype ErrorBody = ErrorBody(statusCode: int, message: string, errorCode: string, details: Option<Details>)

  /** `res.status(status).json(body)`. */
  datatype ErrorResponse = ErrorResponse(status: int, body: ErrorBody)

  const UNEXPECTED_ERROR_MESSAGE: string := "An unexpected error occurred."
  const UNEXPECTED_ERROR_CODE: string := "UNEXPECTED_ERROR"

  /** `errorHandler(err, ...)`, without the logging. */
  function ErrorHandler(err: Thrown): (r: ErrorResponse)
    ensures r.body.statusCode == r.status
    ensures err.Api? ==> r.status == err.error.statusCode
    ensures err.Api? ==> r.body.message == err.error.message && r.body.errorCode == err.error.errorCode
    ensures err.Api? ==> r.body.details == err.error.details
    ensures err.Plain? ==> r.status == 500 && r.body.errorCode == UNEXPECTED_ERROR_CODE
    ensures err.Plain? ==> r.body.message == UNEXPECTED_ERROR_MESSAGE && r.body.details == None
  {
    match err
    case Api(e) =>
      ErrorResponse(e.statusCode, ErrorBody(e.statusCode, e.message, e.errorCode, e.details))
    case Plain(_) =>
      ErrorResponse(500, ErrorBody(500, UNEXPECTED_ERROR_MESSAGE, UNEXPECTED_ERROR_CODE, None))
  }

  /** The message of an error that is not an `ApiError` never reaches the client. */
  lemma PlainMessageHidden(m1: string, m2: string)
    ensures ErrorHandler(Plain(m1)) == ErrorHandler(Plain(m2))
  {
  }

  /** For an `ApiError` the envelope keeps everything the error carries except its class. */
  lemma {:induction false} ApiErrorRecoverable(e1: ApiError, e2: ApiError)
    requires ErrorHandler(Api(e1)) == ErrorHandler(Api(e2))
    ensures e1.(kind := Base) == e2.(kind := Base)
  {
    assert e1.statusCode == e2.statusCode && e1.message == e2.message;
    assert e1.errorCode == e2.errorCode && e1.details == e2.details;
  }

  /** Every subclass instance answers with the status its class fixes. */
  lemma KindStatus(e: ApiError)
    requires WellFormed(e) && e.kind != Base
    ensures ErrorHandler(Api(e)).status == StatusOf(e.kind)
    ensures ErrorHandler(Api(e)).body.errorCode == CodeOf(e.kind)
  {
  }
}

/** The mapping from outcomes to HTTP responses: domain errors to status
    codes and messages, thrown errors to 401/403/500 responses, and the
    log level chosen for a response's status. */
module ApiUtils {
  import opened Domain
  import opened Auth

  /** A JSON response body: the payload of a success, or `{error: message}`. */
  datatype Body<+T> = Data(data: T) | ErrorBody(message: string)

  datatype Response<+T> = Response(status: int, body: Body<T>)

  /** The string value of each ReservationError member. */
  function ErrorName(e: ReservationError): string
  {
    match e
    case Full => "FULL"
    case Duplicate => "DUPLICATE"
    case TooLate => "TOO_LATE"
    case NotFound => "NOT_FOUND"
    case Unauthorized => "UNAUTHORIZED"
  }

  predicate IsErrorName(code: string)
  {
    code in {"FULL", "DUPLICATE", "TOO_LATE", "NOT_FOUND", "UNAUTHORIZED"}
  }

  lemma ErrorNames(e: ReservationError)
    ensures IsErrorName(ErrorName(e))
  {
  }

  /** getErrorStatusCode, for any string the enum-typed parameter may carry
      at run time. */
  function GetErrorStatusCode(code: string): (status: int)
    ensures code == ErrorName(Full) || code == ErrorName(Duplicate) ==> status == 409
    ensures code == ErrorName(TooLate) ==> status == 400
    ensures code == ErrorName(NotFound) ==> status == 404
    ensures code == ErrorName(Unauthorized) ==> status == 403
    ensures IsErrorName(code) <==> 400 <= status < 500
    ensures !IsErrorName(code) <==> status == 500
  {
    if code == "FULL" then 409
    else if code == "DUPLICATE" then 409
    else if code == "TOO_LATE" then 400
    else if code == "NOT_FOUND" then 404
    else if code == "UNAUTHORIZED" then 403
    else 500
  }

  const DefaultErrorMessage := "An error occurred"

  /** getErrorMessage, for any string. */
  function GetErrorMessage(code: string): (message: string)
    ensures !IsErrorName(code) <==> message == DefaultErrorMessage
  {
    if code == "FULL" then "No desks available for this time slot"
    else if code == "DUPLICATE" then "You already have a booking for this time slot"
    else if code == "TOO_LATE" then "Cannot cancel - time slot has already started"
    else if code == "NOT_FOUND" then "Reservation not found"
    else if code == "UNAUTHORIZED" then "You are not authorized to perform this action"
    else DefaultErrorMessage
  }

  /** Each domain error has a message of its own. */
  lemma MessagesDistinct(e1: ReservationError, e2: ReservationError)
    ensures GetErrorMessage(ErrorName(e1)) == GetErrorMessage(ErrorName(e2)) ==> e1 == e2
  {
    MessageOf(e1);
    MessageOf(e2);
    MessageTextsDistinct(e1, e2);
  }

  /** The message text of each domain error, by member. */
  function MessageText(e: ReservationError): string
  {
    match e
    case Full => "No desks available for this time slot"
    case Duplicate => "You already have a booking for this time slot"
    case TooLate => "Cannot cancel - time slot has already started"
    case NotFound => "Reservation not found"
    case Unauthorized => "You are not authorized to perform this action"
  }

  lemma MessageOf(e: ReservationError)
    ensures GetErrorMessage(ErrorName(e)) == MessageText(e)
  {
  }

  lemma MessageTextsDistinct(e1: ReservationError, e2: ReservationError)
    ensures MessageText(e1) == MessageText(e2) ==> e1 == e2
  {
  }

  /** reservationErrorResponse: always a 4xx carrying the error's message. */
  function ReservationErrorResponse<T>(e: ReservationError): (r: Response<T>)
    ensures 400 <= r.status < 500
    ensures r.status == GetErrorStatusCode(ErrorName(e))
    ensures r.body == ErrorBody(GetErrorMessage(ErrorName(e))) && r.body.message != DefaultErrorMessage
  {
    ErrorNames(e);
    Response(GetErrorStatusCode(ErrorName(e)), ErrorBody(GetErrorMessage(ErrorName(e))))
  }

  /** What a route's `catch` receives: an AuthError, another Error (with
      its message), or a thrown value that is not an Error at all. */
  datatype Thrown = ThrownAuth(auth: AuthError) | ThrownError(message: string) | ThrownValue

  /** A store fault reaches the handler as an Error with the fault's message. */
  function FromStore(fault: StoreError): Thrown
  {
    ThrownError(fault.message)
  }

  const InternalErrorMessage := "An internal error occurred"
  const NonErrorMessage := "Internal server error"

  /** handleError; `production` stands for NODE_ENV being "production". */
  function HandleError<T>(e: Thrown, production: bool): (r: Response<T>)
    ensures e.ThrownAuth? ==> r == Response(e.auth.statusCode, ErrorBody(e.auth.message))
    ensures !e.ThrownAuth? ==> r.status == 500
    ensures e.ThrownError? ==> r.body == ErrorBody(if production then InternalErrorMessage else e.message)
    ensures e.ThrownValue? ==> r.body == ErrorBody(NonErrorMessage)
  {
    match e
    case ThrownAuth(a) => Response(a.statusCode, ErrorBody(a.message))
    case ThrownError(m) => Response(500, ErrorBody(if production then InternalErrorMessage else m))
    case ThrownValue => Response(500, ErrorBody(NonErrorMessage))
  }

  /** successResponse(data, status). */
  function SuccessResponse<T>(data: T, status: int): Response<T>
  {
    Response(status, Data(data))
  }

  datatype LogLevel = Info | Warn

  /** The level logApiResponse logs a response at. */
  function LogLevelFor(statusCode: int): (level: LogLevel)
    ensures level == Warn <==> statusCode >= 400
  {
    if statusCode >= 400 then Warn else Info
  }

  /** Every domain-error response is logged as a warning, and the gate's
      refusals keep their own 401 and 403. */
  lemma ErrorResponsesWarn(e: ReservationError, production: bool)
    ensures LogLevelFor(ReservationErrorResponse<int>(e).status) == Warn
    ensures HandleError<int>(ThrownAuth(NotSignedIn), production).status == 401
    ensures HandleError<int>(ThrownAuth(NotAdmin), production).status == 403
  {
  }
}

/**
 * The service's error taxonomy and the JSON error responses the web layer
 * renders from it (backend/app/utils/error_handlers.py).
 */
module Errors {
  import opened Wrappers

  /** A JSON object of string values, as carried in `details`. */
  type Details = map<string, string>

  /** The class of an `APIError`: the base class or one of its four subclasses. */
  datatype ErrorClass = Api | Authentication | Validation | NotFound | Export

  /** An `APIError` instance: its class, `message`, `status_code` and `details`. */
  datatype ApiError = ApiError(cls: ErrorClass, message: string, statusCode: int, details: Details)

  /** The status code each subclass fixes; the base class takes it from its caller. */
  function ClassStatus(cls: ErrorClass): Option<int>
  {
    match cls
    case Api => None
    case Authentication => Some(401)
    case Validation => Some(400)
    case NotFound => Some(404)
    case Export => Some(500)
  }

  /** `details or {}`: a missing (falsy) details object is stored as `{}`. */
  function StoredDetails(details: Option<Details>): (d: Details)
    ensures details.None? ==> d == map[]
    ensures details.Some? ==> d == details.value
  {
    if details.Some? then details.value else map[]
  }

  /** `APIError(message, status_code=400, details=None)`. */
  function NewApiError(message: string, statusCode: int := 400, details: Option<Details> := None): ApiError
  {
    ApiError(Api, message, statusCode, StoredDetails(details))
  }

  function AuthenticationError(message: string, details: Option<Details> := None): ApiError
  {
    ApiError(Authentication, message, 401, StoredDetails(details))
  }

  function ValidationError(message: string, details: Option<Details> := None): ApiError
  {
    ApiError(Validation, message, 400, StoredDetails(details))
  }

  function NotFoundError(message: string, details: Option<Details> := None): ApiError
  {
    ApiError(NotFound, message, 404, StoredDetails(details))
  }

  function ExportError(message: string, details: Option<Details> := None): ApiError
  {
    ApiError(Export, message, 500, StoredDetails(details))
  }

  /** Every constructor keeps the message, stores `details or {}`, and sets
      the status code its class fixes (the base class: the one passed, 400 by
      default). */
  lemma ConstructorsAgreeWithTable(message: string, status: int, details: Option<Details>)
    ensures NewApiError(message).statusCode == 400
    ensures NewApiError(message, status, details) == ApiError(Api, message, status, StoredDetails(details))
    ensures forall e :: e in [AuthenticationError(message, details), ValidationError(message, details),
                              NotFoundError(message, details), ExportError(message, details)] ==>
              e.message == message && e.details == StoredDetails(details) && Some(e.statusCode) == ClassStatus(e.cls)
    ensures AuthenticationError(message, details).statusCode == 401
    ensures ValidationError(message, details).statusCode == 400
    ensures NotFoundError(message, details).statusCode == 404
    ensures ExportError(message, details).statusCode == 500
    ensures NewApiError(message, status, Some(map[])).details == map[]
  {
  }

  // ---------------------------------------------------------------------------
  // Rendering

  /** An exception reaching the web layer. `Api` is an `APIError`; `GoogleApi` a
      `google.api_core` error; `Http` a werkzeug `HTTPException`; `Other` any
      other exception. The strings are the exceptions' `str()`. */
  datatype Raised =
    | Raise(error: ApiError)
    | GoogleApi(text: string)
    | Http(name: string, description: string, code: int)
    | Other(text: string)

  /** The JSON body of an error response. */
  datatype Body =
    | ErrorWithDetails(error: string, details: Details)
    | ErrorWithMessage(error: string, message: string)

  datatype Response = Response(status: int, body: Body)

  const GoogleApiErrorTitle := "Google API Error"
  const InternalErrorTitle := "Internal Server Error"
  const RedactedMessage := "An unexpected error occurred"

  /** `handle_api_error`: the error's message and details, with its own status. */
  function HandleApiError(e: ApiError): (r: Response)
    ensures r.status == e.statusCode
    ensures r.body.ErrorWithDetails? && r.body.error == e.message && r.body.details == e.details
  {
    Response(e.statusCode, ErrorWithDetails(e.message, e.details))
  }

  /** `handle_google_api_error`. */
  function HandleGoogleApiError(text: string): (r: Response)
    ensures r.status == 500 && r.body == ErrorWithMessage(GoogleApiErrorTitle, text)
  {
    Response(500, ErrorWithMessage(GoogleApiErrorTitle, text))
  }

  /** `handle_http_error`. */
  function HandleHttpError(name: string, description: string, code: int): (r: Response)
    ensures r.status == code && r.body == ErrorWithMessage(name, description)
  {
    Response(code, ErrorWithMessage(name, description))
  }

  /** `handle_generic_error`: the exception text is shown only in debug mode. */
  function HandleGenericError(text: string, debug: bool): (r: Response)
    ensures r.status == 500 && r.body.ErrorWithMessage? && r.body.error == InternalErrorTitle
    ensures debug ==> r.body.message == text
    ensures !debug ==> r.body.message == RedactedMessage
  {
    Response(500, ErrorWithMessage(InternalErrorTitle, if debug then text else RedactedMessage))
  }

  /** The handler Flask picks for an exception: the one registered for its
      nearest class. */
  function Render(raised: Raised, debug: bool): Response
  {
    match raised
    case Raise(e) => HandleApiError(e)
    case GoogleApi(text) => HandleGoogleApiError(text)
    case Http(name, description, code) => HandleHttpError(name, description, code)
    case Other(text) => HandleGenericError(text, debug)
  }

  /** The status code of every rendered error: the error's own for an
      `APIError` or an HTTP error, 500 for everything else. */
  lemma RenderStatus(raised: Raised, debug: bool)
    ensures Render(raised, debug).status ==
      match raised
      case Raise(e) => e.statusCode
      case Http(_, _, code) => code
      case _ => 500
  {
    match raised
    case Raise(e) =>
    case GoogleApi(_) =>
    case Http(_, _, _) =>
    case Other(_) =>
  }

  /** The error a class's constructor builds, with the status a base
      `APIError` is given (ignored by the subclasses, which fix their own). */
  function Construct(cls: ErrorClass, message: string, status: int, details: Option<Details>): ApiError
  {
    match cls
    case Api => NewApiError(message, status, details)
    case Authentication => AuthenticationError(message, details)
    case Validation => ValidationError(message, details)
    case NotFound => NotFoundError(message, details)
    case Export => ExportError(message, details)
  }

  /** Raising any `APIError` and letting the registered handler render it:
      the client gets the status the class fixes (the given one for the base
      class), the message as `error`, and the details as stored, `{}` when
      none were given; debug mode makes no difference. */
  lemma RaisedErrorResponse(cls: ErrorClass, message: string, status: int, details: Option<Details>, debug: bool)
    ensures var r := Render(Raise(Construct(cls, message, status, details)), debug);
      r.status == (if cls == Api then status else ClassStatus(cls).value) &&
      r.body == ErrorWithDetails(message, if details.Some? then details.value else map[]) &&
      r == Render(Raise(Construct(cls, message, status, details)), !debug)
    ensures details.None? ==> Render(Raise(Construct(cls, message, status, details)), debug).body.details == map[]
  {
    match cls
    case Api =>
    case Authentication =>
    case Validation =>
    case NotFound =>
    case Export =>
  }

  /** Outside debug mode an unhandled error's text never reaches the client:
      two such errors render identically. */
  lemma GenericErrorRedacted(text1: string, text2: string)
    ensures Render(Other(text1), false) == Render(Other(text2), false)
    ensures Render(Other(text1), false).body.message == RedactedMessage
  {
  }
}

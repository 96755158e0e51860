/** Error classification: the `AppError` the service throws, and the
    first-match chain of `errorHandler` from an error's shape to the status
    and message the client receives. */
module ErrorMiddleware {
  import opened Types

  /** One entry of a validation error list. */
  datatype FieldError = FieldError(path: string, message: string)

  /** A thrown error, by shape. `AppError` instances (their `name` is 'Error'
      and they have no `code`) are told apart from every other error, which
      is known only by its `name`, `message`, optional `statusCode` (here
      `declaredStatus`), optional `code` and, for a store validation error,
      its per-field errors. */
  datatype Thrown =
    | AppError(message: string, statusCode: int, isOperational: bool, details: Option<seq<FieldError>>)
    | Raised(name: string, message: string, declaredStatus: Option<int>, code: Option<int>, errors: seq<FieldError>)

  /** The answer the handler sends. */
  datatype Reply = Reply(status: int, message: string, errors: Option<seq<FieldError>>)

  const DuplicateKeyCode := 11000
  const ValidationFailedMessage := "Validation failed"
  const DuplicateMessage := "A resource with this information already exists"
  const BadIdMessage := "Invalid resource ID format"
  const InvalidTokenMessage := "Invalid token"
  const ExpiredTokenMessage := "Token has expired"
  const DatabaseMessage := "Database operation failed"
  const HiddenMessage := "An unexpected error occurred"
  const DefaultMessage := "Internal Server Error"

  /** `new AppError(message, statusCode?, details?)`: the status defaults to
      500 and every instance is operational. */
  function NewAppError(message: string, statusCode: Option<int>, details: Option<seq<FieldError>>): (e: Thrown)
    ensures e.AppError? && e.isOperational && e.message == message && e.details == details
    ensures statusCode.None? ==> e.statusCode == 500
    ensures statusCode.Some? ==> e.statusCode == statusCode.value
  {
    AppError(message, if statusCode.Some? then statusCode.value else 500, true, details)
  }

  /** The error the service throws for one of its failures. */
  function FromHttpError(e: HttpError): Thrown {
    NewAppError(e.message, Some(e.status), None)
  }

  function NameOf(err: Thrown): string {
    if err.AppError? then "Error" else err.name
  }

  function CodeOf(err: Thrown): Option<int> {
    if err.AppError? then None else err.code
  }

  /** `err.statusCode || 500`: an absent or zero status falls back to 500. */
  function FallbackStatus(err: Thrown): (s: int)
    ensures s != 0
  {
    var sc := if err.AppError? then Some(err.statusCode) else err.declaredStatus;
    if sc.None? || sc.value == 0 then 500 else sc.value
  }

  /** `errorHandler` in deployment `env`: the first rule that matches wins. */
  function ErrorHandler(err: Thrown, env: string): (r: Reply)
    ensures !(err.AppError? && err.isOperational) ==> r.status != 0
    ensures env == "production" && !(err.AppError? && err.isOperational) ==>
      r.message in {ValidationFailedMessage, DuplicateMessage, BadIdMessage, InvalidTokenMessage,
                    ExpiredTokenMessage, DatabaseMessage, HiddenMessage}
  {
    if err.AppError? && err.isOperational then Reply(err.statusCode, err.message, err.details)
    else if NameOf(err) == "ValidationError" then Reply(400, ValidationFailedMessage, Some(err.errors))
    else if CodeOf(err) == Some(DuplicateKeyCode) then Reply(409, DuplicateMessage, None)
    else if NameOf(err) == "CastError" then Reply(400, BadIdMessage, None)
    else if NameOf(err) == "JsonWebTokenError" then Reply(401, InvalidTokenMessage, None)
    else if NameOf(err) == "TokenExpiredError" then Reply(401, ExpiredTokenMessage, None)
    else if NameOf(err) == "MongoError" || NameOf(err) == "MongoServerError" then Reply(503, DatabaseMessage, None)
    else
      var message := if env == "production" then HiddenMessage
                     else if err.message != [] then err.message
                     else DefaultMessage;
      Reply(FallbackStatus(err), message, None)
  }

  /** An operational `AppError` is answered with its own status, message and
      details, in every deployment, before any other rule is consulted. */
  lemma OperationalAppErrorWins(message: string, statusCode: int, details: Option<seq<FieldError>>, env: string)
    ensures ErrorHandler(AppError(message, statusCode, true, details), env) == Reply(statusCode, message, details)
  {
  }

  /** Whatever the service throws reaches the client with the status and
      message it was thrown with; an `AppError` built without a status is a 500. */
  lemma ServiceErrorsSurfaceUnchanged(e: HttpError, message: string, env: string)
    ensures ErrorHandler(FromHttpError(e), env) == Reply(e.status, e.message, None)
    ensures ErrorHandler(NewAppError(message, None, None), env) == Reply(500, message, None)
  {
  }

  /** A store validation error is a 400 listing one entry per field error. */
  lemma ValidationErrorListsFields(message: string, statusCode: Option<int>, code: Option<int>, errors: seq<FieldError>, env: string)
    ensures var r := ErrorHandler(Raised("ValidationError", message, statusCode, code, errors), env);
            r.status == 400 && r.message == ValidationFailedMessage && r.errors == Some(errors)
  {
  }

  /** A duplicate-key failure is a 409 whatever the error is called, except a
      store validation error: the code rule comes second, before every name
      rule that follows it, 'MongoServerError' included. */
  lemma DuplicateKeyBeatsStoreFailure(name: string, message: string, statusCode: Option<int>, errors: seq<FieldError>, env: string)
    requires name != "ValidationError"
    ensures ErrorHandler(Raised(name, message, statusCode, Some(DuplicateKeyCode), errors), env)
              == Reply(409, DuplicateMessage, None)
  {
  }

  /** A malformed identifier is a 400, unless it carries the duplicate-key code. */
  lemma CastErrorIsBadId(message: string, statusCode: Option<int>, code: Option<int>, errors: seq<FieldError>, env: string)
    requires code != Some(DuplicateKeyCode)
    ensures ErrorHandler(Raised("CastError", message, statusCode, code, errors), env) == Reply(400, BadIdMessage, None)
  {
  }

  /** Both store error names are a 503, unless they carry the duplicate-key code. */
  lemma StoreFailureIsUnavailable(name: string, message: string, statusCode: Option<int>, code: Option<int>,
                                  errors: seq<FieldError>, env: string)
    requires name == "MongoError" || name == "MongoServerError"
    requires code != Some(DuplicateKeyCode)
    ensures ErrorHandler(Raised(name, message, statusCode, code, errors), env) == Reply(503, DatabaseMessage, None)
  {
  }

  /** Token errors that reach the handler are 401s, told apart by message. */
  lemma TokenErrorsAreUnauthorized(message: string, statusCode: Option<int>, code: Option<int>, errors: seq<FieldError>, env: string)
    requires code != Some(DuplicateKeyCode)
    ensures ErrorHandler(Raised("JsonWebTokenError", message, statusCode, code, errors), env)
              == Reply(401, InvalidTokenMessage, None)
    ensures ErrorHandler(Raised("TokenExpiredError", message, statusCode, code, errors), env)
              == Reply(401, ExpiredTokenMessage, None)
  {
  }

  /** In production the text of an error that is not an operational `AppError`
      never reaches the client: changing it changes nothing in the reply. */
  lemma ProductionHidesInternalMessages(err: Thrown, other: string)
    requires !(err.AppError? && err.isOperational)
    ensures ErrorHandler(err.(message := other), "production") == ErrorHandler(err, "production")
  {
  }

  /** Outside production an unclassified error shows its own message, or
      'Internal Server Error' when it has none; in production the fixed text. */
  lemma FallbackMessage(name: string, message: string, statusCode: Option<int>, code: Option<int>,
                        errors: seq<FieldError>, env: string)
    requires name !in {"ValidationError", "CastError", "JsonWebTokenError", "TokenExpiredError", "MongoError", "MongoServerError"}
    requires code != Some(DuplicateKeyCode)
    ensures var r := ErrorHandler(Raised(name, message, statusCode, code, errors), env);
      && r.status == (if statusCode.None? || statusCode.value == 0 then 500 else statusCode.value)
      && r.message == (if env == "production" then HiddenMessage else if message != [] then message else DefaultMessage)
  {
  }
}

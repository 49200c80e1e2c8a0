/**
 * The frontend's error vocabulary: the `ApiError` shape, the configuration table of the five
 * configured error codes with its `UNKNOWN_ERROR` fallback, the display message, and the
 * `isApiError` type guard over the values a `catch` clause can receive.
 */
module ErrorTypes {
  import opened Wrappers

  /** `ApiError`; of its optional `details` record only `details.originalError` is modelled. */
  datatype ApiError = ApiError(code: string, message: string, originalError: Option<ApiError>)

  datatype Severity = SevError | SevWarning | SevInfo

  /** `ErrorConfig`. */
  datatype ErrorConfig = ErrorConfig(severity: Severity, retryable: bool, userMessage: string, action: Option<string>)

  const SCHEDULE_NOT_FOUND := "SCHEDULE_NOT_FOUND"
  const CONSTRAINT_VIOLATION := "CONSTRAINT_VIOLATION"
  const SOLVER_ERROR := "SOLVER_ERROR"
  const NETWORK_ERROR := "NETWORK_ERROR"
  const UNKNOWN_ERROR := "UNKNOWN_ERROR"

  /** `ERROR_CONFIGS`, with the user messages of `ERROR_CODES`. */
  const ERROR_CONFIGS: map<string, ErrorConfig> := map[
    SCHEDULE_NOT_FOUND := ErrorConfig(SevError, false, "Schedule could not be found",
                                      Some("Please verify the schedule ID and try again")),
    CONSTRAINT_VIOLATION := ErrorConfig(SevWarning, true, "The schedule violates one or more constraints",
                                        Some("Review and adjust the constraints")),
    SOLVER_ERROR := ErrorConfig(SevError, true, "Unable to generate schedule with current constraints",
                                Some("Try adjusting the constraints or contact support")),
    NETWORK_ERROR := ErrorConfig(SevError, true, "Unable to connect to the server",
                                 Some("Check your internet connection and try again")),
    UNKNOWN_ERROR := ErrorConfig(SevError, false, "An unexpected error occurred",
                                 Some("Please contact support if the issue persists"))
  ]

  /** `getErrorConfig`: the configured entry, or the `UNKNOWN_ERROR` entry for any other code. */
  function GetErrorConfig(code: string): (c: ErrorConfig)
    ensures code in ERROR_CONFIGS ==> c == ERROR_CONFIGS[code]
    ensures code !in ERROR_CONFIGS ==> c == ERROR_CONFIGS[UNKNOWN_ERROR]
  {
    if code in ERROR_CONFIGS then ERROR_CONFIGS[code] else ERROR_CONFIGS[UNKNOWN_ERROR]
  }

  /** The five codes the table configures. */
  lemma ConfiguredCodes(code: string)
    ensures code in ERROR_CONFIGS <==>
      code == SCHEDULE_NOT_FOUND || code == CONSTRAINT_VIOLATION || code == SOLVER_ERROR
      || code == NETWORK_ERROR || code == UNKNOWN_ERROR
  {
  }

  /** Exactly constraint violations, solver errors and network errors are retryable; every
      unconfigured code is treated as `UNKNOWN_ERROR` and is not. */
  lemma RetryableCodes(code: string)
    ensures GetErrorConfig(code).retryable <==>
      code == CONSTRAINT_VIOLATION || code == SOLVER_ERROR || code == NETWORK_ERROR
  {
    if code in ERROR_CONFIGS {
      ConfiguredCodes(code);
    }
  }

  /** `formatErrorMessage`: the user message, then `. ` and the action when there is one. */
  function FormatErrorMessage(e: ApiError): (s: string)
    ensures var c := GetErrorConfig(e.code);
      c.action.None? ==> s == c.userMessage
    ensures var c := GetErrorConfig(e.code);
      c.action.Some? && c.action.value != "" ==> s == c.userMessage + ". " + c.action.value
  {
    var c := GetErrorConfig(e.code);
    c.userMessage + (if c.action.Some? && c.action.value != "" then ". " + c.action.value else "")
  }

  /** The display message depends only on the code, and every code shows one of the configured
      user messages. */
  lemma FormatByCode(e1: ApiError, e2: ApiError)
    requires e1.code == e2.code
    ensures FormatErrorMessage(e1) == FormatErrorMessage(e2)
    ensures exists k :: k in ERROR_CONFIGS && ERROR_CONFIGS[k].userMessage <= FormatErrorMessage(e1)
  {
    var c := GetErrorConfig(e1.code);
    var k := if e1.code in ERROR_CONFIGS then e1.code else UNKNOWN_ERROR;
    assert ERROR_CONFIGS[k] == c;
    assert c.userMessage <= FormatErrorMessage(e1);
  }

  // ---------------------------------------------------------------- caught values

  /** The built-in error classes a caught value may be an instance of; `TypeError` extends
      `Error`. */
  datatype ErrorClass = PlainError | TypeErrorClass

  /** A value a `catch` clause receives: a falsy value, a truthy non-object, or an object with the
      keys the code inspects. An instance of an error class always has a `message` key. */
  datatype Thrown =
    | Falsy
    | NonObject
    | Obj(hasCode: bool, hasOwnMessage: bool, code: string, message: string,
          errorClass: Option<ErrorClass>, originalError: Option<ApiError>)

  /** `'message' in error`. */
  predicate HasMessage(v: Thrown)
    requires v.Obj?
  {
    v.hasOwnMessage || v.errorClass.Some?
  }

  /** `isApiError`: a truthy object with both a `code` and a `message` key. */
  predicate IsApiError(v: Thrown) {
    v.Obj? && v.hasCode && HasMessage(v)
  }

  /** Reading a checked value as an `ApiError`. */
  function AsApiError(v: Thrown): ApiError
    requires IsApiError(v)
  {
    ApiError(v.code, v.message, v.originalError)
  }

  /** The value a `throw` of an `ApiError` object delivers; the guard accepts it and reads back
      the same error. */
  function ThrownApiError(e: ApiError): (v: Thrown)
    ensures IsApiError(v) && AsApiError(v) == e
  {
    Obj(true, true, e.code, e.message, None, e.originalError)
  }
}

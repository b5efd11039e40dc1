/**
 * The global error middleware (controllers/ErrorController.ts): it fills in a
 * missing status code and status, translates the three storage errors it knows
 * (a Mongoose validation error, a duplicate-key error, a cast error) into
 * client errors, and writes one JSON response.
 */
module ErrorController {
  import opened Wrappers
  import opened Text
  import opened AppErrors

  /**
   * What reaches the middleware: an `Error` with the optional fields of the
   * `ErrorHandler` interface. `errors` holds the `message` of each entry of
   * `err.errors`, in `Object.values` order; `keyValue` holds the text that
   * `JSON.stringify(err.keyValue)` gives, taken as given.
   */
  datatype ErrorInfo = ErrorInfo(
    name: string,
    message: string,
    statusCode: Option<int>,
    status: Option<string>,
    errors: Option<seq<string>>,
    code: Option<int>,
    path: Option<string>,
    value: Option<string>,
    keyValue: Option<string>)

  /** The status line and JSON body the middleware sends. */
  datatype Response = Response(statusCode: int, status: string, message: string)

  const DuplicateKeyCode: int := 11000

  /** `n || fallback` for an optional number (absent and 0 are falsy). */
  function CodeOr(n: Option<int>, fallback: int): int
  {
    if n.Some? && n.value != 0 then n.value else fallback
  }

  /** `s || fallback` for an optional string (absent and "" are falsy). */
  function TextOr(s: Option<string>, fallback: string): string
  {
    if s.Some? && s.value != "" then s.value else fallback
  }

  /** A template literal shows an absent field as "undefined". */
  function Shown(s: Option<string>): string
  {
    if s.Some? then s.value else "undefined"
  }

  /** An `AppError` seen as an `ErrorInfo`: its name is the inherited "Error" and it has no `code`. */
  function FromAppError(e: AppError): (info: ErrorInfo)
    ensures info.name != "ValidationError" && info.name != "CastError"
    ensures info.code != Some(DuplicateKeyCode)
    ensures info.statusCode == Some(e.statusCode) && info.status == Some(e.status)
    ensures info.message == e.message
  {
    ErrorInfo("Error", e.message, Some(e.statusCode), Some(e.status), None, None, None, None, None)
  }

  function ValidationMessage(err: ErrorInfo): string
  {
    if err.errors.Some? then "Invalid input data: " + Join(err.errors.value, ". ")
    else "Validation failed, but no specific details were provided."
  }

  function DuplicateMessage(err: ErrorInfo): string
  {
    "Duplicate field value: " + (if err.keyValue.Some? then err.keyValue.value else "Duplicate value")
    + ". Please use another value."
  }

  function CastMessage(err: ErrorInfo): string
  {
    "Invalid " + Shown(err.path) + ": " + Shown(err.value) + ". Please provide a valid value."
  }

  /**
   * `handleValidationErrorDB`: a 400 client error; with `errors` its message lists
   * every field message joined by ". " (an empty `errors` object still counts as
   * present), without them it is the fixed text.
   */
  function HandleValidationErrorDB(err: ErrorInfo): (e: AppError)
    ensures e.statusCode == 400 && e.status == "fail"
    ensures err.errors.Some? ==>
              |e.message| >= 20 && e.message[..20] == "Invalid input data: "
              && e.message[20..] == Join(err.errors.value, ". ")
    ensures err.errors.None? ==> e.message == "Validation failed, but no specific details were provided."
  {
    StatusExamples(ValidationMessage(err));
    New(ValidationMessage(err), 400)
  }

  /** `handleDuplicateFieldsDB`: a 400 client error citing the conflicting value. */
  function HandleDuplicateFieldsDB(err: ErrorInfo): (e: AppError)
    ensures e.statusCode == 400 && e.status == "fail"
    ensures e.message == DuplicateMessage(err)
  {
    StatusExamples(DuplicateMessage(err));
    New(DuplicateMessage(err), 400)
  }

  /** `handleCastErrorDB`: a 400 client error citing the path and the value that failed to cast. */
  function HandleCastErrorDB(err: ErrorInfo): (e: AppError)
    ensures e.statusCode == 400 && e.status == "fail"
    ensures e.message == CastMessage(err)
  {
    StatusExamples(CastMessage(err));
    New(CastMessage(err), 400)
  }

  /**
   * `sendErrorJSON`: every part of the response falls back to a default when the
   * error leaves it falsy, so the client always gets a code, a status and a message.
   */
  function SendErrorJSON(err: ErrorInfo): (r: Response)
    ensures r.statusCode != 0 && r.status != "" && r.message != ""
    ensures err.statusCode.Some? && err.statusCode.value != 0 ==> r.statusCode == err.statusCode.value
    ensures err.status.Some? && err.status.value != "" ==> r.status == err.status.value
    ensures err.message != "" ==> r.message == err.message
    ensures (err.statusCode.None? || err.statusCode.value == 0) ==> r.statusCode == 500
    ensures (err.status.None? || err.status.value == "") ==> r.status == "error"
    ensures err.message == "" ==> r.message == "Something went wrong."
  {
    Response(CodeOr(err.statusCode, 500), TextOr(err.status, "error"),
             if err.message != "" then err.message else "Something went wrong.")
  }

  /**
   * The default export. It defaults the code and status of `err` in place, then
   * rebinds `err` through three checks in a row; since the `AppError` that a
   * translation produces matches none of the checks, at most one translation
   * applies, in the order validation, duplicate key, cast.
   */
  method HandleError(incoming: ErrorInfo) returns (resp: Response)
    ensures resp.statusCode != 0 && resp.status != "" && resp.message != ""
    ensures incoming.name == "ValidationError" ==>
              resp == Response(400, "fail", ValidationMessage(incoming))
    ensures incoming.name != "ValidationError" && incoming.code == Some(DuplicateKeyCode) ==>
              resp == Response(400, "fail", DuplicateMessage(incoming))
    ensures incoming.name != "ValidationError" && incoming.code != Some(DuplicateKeyCode)
            && incoming.name == "CastError" ==>
              resp == Response(400, "fail", CastMessage(incoming))
    ensures incoming.name != "ValidationError" && incoming.code != Some(DuplicateKeyCode)
            && incoming.name != "CastError" ==>
              resp == Response(CodeOr(incoming.statusCode, 500), TextOr(incoming.status, "error"),
                               if incoming.message != "" then incoming.message else "Something went wrong.")
  {
    var err := incoming;
    err := err.(statusCode := Some(CodeOr(err.statusCode, 500)));
    err := err.(status := Some(TextOr(err.status, "error")));

    if err.name == "ValidationError" {
      err := FromAppError(HandleValidationErrorDB(err));
    }
    if err.code == Some(DuplicateKeyCode) {
      err := FromAppError(HandleDuplicateFieldsDB(err));
    }
    if err.name == "CastError" {
      err := FromAppError(HandleCastErrorDB(err));
    }

    resp := SendErrorJSON(err);
  }
}

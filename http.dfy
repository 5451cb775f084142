// What a handler can raise, and what the client receives back.
module Http {
  import opened Strings

  /** A Python exception, as an `except` clause sees it. */
  datatype Exc =
    | HttpError(status: int, detail: string)      // fastapi.HTTPException
    | OsError(errno: int, path: string)           // FileNotFoundError, IsADirectoryError, ...
    | KeyMissing(key: string)                     // KeyError from a dict subscript
    | BadInt(literal: string)                     // ValueError from int()
    | TooManyValues(expected: nat)                // ValueError from tuple unpacking
    | Raised(message: string)                     // raised by the repository with this message
    | Wrapped(prefix: string, cause: Exc)         // re-raised as f"{prefix}{cause}"
    | External(message: string)                   // raised inside a library or a subprocess
    | InvalidToken(message: string)               // jwt.InvalidTokenError and its subclasses
    | Invalid(model: string, fields: seq<string>) // pydantic validation error naming these fields
    | EndPastDuration(end: real, duration: real)  // the trim helpers' end-after-duration error

  function StrError(errno: int): string
  {
    if errno == 2 then "No such file or directory"
    else if errno == 17 then "File exists"
    else if errno == 20 then "Not a directory"
    else if errno == 21 then "Is a directory"
    else "Unknown error"
  }

  /** str(e). Starlette renders an HTTPException as "{status}: {detail}". The quoted
      path or literal is shown without repr() escaping, the pydantic text stops after
      each field name, and the trim error leaves out its two numbers. */
  function Str(e: Exc): string
  {
    match e
    case HttpError(status, detail) => IntToString(status) + ": " + detail
    case OsError(errno, path) => "[Errno " + IntToString(errno) + "] " + StrError(errno) + ": '" + path + "'"
    case KeyMissing(key) => "'" + key + "'"
    case BadInt(literal) => "invalid literal for int() with base 10: '" + literal + "'"
    case TooManyValues(n) => "too many values to unpack (expected " + NatToString(n) + ")"
    case Raised(message) => message
    case Wrapped(prefix, cause) => prefix + Str(cause)
    case External(message) => message
    case InvalidToken(message) => message
    case Invalid(model, fields) =>
      NatToString(|fields|) + " validation error" + (if |fields| == 1 then "" else "s") + " for " + model
      + FieldLines(fields)
    case EndPastDuration(_, _) => "End time exceeds audio duration"
  }

  /** One line per failing field; pydantic's per-field message and help link are not modelled. */
  function FieldLines(fields: seq<string>): string
  {
    if fields == [] then "" else "\n" + fields[0] + FieldLines(fields[1..])
  }

  /** The `detail` member of an error response. */
  datatype Detail =
    | Text(message: string)                       // detail="..."
    | Caught(e: Exc)                              // detail=str(e)
    | Prefixed(prefix: string, e: Exc)            // detail=f"{prefix}{e}"
    | Help(error: string, message: string, instructions: seq<string>, url: string)

  /** A handler's answer: a body, or an HTTP error status with its detail. */
  datatype Reply<T> = Ok(body: T) | Fail(status: int, detail: Detail)

  /** `except Exception as e: raise HTTPException(status_code=500, detail=str(e))` */
  function Reraise<T>(e: Exc): Reply<T>
  {
    Fail(500, Caught(e))
  }

  /** An HTTPException(400) raised inside such a `try`, as the client then sees it. */
  function Rejected<T>(detail: string): Reply<T>
  {
    Reraise(HttpError(400, detail))
  }
}

/** Values exchanged with code outside the model: optional and fallible results,
    the values a JavaScript operation can throw, and the authentication session. */
module Externals {

  datatype Option<+T> = None | Some(value: T)

  datatype Result<+T, +E> = Ok(value: T) | Err(error: E)

  /** A value thrown (or returned as an error object) by an operation the model
      does not see: the storage bucket, the API client, the JavaScript runtime. */
  datatype Thrown =
    | ApiError(status: int, code: string, message: string)  // lib/api.ts ApiError, whose name is "ApiError"
    | ErrorObject(name: string, message: string)            // any other `Error` instance
    | NonError                                              // a thrown value that is not an `Error`
  {
    /** `error instanceof Error` */
    predicate IsError() { !NonError? }

    /** `error.name` of an `Error` instance */
    function Name(): string
      requires IsError()
    {
      if ApiError? then "ApiError" else name
    }
  }

  /** The error raised by a property read on `null` or `undefined`. Its message
      text is engine-specific; the model fixes one. */
  const TYPE_ERROR: Thrown := ErrorObject("TypeError", "Cannot read properties of null or undefined")

  /** What the authentication client's `getSession` yields when a session exists:
      the user (absent when the session carries none) and the bearer token. */
  datatype Session = Session(user: Option<User>, accessToken: string)

  datatype User = User(id: string)

  /** The settled outcome of an awaited call whose value is not used. */
  datatype Outcome = Resolved | Rejected(error: Thrown)

  /** How the storage upload settles: its promise resolves to a result whose
      `error` member may be set, or the promise itself rejects. */
  datatype StoreOutcome = StoreResolved(error: Option<Thrown>) | StoreRejected(reason: Thrown)
}

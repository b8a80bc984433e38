/** Values shared by every handler and page: optional values (SQL NULL, a missing
    JSON field, a missing header) and the error envelope the API answers with. */
module Common {

  datatype Option<+T> = None | Some(value: T) {
    function GetOr(default: T): T {
      match this
      case Some(v) => v
      case None => default
    }
  }

  /** JavaScript truthiness of a string that may be absent: `undefined`, `null`
      and the empty string are all falsy. */
  predicate Truthy(s: Option<string>) {
    s.Some? && s.value != ""
  }

  /** `a || b` on two optional strings: the first operand when it is truthy. */
  function OrElse(a: Option<string>, b: Option<string>): (r: Option<string>)
    ensures Truthy(a) ==> r == a
    ensures !Truthy(a) ==> r == b
  {
    if Truthy(a) then a else b
  }

  /** An error response: HTTP status, the body's message text and, for the
      machine-readable cases, a `code` field. */
  datatype HttpError = HttpError(status: nat, message: string, code: Option<string>)

  function Fail(status: nat, message: string): HttpError {
    HttpError(status, message, None)
  }

  /** A handler's answer: the JSON it sends on success, or an error response. */
  datatype Result<+T> = Ok(value: T) | Err(error: HttpError)
}

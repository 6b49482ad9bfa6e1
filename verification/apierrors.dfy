/** The messages built from failed remote calls. A failed response body is
    either not usable as a JSON object (`NotJson`: unparsable, or `null`) or a
    JSON object described by the three fields the source inspects. Both the
    login call and the book calls look for `detail.message`, then a string
    `detail`, then `message`; they differ only in what they fall back to. */
module ApiErrors {
  import opened Values
  import opened Text

  /** The `detail` field of an error object, as far as the source tells kinds
      apart: an object (with its `message`), a string, or anything else
      (absent, `null`, a number...). */
  datatype Detail = NoDetail | DetailObject(message: Option<string>) | DetailString(text: string)

  /** A failed response body: its raw text, and when it parses as a JSON
      object, its `detail` and `message` fields and its re-serialization
      (`JSON.stringify`). */
  datatype ErrorBody =
    | NotJson(text: string)
    | JsonBody(text: string, detail: Detail, message: Option<string>, serialized: string)

  /** How a remote call can end: it threw before a response (`fetch` failed),
      it got a non-2xx status with a body, it got a 2xx status whose body is
      not JSON, or it produced a value. */
  datatype ApiReply<T> =
    | Threw(message: string)
    | HttpError(status: int, body: ErrorBody)
    | BadJson(status: int)
    | Reply(value: T)

  /** The first truthy one of `detail.message` (for an object detail), the
      string `detail`, and `message` — the JavaScript `a || b || c` chain. */
  function Extracted(body: ErrorBody): (r: Option<string>)
    ensures r.Some? ==> r.value != ""
  {
    match body
    case NotJson(_) => None
    case JsonBody(_, detail, message, _) =>
      var fromObject := if detail.DetailObject? then detail.message else None;
      var fromString := if detail.DetailString? then Some(detail.text) else None;
      var r := OrOption(fromObject, OrOption(fromString, message));
      if Truthy(r) then r else None
  }

  /** The message the login step throws for a non-2xx status: the extracted
      field when there is one, `Falha no Login (<status>)` otherwise, and
      `Falha no Login (<status> - <statusText or 'Erro desconhecido'>)` when
      the body is not a JSON object. */
  function LoginErrorMessage(status: int, statusText: string, body: ErrorBody): (r: string)
    ensures body.JsonBody? ==> r == Or(Extracted(body), "Falha no Login (" + IntToString(status) + ")")
    ensures body.NotJson? ==>
      r == "Falha no Login (" + IntToString(status) + " - " + OrElse(statusText, "Erro desconhecido") + ")"
    ensures r != ""
  {
    match body
    case NotJson(_) =>
      "Falha no Login (" + IntToString(status) + " - " + OrElse(statusText, "Erro desconhecido") + ")"
    case JsonBody(_, detail, message, _) =>
      if detail.DetailObject? && Truthy(detail.message) then detail.message.value
      else if detail.DetailString? && detail.text != "" then detail.text
      else if Truthy(message) then message.value
      else "Falha no Login (" + IntToString(status) + ")"
  }

  /** The detail part of a book-call error: the extracted field, else the
      re-serialized object, else (not JSON) the raw text. */
  function ApiErrorDetail(body: ErrorBody): (r: string)
    ensures body.JsonBody? ==> r == Or(Extracted(body), body.serialized)
    ensures body.NotJson? ==> r == body.text
  {
    match body
    case NotJson(text) => text
    case JsonBody(_, detail, message, serialized) =>
      if detail.DetailObject? && Truthy(detail.message) then detail.message.value
      else if detail.DetailString? && detail.text != "" then detail.text
      else if Truthy(message) then message.value
      else serialized
  }

  /** `Book API Error (<status> - <endpoint>): <detail>`. */
  function BookApiError(status: int, endpoint: string, detail: string): string {
    "Book API Error (" + IntToString(status) + " - " + endpoint + "): " + detail
  }

  /** The message a failed book call throws: the network error's own message,
      the formatted status line with the body's detail, or the formatted line
      for an unparsable success body. A reply has no message. */
  function ApiFailureMessage<T>(endpoint: string, reply: ApiReply<T>): (r: Option<string>)
    ensures reply.Reply? <==> r.None?
  {
    match reply
    case Threw(m) => Some(m)
    case HttpError(status, body) => Some(BookApiError(status, endpoint, ApiErrorDetail(body)))
    case BadJson(status) => Some(BookApiError(status, endpoint, "Invalid JSON response."))
    case Reply(_) => None
  }
}

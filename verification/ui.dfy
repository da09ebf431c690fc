/** What the pages hand to the outside world: toast notifications, router
    navigation, and the HTTP error responses they read back. */
module Ui {
  import opened Wrappers

  /** Whether an editor page creates a new record or edits an existing one. */
  datatype Mode = Create | Edit

  datatype Severity = Success | Error

  /** One call of showSuccess or showError: detail text and summary title. */
  datatype Toast = Toast(severity: Severity, message: string, title: string)

  /** The titles the toast service uses when the caller gives none. */
  const DefaultSuccessTitle := "Success"
  const DefaultErrorTitle := "Error"

  /** The JSON body of an error response: an optional message and optional
      per-field validation messages. */
  datatype ErrorBody = ErrorBody(message: Option<string>, errors: Option<map<string, string>>)

  /** An HTTP error response; `body` is absent when the server sent none. */
  datatype HttpError = HttpError(status: int, body: Option<ErrorBody>)

  /** `error.error?.message`: absent when there is no body or no message. */
  function ErrorMessage(e: HttpError): (m: Option<string>)
    ensures m.Some? <==> e.body.Some? && e.body.value.message.Some?
    ensures m.Some? ==> m == e.body.value.message
  {
    match e.body
    case None => None
    case Some(b) => b.message
  }

  /** `router.navigate([path], { queryParams: { spaceId } })`. */
  datatype Navigation = Navigation(path: string, spaceIdQuery: Option<int>)

  function NavigateTo(path: string): Navigation {
    Navigation(path, None)
  }
}

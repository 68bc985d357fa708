/** The two method decorators of src/commands/Decorators.ts: `handleError`, which
    turns the rejection of a command's promise into one error notification, and
    `validateSettings`, which runs a command only when the settings are valid. */
module Decorators {
  import opened Wrappers
  import RestClient
  import Settings

  const UnauthorizedMessage := "Received unauthorized response. Check credentials have permissions to perform the required action."
  const NotFoundMessage := "Unable to connect to VSTS. Please check Internet connection."
  const InvalidJsonMessage := "Received a bad response from VSTS. Check credentials are properly configured."
  const GenericMessage := "Unexpected error occurred. Please check your Internet connection and your settings are properly configured."
  const InvalidSettingsMessage := "Account, project and password/Personal Access Token must be provided in user or workspace settings."

  /** The `code` property of a rejection: only a system `FetchError` has one. */
  function ErrorCode(e: RestClient.Rejection): Option<string> {
    if e.FetchError? then e.code else None
  }

  /** The `type` property of a rejection: only a `FetchError` has one. */
  function ErrorKind(e: RestClient.Rejection): Option<string> {
    if e.FetchError? then Some(e.errType) else None
  }

  /** `isHttpResponseError(error) && error.isUnauthorizedError()`. */
  predicate IsUnauthorized(e: RestClient.Rejection) {
    RestClient.IsHttpResponseError(e) && e.error.IsUnauthorizedError()
  }

  /** `errorHandler`: the error message shown for a rejection; none for a falsy one, and
      otherwise the first that applies of an unauthorized response, an unknown host, a
      body that is not JSON, and the generic message. */
  function ErrorHandler(e: RestClient.Rejection): (message: Option<string>)
    ensures e.Falsy? <==> message.None?
    ensures IsUnauthorized(e) ==> message == Some(UnauthorizedMessage)
    ensures !IsUnauthorized(e) && ErrorCode(e) == Some("ENOTFOUND") ==> message == Some(NotFoundMessage)
    ensures (!IsUnauthorized(e) && ErrorCode(e) != Some("ENOTFOUND") && ErrorKind(e) == Some("invalid-json")) ==>
      message == Some(InvalidJsonMessage)
    ensures (!e.Falsy? && !IsUnauthorized(e) && ErrorCode(e) != Some("ENOTFOUND") && ErrorKind(e) != Some("invalid-json")) ==>
      message == Some(GenericMessage)
  {
    if e.Falsy? then None
    else if IsUnauthorized(e) then Some(UnauthorizedMessage)
    else if ErrorCode(e) == Some("ENOTFOUND") then Some(NotFoundMessage)
    else if ErrorKind(e) == Some("invalid-json") then Some(InvalidJsonMessage)
    else Some(GenericMessage)
  }

  /** Which of the four messages a truthy rejection gets depends only on its kind: an
      `HttpResponseError` gets the unauthorized message exactly when its status is 401
      and the generic one otherwise, and any other error object the generic one. */
  lemma ErrorHandlerByKind(e: RestClient.Rejection)
    ensures e.HttpError? ==> ErrorHandler(e) == Some(if e.error.statusCode == 401 then UnauthorizedMessage else GenericMessage)
    ensures e.Fault? ==> ErrorHandler(e) == Some(GenericMessage)
    ensures e.FetchError? && e.code == Some("ENOTFOUND") ==> ErrorHandler(e) == Some(NotFoundMessage)
    ensures e.FetchError? && e.code != Some("ENOTFOUND") ==>
      ErrorHandler(e) == Some(if e.errType == "invalid-json" then InvalidJsonMessage else GenericMessage)
  {
  }

  /** A command's promise after `handleError`: a resolved value passes through with no
      message, and a rejection resolves with nothing and at most the message the
      handler picks. */
  datatype Handled<T> = Handled(value: Option<T>, message: Option<string>)

  function HandleError<T>(result: Settled<T, RestClient.Rejection>): (r: Handled<T>)
    ensures result.Resolved? ==> r == Handled(Some(result.value), None)
    ensures result.Rejected? ==> r.value.None? && r.message == ErrorHandler(result.reason)
  {
    match result
    case Resolved(v) => Handled(Some(v), None)
    case Rejected(e) => Handled(None, ErrorHandler(e))
  }

  /** What `validateSettings` does with a call: either the information message without
      calling the command, or the command's own result. */
  datatype Validated<T> = Refused(information: string) | Invoked(result: T)

  /** `result` is what the wrapped command returns when it is called. */
  function ValidateSettings<T>(settings: Settings.SettingsView, result: T): (r: Validated<T>)
    ensures r.Invoked? <==> settings.IsValid()
    ensures r.Invoked? ==> r.result == result
    ensures r.Refused? ==> r.information == InvalidSettingsMessage
  {
    if !settings.IsValid() then Refused(InvalidSettingsMessage) else Invoked(result)
  }

  /** The command runs exactly when the account, the password and the project are all
      given; the user name plays no part. */
  lemma ValidateSettingsNeedsThreeFields<T>(settings: Settings.SettingsView, result: T)
    ensures ValidateSettings(settings, result).Invoked? <==>
      settings.account != "" && settings.password != "" && settings.project != ""
  {
  }
}

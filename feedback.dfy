/**
 * What the client's mutations show when they fail: a destructive toast,
 * and for a lost session a redirect to the login route.
 */
module Feedback {
  import opened JsValues

  /** A toast notification; `destructive` is the red variant. */
  datatype Toast = Toast(title: string, description: string, destructive: bool)

  const LoginPath := "/api/login"

  const LoggedOutToast := Toast("Unauthorized", "You are logged out. Logging in again...", true)

  /** The `onError` handler shared by the client's mutations: an
      unauthorized error announces the logout and sends the browser to the
      login route; any other error only reports `failure`. Whether an error
      counts as unauthorized is decided by a helper that is not part of this
      model, so it is given. */
  function FailureFeedback(unauthorized: bool, failure: string): (r: (Toast, Option<string>))
    ensures r.0.destructive
    ensures r.1.Some? <==> unauthorized
    ensures r.1.Some? ==> r.1.value == LoginPath && r.0 == LoggedOutToast
    ensures r.1.None? ==> r.0.title == "Error" && r.0.description == failure
  {
    if unauthorized then (LoggedOutToast, Some(LoginPath))
    else (Toast("Error", failure, true), None)
  }
}

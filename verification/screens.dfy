/**
 * What a screen handler does that the model observes: the alert it shows
 * (title, message, and the route its OK button leads to, if any), the route
 * it replaces the current screen with, and its busy flag afterwards.
 */
module Screens {
  import opened Wrappers
  import opened JsText
  import opened Backend

  datatype Alert = Alert(title: string, message: string, okRoute: Option<string>)

  datatype Effects = Effects(alert: Option<Alert>, route: Option<string>, busy: bool)

  const EventsRoute := "/events"
  const SignInRoute := "/signin"
  const SomethingWentWrong := "Something went wrong. Please try again."

  /**
   * What the screens destructure from whatever `signInWithGoogle` resolves
   * to: `error`, the truthiness of a top-level `success`, and the
   * truthiness of `data?.user`.
   */
  datatype GoogleReply = GoogleReply(error: Option<Fault>, success: bool, hasUser: bool)

  /** An alert with no action: `Alert.alert(title, error.message || fallback)`. */
  function ErrorAlert(title: string, e: Fault, fallback: string): Alert {
    Alert(title, Or(Some(e.message), fallback), None)
  }

  /** An alert with no action and a fixed message. */
  function Notice(title: string, message: string): Alert {
    Alert(title, message, None)
  }

  /**
   * The Google button handler the sign-in and sign-up screens share, with the
   * screen's alert title and fallback message: an error or a throw is shown
   * and nothing else happens; a truthy `success` goes to the events list.
   */
  function GoogleButton(title: string, fallback: string, reply: Completion<GoogleReply>): (r: Effects)
    ensures !r.busy
    ensures r.route.Some? <==> reply.Returned? && reply.value.error.None? && reply.value.success
    ensures r.route.Some? ==> r.route == Some(EventsRoute) && r.alert.None?
    ensures r.alert.Some? <==> reply.Threw? || reply.value.error.Some?
    ensures reply.Returned? && reply.value.error.Some? ==>
      r.alert == Some(ErrorAlert(title, reply.value.error.value, fallback))
    ensures reply.Threw? ==> r.alert == Some(Notice(title, SomethingWentWrong))
  {
    match reply
    case Threw(_) => Effects(Some(Notice(title, SomethingWentWrong)), None, false)
    case Returned(GoogleReply(Some(e), _, _)) => Effects(Some(ErrorAlert(title, e, fallback)), None, false)
    case Returned(GoogleReply(None, success, _)) => Effects(None, if success then Some(EventsRoute) else None, false)
  }
}

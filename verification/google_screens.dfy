/**
 * How the screens read the `{data, error}` that `signInWithGoogle`
 * produces: that result has no top-level `success` and its `data` has no
 * `user`, so the only thing a screen can react to is the error.
 */
module GoogleScreens {
  import opened Wrappers
  import opened Backend
  import opened Screens
  import GoogleAuth
  import SignInScreen
  import SignUpScreen
  import Onboarding

  /** `const { error, success } = result` and `result.data?.user` on a `GoogleResult`. */
  function AsScreenReply(result: GoogleAuth.GoogleResult): (reply: GoogleReply)
    ensures reply.error == result.error && !reply.success && !reply.hasUser
  {
    GoogleReply(result.error, false, false)
  }

  /** What a screen's `await signInWithGoogle()` sees: the reply as destructured, or the same rejection. */
  function AsScreenOutcome(outcome: Completion<GoogleAuth.GoogleResult>): (c: Completion<GoogleReply>)
    ensures c.Threw? <==> outcome.Threw?
    ensures c.Threw? ==> c.fault == outcome.fault
    ensures c.Returned? ==> c.value.error == outcome.value.error && !c.value.success && !c.value.hasUser
  {
    match outcome
    case Returned(result) => Returned(AsScreenReply(result))
    case Threw(e) => Threw(e)
  }

  /** Fed the outcome of `signInWithGoogle`, no screen's Google button ever navigates, whether it resolved or rejected. */
  lemma GoogleButtonsNeverNavigate(busy: bool, redirectTo: string,
                                   oauth: Completion<GoogleAuth.OAuthReply>, browser: Completion<GoogleAuth.BrowserResult>)
    ensures var reply := AsScreenOutcome(GoogleAuth.SignInWithGoogle(redirectTo, oauth, browser).outcome);
      && SignInScreen.HandleGoogleSignIn(busy, reply).route.None?
      && SignUpScreen.HandleGoogleSignUp(busy, reply).route.None?
      && Onboarding.HandleGoogleSignIn(busy, reply).route.None?
  {
  }

  /** A cancelled browser session surfaces on the sign-in screen as an alert carrying the cancellation message. */
  lemma CancelShownAsSignInError(busy: bool, redirectTo: string, url: string, browserUrl: Option<string>)
    requires url != ""
    ensures var run := GoogleAuth.SignInWithGoogle(redirectTo, Returned(GoogleAuth.OAuthData(Some(url))),
                                                   Returned(GoogleAuth.BrowserResult("cancel", browserUrl)));
      SignInScreen.HandleGoogleSignIn(busy, AsScreenOutcome(run.outcome)).alert
        == Some(Alert("Sign In Error", GoogleAuth.CancelledMessage, None))
  {
  }
}

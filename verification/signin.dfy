/** The sign-in screen's two handlers: e-mail sign-in and Google sign-in. */
module SignInScreen {
  import opened Wrappers
  import opened JsText
  import opened Backend
  import opened Screens

  /** The arguments passed to `signInWithEmail`. */
  datatype SignInRequest = SignInRequest(email: string, password: string)

  datatype SignInRun = SignInRun(request: Option<SignInRequest>, effects: Effects)

  /**
   * `handleEmailSignIn`. Blank fields are refused; there is no length rule.
   * `busy` is `isLoading` before the call; `backend` is how `signInWithEmail` ended.
   */
  function HandleEmailSignIn(email: string, password: string, busy: bool,
                             backend: Completion<Option<Fault>>): (r: SignInRun)
    ensures r.request.Some? <==> Trim(email) != "" && Trim(password) != ""
    ensures r.request.None? ==>
      r.effects == Effects(Some(Notice("Missing Information", "Please enter your email and password")), None, busy)
    ensures r.request.Some? ==> r.request.value == SignInRequest(Trim(email), password) && !r.effects.busy
    ensures r.effects.route.Some? <==> r.request.Some? && backend == Returned(None)
    ensures r.effects.route.Some? ==> r.effects.route == Some(EventsRoute) && r.effects.alert.None?
    ensures r.request.Some? && backend.Returned? && backend.value.Some? ==>
      r.effects.alert == Some(ErrorAlert("Sign In Error", backend.value.value, "Failed to sign in"))
    ensures r.request.Some? && backend.Threw? ==> r.effects.alert == Some(Notice("Sign In Error", SomethingWentWrong))
  {
    if Trim(email) == "" || Trim(password) == "" then
      SignInRun(None, Effects(Some(Notice("Missing Information", "Please enter your email and password")), None, busy))
    else
      var request := Some(SignInRequest(Trim(email), password));
      match backend
      case Threw(_) => SignInRun(request, Effects(Some(Notice("Sign In Error", SomethingWentWrong)), None, false))
      case Returned(Some(e)) =>
        SignInRun(request, Effects(Some(ErrorAlert("Sign In Error", e, "Failed to sign in")), None, false))
      case Returned(None) => SignInRun(request, Effects(None, Some(EventsRoute), false))
  }

  /** Any password that is not all whitespace is sent, however short; the e-mail is sent trimmed. */
  lemma ShortPasswordsAccepted(email: string, password: string, busy: bool, backend: Completion<Option<Fault>>)
    requires !AllWhitespace(email) && !AllWhitespace(password)
    ensures HandleEmailSignIn(email, password, busy, backend).request == Some(SignInRequest(Trim(email), password))
  {
    TrimEmptyIff(email);
    TrimEmptyIff(password);
  }

  /**
   * `handleGoogleSignIn`: the shared Google button handler with the sign-in
   * wording. `busy` is `isLoading` before the call; the `finally` block
   * clears it whatever happens, so the result never depends on it.
   */
  function HandleGoogleSignIn(busy: bool, reply: Completion<GoogleReply>): (r: Effects)
    ensures !r.busy
    ensures r.route.Some? <==> reply.Returned? && reply.value.error.None? && reply.value.success
    ensures r.route.Some? ==> r.route == Some(EventsRoute)
    ensures reply.Returned? && reply.value.error.None? ==> r.alert.None?
    ensures reply.Returned? && reply.value.error.Some? ==>
      r.alert == Some(ErrorAlert("Sign In Error", reply.value.error.value, "Failed to sign in with Google"))
    ensures reply.Threw? ==> r.alert == Some(Notice("Sign In Error", SomethingWentWrong))
  {
    GoogleButton("Sign In Error", "Failed to sign in with Google", reply)
  }
}

/** The sign-up screen's two handlers: e-mail sign-up and Google sign-up. */
module SignUpScreen {
  import opened Wrappers
  import opened JsText
  import opened Backend
  import opened Screens
  import SignInScreen

  const MinPasswordLength := 6

  /** The arguments passed to `signUpWithEmail`. */
  datatype SignUpRequest = SignUpRequest(email: string, password: string, fullName: string)

  datatype SignUpRun = SignUpRun(request: Option<SignUpRequest>, effects: Effects)

  predicate MissingField(email: string, password: string, fullName: string) {
    Trim(email) == "" || Trim(password) == "" || Trim(fullName) == ""
  }

  /** The alerts of the e-mail sign-up handler. */
  const MissingAlert := Notice("Missing Information", "Please fill in all fields")
  const WeakPasswordAlert := Notice("Weak Password", "Password must be at least 6 characters long")
  const CreatedAlert := Alert("Account Created!",
    "Please check your email to verify your account before signing in.", Some(SignInRoute))

  /**
   * `handleSignUp`. `busy` is `isLoading` before the call; `backend` is how
   * `signUpWithEmail` ended (its `error`, or a throw).
   */
  function HandleSignUp(email: string, password: string, fullName: string, busy: bool,
                        backend: Completion<Option<Fault>>): (r: SignUpRun)
    ensures MissingField(email, password, fullName) ==>
      r == SignUpRun(None, Effects(Some(MissingAlert), None, busy))
    ensures !MissingField(email, password, fullName) && Utf16Length(password) < MinPasswordLength ==>
      r == SignUpRun(None, Effects(Some(WeakPasswordAlert), None, busy))
    ensures r.request.Some? <==> !MissingField(email, password, fullName) && Utf16Length(password) >= MinPasswordLength
    ensures r.request.Some? ==> r.request.value == SignUpRequest(Trim(email), password, Trim(fullName))
    ensures r.request.Some? ==> !r.effects.busy
    ensures r.effects.route.None?
    ensures r.effects.alert.Some? && r.effects.alert.value.okRoute.Some?
      <==> r.request.Some? && backend == Returned(None)
    ensures r.effects.alert.Some? && r.effects.alert.value.okRoute.Some? ==> r.effects.alert.value.okRoute == Some(SignInRoute)
    ensures r.request.Some? && backend == Returned(None) ==> r.effects.alert == Some(CreatedAlert)
    ensures r.request.Some? && backend.Returned? && backend.value.Some? ==>
      r.effects.alert == Some(ErrorAlert("Sign Up Error", backend.value.value, "Failed to create account"))
    ensures r.request.Some? && backend.Threw? ==> r.effects.alert == Some(Notice("Sign Up Error", SomethingWentWrong))
  {
    if Trim(email) == "" || Trim(password) == "" || Trim(fullName) == "" then
      SignUpRun(None, Effects(Some(MissingAlert), None, busy))
    else if Utf16Length(password) < MinPasswordLength then
      SignUpRun(None, Effects(Some(WeakPasswordAlert), None, busy))
    else
      var request := Some(SignUpRequest(Trim(email), password, Trim(fullName)));
      match backend
      case Threw(_) => SignUpRun(request, Effects(Some(Notice("Sign Up Error", SomethingWentWrong)), None, false))
      case Returned(Some(e)) =>
        SignUpRun(request, Effects(Some(ErrorAlert("Sign Up Error", e, "Failed to create account")), None, false))
      case Returned(None) =>
        SignUpRun(request, Effects(Some(CreatedAlert), None, false))
  }

  /**
   * Every request that reaches the backend has a non-blank e-mail and full
   * name with no surrounding whitespace, and a password of at least six
   * UTF-16 units that is not all whitespace.
   */
  lemma SentRequestIsValid(email: string, password: string, fullName: string, busy: bool,
                           backend: Completion<Option<Fault>>)
    ensures var r := HandleSignUp(email, password, fullName, busy, backend);
      r.request.Some? ==>
        && r.request.value.email != "" && Trim(r.request.value.email) == r.request.value.email
        && r.request.value.fullName != "" && Trim(r.request.value.fullName) == r.request.value.fullName
        && Utf16Length(r.request.value.password) >= MinPasswordLength
        && !AllWhitespace(r.request.value.password)
  {
    var r := HandleSignUp(email, password, fullName, busy, backend);
    if r.request.Some? {
      TrimIdempotent(email);
      TrimIdempotent(fullName);
      TrimEmptyIff(password);
    }
  }

  /** A field counts as missing exactly when it is empty or all whitespace. */
  lemma MissingIffBlank(email: string, password: string, fullName: string)
    ensures MissingField(email, password, fullName)
        <==> AllWhitespace(email) || AllWhitespace(password) || AllWhitespace(fullName)
  {
    TrimEmptyIff(email);
    TrimEmptyIff(password);
    TrimEmptyIff(fullName);
  }

  /**
   * `handleGoogleSignUp`: the shared Google button handler with the sign-up
   * wording. It navigates exactly when the sign-in screen's button does.
   * `busy` is `isLoading` before the call; the `finally` block clears it.
   */
  function HandleGoogleSignUp(busy: bool, reply: Completion<GoogleReply>): (r: Effects)
    ensures !r.busy && r.route == SignInScreen.HandleGoogleSignIn(busy, reply).route
    ensures reply.Returned? && reply.value.error.Some? ==>
      r.alert == Some(ErrorAlert("Sign Up Error", reply.value.error.value, "Failed to sign up with Google"))
    ensures reply.Threw? ==> r.alert == Some(Notice("Sign Up Error", SomethingWentWrong))
    ensures reply.Returned? && reply.value.error.None? ==> r.alert.None?
  {
    GoogleButton("Sign Up Error", "Failed to sign up with Google", reply)
  }

  /** The sign-up screen's Google button behaves as the sign-in screen's, apart from the alert's wording. */
  lemma GoogleSignUpLikeSignIn(busy: bool, reply: Completion<GoogleReply>)
    ensures var up := HandleGoogleSignUp(busy, reply);
      var inn := SignInScreen.HandleGoogleSignIn(busy, reply);
      && up.route == inn.route && up.busy == inn.busy
      && (up.alert.Some? <==> inn.alert.Some?)
      && (up.alert.Some? ==> up.alert.value.title == "Sign Up Error" && inn.alert.value.title == "Sign In Error")
  {
  }
}

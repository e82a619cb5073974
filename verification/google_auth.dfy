/**
 * `signInWithGoogle` and `signOutGoogle`: ask the backend for a Google OAuth
 * URL, open it in the system authentication browser with the app's redirect
 * URI, and classify how that ended as `{data, error}`.
 */
module GoogleAuth {
  import opened Wrappers
  import opened JsText
  import opened Backend

  /** `signInWithOAuth` resolved: either with an `error`, or with `data` holding a possibly missing `url`. */
  datatype OAuthReply = OAuthError(error: Fault) | OAuthData(url: Option<string>)

  /** `openAuthSessionAsync` resolved: `type` ("success", "cancel", "dismiss", ...) and the final URL if any. */
  datatype BrowserResult = BrowserResult(kind: string, url: Option<string>)

  /** `{ success: true }`. */
  datatype SignInData = SignInData(success: bool)

  /** `{ data, error }` as returned to the caller. */
  datatype GoogleResult = GoogleResult(data: Option<SignInData>, error: Option<Fault>)

  /** The external calls made, in order, with the arguments the model can observe. */
  datatype Request = OAuthRequest(provider: string, redirectTo: string) | AuthSession(url: string, redirectTo: string)

  /** The calls made and how the call ended: resolved with `{data, error}`, or rejected. */
  datatype GoogleRun = GoogleRun(requests: seq<Request>, outcome: Completion<GoogleResult>)

  const CancelledMessage := "Authentication cancelled"
  const FailedMessage := "Authentication failed"
  const NoUrlMessage := "No redirect URL received"

  /** The browser session was opened: the backend resolved with no error and a non-empty OAuth URL. */
  predicate OpensBrowser(oauth: Completion<OAuthReply>) {
    oauth.Returned? && oauth.value.OAuthData? && Truthy(oauth.value.url)
  }

  /**
   * `signInWithGoogle`. `redirectTo` is what `makeRedirectUri` returned;
   * `oauth` and `browser` are how the two awaited calls ended (`browser` is
   * read only when the browser is opened). There is no try/catch, so a
   * rejection of either call rejects the whole call with the same fault.
   */
  function SignInWithGoogle(redirectTo: string, oauth: Completion<OAuthReply>, browser: Completion<BrowserResult>): (run: GoogleRun)
    ensures 1 <= |run.requests| <= 2 && run.requests[0] == OAuthRequest("google", redirectTo)
    ensures forall i :: 0 <= i < |run.requests| ==> run.requests[i].redirectTo == redirectTo
    ensures |run.requests| == 2 <==> OpensBrowser(oauth)
    ensures OpensBrowser(oauth) ==> run.requests[1] == AuthSession(oauth.value.url.value, redirectTo)
    ensures run.outcome.Threw? <==> oauth.Threw? || (OpensBrowser(oauth) && browser.Threw?)
    ensures oauth.Threw? ==> run.outcome == Threw(oauth.fault)
    ensures OpensBrowser(oauth) && browser.Threw? ==> run.outcome == Threw(browser.fault)
    ensures run.outcome.Returned? ==> (run.outcome.value.data.None? <==> run.outcome.value.error.Some?)
    ensures oauth.Returned? && oauth.value.OAuthError? ==> run.outcome == Returned(GoogleResult(None, Some(oauth.value.error)))
    ensures run.outcome.Returned? && run.outcome.value.data.Some?
      <==> OpensBrowser(oauth) && browser.Returned? && browser.value.kind == "success"
    ensures run.outcome.Returned? && run.outcome.value.data.Some? ==> run.outcome.value.data.value.success
    ensures OpensBrowser(oauth) && browser.Returned? && browser.value.kind == "cancel"
      ==> run.outcome == Returned(GoogleResult(None, Some(Fault(CancelledMessage))))
    ensures (OpensBrowser(oauth) && browser.Returned? && browser.value.kind != "success" && browser.value.kind != "cancel")
      ==> run.outcome == Returned(GoogleResult(None, Some(Fault(FailedMessage))))
    ensures oauth.Returned? && oauth.value.OAuthData? && !Truthy(oauth.value.url)
      ==> run.outcome == Returned(GoogleResult(None, Some(Fault(NoUrlMessage))))
  {
    var request := OAuthRequest("google", redirectTo);
    match oauth
    case Threw(e) => GoogleRun([request], Threw(e))
    case Returned(OAuthError(e)) => GoogleRun([request], Returned(GoogleResult(None, Some(e))))
    case Returned(OAuthData(url)) =>
      if Truthy(url) then
        var requests := [request, AuthSession(url.value, redirectTo)];
        match browser
        case Threw(e) => GoogleRun(requests, Threw(e))
        case Returned(b) =>
          if b.kind == "success" then GoogleRun(requests, Returned(GoogleResult(Some(SignInData(true)), None)))
          else if b.kind == "cancel" then GoogleRun(requests, Returned(GoogleResult(None, Some(Fault(CancelledMessage)))))
          else GoogleRun(requests, Returned(GoogleResult(None, Some(Fault(FailedMessage)))))
      else GoogleRun([request], Returned(GoogleResult(None, Some(Fault(NoUrlMessage)))))
  }

  /** The URL the browser session ended on is neither parsed nor kept: it cannot change the outcome. */
  lemma BrowserUrlIgnored(redirectTo: string, oauth: Completion<OAuthReply>, kind: string, u1: Option<string>, u2: Option<string>)
    ensures SignInWithGoogle(redirectTo, oauth, Returned(BrowserResult(kind, u1)))
         == SignInWithGoogle(redirectTo, oauth, Returned(BrowserResult(kind, u2)))
  {
  }

  /** When the backend refuses, the browser is never consulted, not even whether it would have rejected. */
  lemma BackendErrorSkipsBrowser(redirectTo: string, e: Fault, b1: Completion<BrowserResult>, b2: Completion<BrowserResult>)
    ensures SignInWithGoogle(redirectTo, Returned(OAuthError(e)), b1) == SignInWithGoogle(redirectTo, Returned(OAuthError(e)), b2)
  {
  }

  /** `signOutGoogle`: whatever the backend's `signOut` does, the call resolves normally. */
  function SignOutGoogle(signOut: Completion<Option<Fault>>): (r: Completion<()>)
    ensures r.Returned?
  {
    match signOut
    case Returned(_) => Returned(())
    case Threw(_) => Returned(())
  }
}

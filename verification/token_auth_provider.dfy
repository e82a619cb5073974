/**
 * The token-cache session provider: the `{user, isAuthenticated, isLoading}`
 * record driven by `TokenManager`. Each handler is one atomic transition;
 * the token store and the clock are passed in, and the store after the
 * handler's side effects is passed out.
 */
module TokenAuthProvider {
  import opened Wrappers
  import opened Backend
  import opened TokenManager
  import GoogleAuth

  datatype AuthState = AuthState(user: Option<UserData>, isAuthenticated: bool, isLoading: bool)

  /** The provider's state before any check: no user, not authenticated, loading. */
  function InitialState(): (s: AuthState)
    ensures s.user.None? && !s.isAuthenticated && s.isLoading
  {
    AuthState(None, false, true)
  }

  datatype Step = Step(state: AuthState, store: Store)

  /**
   * `checkAuthStatus`: authenticated only with a live token AND stored user
   * data, which then becomes `user`; on the other paths `user` is left as it
   * was. Loading ends on every path.
   */
  function CheckAuthStatus(st: AuthState, store: Store, now: nat): (r: Step)
    ensures !r.state.isLoading
    ensures r.state.isAuthenticated <==> HoldsLiveToken(store, now) && GetUserData(store).Some?
    ensures r.state.isAuthenticated ==> r.state.user == GetUserData(store)
    ensures !r.state.isAuthenticated ==> r.state.user == st.user
    ensures r.store == (if HoldsStaleToken(store, now) then Empty else store)
  {
    var verdict := IsAuthenticated(store, now);
    if verdict.authenticated then
      match GetUserData(verdict.store)
      case Some(u) => Step(AuthState(Some(u), true, false), verdict.store)
      case None => Step(st.(isAuthenticated := false, isLoading := false), verdict.store)
    else Step(st.(isAuthenticated := false, isLoading := false), verdict.store)
  }

  /** The check run on mount: from the initial state, a user is shown exactly when authenticated. */
  lemma MountShowsUserIffAuthenticated(store: Store, now: nat)
    ensures var r := CheckAuthStatus(InitialState(), store, now);
      r.state.user.Some? <==> r.state.isAuthenticated
  {
  }

  /** A token stored and still live authenticates the provider with the token's user data. */
  lemma StoredTokenAuthenticates(st: AuthState, s: Store, t: AuthToken, now: nat)
    requires Live(t, now)
    ensures CheckAuthStatus(st, StoreAuthToken(s, t), now).state == AuthState(Some(t.userData), true, false)
  {
  }

  /** When the token has expired the provider drops to unauthenticated yet keeps showing the old user. */
  lemma ExpiryKeepsStaleUser(u: UserData, s: Store, t: AuthToken, now: nat)
    requires !Live(t, now)
    ensures var r := CheckAuthStatus(AuthState(Some(u), true, false), StoreAuthToken(s, t), now);
      r.state == AuthState(Some(u), false, false) && r.store == Empty
  {
  }

  datatype SignInStep = SignInStep(step: Step, result: GoogleAuth.GoogleResult)

  /**
   * `handleGoogleSignIn`: re-check only when `result.data?.success`; return
   * the sign-in result as it came, or `{data: null, error}` when it threw.
   */
  function HandleGoogleSignIn(st: AuthState, store: Store, now: nat, signIn: Completion<GoogleAuth.GoogleResult>): (r: SignInStep)
    ensures signIn.Returned? ==> r.result == signIn.value
    ensures signIn.Threw? ==> r.result == GoogleAuth.GoogleResult(None, Some(signIn.fault))
    ensures (signIn.Returned? && signIn.value.data.Some? && signIn.value.data.value.success)
      ==> r.step == CheckAuthStatus(st, store, now)
    ensures !(signIn.Returned? && signIn.value.data.Some? && signIn.value.data.value.success)
      ==> r.step == Step(st, store)
  {
    match signIn
    case Threw(e) => SignInStep(Step(st, store), GoogleAuth.GoogleResult(None, Some(e)))
    case Returned(result) =>
      if result.data.Some? && result.data.value.success then SignInStep(CheckAuthStatus(st, store, now), result)
      else SignInStep(Step(st, store), result)
  }

  /**
   * `signInWithGoogle` stores no token, so a Google sign-in through this
   * provider never turns an unauthenticated state into an authenticated one
   * when the store holds no token.
   */
  lemma GoogleSignInAloneNeverAuthenticates(
    st: AuthState, now: nat, redirectTo: string,
    oauth: Completion<GoogleAuth.OAuthReply>, browser: Completion<GoogleAuth.BrowserResult>)
    requires !st.isAuthenticated
    ensures var run := GoogleAuth.SignInWithGoogle(redirectTo, oauth, browser);
      var r := HandleGoogleSignIn(st, Empty, now, run.outcome);
      !r.step.state.isAuthenticated && r.step.store == Empty
  {
  }

  /** `handleSignOut`: clears `user` and `isAuthenticated` once sign-out resolves; the token store is not cleared. */
  function HandleSignOut(st: AuthState, store: Store, signOut: Completion<()>): (r: Step)
    ensures r.store == store
    ensures signOut.Returned? ==> r.state == AuthState(None, false, st.isLoading)
    ensures signOut.Threw? ==> r.state == st
  {
    match signOut
    case Returned(_) => Step(AuthState(None, false, st.isLoading), store)
    case Threw(_) => Step(st, store)
  }

  /** Since `signOutGoogle` swallows every error, signing out always clears the state, and only the state. */
  lemma SignOutAlwaysClearsState(st: AuthState, store: Store, backend: Completion<Option<Fault>>)
    ensures HandleSignOut(st, store, GoogleAuth.SignOutGoogle(backend)) == Step(st.(user := None, isAuthenticated := false), store)
  {
  }
}

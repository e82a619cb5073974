/**
 * The backend-session provider: on mount, `signInEvents` adopts an existing
 * session, stops on a session error, or falls back to one anonymous sign-in.
 */
module AuthProvider {
  import opened Wrappers
  import opened Backend

  datatype ProviderState = ProviderState(user: Option<User>, isAuthenticated: bool)

  const Initial := ProviderState(None, false)

  /** `getSession()` resolved: `data.session` and `error`. */
  datatype SessionReply = SessionReply(session: Option<Session>, error: Option<Fault>)

  /** `signInAnonymously()` resolved: `data` (holding a possibly missing `user`) and `error`. */
  datatype AnonymousData = AnonymousData(user: Option<User>)
  datatype AnonymousReply = AnonymousReply(data: Option<AnonymousData>, error: Option<Fault>)

  datatype Bootstrap = Bootstrap(state: ProviderState, anonymousSignIns: nat)

  /**
   * `signInEvents`. `anonymous` is what `signInAnonymously` would resolve to;
   * `anonymousSignIns` counts whether it was called.
   */
  function SignInEvents(st: ProviderState, reply: SessionReply, anonymous: AnonymousReply): (r: Bootstrap)
    ensures reply.session.Some? ==> r.state == ProviderState(Some(reply.session.value.user), true)
    ensures r.anonymousSignIns <= 1
    ensures r.anonymousSignIns == 1 <==> reply.session.None? && reply.error.None?
    ensures reply.session.None? && reply.error.Some? ==> r.state == st
    ensures (r.anonymousSignIns == 1 && anonymous.data.Some?)
      ==> r.state == ProviderState(anonymous.data.value.user, true)
    ensures (r.anonymousSignIns == 1 && anonymous.data.None?) ==> r.state == st
    ensures st.isAuthenticated ==> r.state.isAuthenticated
  {
    var afterSession :=
      if reply.session.Some? then ProviderState(Some(reply.session.value.user), true) else st;
    if reply.error.Some? then Bootstrap(afterSession, 0)
    else if reply.session.Some? then Bootstrap(afterSession, 0)
    else
      match anonymous.data
      case Some(data) => Bootstrap(ProviderState(data.user, true), 1)
      case None => Bootstrap(afterSession, 1)
  }

  /** An anonymous sign-in error is only logged: with `data` present the user is still adopted. */
  lemma AnonymousErrorIgnoredWithData(st: ProviderState, reply: SessionReply, data: AnonymousData, e: Fault)
    requires reply.session.None? && reply.error.None?
    ensures SignInEvents(st, reply, AnonymousReply(Some(data), Some(e)))
         == SignInEvents(st, reply, AnonymousReply(Some(data), None))
  {
  }

  /** Fresh install with no session and no error: the mount ends authenticated through exactly one anonymous sign-in. */
  lemma FreshInstallSignsInAnonymously(user: User)
    ensures SignInEvents(Initial, SessionReply(None, None), AnonymousReply(Some(AnonymousData(Some(user))), None))
         == Bootstrap(ProviderState(Some(user), true), 1)
  {
  }
}

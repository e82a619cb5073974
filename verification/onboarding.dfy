/** The onboarding pager over its three slides, and its Google sign-in button. */
module Onboarding {
  import opened Wrappers
  import opened Backend
  import opened Screens

  /** `onboardingData.length`. */
  const PageCount := 3

  datatype PagerStep = PagerStep(index: nat, route: Option<string>)

  /** `isLastScreen`: on the last slide Next leaves the pager; on any other slide it advances. */
  function IsLastScreen(index: nat): (b: bool)
    ensures b ==> index < PageCount && NextScreen(index) == PagerStep(index, Some(EventsRoute))
    ensures index < PageCount && !b ==> NextScreen(index) == PagerStep(index + 1, None)
  {
    index == PageCount - 1
  }

  /** `nextScreen`: forward one slide, or from the last slide on to the events list. */
  function NextScreen(index: nat): (r: PagerStep)
    ensures index < PageCount - 1 ==> r == PagerStep(index + 1, None)
    ensures index >= PageCount - 1 ==> r == PagerStep(index, Some(EventsRoute))
  {
    if index < PageCount - 1 then PagerStep(index + 1, None) else PagerStep(index, Some(EventsRoute))
  }

  /** `prevScreen`: back one slide, nothing on the first. */
  function PrevScreen(index: nat): (r: nat)
    ensures index > 0 ==> r == index - 1
    ensures index == 0 ==> r == 0
  {
    if index > 0 then index - 1 else index
  }

  /** The Next button is rendered exactly when the slide is not the last. */
  function ShowsNextButton(index: nat): (shown: bool)
    ensures index < PageCount ==> (shown <==> index < PageCount - 1)
  {
    !IsLastScreen(index)
  }

  datatype PagerAction = Next | Prev

  /** The index after a sequence of button presses. */
  function Run(index: nat, actions: seq<PagerAction>): nat
    decreases |actions|
  {
    if actions == [] then index
    else
      var next := if actions[0] == Next then NextScreen(index).index else PrevScreen(index);
      Run(next, actions[1..])
  }

  /** Starting on a slide, every sequence of presses leaves the index on a slide, so `onboardingData[currentIndex]` exists. */
  lemma {:induction false} RunStaysInRange(index: nat, actions: seq<PagerAction>)
    requires index < PageCount
    ensures Run(index, actions) < PageCount
    decreases |actions|
  {
    if actions != [] {
      var next := if actions[0] == Next then NextScreen(index).index else PrevScreen(index);
      RunStaysInRange(next, actions[1..]);
    }
  }

  /** Going back after going forward returns to the same slide whenever forward moved. */
  lemma PrevUndoesNext(index: nat)
    requires index < PageCount - 1
    ensures PrevScreen(NextScreen(index).index) == index
  {
  }

  /** On a slide, Next navigates away exactly from the last one. */
  lemma NextRoutesOnlyFromLast(index: nat)
    requires index < PageCount
    ensures NextScreen(index).route.Some? <==> IsLastScreen(index)
  {
  }

  /**
   * `handleGoogleSignIn`: an error is shown; only a reply with `data.user`
   * goes to the events list. `signingIn` is `isSigningIn` before the call;
   * the `finally` block clears it whatever happens.
   */
  function HandleGoogleSignIn(signingIn: bool, reply: Completion<GoogleReply>): (r: Effects)
    ensures !r.busy
    ensures r.route.Some? <==> reply.Returned? && reply.value.error.None? && reply.value.hasUser
    ensures r.route.Some? ==> r.route == Some(EventsRoute) && r.alert.None?
    ensures r.alert.Some? <==> reply.Threw? || reply.value.error.Some?
    ensures reply.Returned? && reply.value.error.Some? ==>
      r.alert == Some(ErrorAlert("Sign In Error", reply.value.error.value, "Failed to sign in with Google"))
    ensures reply.Threw? ==> r.alert == Some(Notice("Sign In Error", SomethingWentWrong))
  {
    match reply
    case Threw(_) => Effects(Some(Notice("Sign In Error", SomethingWentWrong)), None, false)
    case Returned(GoogleReply(Some(e), _, _)) =>
      Effects(Some(ErrorAlert("Sign In Error", e, "Failed to sign in with Google")), None, false)
    case Returned(GoogleReply(None, _, hasUser)) =>
      Effects(None, if hasUser then Some(EventsRoute) else None, false)
  }
}

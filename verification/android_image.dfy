/**
 * The Android image component: try the source; on a failure while the
 * source is current and a fallback is given, switch to the fallback URI
 * (so a fallback equal to the source is retried without end); otherwise
 * show a "Failed to load" placeholder.
 */
module AndroidImage {
  import opened Wrappers
  import opened JsText

  datatype ImageProps = ImageProps(sourceUri: string, fallbackUri: Option<string>)

  datatype ImageState = ImageState(currentUri: string, imageError: bool, isLoading: bool)

  /** The state on mount. */
  function InitialState(props: ImageProps): (s: ImageState)
    ensures s.currentUri == props.sourceUri && !s.imageError && s.isLoading
  {
    ImageState(props.sourceUri, false, true)
  }

  /** A handler's new state and whether it invokes the matching callback prop (when one is given). */
  datatype Handled = Handled(state: ImageState, callsBack: bool)

  /** The error handler switches to the fallback: a non-empty fallback and the source still current. */
  predicate SwitchesToFallback(props: ImageProps, s: ImageState) {
    Truthy(props.fallbackUri) && s.currentUri == props.sourceUri
  }

  /** `handleError`. */
  function HandleError(props: ImageProps, s: ImageState): (r: Handled)
    ensures SwitchesToFallback(props, s) ==>
      r == Handled(s.(currentUri := props.fallbackUri.value, isLoading := true), false)
    ensures !SwitchesToFallback(props, s) ==>
      r == Handled(s.(imageError := true, isLoading := false), true)
  {
    if Truthy(props.fallbackUri) && s.currentUri == props.sourceUri then
      Handled(ImageState(props.fallbackUri.value, s.imageError, true), false)
    else Handled(ImageState(s.currentUri, true, false), true)
  }

  /** `handleLoad`. */
  function HandleLoad(s: ImageState): (r: Handled)
    ensures r == Handled(s.(isLoading := false), true)
  {
    Handled(ImageState(s.currentUri, s.imageError, false), true)
  }

  datatype View = Placeholder | Picture(uri: string, spinner: bool)

  /** What is rendered: the placeholder iff `imageError`; otherwise the image, under a spinner iff loading. */
  function Render(s: ImageState): (v: View)
    ensures v.Placeholder? <==> s.imageError
    ensures v.Picture? ==> v.uri == s.currentUri && (v.spinner <==> s.isLoading)
  {
    if s.imageError then Placeholder else Picture(s.currentUri, s.isLoading)
  }

  datatype ImageEvent = LoadFailed | Loaded

  /** The state after a sequence of image events, counting fallback switches and `onError` calls. */
  datatype ImageRun = ImageRun(state: ImageState, switches: nat, errorCalls: nat)

  /** Events reach the handlers only while the image is rendered, that is, until `imageError`. */
  function Run(props: ImageProps, s: ImageState, events: seq<ImageEvent>): ImageRun
    decreases |events|
  {
    if events == [] || s.imageError then ImageRun(s, 0, 0)
    else if events[0] == Loaded then Run(props, HandleLoad(s).state, events[1..])
    else
      var h := HandleError(props, s);
      var rest := Run(props, h.state, events[1..]);
      ImageRun(rest.state, rest.switches + (if h.callsBack then 0 else 1), rest.errorCalls + (if h.callsBack then 1 else 0))
  }

  /** `onError` fires at most once over any sequence of events. */
  lemma {:induction false} AtMostOneErrorCall(props: ImageProps, s: ImageState, events: seq<ImageEvent>)
    ensures Run(props, s, events).errorCalls <= 1
    ensures Run(props, s, events).errorCalls == 1 ==> Run(props, s, events).state.imageError
    decreases |events|
  {
    if events != [] && !s.imageError {
      if events[0] == Loaded {
        AtMostOneErrorCall(props, HandleLoad(s).state, events[1..]);
      } else {
        var h := HandleError(props, s);
        if h.callsBack {
          assert h.state.imageError;
        } else {
          AtMostOneErrorCall(props, h.state, events[1..]);
        }
      }
    }
  }

  /** Once the fallback is current (and differs from the source), no further switch happens. */
  lemma {:induction false} NoSwitchAwayFromSource(props: ImageProps, s: ImageState, events: seq<ImageEvent>)
    requires s.currentUri != props.sourceUri
    ensures Run(props, s, events).switches == 0
    decreases |events|
  {
    if events != [] && !s.imageError {
      if events[0] == Loaded {
        NoSwitchAwayFromSource(props, HandleLoad(s).state, events[1..]);
      } else {
        NoSwitchAwayFromSource(props, HandleError(props, s).state, events[1..]);
      }
    }
  }

  /** With a fallback different from the source, the switch happens at most once. */
  lemma {:induction false} FallbackAtMostOnce(props: ImageProps, s: ImageState, events: seq<ImageEvent>)
    requires props.fallbackUri != Some(props.sourceUri)
    requires s.currentUri == props.sourceUri
    ensures Run(props, s, events).switches <= 1
    decreases |events|
  {
    if events != [] && !s.imageError {
      if events[0] == Loaded {
        FallbackAtMostOnce(props, HandleLoad(s).state, events[1..]);
      } else {
        var h := HandleError(props, s);
        if !h.callsBack {
          NoSwitchAwayFromSource(props, h.state, events[1..]);
        }
      }
    }
  }

  /** With a fallback equal to the source, every failure switches again and the placeholder is never reached. */
  lemma {:induction false} SameFallbackRetriesForever(props: ImageProps, s: ImageState, n: nat)
    requires props.fallbackUri == Some(props.sourceUri) && props.sourceUri != ""
    requires s.currentUri == props.sourceUri && !s.imageError
    ensures var r := Run(props, s, seq(n, _ => LoadFailed));
      !r.state.imageError && r.switches == n && r.errorCalls == 0
    decreases n
  {
    if n > 0 {
      var events := seq(n, _ => LoadFailed);
      assert events[1..] == seq(n - 1, _ => LoadFailed);
      SameFallbackRetriesForever(props, HandleError(props, s).state, n - 1);
    }
  }
}

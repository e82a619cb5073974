# Photo-sharing app authentication core, modelled in Dafny

This project models the authentication layer of a mobile photo-sharing
client and proves properties of it. The layer has these parts:

- `TokenManager`: a token cache in the device key-value store with two slots,
  `@auth_token` and `@user_data`. It also extracts tokens from an OAuth
  redirect URL.
- `signInWithGoogle` / `signOutGoogle`: the Google sign-in flow. The backend
  hands out an OAuth URL, the system browser opens it, and the outcome is
  classified as `{data, error}`.
- Two session providers, each an atomic state transition:
  - the token-cache provider (`checkAuthStatus`, `handleGoogleSignIn`,
    `handleSignOut` over `{user, isAuthenticated, isLoading}`);
  - the backend-session provider (`signInEvents`: adopt the session, stop on
    error, or sign in anonymously once).
- The screen handlers:
  - sign-up and sign-in validation, including how arguments are normalised
    before they reach the backend;
  - the onboarding pager;
  - the profile display-name fallback chains;
  - the Android image component's primary → fallback → error machine.

Everything is an immutable datatype and a pure function. Results of foreign
calls are parameters of the model:

- the backend client;
- the system browser;
- `makeRedirectUri`;
- the clock, as `now` in milliseconds, never negative.

The library internals are fields of `TokenManager.UrlLib` and stay
uninterpreted and partial (`Option`):

- percent-decoding;
- `new URL(url).search`;
- `atob` followed by `JSON.parse` on the middle segment of a JWS compact
  serialization (RFC 7515, section 7.1);
- `parseInt`.

Query parsing follows the application/x-www-form-urlencoded parser of the
WHATWG URL Standard. It splits on `&`, skips empty pieces and splits each
piece at its first `=`; `get` returns the first match. The parser itself
keeps a leading `?`. The string constructor `new URLSearchParams(init)`,
used for the fragment, drops one leading `?` from `init` before parsing.
`new URL(url).searchParams`, used for the query, parses the query as it is.

Modules follow the source files:

| module | source |
|---|---|
| `TokenManager` | `src/services/tokenManager.ts` |
| `GoogleAuth` | `src/lib/googleAuth.ts` |
| `TokenAuthProvider` | `src/providers/TokenAuthProvider.tsx` |
| `AuthProvider` | `src/providers/AuthProvider.tsx` |
| `SignUpScreen` | `src/app/signup.tsx` |
| `SignInScreen` | `src/app/signin.tsx` |
| `Onboarding` | `src/app/onboarding.tsx` |
| `Profile` | `src/app/profile.tsx` |
| `AndroidImage` | `src/components/AndroidImage.tsx` |

Shared modules:

- `Wrappers`: `Option`.
- `JsText`: `trim`, `split`, UTF-16 `length`, and `||` on possibly missing
  strings.
- `UrlParams`: `URLSearchParams`.
- `Backend`: error objects, awaited results, users and sessions.
- `Screens`: alerts, routes and the busy flag.
- `GoogleScreens`: how the screens read the Google sign-in result.

## Behaviour of the code worth knowing

- The redirect parser reads only `access_token`, `refresh_token` and
  `expires_at`. It reads no `error` parameter and has no regex fallback.
  There is no separate branch for `?`: a URL containing `#` is read from the
  text after the first `#` (`split('#')[1]`, so only up to a second `#`).
  Any other URL is read from its query.
- A leading `?` is treated differently in the two forms. In the fragment it
  is dropped (`FragmentDropsQuestionMark`). In the query it becomes part of
  the first name, so `??access_token=…&refresh_token=…&expires_at=…` yields
  no token (`QueryQuestionMarkYieldsNothing`).
- A token record that does not parse is left in place. `JSON.parse`
  throwing lands in the catch block, which returns null without clearing
  the store (`CorruptRecordNotEvicted`).
- `AuthProvider` only does the three-way bootstrap: adopt the session, stop
  on an error, or sign in anonymously once. It has no cached-token fallback,
  no login type and no handling of sign-in or sign-out events.
  `TokenAuthProvider` never stores a token itself. It reads the cache, and
  a read of an expired or expiry-less record clears both slots.
- `signInWithGoogle` neither parses nor stores the redirect URL. So a Google
  sign-in through `TokenAuthProvider` never authenticates it from an empty
  store (`GoogleSignInAloneNeverAuthenticates`).
- The screens destructure a top-level `success` and `data?.user`, but the
  Google result has neither. Fed that result, no Google button ever
  navigates (`GoogleScreens.GoogleButtonsNeverNavigate`).
- `signInWithGoogle` has no try/catch. A rejection of the backend call or of
  the browser session reaches its callers as a rejection, which
  `TokenAuthProvider` turns into `{data: null, error}` and the screens'
  catch blocks into an error alert.
- The onboarding pager's `prevScreen` is never called: only the Next button
  calls `nextScreen`, and that button is hidden on the last slide. So
  `Onboarding.Run`, which accepts Back presses and Next on the last slide,
  over-approximates the presses a user can make.
- The screens take `signUpWithEmail`, `signInWithEmail` and
  `signInWithGoogle` from `AuthProvider`, which supplies none of them. The
  model treats the result of each call as an arbitrary input, and a throw is
  one of the possible inputs.

## Model

| member | source | states |
|---|---|---|
| TokenManager.StoreAuthToken | src/services/tokenManager.ts:20-23 | the token slot holds the whole token and the user-data slot holds its `user_data` |
| TokenManager.GetAfterStore | src/services/tokenManager.ts:20-41 | reading back a stored token yields exactly that token (store unchanged) while `expires_at > now`, and otherwise returns null with both slots evicted; user data reads back as the token's |
| TokenManager.StoreOverwrites | src/services/tokenManager.ts:20-23 | storing overwrites wholesale: the result does not depend on the previous store, so storing the same token twice equals storing it once |
| TokenManager.GetAuthToken | src/services/tokenManager.ts:30-48 | a token is returned iff the slot holds a record whose expiry is strictly after `now`; a parsed record that is expired or has no numeric expiry evicts both slots; otherwise the store is untouched |
| TokenManager.ExpiryBoundary | src/services/tokenManager.ts:36-41 | a token expiring exactly at `now` is refused; one expiring one millisecond later is returned |
| TokenManager.CorruptRecordNotEvicted | src/services/tokenManager.ts:31-47 | an unparseable record yields null and stays in the store; `isAuthenticated` is false and leaves it too |
| TokenManager.GetUserData | src/services/tokenManager.ts:51-59 | returns the user-data slot's record iff one is stored, independent of the token slot and the clock |
| TokenManager.StaleUserDataVisibleUntilEviction | src/services/tokenManager.ts:30-59 | beside an expired token the user data is still returned, until a token read evicts it |
| TokenManager.ClearAuthToken | src/services/tokenManager.ts:62-69 | both slots end up empty |
| TokenManager.IsAuthenticated | src/services/tokenManager.ts:72-75 | true iff the store holds a live token record, with the same eviction side effect as `getAuthToken` |
| TokenManager.ToMillis | src/services/tokenManager.ts:116 | a parsed number of seconds becomes milliseconds (times 1000); a NaN stays NaN |
| TokenManager.UserDataOf | src/services/tokenManager.ts:110-122 | each user-data field is the first truthy value of its `or` fallback chain, as `JsText.FirstTruthy` defines it: `full_name`/`name`/"User", metadata `email`/payload `email`/"", `avatar_url`/`picture`/"", `provider_id`/`sub`/""; the full name is never empty |
| TokenManager.DefaultsWithoutMetadata | src/services/tokenManager.ts:111-122 | with no `user_metadata`, the user data is "User", the payload e-mail or "", and empty avatar and Google id |
| TokenManager.ParamSource | src/services/tokenManager.ts:85-98 | with a `#`, the parameters are the text between the first `#` and the next `#` (or the end); without one, the URL's query |
| TokenManager.ExtractUserDataFromUrl | src/services/tokenManager.ts:78-128 | the parameters are those of the fragment after one leading `?` is dropped, or of the query read as it is; null when any of `access_token`, `refresh_token`, `expires_at` is missing or empty, or the access token does not have exactly three dot-separated segments, or the payload fails to decode; otherwise both tokens are copied verbatim, the expiry is `parseInt * 1000`, and the user data is built from the decoded payload |
| TokenManager.ThreeSegmentsIffTwoDots | src/services/tokenManager.ts:105-108 | the three-segment check holds exactly when the access token contains two dots |
| TokenManager.SecondHashIgnored | src/services/tokenManager.ts:85-88 | anything after a second `#` has no effect on the result |
| TokenManager.FragmentAndQueryAgree | src/services/tokenManager.ts:85-98 | the same parameters give the same result in fragment form and in query form, when they do not begin with `?` |
| TokenManager.FragmentDropsQuestionMark | src/services/tokenManager.ts:85-88 | one `?` at the start of the fragment has no effect on the result |
| TokenManager.QueryQuestionMarkYieldsNothing | src/services/tokenManager.ts:94-101 | a `#`-free URL whose query is `?access_token=…&rest` yields no token when `rest` supplies no `access_token`, whatever `refresh_token` and `expires_at` it holds, because `searchParams` reads the first name as `?access_token` |
| TokenManager.FragmentRoundTrip | src/services/tokenManager.ts:78-123 | a redirect URL written from token fields in fragment form is extracted back to those fields, with the expiry scaled to milliseconds and the user data from the payload |
| UrlParams.Get | src/services/tokenManager.ts:88-91 | returns the value of the first pair with the given name, and is absent iff no pair has that name |
| UrlParams.ParsePair | src/services/tokenManager.ts:88 | a piece splits at its first `=` and both parts are decoded; a piece without `=` has the empty value |
| UrlParams.FromString | src/services/tokenManager.ts:87-88 | the string constructor parses its argument after dropping one leading `?`, and only one |
| UrlParams.ParseKeepsQuestionMark | src/services/tokenManager.ts:94-95 | the form-urlencoded parser keeps a leading `?` in the first name, so `get` of the bare name finds nothing |
| UrlParams.ParseCons | src/services/tokenManager.ts:94-95 | a query `piece&rest` parses as the pair of the piece followed by the pairs of `rest` |
| UrlParams.QuestionMarkPieceSkipped | src/services/tokenManager.ts:94-97 | behind a leading `?key=value` piece, `get(key)` reads only what the rest of the query holds |
| UrlParams.ParseSerialize | src/services/tokenManager.ts:88-91 | parsing `name=value` pairs joined by `&` gives the pairs back, in order |
| JsText.SplitJoin | src/services/tokenManager.ts:105 | splitting a join of separator-free pieces gives back the pieces |
| JsText.JoinSplit | src/services/tokenManager.ts:105 | joining the pieces of a split gives back the string |
| JsText.SplitLength | src/services/tokenManager.ts:105-106 | a split has one more piece than there are separators |
| JsText.SplitSecond | src/services/tokenManager.ts:87 | the second piece of a split is the text after the first separator, up to the next one |
| UrlParams.GetUnique | src/services/tokenManager.ts:89-91 | a name that occurs exactly once is read as the value paired with it |
| TokenManager.JwsSegments | src/services/tokenManager.ts:105-108 | an access token of the form header.claims.signature, with dot-free parts, passes the segment check with those three parts |
| GoogleAuth.SignInWithGoogle | src/lib/googleAuth.ts:7-43 | the OAuth request is for `google` with the redirect URI; the browser is opened iff there is no backend error and the URL is non-empty, with that URL and the same redirect URI; exactly one of `data`/`error` is null; a backend error is passed through; `success` gives `{success: true}`; `cancel` gives "Authentication cancelled"; any other browser outcome gives "Authentication failed"; a missing URL gives "No redirect URL received"; with no try/catch, a rejection of `signInWithOAuth` or of the opened browser session rejects the call with the same fault |
| GoogleAuth.BrowserUrlIgnored | src/lib/googleAuth.ts:29-32 | the URL the browser session ended on cannot change the outcome |
| GoogleAuth.BackendErrorSkipsBrowser | src/lib/googleAuth.ts:21-24 | after a backend error the browser is never consulted, so even its rejection cannot change the outcome |
| GoogleAuth.SignOutGoogle | src/lib/googleAuth.ts:46-52 | signing out always resolves normally, whatever the backend does |
| TokenAuthProvider.InitialState | src/providers/TokenAuthProvider.tsx:29-31 | the provider starts with no user, unauthenticated, loading |
| TokenAuthProvider.CheckAuthStatus | src/providers/TokenAuthProvider.tsx:37-60 | authenticated iff the store has a live token and stored user data, which then becomes `user`; otherwise `user` is unchanged; loading is over on every path; the store is changed only by eviction |
| TokenAuthProvider.MountShowsUserIffAuthenticated | src/providers/TokenAuthProvider.tsx:29-60 | the first check from the initial state shows a user exactly when it authenticates |
| TokenAuthProvider.StoredTokenAuthenticates | src/providers/TokenAuthProvider.tsx:40-47 | with a live stored token, the check authenticates with that token's user data |
| TokenAuthProvider.ExpiryKeepsStaleUser | src/providers/TokenAuthProvider.tsx:48-53 | after expiry the provider is unauthenticated yet still holds the old user, and the store is emptied |
| TokenAuthProvider.HandleGoogleSignIn | src/providers/TokenAuthProvider.tsx:62-77 | the status is re-checked only when `data.success`; the sign-in result is returned unchanged; a throw becomes `{data: null, error}` with the state untouched |
| TokenAuthProvider.GoogleSignInAloneNeverAuthenticates | src/providers/TokenAuthProvider.tsx:62-69 | with an empty store, no Google sign-in outcome, resolved or rejected, makes an unauthenticated provider authenticated |
| TokenAuthProvider.HandleSignOut | src/providers/TokenAuthProvider.tsx:79-89 | a resolved sign-out clears `user` and `isAuthenticated` but never touches the token store |
| TokenAuthProvider.SignOutAlwaysClearsState | src/providers/TokenAuthProvider.tsx:79-89 | because sign-out swallows errors, signing out always clears the state and only the state |
| AuthProvider.SignInEvents | src/providers/AuthProvider.tsx:20-44 | a session makes its user current and authenticated with no anonymous sign-in; a session error stops without one; with neither, exactly one anonymous sign-in happens, and truthy `data` adopts its user; `isAuthenticated` never goes from true to false |
| AuthProvider.AnonymousErrorIgnoredWithData | src/providers/AuthProvider.tsx:33-40 | an anonymous sign-in error alongside `data` changes nothing: the user is still adopted |
| AuthProvider.FreshInstallSignsInAnonymously | src/providers/AuthProvider.tsx:32-40 | with no session and no error, the mount ends authenticated as the anonymous user after one call |
| JsText.TrimEmptyIff | src/app/signup.tsx:19 | a string trims to empty exactly when all its characters are whitespace |
| JsText.TrimIdempotent | src/app/signup.tsx:32 | trimming a trimmed string changes nothing |
| JsText.Utf16Length | src/app/signup.tsx:24 | a string's `length` lies between its number of code points and twice that |
| SignUpScreen.HandleSignUp | src/app/signup.tsx:18-54 | a blank field gives "Missing Information"; otherwise a password shorter than 6 UTF-16 units gives "Weak Password"; both leave the busy flag and send nothing; otherwise the backend gets the trimmed e-mail, the raw password and the trimmed name, and the busy flag ends false; an error shows "Sign Up Error"; success shows "Account Created!" with the e-mail verification message, whose OK is the only way to `/signin`; nothing navigates directly |
| SignUpScreen.SentRequestIsValid | src/app/signup.tsx:19-32 | every request sent has a non-blank, already-trimmed e-mail and name and a password of at least 6 units that is not all whitespace |
| SignUpScreen.MissingIffBlank | src/app/signup.tsx:19-22 | a field counts as missing exactly when it is empty or all whitespace |
| SignUpScreen.GoogleSignUpLikeSignIn | src/app/signup.tsx:56-76 | the sign-up screen's Google button navigates, shows an alert and clears its busy flag exactly as the sign-in screen's does; only the alert title ("Sign Up Error" vs "Sign In Error") differs |
| SignUpScreen.HandleGoogleSignUp | src/app/signup.tsx:56-76 | navigates exactly when the sign-in screen's Google button does; an error shows "Sign Up Error" with its message or "Failed to sign up with Google"; a throw shows "Sign Up Error" with "Something went wrong. Please try again."; the busy flag ends false |
| SignInScreen.HandleEmailSignIn | src/app/signin.tsx:17-39 | a request is sent iff the trimmed e-mail and trimmed password are both non-empty, with no length rule; it carries the trimmed e-mail and the raw password; navigation to `/events` happens iff there is no error; the busy flag ends false once sent |
| SignInScreen.ShortPasswordsAccepted | src/app/signin.tsx:18-26 | any password that is not all whitespace, however short, is sent |
| SignInScreen.HandleGoogleSignIn | src/app/signin.tsx:41-61 | an error shows "Sign In Error" with its message or "Failed to sign in with Google"; a throw shows "Sign In Error" with "Something went wrong. Please try again."; only an error-free truthy `success` goes to `/events`, without an alert; the busy flag ends false |
| Screens.GoogleButton | src/app/signin.tsx:41-61 | an error or a throw shows an alert (the error's message or the screen's fallback; a throw gives "Something went wrong") and does not navigate; a truthy `success` without error goes to `/events`; the busy flag ends false |
| Onboarding.NextScreen | src/app/onboarding.tsx:61-68 | before the last slide, move forward one slide; on the last, go to `/events` with the index unchanged |
| Onboarding.PrevScreen | src/app/onboarding.tsx:70-74 | move back one slide, or stay on the first |
| Onboarding.IsLastScreen | src/app/onboarding.tsx:77 | on the last slide Next goes to `/events` with the index unchanged; on any earlier slide Next advances by one |
| Onboarding.ShowsNextButton | src/app/onboarding.tsx:155 | on a slide, the Next button shows exactly when it is not the last slide |
| Onboarding.RunStaysInRange | src/app/onboarding.tsx:37-76 | from a valid index, any sequence of Next/Back presses keeps the index within the slides |
| Onboarding.PrevUndoesNext | src/app/onboarding.tsx:61-74 | Back after Next returns to the same slide whenever Next moved |
| Onboarding.NextRoutesOnlyFromLast | src/app/onboarding.tsx:61-77 | Next navigates away exactly from the last slide |
| Onboarding.HandleGoogleSignIn | src/app/onboarding.tsx:79-97 | an error shows "Sign In Error" with its message or "Failed to sign in with Google"; a throw shows "Sign In Error" with "Something went wrong. Please try again."; only an error-free reply with `data.user` goes to `/events`; the signing-in flag ends false |
| JsText.FirstTruthy | src/app/profile.tsx:57-72 | a JavaScript or-chain `a or b or ... or fallback` yields the first truthy candidate, all earlier ones being falsy, or the fallback when none is truthy |
| Profile.EmailLocalPart | src/app/profile.tsx:60 | the text of the e-mail before its first `@`, present iff the user has an e-mail |
| Profile.DisplayName | src/app/profile.tsx:55-73 | the chain `full_name`, `name`, e-mail local part, "Google User" for Google logins; `full_name`, e-mail local part, "User" for e-mail logins; profile `full_name`, "User" otherwise; never empty |
| Profile.EmailLoginIgnoresName | src/app/profile.tsx:65-69 | for e-mail logins the metadata `name` has no effect |
| Profile.SignedInIgnoresProfile | src/app/profile.tsx:55-69 | for Google and e-mail logins the database profile has no effect |
| Profile.UserEmail | src/app/profile.tsx:75-77 | the user's non-empty e-mail, else "No email available" |
| Profile.AvatarInitial | src/app/profile.tsx:99 | the first character of the display name, which always exists, upper-cased, so never a lower-case ASCII letter |
| AndroidImage.InitialState | src/components/AndroidImage.tsx:21-23 | the component starts on the source URI, without error, loading |
| AndroidImage.HandleError | src/components/AndroidImage.tsx:25-35 | with a non-empty fallback and the source still current, switch to the fallback, keep loading, and skip `onError`; otherwise enter the error state, stop loading, and call `onError` |
| AndroidImage.HandleLoad | src/components/AndroidImage.tsx:37-40 | loading stops and `onLoad` is called |
| AndroidImage.Render | src/components/AndroidImage.tsx:42-67 | the placeholder shows iff in the error state; otherwise the current URI shows, with a spinner iff loading |
| AndroidImage.AtMostOneErrorCall | src/components/AndroidImage.tsx:25-35 | over any sequence of events `onError` fires at most once, and only on the way into the error state |
| AndroidImage.NoSwitchAwayFromSource | src/components/AndroidImage.tsx:26-30 | once a URI other than the source is current, no further fallback switch happens |
| AndroidImage.FallbackAtMostOnce | src/components/AndroidImage.tsx:26-30 | with a fallback that differs from the source, the switch happens at most once |
| AndroidImage.SameFallbackRetriesForever | src/components/AndroidImage.tsx:26-30 | with a fallback equal to the source, every failure switches again and the error state is never reached |
| GoogleScreens.AsScreenReply | src/app/signin.tsx:45 | destructuring `{error, success}` and `data?.user` from a Google result keeps the error and finds neither `success` nor a user |
| GoogleScreens.GoogleButtonsNeverNavigate | src/app/signin.tsx:45-55 | fed the Google sign-in outcome, resolved or rejected, none of the sign-in, sign-up or onboarding Google buttons navigates |
| GoogleScreens.AsScreenOutcome | src/app/signin.tsx:43-59 | what a screen's `await` sees: a rejection stays the same rejection, and a resolved result keeps only its error |
| GoogleScreens.CancelShownAsSignInError | src/app/signin.tsx:47-50 | a cancelled browser session shows as a "Sign In Error" alert carrying "Authentication cancelled" |

## Left out

- Storage failures: `setItem`, `getItem` or `removeItem` rejecting is not
  modelled. That includes a half-written store when the second `setItem`
  fails. The store is two typed slots, and `JSON.stringify` / `JSON.parse`
  appear only as what a slot holds.
- Foreign library internals are uninterpreted parameters:
  - percent-decoding and `+` to space;
  - the `URL` constructor;
  - `atob` and `JSON.parse` of the token payload;
  - `parseInt`.
- Floating point: `parseInt(...) * 1000` is exact integer arithmetic here.
  Rounding beyond 2^53 is not modelled.
- Payload claims are strings or absent. A truthy non-string claim value
  (a number, an object) is not modelled.
- `signInWithOAuth` returning both `data` and `error` as null is not
  modelled. The backend client does not produce it, and the code would throw
  a TypeError at `src/lib/googleAuth.ts:26`.
- `makeRedirectUri` and `WebBrowser.maybeCompleteAuthSession` are left out.
  The redirect URI is an input.
- Profile.AvatarInitial: upper-casing covers ASCII letters only. `charAt(0)`
  is taken as the first code point, not the first UTF-16 unit.
- Rendering is not modelled: JSX, class names, animations, alert dialogs,
  timers and logging. Only alert titles and messages, the OK route, the
  replaced route and the busy flags are observed.
- After the onboarding pager navigates, the old screen is not removed.
  `Onboarding.Run` keeps applying presses.
- The image component's `source` prop changing between renders is not
  modelled. The props are fixed.
- Async interleavings inside the providers and screens are not modelled.
  Each handler is one atomic transition.
- The component lifecycle is not modelled: mount effects running twice,
  unmounting mid-call.
- These files are screens, UI glue, database queries or update-service
  wrappers and are not part of this model:
  - `src/services/events.ts`, `src/services/assets.ts`,
    `src/services/profile.ts`, `src/services/user.ts`;
  - `src/services/updateService.ts`, `src/hooks/useUpdates.ts`;
  - `src/lib/cloudinary.ts`, `src/components/AssetItem.tsx`,
    `src/components/ErrorBoundary.tsx`, `src/components/EventListItem.tsx`;
  - the logger utilities;
  - the camera, events, layout, splash and auth-callback screens.

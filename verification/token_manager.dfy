/**
 * `TokenManager`: the persisted token cache and the redirect-URL token extractor.
 *
 * Storage is two slots of the device key-value store: the JSON of the whole
 * `AuthToken` under `@auth_token` and the JSON of its `user_data` under
 * `@user_data`. A slot holds what `JSON.parse` would make of the stored text;
 * the clock (`Date.now()`) is the parameter `now`, in milliseconds since the
 * epoch, and so never negative.
 */
module TokenManager {
  import opened Wrappers
  import opened JsText
  import opened UrlParams

  datatype UserData = UserData(fullName: string, email: string, avatarUrl: string, googleId: string)

  /** A JavaScript number as stored in `expires_at`: whole milliseconds, or NaN (`parseInt` failed). */
  datatype Timestamp = Millis(ms: int) | NotANumber

  datatype AuthToken = AuthToken(accessToken: string, refreshToken: string, expiresAt: Timestamp, userData: UserData)

  /**
   * What `JSON.parse` gives for the text under `@auth_token`: a token record;
   * a parsed record whose `expires_at` does not compare greater than `now`
   * under `>` (absent, or coerced to NaN); a numeric string or boolean that
   * `>` coerces to a number counts as a `TokenRecord` with that number;
   * or text that does not parse, an empty string, or `null`, on all of which the
   * read ends in the catch block or the falsy-text check.
   */
  datatype TokenEntry = TokenRecord(token: AuthToken) | RecordWithoutExpiry | Unparseable

  /** What `JSON.parse` gives for the text under `@user_data`. */
  datatype UserEntry = UserRecord(user: UserData) | UserUnparseable

  datatype Store = Store(token: Option<TokenEntry>, userData: Option<UserEntry>)

  const Empty := Store(None, None)

  /** `token.expires_at > Date.now()`. NaN is stored as `null`, and `null > now` is false for `now >= 0`. */
  predicate Live(t: AuthToken, now: nat) {
    t.expiresAt.Millis? && t.expiresAt.ms > now
  }

  /** The token slot holds a record that the read will hand out. */
  predicate HoldsLiveToken(s: Store, now: nat) {
    s.token.Some? && s.token.value.TokenRecord? && Live(s.token.value.token, now)
  }

  /** The token slot holds a parsed value the read will evict. */
  predicate HoldsStaleToken(s: Store, now: nat) {
    s.token.Some? && (s.token.value.RecordWithoutExpiry? || (s.token.value.TokenRecord? && !Live(s.token.value.token, now)))
  }

  /** The result of a read together with the store after the read's side effects. */
  datatype Read<T> = Read(value: Option<T>, store: Store)

  /** `storeAuthToken`: both slots are overwritten from `t`. */
  function StoreAuthToken(s: Store, t: AuthToken): (r: Store)
    ensures r.token == Some(TokenRecord(t))
    ensures r.userData == Some(UserRecord(t.userData))
  {
    Store(Some(TokenRecord(t)), Some(UserRecord(t.userData)))
  }

  /** `clearAuthToken`: both slots are removed. */
  function ClearAuthToken(s: Store): (r: Store)
    ensures r.token.None? && r.userData.None?
  {
    Empty
  }

  /** `getAuthToken`: fails closed on expiry by evicting both slots and returning null. */
  function GetAuthToken(s: Store, now: nat): (r: Read<AuthToken>)
    ensures r.value.Some? <==> HoldsLiveToken(s, now)
    ensures r.value.Some? ==> r.value.value == s.token.value.token
    ensures HoldsStaleToken(s, now) ==> r.store == Empty
    ensures !HoldsStaleToken(s, now) ==> r.store == s
  {
    match s.token
    case None => Read(None, s)
    case Some(Unparseable) => Read(None, s)
    case Some(RecordWithoutExpiry) => Read(None, ClearAuthToken(s))
    case Some(TokenRecord(t)) =>
      if t.expiresAt.Millis? && t.expiresAt.ms > now then Read(Some(t), s)
      else Read(None, ClearAuthToken(s))
  }

  /** `getUserData`: the user-data slot as stored, with no look at the token or the clock. */
  function GetUserData(s: Store): (r: Option<UserData>)
    ensures r.Some? <==> s.userData.Some? && s.userData.value.UserRecord?
    ensures r.Some? ==> r.value == s.userData.value.user
  {
    match s.userData
    case Some(UserRecord(u)) => Some(u)
    case _ => None
  }

  datatype Verdict = Verdict(authenticated: bool, store: Store)

  /** `isAuthenticated`: whether `getAuthToken` returns a token, with the same side effect. */
  function IsAuthenticated(s: Store, now: nat): (r: Verdict)
    ensures r.authenticated <==> HoldsLiveToken(s, now)
    ensures r.store == (if HoldsStaleToken(s, now) then Empty else s)
  {
    var read := GetAuthToken(s, now);
    Verdict(read.value != None, read.store)
  }

  /** Reading back a stored token: the same token while it is live; otherwise both slots are evicted. */
  lemma GetAfterStore(s: Store, t: AuthToken, now: nat)
    ensures Live(t, now) ==> GetAuthToken(StoreAuthToken(s, t), now) == Read(Some(t), StoreAuthToken(s, t))
    ensures !Live(t, now) ==> GetAuthToken(StoreAuthToken(s, t), now) == Read(None, Empty)
    ensures GetUserData(StoreAuthToken(s, t)) == Some(t.userData)
  {
  }

  /** Storing is a wholesale overwrite: nothing of the previous store survives, so storing twice is storing once. */
  lemma StoreOverwrites(s1: Store, s2: Store, t: AuthToken)
    ensures StoreAuthToken(s1, t) == StoreAuthToken(s2, t)
    ensures StoreAuthToken(StoreAuthToken(s1, t), t) == StoreAuthToken(s1, t)
  {
  }

  /** The expiry boundary is strict: a token expiring at `now` is evicted, one expiring a millisecond later is returned. */
  lemma ExpiryBoundary(s: Store, t: AuthToken, now: nat)
    requires t.expiresAt == Millis(now)
    ensures GetAuthToken(StoreAuthToken(s, t), now).value == None
    ensures GetAuthToken(StoreAuthToken(s, t.(expiresAt := Millis(now + 1))), now).value == Some(t.(expiresAt := Millis(now + 1)))
  {
  }

  /** User data stays readable beside an expired token until a token read evicts it. */
  lemma StaleUserDataVisibleUntilEviction(s: Store, t: AuthToken, now: nat)
    requires !Live(t, now)
    ensures GetUserData(StoreAuthToken(s, t)) == Some(t.userData)
    ensures GetUserData(GetAuthToken(StoreAuthToken(s, t), now).store) == None
  {
  }

  /** A record that does not parse makes the read return null and leaves it in place. */
  lemma CorruptRecordNotEvicted(s: Store, now: nat)
    requires s.token == Some(Unparseable)
    ensures GetAuthToken(s, now) == Read(None, s)
    ensures IsAuthenticated(s, now) == Verdict(false, s)
  {
  }

  // ---------------------------------------------------------------------------
  // extractUserDataFromUrl
  // ---------------------------------------------------------------------------

  /** `payload.user_metadata`; a field is None when it is absent or falsy. */
  datatype Metadata = Metadata(
    fullName: Option<string>, name: Option<string>, email: Option<string>,
    avatarUrl: Option<string>, picture: Option<string>, providerId: Option<string>, sub: Option<string>)

  /** The decoded middle segment of the access token, as far as the extractor reads it. */
  datatype Payload = Payload(userMetadata: Option<Metadata>, email: Option<string>)

  const NoMetadata := Metadata(None, None, None, None, None, None, None)

  /**
   * The library calls the extractor makes, uninterpreted: decoding of a query
   * name or value; the query of `new URL(url)`, that is `.search` without
   * its first `?` (None when the constructor throws); `JSON.parse(atob(segment))` (None when either throws
   * or the result is `null`); and `parseInt` (None for NaN).
   */
  datatype UrlLib = UrlLib(
    decodeComponent: string -> string,
    urlQuery: string -> Option<string>,
    decodePayload: string -> Option<Payload>,
    parseInt: string -> Option<int>)

  /** `parseInt(expires_at) * 1000`. */
  function ToMillis(seconds: Option<int>): (t: Timestamp)
    ensures seconds.None? <==> t.NotANumber?
    ensures seconds.Some? ==> t.ms == seconds.value * 1000
  {
    match seconds
    case None => NotANumber
    case Some(n) => Millis(n * 1000)
  }

  /** The user data built from a payload through the `||` default chains. */
  function UserDataOf(p: Payload): (u: UserData)
    ensures u.fullName != ""
    ensures var m := p.userMetadata.GetOr(NoMetadata);
      && u.fullName == FirstTruthy([m.fullName, m.name], "User")
      && u.email == FirstTruthy([m.email, p.email], "")
      && u.avatarUrl == FirstTruthy([m.avatarUrl, m.picture], "")
      && u.googleId == FirstTruthy([m.providerId, m.sub], "")
  {
    var m := p.userMetadata.GetOr(NoMetadata);
    PairChain(m.fullName, m.name, "User");
    PairChain(m.email, p.email, "");
    PairChain(m.avatarUrl, m.picture, "");
    PairChain(m.providerId, m.sub, "");
    UserData(
      Or(m.fullName, Or(m.name, "User")),
      Or(m.email, Or(p.email, "")),
      Or(m.avatarUrl, Or(m.picture, "")),
      Or(m.providerId, Or(m.sub, "")))
  }

  /** `a || b || fallback` is the chain of its two candidates. */
  lemma PairChain(a: Option<string>, b: Option<string>, fallback: string)
    ensures Or(a, Or(b, fallback)) == FirstTruthy([a, b], fallback)
  {
    var chain := [a, b];
    FirstTruthyCons(chain, fallback);
    FirstTruthyCons(chain[1..], fallback);
    assert chain[1..][1..] == [];
  }

  /** The text the parameters are read from: after the first `#` (up to any second `#`), else the URL's query. */
  function ParamSource(url: string, lib: UrlLib): (r: Option<string>)
    ensures '#' !in url ==> r == lib.urlQuery(url)
    ensures '#' in url ==> r == Some(BeforeFirst(AfterFirst(url, '#'), '#'))
  {
    if '#' in url then
      SplitSecond(url, '#');
      Some(Split(url, '#')[1])
    else lib.urlQuery(url)
  }

  /**
   * The parameters the extractor reads: `new URLSearchParams(hashPart)` for
   * the fragment, which drops one leading `?`, or `new URL(url).searchParams`,
   * which parses the query as it is.
   */
  function Params(url: string, lib: UrlLib): (r: Option<seq<Pair>>)
    ensures r.Some? <==> ParamSource(url, lib).Some?
    ensures '#' in url ==> r == Some(FromString(ParamSource(url, lib).value, lib.decodeComponent))
    ensures '#' !in url && r.Some? ==> r.value == Parse(lib.urlQuery(url).value, lib.decodeComponent)
  {
    match ParamSource(url, lib)
    case None => None
    case Some(text) =>
      if '#' in url then Some(FromString(text, lib.decodeComponent)) else Some(Parse(text, lib.decodeComponent))
  }

  /** `params.get(key)` on the parameters of `url`; absent when the URL cannot be parsed. */
  function Lookup(url: string, lib: UrlLib, key: string): Option<string> {
    match Params(url, lib)
    case None => None
    case Some(params) => Get(params, key)
  }

  /** The parameter values are all present and non-empty. */
  predicate HasAllParams(url: string, lib: UrlLib) {
    && Truthy(Lookup(url, lib, "access_token"))
    && Truthy(Lookup(url, lib, "refresh_token"))
    && Truthy(Lookup(url, lib, "expires_at"))
  }

  /** `extractUserDataFromUrl` once the parameters are parsed. */
  function ExtractFromParams(params: seq<Pair>, lib: UrlLib): Option<AuthToken> {
    var accessToken := Get(params, "access_token");
    var refreshToken := Get(params, "refresh_token");
    var expiresAt := Get(params, "expires_at");
    if !Truthy(accessToken) || !Truthy(refreshToken) || !Truthy(expiresAt) then None
    else
      var parts := Split(accessToken.value, '.');
      if |parts| != 3 then None
      else
        match lib.decodePayload(parts[1])
        case None => None
        case Some(payload) =>
          Some(AuthToken(accessToken.value, refreshToken.value, ToMillis(lib.parseInt(expiresAt.value)), UserDataOf(payload)))
  }

  /** `extractUserDataFromUrl`: the tokens of a redirect URL and the user data in the access token's payload. */
  function ExtractUserDataFromUrl(url: string, lib: UrlLib): (r: Option<AuthToken>)
    ensures !HasAllParams(url, lib) ==> r.None?
    ensures HasAllParams(url, lib) ==>
      var at := Lookup(url, lib, "access_token").value;
      var parts := Split(at, '.');
      && (|parts| != 3 ==> r.None?)
      && (|parts| == 3 ==> (r.Some? <==> lib.decodePayload(parts[1]).Some?))
      && (r.Some? ==>
            && r.value.accessToken == at
            && Some(r.value.refreshToken) == Lookup(url, lib, "refresh_token")
            && r.value.expiresAt == ToMillis(lib.parseInt(Lookup(url, lib, "expires_at").value))
            && r.value.userData == UserDataOf(lib.decodePayload(parts[1]).value))
  {
    match Params(url, lib)
    case None => None
    case Some(params) => ExtractFromParams(params, lib)
  }

  /** An access token passes the segment check exactly when it has two dots. */
  lemma ThreeSegmentsIffTwoDots(accessToken: string)
    ensures |Split(accessToken, '.')| == 3 <==> Count(accessToken, '.') == 2
  {
    SplitLength(accessToken, '.');
  }

  /** Text after a second `#` is ignored. */
  lemma SecondHashIgnored(base: string, fragment: string, rest: string, lib: UrlLib)
    requires '#' !in base && '#' !in fragment
    ensures ExtractUserDataFromUrl(base + "#" + fragment + "#" + rest, lib)
         == ExtractUserDataFromUrl(base + "#" + fragment, lib)
  {
    assert base + "#" + fragment + "#" + rest == base + "#" + (fragment + ['#'] + rest);
    FragmentSource(base, fragment + ['#'] + rest, lib);
    CutAtFirst(fragment, '#', rest);
    FragmentSource(base, fragment, lib);
  }

  /**
   * The fragment form and the query form of the same parameters give the
   * same result, when the parameters do not begin with `?`.
   */
  lemma FragmentAndQueryAgree(base: string, query: string, url: string, lib: UrlLib)
    requires '#' !in base && '#' !in query && '#' !in url
    requires query == [] || query[0] != '?'
    requires lib.urlQuery(url) == Some(query)
    ensures ExtractUserDataFromUrl(base + "#" + query, lib) == ExtractUserDataFromUrl(url, lib)
  {
    FragmentSource(base, query, lib);
  }

  /** One `?` at the start of the fragment is dropped. */
  lemma FragmentDropsQuestionMark(base: string, fragment: string, lib: UrlLib)
    requires '#' !in base && '#' !in fragment
    requires fragment == [] || fragment[0] != '?'
    ensures ExtractUserDataFromUrl(base + "#?" + fragment, lib) == ExtractUserDataFromUrl(base + "#" + fragment, lib)
  {
    assert base + "#?" + fragment == base + "#" + (['?'] + fragment);
    FragmentSource(base, ['?'] + fragment, lib);
    FragmentSource(base, fragment, lib);
    assert (['?'] + fragment)[1..] == fragment;
  }

  /**
   * A query that begins with a second `?` hides its leading `access_token`
   * from `URL.searchParams`: the first pair is named `?access_token`, so
   * unless a later pair supplies `access_token` the URL yields no token,
   * whatever `refresh_token` and `expires_at` the rest holds.
   */
  lemma QueryQuestionMarkYieldsNothing(url: string, accessToken: string, rest: string, lib: UrlLib)
    requires '#' !in url && '&' !in accessToken
    requires lib.urlQuery(url) == Some("?access_token=" + accessToken + "&" + rest)
    requires lib.decodeComponent("?access_token") == "?access_token"
    requires Get(Parse(rest, lib.decodeComponent), "access_token").None?
    ensures ExtractUserDataFromUrl(url, lib).None?
  {
    assert "?" + "access_token" == "?access_token";
    assert "?access_token=" + accessToken + "&" + rest == "?" + "access_token" + "=" + accessToken + "&" + rest;
    assert '&' !in "access_token" && '=' !in "access_token";
    QuestionMarkPieceSkipped("access_token", accessToken, rest, lib.decodeComponent);
    assert Lookup(url, lib, "access_token").None?;
  }

  /** A segment of a JWS compact serialization: no dot, no `&`, no `#`. */
  predicate PlainSegment(s: string) {
    '.' !in s && '&' !in s && '#' !in s
  }

  lemma JwsSegments(header: string, claims: string, signature: string)
    requires PlainSegment(header) && PlainSegment(claims) && PlainSegment(signature)
    ensures Split(header + "." + claims + "." + signature, '.') == [header, claims, signature]
  {
    var parts := [header, claims, signature];
    assert Join(parts[1..][1..], '.') == signature by { assert parts[1..][1..] == [signature]; }
    assert Join(parts[1..], '.') == claims + ['.'] + signature;
    assert Join(parts, '.') == header + ['.'] + (claims + ['.'] + signature);
    assert header + "." + claims + "." + signature == header + ['.'] + (claims + ['.'] + signature);
    SplitJoin(parts, '.');
  }

  /** The parameter text of `base#fragment` is `fragment` up to any further `#`. */
  lemma FragmentSource(base: string, fragment: string, lib: UrlLib)
    requires '#' !in base
    ensures ParamSource(base + "#" + fragment, lib) == Some(BeforeFirst(fragment, '#'))
  {
    assert base + "#" + fragment == base + ['#'] + fragment;
    CutAtFirst(base, '#', fragment);
  }

  /** The three token parameters written as `access_token=…&refresh_token=…&expires_at=…`. */
  function TokenParams(accessToken: string, refreshToken: string, expiresAt: string): seq<Pair> {
    [Pair("access_token", accessToken), Pair("refresh_token", refreshToken), Pair("expires_at", expiresAt)]
  }

  /** The three parameter names hold neither `&` nor `=`. */
  lemma TokenNamesPlain()
    ensures forall name | name in {"access_token", "refresh_token", "expires_at"} ::
      name != "" && '&' !in name && '=' !in name
  {
  }

  lemma TokenParamsRead(accessToken: string, refreshToken: string, expiresAt: string, decode: string -> string)
    requires accessToken != "" && '&' !in accessToken && decode(accessToken) == accessToken
    requires refreshToken != "" && '&' !in refreshToken && decode(refreshToken) == refreshToken
    requires expiresAt != "" && '&' !in expiresAt && decode(expiresAt) == expiresAt
    requires decode("access_token") == "access_token"
    requires decode("refresh_token") == "refresh_token"
    requires decode("expires_at") == "expires_at"
    ensures FromString(Serialize(TokenParams(accessToken, refreshToken, expiresAt)), decode)
         == TokenParams(accessToken, refreshToken, expiresAt)
  {
    var pairs := TokenParams(accessToken, refreshToken, expiresAt);
    TokenNamesPlain();
    forall i | 0 <= i < |pairs|
      ensures Plain(pairs[i], decode)
    {
      assert pairs[i].name in {"access_token", "refresh_token", "expires_at"};
    }
    ParseSerialize(pairs, decode);
    var ts := PairTexts(pairs);
    assert Serialize(pairs) == ts[0] + ['&'] + Join(ts[1..], '&');
    assert ts[0][0] == 'a';
  }

  lemma TokenParamsNoHash(accessToken: string, refreshToken: string, expiresAt: string)
    requires '#' !in accessToken && '#' !in refreshToken && '#' !in expiresAt
    ensures '#' !in Serialize(TokenParams(accessToken, refreshToken, expiresAt))
  {
    var ts := PairTexts(TokenParams(accessToken, refreshToken, expiresAt));
    assert ts[1..][1..] == [ts[2]];
    assert Join(ts[1..], '&') == ts[1] + ['&'] + ts[2];
    assert Join(ts, '&') == ts[0] + ['&'] + (ts[1] + ['&'] + ts[2]);
  }

  lemma ReadTokenParams(accessToken: string, refreshToken: string, expiresAt: string, lib: UrlLib)
    requires accessToken != "" && refreshToken != "" && expiresAt != ""
    requires |Split(accessToken, '.')| == 3 && lib.decodePayload(Split(accessToken, '.')[1]).Some?
    ensures ExtractFromParams(TokenParams(accessToken, refreshToken, expiresAt), lib)
         == Some(AuthToken(accessToken, refreshToken, ToMillis(lib.parseInt(expiresAt)),
                           UserDataOf(lib.decodePayload(Split(accessToken, '.')[1]).value)))
  {
    TokenParamsGet(accessToken, refreshToken, expiresAt);
  }

  /** Each of the three names is read as the value written beside it. */
  lemma TokenParamsGet(accessToken: string, refreshToken: string, expiresAt: string)
    ensures var params := TokenParams(accessToken, refreshToken, expiresAt);
      && Get(params, "access_token") == Some(accessToken)
      && Get(params, "refresh_token") == Some(refreshToken)
      && Get(params, "expires_at") == Some(expiresAt)
  {
    var params := TokenParams(accessToken, refreshToken, expiresAt);
    TokenNamesDistinct();
    GetUnique(params, 0);
    GetUnique(params, 1);
    GetUnique(params, 2);
  }

  lemma TokenNamesDistinct()
    ensures "access_token" != "refresh_token" && "access_token" != "expires_at" && "refresh_token" != "expires_at"
  {
    assert "access_token"[0] != "refresh_token"[0];
    assert "access_token"[0] != "expires_at"[0];
    assert "refresh_token"[0] != "expires_at"[0];
  }

  /**
   * Round trip: a redirect URL written from a token's fields in fragment form
   * is read back as that token, with the user data the payload yields.
   */
  lemma FragmentRoundTrip(
    base: string, header: string, claims: string, signature: string,
    refreshToken: string, expiresAt: string, lib: UrlLib)
    requires '#' !in base
    requires PlainSegment(header) && PlainSegment(claims) && PlainSegment(signature)
    requires refreshToken != "" && '&' !in refreshToken && '#' !in refreshToken
    requires expiresAt != "" && '&' !in expiresAt && '#' !in expiresAt
    requires lib.decodeComponent(header + "." + claims + "." + signature) == header + "." + claims + "." + signature
    requires lib.decodeComponent(refreshToken) == refreshToken
    requires lib.decodeComponent(expiresAt) == expiresAt
    requires lib.decodeComponent("access_token") == "access_token"
    requires lib.decodeComponent("refresh_token") == "refresh_token"
    requires lib.decodeComponent("expires_at") == "expires_at"
    requires lib.decodePayload(claims).Some?
    ensures var accessToken := header + "." + claims + "." + signature;
      ExtractUserDataFromUrl(base + "#" + Serialize(TokenParams(accessToken, refreshToken, expiresAt)), lib)
      == Some(AuthToken(accessToken, refreshToken, ToMillis(lib.parseInt(expiresAt)), UserDataOf(lib.decodePayload(claims).value)))
  {
    var accessToken := header + "." + claims + "." + signature;
    assert '#' !in accessToken && '&' !in accessToken;
    TokenParamsNoHash(accessToken, refreshToken, expiresAt);
    FragmentSource(base, Serialize(TokenParams(accessToken, refreshToken, expiresAt)), lib);
    TokenParamsRead(accessToken, refreshToken, expiresAt, lib.decodeComponent);
    JwsSegments(header, claims, signature);
    ReadTokenParams(accessToken, refreshToken, expiresAt, lib);
  }

  /** Without `user_metadata` the user data takes the documented defaults. */
  lemma DefaultsWithoutMetadata(p: Payload)
    requires p.userMetadata.None?
    ensures UserDataOf(p) == UserData("User", Or(p.email, ""), "", "")
  {
  }
}

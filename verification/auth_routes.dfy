/** The `/auth` routes: login, the provider callback's ordered checks, the
    current-session query and logout. The provider's two network answers (token
    exchange, userinfo) are inputs; the callback records which of the two
    calls it made, and with what, so that the steps run can be stated. */
module AuthRoutes {
  import opened Wrappers
  import opened ApiErrors
  import opened OAuth
  import Json
  import Identity
  import Pending
  import Sessions
  import Cookies
  import Chrono

  /** `Redirect::temporary`. */
  const TemporaryRedirect: nat := 307

  /** `StatusCode::NO_CONTENT`. */
  const NoContent: nat := 204

  /** The callback's query string (`AuthCallbackQuery`). */
  datatype CallbackQuery = CallbackQuery(
    code: Option<string>,
    state: Option<string>,
    error: Option<string>,
    errorDescription: Option<string>)

  /** The parts of the token response the callback uses; `expiresIn` is in
      seconds. */
  datatype TokenResponse = TokenResponse(accessToken: string, expiresIn: Option<nat>)

  /** A request to the provider. */
  datatype ProviderCall =
    | ExchangeCode(code: string, verifier: string)
    | FetchUserinfo(accessToken: string)

  /** A redirect with the cookie it sets. */
  datatype Redirect = Redirect(status: nat, location: string, setCookie: Cookies.Cookie)

  /** The callback's effect: the new state, the provider calls made (in
      order) and the reply. */
  datatype CallbackOutcome = CallbackOutcome(st: OAuthState, calls: seq<ProviderCall>, reply: Result<Redirect, ApiError>)

  /** `start_login`: build the login request and remember its verifier and
      nonce under the CSRF token, stamped `now`; reply with a 307 to the
      provider. */
  function StartLogin(st: OAuthState, csrf: string, verifier: string, challenge: string, nonce: string, now: int)
    : (r: (OAuthState, AuthorizationRequest))
    ensures r.0.pending == Pending.Store(st.pending, csrf, verifier, nonce, now)
    ensures r.0.sessions == st.sessions && r.0.cookie == st.cookie
    ensures r.0.successRedirect == st.successRedirect && r.0.failureRedirect == st.failureRedirect
    ensures r.0.scopes == st.scopes
    ensures r.1.state == csrf && r.1.state in r.0.pending && r.0.pending[r.1.state].verifier == verifier
    ensures r.1.scopes == st.scopes
    ensures r.1.challenge == challenge && r.1.nonce == nonce
    ensures r.0.pending[r.1.state].nonce == r.1.nonce
  {
    var request := BuildAuthorizationUrl(st, csrf, challenge, nonce);
    (st.(pending := Pending.Store(st.pending, request.state, verifier, nonce, now)), request)
  }

  /** `auth_redirect`: a new session goes to the success page with the
      session cookie; an error goes to the failure page, clearing the cookie,
      when one is configured, and is returned unchanged otherwise. */
  function AuthRedirect(st: OAuthState, result: Result<string, ApiError>): (r: Result<Redirect, ApiError>)
    ensures result.Success? ==> r == Success(Redirect(TemporaryRedirect, st.successRedirect,
                                                      Cookies.BuildCookie(st.cookie, result.value)))
    ensures result.Failure? && st.failureRedirect.Some?
            ==> r == Success(Redirect(TemporaryRedirect, st.failureRedirect.value, Cookies.BuildLogoutCookie(st.cookie)))
    ensures result.Failure? && st.failureRedirect.None? ==> r == Failure(result.error)
  {
    match result
    case Success(sessionId) =>
      Success(Redirect(TemporaryRedirect, st.successRedirect, Cookies.BuildCookie(st.cookie, sessionId)))
    case Failure(error) =>
      match st.failureRedirect
      case Some(target) => Success(Redirect(TemporaryRedirect, target, Cookies.BuildLogoutCookie(st.cookie)))
      case None => Failure(error)
  }

  /** The message of a provider-reported error. */
  function ProviderErrorMessage(q: CallbackQuery): (r: string)
    requires q.error.Some?
    ensures |r| >= |q.error.value| + 2 && r[..|q.error.value|] == q.error.value
    ensures r[|q.error.value|..|q.error.value| + 2] == ": "
    ensures var d := q.errorDescription.UnwrapOr("OAuth authorization failed");
            |r| == |q.error.value| + 2 + |d| && r[|r| - |d|..] == d
  {
    q.error.value + ": " + q.errorDescription.UnwrapOr("OAuth authorization failed")
  }

  /** Whether the callback gets past its own checks to the provider: no
      provider error, both parameters, and a pending entry for the state that
      is at most ten minutes old. */
  predicate Live(st: OAuthState, q: CallbackQuery, now: int) {
    && q.error.None? && q.code.Some? && q.state.Some?
    && q.state.value in st.pending && Pending.WithinMaxAge(st.pending[q.state.value], now)
  }

  /** Whether the callback gets as far as creating a session: no provider
      error, both parameters, a live pending entry, both provider calls
      successful, and an identity in the profile. */
  predicate SignsIn(st: OAuthState, q: CallbackQuery, now: int,
                    exchange: Result<TokenResponse, string>, userinfo: Result<Json.Value, string>)
  {
    && Live(st, q, now)
    && exchange.Success? && userinfo.Success?
    && Identity.ExtractIdentity(userinfo.value).Some?
  }

  /** `handle_auth_callback`. `exchange` and `userinfo` are the provider's
      answers to the two calls, used only if the call is made; `freshId` is
      the new session's id. */
  function HandleCallback(st: OAuthState, q: CallbackQuery, now: int,
                          exchange: Result<TokenResponse, string>, userinfo: Result<Json.Value, string>,
                          freshId: string): (o: CallbackOutcome)
    requires freshId !in st.sessions
    // Settings never change.
    ensures o.st.scopes == st.scopes && o.st.cookie == st.cookie
    ensures o.st.successRedirect == st.successRedirect && o.st.failureRedirect == st.failureRedirect
    // A provider-reported error: nothing touched, the failure redirect applies.
    ensures q.error.Some? ==> o == CallbackOutcome(st, [], AuthRedirect(st, Failure(Auth(ProviderErrorMessage(q)))))
    // Missing parameters: nothing touched, the error is returned directly.
    ensures q.error.None? && q.code.None?
            ==> o == CallbackOutcome(st, [], Failure(Auth("Missing authorization code")))
    ensures q.error.None? && q.code.Some? && q.state.None?
            ==> o == CallbackOutcome(st, [], Failure(Auth("Missing state parameter")))
    // Otherwise the pending entry is consumed, whatever happens next.
    ensures q.error.None? && q.code.Some? && q.state.Some?
            ==> o.st.pending == Pending.Take(st.pending, q.state.value, now).0
    ensures q.error.None? && q.code.Some? && q.state.Some? && Pending.Take(st.pending, q.state.value, now).1.None?
            ==> o.calls == [] && o.reply == Failure(Auth("Unknown or expired state parameter"))
    // The provider is called only past those checks; then the code is always
    // exchanged with the verifier stored under that state, and the userinfo
    // endpoint is called exactly when the exchange succeeded.
    ensures !Live(st, q, now) ==> o.calls == []
    ensures Live(st, q, now) && exchange.Failure?
            ==> && o.calls == [ExchangeCode(q.code.value, st.pending[q.state.value].verifier)]
                && o.reply == Failure(Auth(exchange.error))
    ensures Live(st, q, now) && exchange.Success?
            ==> o.calls == [ExchangeCode(q.code.value, st.pending[q.state.value].verifier),
                            FetchUserinfo(exchange.value.accessToken)]
    ensures Live(st, q, now) && exchange.Success? && userinfo.Failure?
            ==> o.reply == Failure(Http(userinfo.error))
    ensures Live(st, q, now) && exchange.Success? && userinfo.Success? && Identity.ExtractIdentity(userinfo.value).None?
            ==> o.reply == Failure(Auth("Unable to determine user identity from profile"))
    // A session is created exactly when every step succeeds, under the fresh id,
    // and the reply carries its cookie.
    ensures !SignsIn(st, q, now, exchange, userinfo) ==> o.st.sessions == st.sessions
    ensures SignsIn(st, q, now, exchange, userinfo)
            ==> && o.st.sessions == Sessions.Create(st.sessions, freshId, Identity.ExtractIdentity(userinfo.value).value,
                                                    exchange.value.expiresIn, userinfo.value, now)
                && o.reply == Success(Redirect(TemporaryRedirect, st.successRedirect, Cookies.BuildCookie(st.cookie, freshId)))
  {
    if q.error.Some? then
      CallbackOutcome(st, [], AuthRedirect(st, Failure(Auth(ProviderErrorMessage(q)))))
    else if q.code.None? then
      CallbackOutcome(st, [], Failure(Auth("Missing authorization code")))
    else if q.state.None? then
      CallbackOutcome(st, [], Failure(Auth("Missing state parameter")))
    else
      var (pending, taken) := Pending.Take(st.pending, q.state.value, now);
      var st1 := st.(pending := pending);
      match taken
      case None => CallbackOutcome(st1, [], Failure(Auth("Unknown or expired state parameter")))
      case Some((verifier, _)) =>
        var exchangeCall := ExchangeCode(q.code.value, verifier);
        match exchange
        case Failure(e) => CallbackOutcome(st1, [exchangeCall], Failure(Auth(e)))
        case Success(token) =>
          var calls := [exchangeCall, FetchUserinfo(token.accessToken)];
          match userinfo
          case Failure(e) => CallbackOutcome(st1, calls, Failure(Http(e)))
          case Success(profile) =>
            match Identity.ExtractIdentity(profile)
            case None => CallbackOutcome(st1, calls, Failure(Auth("Unable to determine user identity from profile")))
            case Some(user) =>
              var st2 := st1.(sessions := Sessions.Create(st1.sessions, freshId, user, token.expiresIn, profile, now));
              CallbackOutcome(st2, calls, AuthRedirect(st2, Success(freshId)))
  }

  /** `current_session`: the snapshot of the session the cookie names, with
      no expiry check; `Unauthorized` without a cookie or for an unknown id. */
  function CurrentSession(st: OAuthState, jar: Cookies.CookieJar): (r: Result<Sessions.SessionSnapshot, ApiError>)
    ensures r.Failure? ==> r.error == Unauthorized
    ensures r.Success? <==> st.cookie.name in jar && jar[st.cookie.name] in st.sessions
    ensures r.Success? ==> Sessions.Snapshot(st.sessions, jar[st.cookie.name]) == Some(r.value)
  {
    match Lookup(jar, st.cookie.name)
    case None => Failure(Unauthorized)
    case Some(id) =>
      match Sessions.Snapshot(st.sessions, id)
      case None => Failure(Unauthorized)
      case Some(snapshot) => Success(snapshot)
  }

  /** The reply to a logout: a status and the cookie it sets, if any. */
  datatype LogoutReply = LogoutReply(status: nat, setCookie: Option<Cookies.Cookie>)

  /** `logout`: always 204; with a session cookie, the session it names is
      removed and the cookie cleared, without one nothing changes. */
  function Logout(st: OAuthState, jar: Cookies.CookieJar): (r: (OAuthState, LogoutReply))
    ensures r.1.status == NoContent
    ensures st.cookie.name !in jar ==> r == (st, LogoutReply(NoContent, None))
    ensures st.cookie.name in jar ==> r.0 == st.(sessions := Sessions.Remove(st.sessions, jar[st.cookie.name]))
    ensures st.cookie.name in jar ==> r.1.setCookie == Some(Cookies.BuildLogoutCookie(st.cookie))
  {
    match Lookup(jar, st.cookie.name)
    case None => (st, LogoutReply(NoContent, None))
    case Some(id) =>
      (st.(sessions := Sessions.Remove(st.sessions, id)), LogoutReply(NoContent, Some(Cookies.BuildLogoutCookie(st.cookie))))
  }

  /** A callback replayed with the same `state` is refused, whatever the
      provider would answer, and creates no second session. */
  lemma ReplayRefused(st: OAuthState, q: CallbackQuery, now: int, later: int,
                      exchange: Result<TokenResponse, string>, userinfo: Result<Json.Value, string>, freshId: string,
                      exchange2: Result<TokenResponse, string>, userinfo2: Result<Json.Value, string>, freshId2: string)
    requires freshId !in st.sessions
    requires q.error.None? && q.code.Some? && q.state.Some?
    requires freshId2 !in HandleCallback(st, q, now, exchange, userinfo, freshId).st.sessions
    ensures var first := HandleCallback(st, q, now, exchange, userinfo, freshId);
            var second := HandleCallback(first.st, q, later, exchange2, userinfo2, freshId2);
            && second.reply == Failure(Auth("Unknown or expired state parameter"))
            && second.calls == []
            && second.st.sessions == first.st.sessions
  {
  }

  /** Checks made before the pending store is consulted leave both stores
      exactly as they were: a provider error, a missing code, a missing state. */
  lemma EarlyRejectionTouchesNothing(st: OAuthState, q: CallbackQuery, now: int,
                                     exchange: Result<TokenResponse, string>, userinfo: Result<Json.Value, string>,
                                     freshId: string)
    requires freshId !in st.sessions
    requires q.error.Some? || q.code.None? || q.state.None?
    ensures HandleCallback(st, q, now, exchange, userinfo, freshId).st == st
    ensures HandleCallback(st, q, now, exchange, userinfo, freshId).calls == []
  {
  }

  /** Only a provider-reported error reaches the failure redirect: every other
      failed callback returns its error, configured failure page or not. */
  lemma OnlyProviderErrorsRedirect(st: OAuthState, q: CallbackQuery, now: int,
                                   exchange: Result<TokenResponse, string>, userinfo: Result<Json.Value, string>,
                                   freshId: string)
    requires freshId !in st.sessions
    requires q.error.None? && !SignsIn(st, q, now, exchange, userinfo)
    ensures HandleCallback(st, q, now, exchange, userinfo, freshId).reply.Failure?
  {
  }

  /** A whole login: start, the provider's callback within ten minutes with a
      profile whose subject is `sub`, then a request carrying the cookie the
      callback set, at any instant within the token's lifetime. The request
      is recognised as `sub`, and `/auth/me` shows that user. */
  lemma {:induction false} LoginRoundTrip(st: OAuthState, csrf: string, verifier: string, challenge: string, nonce: string,
                                          code: string, token: string, lifetime: nat, sub: string,
                                          issued: int, returned: int, later: int, freshId: string)
    requires freshId !in st.sessions
    requires issued <= returned <= issued + Pending.MaxAge
    requires lifetime <= Chrono.MaxDeltaSeconds && returned <= later <= returned + lifetime
    ensures var (st1, request) := StartLogin(st, csrf, verifier, challenge, nonce, issued);
            var profile := Json.Object(map["sub" := Json.String(sub)]);
            var o := HandleCallback(st1, CallbackQuery(Some(code), Some(request.state), None, None), returned,
                                    Success(TokenResponse(token, Some(lifetime))), Success(profile), freshId);
            && o.calls == [ExchangeCode(code, verifier), FetchUserinfo(token)]
            && o.reply.Success?
            && SessionUserId(o.st, map[st.cookie.name := o.reply.value.setCookie.value], later) == Some(sub)
            && CurrentSession(o.st, map[st.cookie.name := o.reply.value.setCookie.value]).Success?
            && CurrentSession(o.st, map[st.cookie.name := o.reply.value.setCookie.value]).value.user.id == sub
  {
    var (st1, request) := StartLogin(st, csrf, verifier, challenge, nonce, issued);
    var profile := Json.Object(map["sub" := Json.String(sub)]);
    assert Identity.IdClaimed(profile, sub);
    var q := CallbackQuery(Some(code), Some(request.state), None, None);
    assert SignsIn(st1, q, returned, Success(TokenResponse(token, Some(lifetime))), Success(profile));
  }

  /** Logging out twice is the same as logging out once, and afterwards the
      cookie no longer identifies anyone. */
  lemma LogoutIdempotent(st: OAuthState, jar: Cookies.CookieJar, now: int)
    ensures Logout(Logout(st, jar).0, jar) == Logout(st, jar)
    ensures SessionUserId(Logout(st, jar).0, jar, now).None?
  {
    if st.cookie.name in jar {
      Sessions.RemoveIdempotent(st.sessions, jar[st.cookie.name]);
    }
  }

  /** `/auth/me` still shows a session whose expiry has passed, although the
      same cookie no longer authenticates requests. */
  lemma CurrentSessionIgnoresExpiry(st: OAuthState, jar: Cookies.CookieJar, now: int)
    requires st.cookie.name in jar && jar[st.cookie.name] in st.sessions
    requires !Sessions.Accepted(st.sessions[jar[st.cookie.name]], now)
    ensures CurrentSession(st, jar).Success?
    ensures SessionUserId(st, jar, now).None?
  {
  }
}

/** `OAuthState`: the login subsystem's settings together with its two
    stores. Construction takes the OAuth and session configuration; the
    provider discovery it performs is an input here (its outcome, success or
    an error text). */
module OAuth {
  import opened Wrappers
  import Config
  import Pending
  import Sessions
  import Cookies

  datatype OAuthState = OAuthState(
    scopes: seq<string>,
    successRedirect: string,
    failureRedirect: Option<string>,
    cookie: Cookies.CookieSettings,
    pending: Pending.PendingMap,
    sessions: Sessions.SessionMap)

  /** The scopes requested at login: the configured ones in order, or just
      `openid` when none are configured. */
  function EffectiveScopes(configured: seq<string>): (r: seq<string>)
    ensures |r| > 0
    ensures |configured| > 0 ==> r == configured
    ensures |configured| == 0 ==> r == ["openid"]
  {
    if |configured| == 0 then ["openid"] else configured
  }

  /** `OAuthState::from_config`. The three checks it makes, in order, are
      inputs: the issuer URL's parse error, the discovery error, the redirect
      URL's parse error (each `None` when that step succeeds). */
  function FromConfig(oauth: Config.OAuthConfig, session: Config.SessionConfig,
                      issuerUrlError: Option<string>, discoveryError: Option<string>,
                      redirectUrlError: Option<string>): (r: Result<OAuthState, Config.ConfigError>)
    ensures r.Success? <==> issuerUrlError.None? && discoveryError.None? && redirectUrlError.None?
    ensures issuerUrlError.Some? ==> r == Failure(Config.Invalid("OIDC_ISSUER_URL", issuerUrlError.value))
    ensures issuerUrlError.None? && discoveryError.Some? ==> r == Failure(Config.Discovery(discoveryError.value))
    ensures issuerUrlError.None? && discoveryError.None? && redirectUrlError.Some?
            ==> r == Failure(Config.Invalid("OAUTH_REDIRECT_URL", redirectUrlError.value))
    ensures r.Success? ==> r.value.pending == map[] && r.value.sessions == map[]
    ensures r.Success? ==> r.value.scopes == EffectiveScopes(oauth.scopes)
    ensures r.Success? ==> r.value.successRedirect == oauth.successRedirect
                           && r.value.failureRedirect == oauth.failureRedirect
    ensures r.Success? ==> r.value.cookie == Cookies.CookieSettings(session.cookieName, session.cookieDomain,
                                                                    session.cookieSecure, session.ttl)
  {
    if issuerUrlError.Some? then Failure(Config.Invalid("OIDC_ISSUER_URL", issuerUrlError.value))
    else if discoveryError.Some? then Failure(Config.Discovery(discoveryError.value))
    else if redirectUrlError.Some? then Failure(Config.Invalid("OAUTH_REDIRECT_URL", redirectUrlError.value))
    else
      Success(OAuthState(
        EffectiveScopes(oauth.scopes),
        oauth.successRedirect,
        oauth.failureRedirect,
        Cookies.CookieSettings(session.cookieName, session.cookieDomain, session.cookieSecure, session.ttl),
        map[],
        map[]))
  }

  /** What `build_authorization_url` puts in the provider's login URL: the
      scopes, the CSRF `state`, the nonce and the PKCE challenge derived from
      the verifier. The URL's rendering belongs to the OIDC client library. */
  datatype AuthorizationRequest = AuthorizationRequest(scopes: seq<string>, state: string, nonce: string, challenge: string)

  /** `build_authorization_url` with its random values supplied: the CSRF
      token, the verifier and its challenge, and the nonce. */
  function BuildAuthorizationUrl(st: OAuthState, csrf: string, challenge: string, nonce: string)
    : (r: AuthorizationRequest)
    ensures r.scopes == st.scopes && r.state == csrf && r.nonce == nonce && r.challenge == challenge
  {
    AuthorizationRequest(st.scopes, csrf, nonce, challenge)
  }

  /** `session_user_id`: the session cookie from the jar, then the
      expiry-checked lookup. */
  function SessionUserId(st: OAuthState, jar: Cookies.CookieJar, now: int): (r: Option<string>)
    ensures r.Some? <==> st.cookie.name in jar && jar[st.cookie.name] in st.sessions
                         && Sessions.Accepted(st.sessions[jar[st.cookie.name]], now)
    ensures r.Some? ==> r.value == st.sessions[jar[st.cookie.name]].user.id
  {
    Sessions.UserId(st.sessions, Lookup(jar, st.cookie.name), now)
  }

  /** `cleanup_expired`: sweep the pending authorizations at the clock's
      first reading, `pendingNow`, and the sessions at its second,
      `sessionNow`; the source reads the clock once per store. */
  function CleanupExpired(st: OAuthState, pendingNow: int, sessionNow: int): (r: OAuthState)
    ensures r.pending == Pending.Sweep(st.pending, pendingNow) && r.sessions == Sessions.Sweep(st.sessions, sessionNow)
    ensures r.pending.Keys <= st.pending.Keys && r.sessions.Keys <= st.sessions.Keys
    ensures r.scopes == st.scopes && r.cookie == st.cookie
    ensures r.successRedirect == st.successRedirect && r.failureRedirect == st.failureRedirect
  {
    st.(pending := Pending.Sweep(st.pending, pendingNow), sessions := Sessions.Sweep(st.sessions, sessionNow))
  }

  /** A second cleanup with the same clock readings removes nothing. */
  lemma CleanupIdempotent(st: OAuthState, pendingNow: int, sessionNow: int)
    ensures CleanupExpired(CleanupExpired(st, pendingNow, sessionNow), pendingNow, sessionNow)
         == CleanupExpired(st, pendingNow, sessionNow)
  {
    Pending.SweepIdempotent(st.pending, pendingNow);
    Sessions.SweepIdempotent(st.sessions, sessionNow);
  }

  /** Cleanup logs nobody out early: unless some session expires exactly at
      the session sweep's reading `now`, every cookie is resolved to the same
      user at `now` before and after, whenever the pending sweep ran. */
  lemma CleanupPreservesLogins(st: OAuthState, jar: Cookies.CookieJar, pendingNow: int, now: int)
    requires forall k :: k in st.sessions ==> st.sessions[k].expiresAt != Some(now)
    ensures SessionUserId(CleanupExpired(st, pendingNow, now), jar, now) == SessionUserId(st, jar, now)
  {
    Sessions.SweepPreservesLookups(st.sessions, Lookup(jar, st.cookie.name), now);
  }

  /** A state built from an environment the server accepts issues session
      cookies whose Max-Age is the configured lifetime, and always requests
      at least one scope. */
  lemma ConfiguredLifetimeReachesCookie(env: Config.Env, sessionId: string)
    requires "MONGODB_URI" in env && "OAUTH_CLIENT_ID" in env && "OIDC_ISSUER_URL" in env
    ensures var c := Config.FromEnv(env).value;
            var r := FromConfig(c.oauth, c.session, None, None, None);
            && r.Success?
            && Cookies.BuildCookie(r.value.cookie, sessionId).maxAge == Config.Ttl(env)
            && |r.value.scopes| > 0
  {
    assert Config.FromEnv(env).value.session == Config.SessionSettings(env);
  }
}

/** The session cookie `OAuthState` issues and the logout cookie that clears
    it, as structured records carrying the attributes of section 4.1 of
    RFC 6265 (Path, HttpOnly, SameSite, Max-Age, Domain, Secure), and the
    request's cookie jar as a map from cookie name to value. */
module Cookies {
  import opened Wrappers

  /** `DEFAULT_SESSION_TTL_SECS`: one hour, in seconds. */
  const DefaultSessionTtl: nat := 60 * 60

  datatype SameSite = Strict | Lax | Unrestricted

  datatype Cookie = Cookie(
    name: string,
    value: string,
    path: string,
    httpOnly: bool,
    sameSite: SameSite,
    maxAge: nat,
    domain: Option<string>,
    secure: bool)

  /** The cookie part of the server's session configuration; `ttl` is the
      configured session lifetime in seconds. */
  datatype CookieSettings = CookieSettings(name: string, domain: Option<string>, secure: bool, ttl: int)

  /** The cookies a request carries, by name. */
  type CookieJar = map<string, string>

  /** Max-Age from the configured lifetime: `to_std` rejects a negative
      duration, and then the one-hour default applies. */
  function MaxAgeFor(ttl: int): (s: nat)
    ensures ttl >= 0 ==> s == ttl
    ensures ttl < 0 ==> s == DefaultSessionTtl
  {
    if ttl >= 0 then ttl else DefaultSessionTtl
  }

  /** `build_cookie`: the session id under the configured name, Path `/`,
      HttpOnly, SameSite=Lax, Max-Age from the lifetime; Domain and Secure
      only when configured. */
  function BuildCookie(cfg: CookieSettings, sessionId: string): (c: Cookie)
    ensures c.name == cfg.name && c.value == sessionId
    ensures c.path == "/" && c.httpOnly && c.sameSite == Lax
    ensures cfg.ttl >= 0 ==> c.maxAge == cfg.ttl
    ensures cfg.ttl < 0 ==> c.maxAge == DefaultSessionTtl
    ensures c.domain == cfg.domain && c.secure == cfg.secure
  {
    Cookie(cfg.name, sessionId, "/", true, Lax, MaxAgeFor(cfg.ttl), cfg.domain, cfg.secure)
  }

  /** `build_logout_cookie`: the same cookie, empty and already expired. */
  function BuildLogoutCookie(cfg: CookieSettings): (c: Cookie)
    ensures c.name == cfg.name && c.value == "" && c.maxAge == 0
    ensures c.path == "/" && c.httpOnly && c.sameSite == Lax
    ensures c.domain == cfg.domain && c.secure == cfg.secure
  {
    Cookie(cfg.name, "", "/", true, Lax, 0, cfg.domain, cfg.secure)
  }

  /** The logout cookie differs from every session cookie only in its value
      and Max-Age, so it has the same name, domain and path: by the storage
      model of section 5.3 of RFC 6265 it replaces the session cookie and
      then expires at once. */
  lemma LogoutCookieReplacesSessionCookie(cfg: CookieSettings, sessionId: string)
    ensures BuildLogoutCookie(cfg) == BuildCookie(cfg, sessionId).(value := "", maxAge := 0)
  {
  }
}

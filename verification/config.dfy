/** `AppConfig::from_env` as a pure function of the process environment: the
    three required variables (checked in order), defaults for everything else,
    and the parsing of ports, lifetimes, flags and lists. */
module Config {
  import opened Wrappers
  import opened Text
  import Decimal
  import Chrono

  /** The process environment: variable name to value. */
  type Env = map<string, string>

  const DefaultPort: nat := 8080
  const DefaultHost: string := "0.0.0.0"
  const DefaultDbName: string := "order-wizard"
  const DefaultSessionTtl: int := 60 * 60
  const DefaultFrontendOrigin: string := "http://localhost:5173"
  const DefaultScopes: string := "openid email"
  const DefaultCookieName: string := "ow_session"

  datatype ConfigError =
    | Missing(name: string)
    | Invalid(name: string, message: string)
    | Discovery(message: string)

  datatype MongoConfig = MongoConfig(uri: string, database: string)

  datatype OAuthConfig = OAuthConfig(
    clientId: string,
    clientSecret: Option<string>,
    issuerUrl: string,
    redirectUrl: string,
    scopes: seq<string>,
    successRedirect: string,
    failureRedirect: Option<string>)

  /** `ttl` is the session lifetime in seconds. */
  datatype SessionConfig = SessionConfig(cookieName: string, cookieDomain: Option<string>, cookieSecure: bool, ttl: int)

  datatype CorsConfig = CorsConfig(allowedOrigins: seq<string>)

  datatype AppConfig = AppConfig(
    host: string,
    port: nat,
    mongo: MongoConfig,
    oauth: OAuthConfig,
    session: SessionConfig,
    cors: CorsConfig)

  /** `env::var(name).ok()`. */
  function Var(env: Env, name: string): (r: Option<string>)
    ensures r.Some? <==> name in env
    ensures r.Some? ==> r.value == env[name]
  {
    Lookup(env, name)
  }

  /** `env::var(name).unwrap_or_else(|_| default)`. */
  function VarOr(env: Env, name: string, default: string): (r: string)
    ensures name in env ==> r == env[name]
    ensures name !in env ==> r == default
  {
    Var(env, name).UnwrapOr(default)
  }

  /** `PORT` read as a `u16`, 8080 when absent or unreadable. */
  function Port(env: Env): (p: nat)
    ensures p <= Decimal.U16Max
    ensures p == DefaultPort || ("PORT" in env && Decimal.ParseU16(env["PORT"]) == Some(p))
    ensures "PORT" in env && Decimal.ParseU16(env["PORT"]).Some? ==> p == Decimal.ParseU16(env["PORT"]).value
  {
    match Var(env, "PORT")
    case Some(text) => Decimal.ParseU16(text).UnwrapOr(DefaultPort)
    case None => DefaultPort
  }

  /** `OAUTH_SCOPES` (default `"openid email"`) split on spaces and commas,
      blank pieces dropped; the pieces kept are not trimmed. */
  function Scopes(env: Env): (r: seq<string>)
    ensures forall i :: 0 <= i < |r| ==> !IsBlank(r[i])
    ensures forall i :: 0 <= i < |r| ==> Avoids(r[i], {' ', ','})
    ensures forall x :: x in r <==> x in Split(VarOr(env, "OAUTH_SCOPES", DefaultScopes), {' ', ','}) && !IsBlank(x)
    ensures r == DropBlank(Split(VarOr(env, "OAUTH_SCOPES", DefaultScopes), {' ', ','}))
  {
    var pieces := Split(VarOr(env, "OAUTH_SCOPES", DefaultScopes), {' ', ','});
    DropBlankAvoids(pieces, {' ', ','});
    DropBlank(pieces)
  }

  /** Without `OAUTH_SCOPES` the scopes are `openid` and `email`. */
  lemma DefaultScopeList(env: Env)
    requires "OAUTH_SCOPES" !in env
    ensures Scopes(env) == ["openid", "email"]
  {
    DefaultScopesSplit();
    DefaultScopesKept();
  }

  /** Scope names without blanks, spaces or commas, written space-separated
      into `OAUTH_SCOPES`, are read back as exactly that list, in order. */
  lemma ScopesRoundTrip(env: Env, scopes: seq<string>)
    requires |scopes| >= 1
    requires forall i :: 0 <= i < |scopes| ==> !IsBlank(scopes[i]) && Avoids(scopes[i], {' ', ','})
    requires "OAUTH_SCOPES" in env && env["OAUTH_SCOPES"] == Join(scopes, ' ')
    ensures Scopes(env) == scopes
  {
    SplitOfJoin(scopes, ' ', {' ', ','});
  }

  lemma DefaultScopesKept()
    ensures DropBlank(["openid", "email"]) == ["openid", "email"]
  {
    var pieces := ["openid", "email"];
    assert !IsBlank(pieces[0]) by { assert !IsWhitespace(pieces[0][0]); }
    assert !IsBlank(pieces[1]) by { assert !IsWhitespace(pieces[1][0]); }
  }

  lemma DefaultScopesSplit()
    ensures Split(DefaultScopes, {' ', ','}) == ["openid", "email"]
  {
    var seps: set<char> := {' ', ','};
    assert DefaultScopes == "openid" + [' '] + "email";
    assert Avoids("openid", seps) && Avoids("email", seps);
    SplitTwo("openid", ' ', "email", seps);
  }

  /** `SESSION_COOKIE_SECURE`: true when absent; when present, true iff its
      ASCII-lowercased text is `1`, `true` or `yes`. */
  function CookieSecure(env: Env): (b: bool)
    ensures "SESSION_COOKIE_SECURE" !in env ==> b
    ensures "SESSION_COOKIE_SECURE" in env ==> (b <==> AsciiLower(env["SESSION_COOKIE_SECURE"]) in {"1", "true", "yes"})
  {
    match Var(env, "SESSION_COOKIE_SECURE")
    case Some(text) => AsciiLower(text) in {"1", "true", "yes"}
    case None => true
  }

  /** Spelling is case-insensitive; anything else, even a blank value, is false. */
  lemma CookieSecureSpellings()
    ensures CookieSecure(map["SESSION_COOKIE_SECURE" := "TRUE"])
    ensures CookieSecure(map["SESSION_COOKIE_SECURE" := "Yes"])
    ensures !CookieSecure(map["SESSION_COOKIE_SECURE" := "on"])
    ensures !CookieSecure(map["SESSION_COOKIE_SECURE" := ""])
  {
    assert AsciiLower("TRUE") == "true";
    assert AsciiLower("Yes") == "yes";
    assert AsciiLower("on") == "on";
  }

  /** `SESSION_TTL_SECONDS` exactly as the source reads it: an `i64`, kept
      when positive, else one hour; then `ChronoDuration::seconds`, which
      panics beyond chrono's range. `None` is that panic. */
  function TtlAsWritten(env: Env): (r: Option<int>)
    ensures r.None? <==> "SESSION_TTL_SECONDS" in env && ParsedTtl(env) > Chrono.MaxDeltaSeconds
    ensures r.Some? ==> r.value == (if ParsedTtl(env) > 0 then ParsedTtl(env) else DefaultSessionTtl)
  {
    var v := ParsedTtl(env);
    if v > 0 then (if v <= Chrono.MaxDeltaSeconds then Some(v) else None)
    else Some(DefaultSessionTtl)
  }

  /** The `i64` value of `SESSION_TTL_SECONDS`, or 0 when absent or unreadable. */
  function ParsedTtl(env: Env): (v: int)
    ensures v <= Decimal.I64Max
    ensures "SESSION_TTL_SECONDS" !in env ==> v == 0
    ensures "SESSION_TTL_SECONDS" in env && Decimal.ParseI64(env["SESSION_TTL_SECONDS"]).Some?
            ==> v == Decimal.ParseI64(env["SESSION_TTL_SECONDS"]).value
    ensures "SESSION_TTL_SECONDS" in env && Decimal.ParseI64(env["SESSION_TTL_SECONDS"]).None? ==> v == 0
  {
    match Var(env, "SESSION_TTL_SECONDS")
    case Some(text) => Decimal.ParseI64(text).UnwrapOr(0)
    case None => 0
  }

  /** The input that shows the panic: one second more than chrono can hold,
      still a valid positive `i64`. */
  lemma TtlPanicsBeyondChronoRange()
    ensures TtlAsWritten(map["SESSION_TTL_SECONDS" := Decimal.IntToString(Chrono.MaxDeltaSeconds + 1)]).None?
  {
    Decimal.ParseSignedRoundTrip(Chrono.MaxDeltaSeconds + 1, Decimal.I64Min, Decimal.I64Max);
  }

  /** The session lifetime with the panic removed: a positive value chrono can
      hold is taken, anything else falls back to one hour like any other
      unusable value. */
  function Ttl(env: Env): (t: int)
    ensures t > 0 && Chrono.Representable(t)
    ensures t == DefaultSessionTtl || ("SESSION_TTL_SECONDS" in env && Decimal.ParseI64(env["SESSION_TTL_SECONDS"]) == Some(t))
    ensures TtlAsWritten(env).Some? ==> t == TtlAsWritten(env).value
    ensures 0 < ParsedTtl(env) <= Chrono.MaxDeltaSeconds ==> t == ParsedTtl(env)
    ensures ParsedTtl(env) <= 0 || ParsedTtl(env) > Chrono.MaxDeltaSeconds ==> t == DefaultSessionTtl
  {
    var v := ParsedTtl(env);
    if 0 < v <= Chrono.MaxDeltaSeconds then v else DefaultSessionTtl
  }

  /** A lifetime spelled with a plus sign or a leading zero is the same
      lifetime: `i64::from_str` reads both. */
  lemma TtlNonCanonicalSpellings()
    ensures Ttl(map["SESSION_TTL_SECONDS" := "+5"]) == 5
    ensures Ttl(map["SESSION_TTL_SECONDS" := "05"]) == 5
  {
  }

  /** Every lifetime chrono can hold, written in decimal, is read back exactly. */
  lemma TtlRoundTrip(env: Env, secs: int)
    requires 0 < secs <= Chrono.MaxDeltaSeconds
    requires "SESSION_TTL_SECONDS" in env && env["SESSION_TTL_SECONDS"] == Decimal.IntToString(secs)
    ensures Ttl(env) == secs
  {
    Decimal.ParseSignedRoundTrip(secs, Decimal.I64Min, Decimal.I64Max);
  }

  /** Every port, written in decimal, is read back exactly. */
  lemma PortRoundTrip(env: Env, port: nat)
    requires port <= Decimal.U16Max
    requires "PORT" in env && env["PORT"] == Decimal.NatToString(port)
    ensures Port(env) == port
  {
    Decimal.ParseUnsignedRoundTrip(port, Decimal.U16Max);
  }

  /** `ALLOWED_ORIGINS` (default: the frontend origin) split on commas, blank
      pieces dropped, each piece trimmed. */
  function AllowedOrigins(env: Env, frontendOrigin: string): (r: seq<string>)
    ensures forall i :: 0 <= i < |r| ==> |r[i]| > 0
    ensures forall i :: 0 <= i < |r| ==> !IsWhitespace(r[i][0]) && !IsWhitespace(r[i][|r[i]| - 1])
    ensures forall x :: x in r <==> exists p :: p in Split(VarOr(env, "ALLOWED_ORIGINS", frontendOrigin), {','})
                                                && !IsBlank(p) && Trim(p) == x
    ensures r == TrimAll(DropBlank(Split(VarOr(env, "ALLOWED_ORIGINS", frontendOrigin), {','})))
  {
    var kept := DropBlank(Split(VarOr(env, "ALLOWED_ORIGINS", frontendOrigin), {','}));
    TrimAllMembers(kept);
    TrimAll(kept)
  }

  /** Origins that are non-empty, comma-free and carry no surrounding
      whitespace, written comma-separated into `ALLOWED_ORIGINS`, are read
      back as exactly that list, in order. */
  lemma OriginsRoundTrip(env: Env, frontendOrigin: string, origins: seq<string>)
    requires |origins| >= 1
    requires forall i :: 0 <= i < |origins| ==> |origins[i]| > 0 && Avoids(origins[i], {','})
    requires forall i :: 0 <= i < |origins| ==> !IsWhitespace(origins[i][0]) && !IsWhitespace(origins[i][|origins[i]| - 1])
    requires "ALLOWED_ORIGINS" in env && env["ALLOWED_ORIGINS"] == Join(origins, ',')
    ensures AllowedOrigins(env, frontendOrigin) == origins
  {
    SplitOfJoin(origins, ',', {','});
    assert forall i | 0 <= i < |origins| :: !IsBlank(origins[i]);
    assert DropBlank(origins) == origins;
  }

  /** Without `ALLOWED_ORIGINS`, a comma-free, non-blank frontend origin is
      the one allowed origin, trimmed. */
  lemma DefaultOriginList(env: Env, frontendOrigin: string)
    requires "ALLOWED_ORIGINS" !in env
    requires !IsBlank(frontendOrigin)
    requires forall i :: 0 <= i < |frontendOrigin| ==> frontendOrigin[i] != ','
    ensures AllowedOrigins(env, frontendOrigin) == [Trim(frontendOrigin)]
  {
    SplitWithoutSeparator(frontendOrigin, {','});
  }

  /** `AppConfig::from_env`: the first missing required variable, in the
      order `MONGODB_URI`, `OAUTH_CLIENT_ID`, `OIDC_ISSUER_URL`, is the error;
      with all three present the configuration is always built. */
  function FromEnv(env: Env): (r: Result<AppConfig, ConfigError>)
    ensures r.Failure? <==> "MONGODB_URI" !in env || "OAUTH_CLIENT_ID" !in env || "OIDC_ISSUER_URL" !in env
    ensures "MONGODB_URI" !in env ==> r == Failure(Missing("MONGODB_URI"))
    ensures "MONGODB_URI" in env && "OAUTH_CLIENT_ID" !in env ==> r == Failure(Missing("OAUTH_CLIENT_ID"))
    ensures "MONGODB_URI" in env && "OAUTH_CLIENT_ID" in env && "OIDC_ISSUER_URL" !in env
            ==> r == Failure(Missing("OIDC_ISSUER_URL"))
    ensures r.Success? ==> r.value.mongo.uri == env["MONGODB_URI"] && r.value.oauth.clientId == env["OAUTH_CLIENT_ID"]
    ensures r.Success? ==> r.value.oauth.issuerUrl == env["OIDC_ISSUER_URL"]
    ensures r.Success? ==> r.value.port <= Decimal.U16Max && r.value.session.ttl > 0
    ensures r.Success? ==> r.value.host == VarOr(env, "HOST", DefaultHost) && r.value.port == Port(env)
    ensures r.Success? ==> r.value.mongo.database == VarOr(env, "MONGODB_DATABASE", DefaultDbName)
    ensures r.Success? ==> r.value.oauth == OAuthSettings(env) && r.value.session == SessionSettings(env)
    ensures r.Success? ==> r.value.cors.allowedOrigins == AllowedOrigins(env, FrontendOrigin(env))
  {
    if "MONGODB_URI" !in env then Failure(Missing("MONGODB_URI"))
    else if "OAUTH_CLIENT_ID" !in env then Failure(Missing("OAUTH_CLIENT_ID"))
    else if "OIDC_ISSUER_URL" !in env then Failure(Missing("OIDC_ISSUER_URL"))
    else
      Success(AppConfig(
        VarOr(env, "HOST", DefaultHost),
        Port(env),
        MongoConfig(env["MONGODB_URI"], VarOr(env, "MONGODB_DATABASE", DefaultDbName)),
        OAuthSettings(env),
        SessionSettings(env),
        CorsConfig(AllowedOrigins(env, FrontendOrigin(env)))))
  }

  /** `from_env` exactly as written: `None` is the panic of an oversized
      `SESSION_TTL_SECONDS`, which the source only reaches once the three
      required variables are present; otherwise it agrees with `FromEnv`. */
  function FromEnvAsWritten(env: Env): (r: Option<Result<AppConfig, ConfigError>>)
    ensures r.None? <==> FromEnv(env).Success? && TtlAsWritten(env).None?
    ensures r.Some? ==> r.value == FromEnv(env)
  {
    if "MONGODB_URI" in env && "OAUTH_CLIENT_ID" in env && "OIDC_ISSUER_URL" in env && TtlAsWritten(env).None? then None
    else Some(FromEnv(env))
  }

  /** The finding's input, given to the whole of `from_env`: the source panics,
      the corrected model builds a configuration with the one-hour lifetime. */
  lemma FromEnvPanicsBeyondChronoRange(env: Env)
    requires "MONGODB_URI" in env && "OAUTH_CLIENT_ID" in env && "OIDC_ISSUER_URL" in env
    requires "SESSION_TTL_SECONDS" in env && env["SESSION_TTL_SECONDS"] == Decimal.IntToString(Chrono.MaxDeltaSeconds + 1)
    ensures FromEnvAsWritten(env).None?
    ensures FromEnv(env).Success? && FromEnv(env).value.session.ttl == DefaultSessionTtl
  {
    Decimal.ParseSignedRoundTrip(Chrono.MaxDeltaSeconds + 1, Decimal.I64Min, Decimal.I64Max);
  }

  /** Every environment variable the configuration reads. */
  const KnownNames: set<string> := {
    "HOST", "PORT", "MONGODB_URI", "MONGODB_DATABASE", "OAUTH_CLIENT_ID", "OAUTH_CLIENT_SECRET",
    "OIDC_ISSUER_URL", "FRONTEND_ORIGIN", "OAUTH_REDIRECT_URL", "OAUTH_SUCCESS_REDIRECT",
    "OAUTH_FAILURE_REDIRECT", "OAUTH_SCOPES", "SESSION_COOKIE_NAME", "SESSION_COOKIE_DOMAIN",
    "SESSION_COOKIE_SECURE", "SESSION_TTL_SECONDS", "ALLOWED_ORIGINS"}

  /** Two environments that agree on the variables above agree on the name. */
  predicate AgreeOn(e1: Env, e2: Env, name: string) {
    && (name in e1 <==> name in e2)
    && (name in e1 ==> e1[name] == e2[name])
  }

  /** Only the known variables matter: any other variable, set or unset,
      leaves the configuration (or the error) unchanged. */
  lemma FromEnvReadsOnlyKnownNames(e1: Env, e2: Env)
    requires forall name :: name in KnownNames ==> AgreeOn(e1, e2, name)
    ensures FromEnv(e1) == FromEnv(e2)
  {
    assert AgreeOn(e1, e2, "MONGODB_URI") && AgreeOn(e1, e2, "OAUTH_CLIENT_ID") && AgreeOn(e1, e2, "OIDC_ISSUER_URL");
    if "MONGODB_URI" in e1 && "OAUTH_CLIENT_ID" in e1 && "OIDC_ISSUER_URL" in e1 {
      SameVar(e1, e2, "HOST");
      SameVar(e1, e2, "MONGODB_DATABASE");
      SameVar(e1, e2, "FRONTEND_ORIGIN");
      SamePort(e1, e2);
      SameOAuthSettings(e1, e2);
      SameSessionSettings(e1, e2);
      SameVar(e1, e2, "ALLOWED_ORIGINS");
    }
  }

  lemma SameVar(e1: Env, e2: Env, name: string)
    requires forall n :: n in KnownNames ==> AgreeOn(e1, e2, n)
    requires name in KnownNames
    ensures Var(e1, name) == Var(e2, name)
  {
    assert AgreeOn(e1, e2, name);
  }

  lemma SamePort(e1: Env, e2: Env)
    requires forall n :: n in KnownNames ==> AgreeOn(e1, e2, n)
    ensures Port(e1) == Port(e2)
  {
    SameVar(e1, e2, "PORT");
  }

  lemma SameOAuthSettings(e1: Env, e2: Env)
    requires forall n :: n in KnownNames ==> AgreeOn(e1, e2, n)
    requires "OAUTH_CLIENT_ID" in e1 && "OIDC_ISSUER_URL" in e1
    ensures "OAUTH_CLIENT_ID" in e2 && "OIDC_ISSUER_URL" in e2 && OAuthSettings(e1) == OAuthSettings(e2)
  {
    SameVar(e1, e2, "OAUTH_CLIENT_ID");
    SameVar(e1, e2, "OIDC_ISSUER_URL");
    SameVar(e1, e2, "OAUTH_CLIENT_SECRET");
    SameVar(e1, e2, "OAUTH_REDIRECT_URL");
    SameVar(e1, e2, "OAUTH_SUCCESS_REDIRECT");
    SameVar(e1, e2, "OAUTH_FAILURE_REDIRECT");
    SameVar(e1, e2, "OAUTH_SCOPES");
    SameVar(e1, e2, "FRONTEND_ORIGIN");
    SamePort(e1, e2);
  }

  lemma SameSessionSettings(e1: Env, e2: Env)
    requires forall n :: n in KnownNames ==> AgreeOn(e1, e2, n)
    ensures SessionSettings(e1) == SessionSettings(e2)
  {
    SameVar(e1, e2, "SESSION_COOKIE_NAME");
    SameVar(e1, e2, "SESSION_COOKIE_DOMAIN");
    SameVar(e1, e2, "SESSION_COOKIE_SECURE");
    SameVar(e1, e2, "SESSION_TTL_SECONDS");
  }

  /** `FRONTEND_ORIGIN`, `http://localhost:5173` when absent. */
  function FrontendOrigin(env: Env): (r: string)
    ensures "FRONTEND_ORIGIN" in env ==> r == env["FRONTEND_ORIGIN"]
    ensures "FRONTEND_ORIGIN" !in env ==> r == DefaultFrontendOrigin
  {
    VarOr(env, "FRONTEND_ORIGIN", DefaultFrontendOrigin)
  }

  /** The OAuth part of `from_env`: the redirect URL defaults to the local
      callback on the configured port, the success redirect to the frontend's
      `/auth/success`; secret and failure redirect are optional. */
  function OAuthSettings(env: Env): (c: OAuthConfig)
    requires "OAUTH_CLIENT_ID" in env && "OIDC_ISSUER_URL" in env
    ensures c.clientId == env["OAUTH_CLIENT_ID"] && c.issuerUrl == env["OIDC_ISSUER_URL"]
    ensures "OAUTH_REDIRECT_URL" !in env
            ==> c.redirectUrl == "http://localhost:" + Decimal.NatToString(Port(env)) + "/auth/callback"
    ensures "OAUTH_SUCCESS_REDIRECT" !in env ==> c.successRedirect == FrontendOrigin(env) + "/auth/success"
    ensures "OAUTH_REDIRECT_URL" in env ==> c.redirectUrl == env["OAUTH_REDIRECT_URL"]
    ensures "OAUTH_SUCCESS_REDIRECT" in env ==> c.successRedirect == env["OAUTH_SUCCESS_REDIRECT"]
    ensures c.scopes == Scopes(env)
    ensures c.clientSecret == Var(env, "OAUTH_CLIENT_SECRET") && c.failureRedirect == Var(env, "OAUTH_FAILURE_REDIRECT")
    ensures forall i :: 0 <= i < |c.scopes| ==> !IsBlank(c.scopes[i])
  {
    OAuthConfig(
      env["OAUTH_CLIENT_ID"],
      Var(env, "OAUTH_CLIENT_SECRET"),
      env["OIDC_ISSUER_URL"],
      VarOr(env, "OAUTH_REDIRECT_URL", "http://localhost:" + Decimal.NatToString(Port(env)) + "/auth/callback"),
      Scopes(env),
      VarOr(env, "OAUTH_SUCCESS_REDIRECT", FrontendOrigin(env) + "/auth/success"),
      Var(env, "OAUTH_FAILURE_REDIRECT"))
  }

  /** The session part of `from_env`: cookie name `ow_session` by default,
      optional domain, the Secure flag and the lifetime. */
  function SessionSettings(env: Env): (c: SessionConfig)
    ensures "SESSION_COOKIE_NAME" !in env ==> c.cookieName == DefaultCookieName
    ensures "SESSION_COOKIE_NAME" in env ==> c.cookieName == env["SESSION_COOKIE_NAME"]
    ensures c.cookieSecure == CookieSecure(env) && c.ttl == Ttl(env)
    ensures c.cookieDomain == Var(env, "SESSION_COOKIE_DOMAIN")
    ensures c.ttl > 0
  {
    SessionConfig(VarOr(env, "SESSION_COOKIE_NAME", DefaultCookieName), Var(env, "SESSION_COOKIE_DOMAIN"),
                  CookieSecure(env), Ttl(env))
  }

  /** With only the three required variables set, every other setting takes
      its documented default. */
  lemma MinimalEnvironment(env: Env)
    requires env.Keys == {"MONGODB_URI", "OAUTH_CLIENT_ID", "OIDC_ISSUER_URL"}
    ensures FromEnv(env)
         == Success(AppConfig(
              DefaultHost,
              DefaultPort,
              MongoConfig(env["MONGODB_URI"], DefaultDbName),
              OAuthConfig(env["OAUTH_CLIENT_ID"], None, env["OIDC_ISSUER_URL"],
                          "http://localhost:" + Decimal.NatToString(DefaultPort) + "/auth/callback", ["openid", "email"],
                          DefaultFrontendOrigin + "/auth/success", None),
              SessionConfig(DefaultCookieName, None, true, DefaultSessionTtl),
              CorsConfig([DefaultFrontendOrigin])))
  {
    assert "HOST" !in env && "MONGODB_DATABASE" !in env;
    assert "ALLOWED_ORIGINS" !in env && "FRONTEND_ORIGIN" !in env;
    assert Port(env) == DefaultPort;
    DefaultFrontendOriginAllowed(env);
    DefaultSessionSettings(env);
    DefaultOAuthSettings(env);
  }

  lemma DefaultOAuthSettings(env: Env)
    requires env.Keys == {"MONGODB_URI", "OAUTH_CLIENT_ID", "OIDC_ISSUER_URL"}
    ensures OAuthSettings(env) == OAuthConfig(env["OAUTH_CLIENT_ID"], None, env["OIDC_ISSUER_URL"],
                                              "http://localhost:" + Decimal.NatToString(DefaultPort) + "/auth/callback", ["openid", "email"],
                                              DefaultFrontendOrigin + "/auth/success", None)
  {
    assert "OAUTH_REDIRECT_URL" !in env && "OAUTH_SUCCESS_REDIRECT" !in env && "FRONTEND_ORIGIN" !in env;
    assert "OAUTH_CLIENT_SECRET" !in env && "OAUTH_FAILURE_REDIRECT" !in env;
    assert FrontendOrigin(env) == DefaultFrontendOrigin;
    assert Port(env) == DefaultPort;
    DefaultScopeList(env);
  }

  lemma DefaultSessionSettings(env: Env)
    requires env.Keys == {"MONGODB_URI", "OAUTH_CLIENT_ID", "OIDC_ISSUER_URL"}
    ensures SessionSettings(env) == SessionConfig("ow_session", None, true, 3600)
  {
  }

  lemma DefaultFrontendOriginAllowed(env: Env)
    requires "ALLOWED_ORIGINS" !in env && "FRONTEND_ORIGIN" !in env
    ensures AllowedOrigins(env, FrontendOrigin(env)) == [DefaultFrontendOrigin]
  {
    var o := DefaultFrontendOrigin;
    assert !IsWhitespace(o[0]) && !IsWhitespace(o[|o| - 1]);
    assert forall i | 0 <= i < |o| :: o[i] != ',';
    DefaultOriginList(env, o);
  }
}

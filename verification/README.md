# order-wizard server: cookie-session login and API authentication, in Dafny

This project models the authentication core of the order-wizard API server (a
Rust/axum service). There are two independent components.

The first is the **cookie-session login** used by the web frontend: an OpenID
Connect authorization-code flow with PKCE (RFC 7636) and a CSRF `state`
(section 10.12 of RFC 6749). It covers:

- the pending-authorization store, which consumes each `state` once and honours it for ten minutes;
- the session store, whose two read paths differ: the user-id lookup checks expiry, the snapshot does not;
- the periodic sweep;
- identity extraction from an untyped JSON profile;
- the session and logout cookies (section 4.1 of RFC 6265);
- the `/auth/login`, `/auth/callback`, `/auth/me` and `/auth/logout` handlers.

The callback is modelled as its ordered chain of checks. The provider's answers
are inputs, and the model records which provider calls were made.

The second is the **bearer-token gate** of the API:

- the exact `Bearer ` prefix;
- the `WWW-Authenticate` challenge of section 3 of RFC 6750;
- the JSON Web Key Set reduced to its RSA keys;
- the one-hour key cache;
- the token checks that come before the library's signature validation.

Around them sit the pure pieces they use. `AppConfig::from_env` is modelled as a
function of an environment map. The two error-to-response tables are also
modelled.

Conventions:

- Time is an integer number of seconds.
- Random values are supplied by the caller. A new session id must not already be in the store.
- Each store operation is one atomic transition of an immutable map.

| module (file) | source |
|---|---|
| `Pending` (pending.dfy), `Sessions` (sessions.dfy), `Identity` (identity.dfy), `Cookies` (cookies.dfy), `OAuth` (oauth.dfy) | apps/server/src/oauth.rs |
| `AuthRoutes` (auth_routes.dfy) | apps/server/src/routes/auth.rs |
| `Config` (config.dfy) | apps/server/src/config.rs |
| `Bearer` (bearer.dfy), `Jwks` (jwks.dfy), `Middleware` (middleware.dfy) | apps/server/src/auth/mod.rs |
| `ApiErrors` (api_errors.dfy) | apps/server/src/error.rs |
| `AppErrors` (app_errors.dfy) | apps/server/src/errors.rs |
| `Text`, `Decimal`, `Json`, `Chrono`, `Wrappers` | Rust `str` operations, integer parsing and display, serde_json's `Value`, chrono's `TimeDelta` range, `Option`/`Result` |

Behaviour of the code that a reader might not expect:

- `/auth/me` returns a session past its expiry (`AuthRoutes.CurrentSessionIgnoresExpiry`), because it reads the snapshot, which checks no expiry; the user-id lookup behind authentication refuses the same session.
- Only a provider-reported error redirects to the configured failure page (`AuthRoutes.OnlyProviderErrorsRedirect`); every other callback failure is returned as an error response.
- A session's expiry comes from the token response's `expires_in`, not from the configured session lifetime, which only sets the cookie's Max-Age.
- The nonce stored with each pending authorization is returned by `take_pending`, but the callback discards it. The identity comes from the userinfo endpoint, and no ID token is checked against the nonce.

## Model

| member | source | states |
|---|---|---|
| Pending.Store | apps/server/src/oauth.rs:160-170 | the entry for `state` is inserted or overwritten, stamped `now`; every other entry is unchanged |
| Pending.Take | apps/server/src/oauth.rs:172-182 | the entry is always removed; the verifier and nonce come back iff the entry existed and was at most ten minutes old; the rest of the store is unchanged |
| Pending.Sweep | apps/server/src/oauth.rs:309-320 | a pending entry is kept iff it is at most ten minutes old |
| Pending.TakeIsSingleUse | apps/server/src/oauth.rs:172-182 | after one take of a state, a second take of the same state fails at any instant |
| Pending.StoreThenTake | apps/server/src/oauth.rs:160-182 | storing then taking within ten minutes returns what was stored and leaves the rest of the store as before |
| Pending.StaleEntryRefused | apps/server/src/oauth.rs:174-180 | an entry older than ten minutes is refused even if no sweep ran, and the failed take still removes it |
| Pending.SweepIdempotent | apps/server/src/oauth.rs:309-320 | a second sweep at the same instant removes nothing |
| Pending.SweepAgreesWithTake | apps/server/src/oauth.rs:176-314 | sweeping first never changes what a take at the same instant answers: both apply the same age limit |
| Sessions.ExpiryFor | apps/server/src/oauth.rs:218-220 | there is an expiry iff a lifetime is given and chrono can represent it, and then it lies exactly that lifetime after `now` |
| Sessions.Create | apps/server/src/oauth.rs:211-232 | exactly one new entry under the fresh id, holding the user, profile and derived expiry; all existing sessions are unchanged |
| Sessions.Remove | apps/server/src/oauth.rs:234-237 | only that key is deleted, and an unknown key is no error |
| Sessions.Snapshot | apps/server/src/oauth.rs:239-246 | the stored user, expiry and profile iff the id is known, with no expiry check |
| Sessions.UserId | apps/server/src/oauth.rs:248-262 | the user id iff there is a cookie, the id is known and `now` is not past the expiry; nothing otherwise |
| Sessions.Sweep | apps/server/src/oauth.rs:322-334 | a session is kept iff it has no expiry or an expiry strictly after `now`, with its record unchanged |
| Sessions.RemoveIdempotent | apps/server/src/oauth.rs:234-237 | removing twice equals removing once |
| Sessions.SweepIdempotent | apps/server/src/oauth.rs:322-334 | a second sweep at the same instant removes nothing |
| Sessions.UnboundedSessionNeverExpires | apps/server/src/oauth.rs:218-260 | a session created without a usable lifetime is accepted at every instant |
| Sessions.BoundedSessionLifetime | apps/server/src/oauth.rs:218-260 | a session created at `t` with lifetime `d` is accepted up to and including `t + d` and refused at every later instant |
| Sessions.SnapshotIgnoresExpiry | apps/server/src/oauth.rs:239-262 | a session the lookup refuses as expired is still returned by the snapshot |
| Sessions.ExpiryInstantAsymmetry | apps/server/src/oauth.rs:255-328 | at `now == expires_at` the lookup still accepts the session, yet the sweep removes it |
| Sessions.SweepPreservesLookups | apps/server/src/oauth.rs:248-334 | unless some session expires exactly at `now`, sweeping changes no lookup answer |
| Identity.IdOf | apps/server/src/oauth.rs:342-350 | `Some(id)` exactly when the first present of `sub`, `id`, `user.id` is a string equal to `id` or a number whose decimal text is `id` |
| Identity.NameOf | apps/server/src/oauth.rs:357-362 | the first present of `name`, `preferred_username`, `login`, kept only if it is a string; nothing for a non-object |
| Identity.ExtractIdentity | apps/server/src/oauth.rs:337-365 | nothing for null; otherwise a user exactly when the profile claims an id, with that id, the string `email` and the name chain's string |
| Identity.SubjectWithEmailAndName | apps/server/src/oauth.rs:337-365 | `{"sub","email","name"}` gives all three fields |
| Identity.NumericId | apps/server/src/oauth.rs:348 | a numeric `id` 42 becomes the text `"42"` |
| Identity.EmptyOrNullProfile | apps/server/src/oauth.rs:338-350 | `{}` and `null` give no identity |
| Identity.WrongTypedSubjectHasNoFallback | apps/server/src/oauth.rs:342-350 | a present `sub` of the wrong type ends the search even when `id` would do |
| Identity.NestedUserId | apps/server/src/oauth.rs:342-362 | the nested `user.id` is used when neither `sub` nor `id` is present; the name falls back to `login` |
| Cookies.MaxAgeFor | apps/server/src/oauth.rs:265-269 | a non-negative lifetime is used as is; a negative one is replaced by the one-hour default |
| Cookies.BuildCookie | apps/server/src/oauth.rs:264-286 | name and value are the configured name and the session id; Path `/`, HttpOnly, SameSite=Lax; Max-Age from the lifetime; Domain and Secure exactly as configured |
| Cookies.BuildLogoutCookie | apps/server/src/oauth.rs:288-304 | the same attributes with an empty value and Max-Age 0 |
| Cookies.LogoutCookieReplacesSessionCookie | apps/server/src/oauth.rs:264-304 | the logout cookie differs from every session cookie only in value and Max-Age, so it overwrites that cookie |
| OAuth.EffectiveScopes | apps/server/src/oauth.rs:99-113 | the configured scopes in order, or `openid` alone when none are configured; never empty |
| OAuth.FromConfig | apps/server/src/oauth.rs:71-127 | the issuer-URL, discovery and redirect-URL failures in that order, with their error kinds; on success, empty stores, the effective scopes and the configured redirects and cookie settings |
| OAuth.BuildAuthorizationUrl | apps/server/src/oauth.rs:141-158 | the login request carries the state's scopes, the CSRF token, the nonce and the PKCE challenge |
| OAuth.SessionUserId | apps/server/src/oauth.rs:248-262 | the user id iff the jar has the configured cookie, its value names a session, and that session is not past its expiry |
| OAuth.CleanupExpired | apps/server/src/oauth.rs:307-335 | pending entries swept at the first clock reading and sessions at the second, each sweep only removing entries; the settings are unchanged |
| OAuth.CleanupIdempotent | apps/server/src/oauth.rs:307-335 | a second cleanup with the same clock readings removes nothing |
| OAuth.CleanupPreservesLogins | apps/server/src/oauth.rs:248-335 | unless a session expires exactly at the session sweep's reading, cleanup resolves every cookie to the same user at that reading as before |
| OAuth.ConfiguredLifetimeReachesCookie | apps/server/src/oauth.rs:115-269 | a state built from an accepted environment issues cookies whose Max-Age is the configured lifetime, and requests at least one scope |
| AuthRoutes.StartLogin | apps/server/src/routes/auth.rs:43-51 | the verifier and nonce are stored under the CSRF token that goes into the login request; the request carries the PKCE challenge and the same nonce that is stored; sessions and settings are unchanged |
| AuthRoutes.AuthRedirect | apps/server/src/routes/auth.rs:163-192 | success redirects (307) to the success page with the session cookie; an error redirects to the failure page with the logout cookie when one is configured, and is returned unchanged otherwise |
| AuthRoutes.ProviderErrorMessage | apps/server/src/routes/auth.rs:57-66 | the provider's error code comes first and its description (or "OAuth authorization failed") last, with `: ` between them |
| AuthRoutes.HandleCallback | apps/server/src/routes/auth.rs:53-106 | the ordered checks with their errors; no provider call before a live pending entry; after one, the code is exchanged with that entry's verifier, userinfo is fetched iff the exchange succeeded, and each failure gives its own error; a session is created exactly when the sign-in gets through |
| AuthRoutes.CurrentSession | apps/server/src/routes/auth.rs:117-133 | `Unauthorized` unless the cookie names a known session; otherwise that session's snapshot |
| AuthRoutes.Logout | apps/server/src/routes/auth.rs:143-161 | always 204; with the cookie, the named session is removed and the logout cookie set; without it nothing changes |
| AuthRoutes.ReplayRefused | apps/server/src/routes/auth.rs:72-81 | a callback replayed with the same state is refused with "Unknown or expired state parameter", calls nothing and creates no session |
| AuthRoutes.EarlyRejectionTouchesNothing | apps/server/src/routes/auth.rs:57-75 | a provider error, a missing code or a missing state leaves both stores unchanged and calls no provider endpoint |
| AuthRoutes.OnlyProviderErrorsRedirect | apps/server/src/routes/auth.rs:68-98 | without a provider error, every failed callback returns an error even when a failure page is configured |
| AuthRoutes.LoginRoundTrip | apps/server/src/routes/auth.rs:43-133 | login, a callback within ten minutes with profile `{"sub": u}`, then the cookie it set: the request is recognised as `u` throughout the token's lifetime, and `/auth/me` shows `u` |
| AuthRoutes.LogoutIdempotent | apps/server/src/routes/auth.rs:143-161 | logging out twice equals logging out once, and afterwards the cookie identifies nobody |
| AuthRoutes.CurrentSessionIgnoresExpiry | apps/server/src/routes/auth.rs:117-133 | `/auth/me` still answers for a session whose expiry has passed, although the same cookie no longer authenticates |
| Config.Port | apps/server/src/config.rs:64-67 | a `u16` read from `PORT`, else 8080 |
| Wrappers.Lookup | apps/server/src/oauth.rs:249 | the value under the key iff the key is present; used for the cookie jar and, through `Config.Var`, the environment |
| Config.Var | apps/server/src/config.rs:75 | the value iff the variable is set |
| Config.VarOr | apps/server/src/config.rs:63 | the variable's value when set, else the default |
| Config.FrontendOrigin | apps/server/src/config.rs:80-81 | `FRONTEND_ORIGIN` when set, else `http://localhost:5173` |
| Config.Scopes | apps/server/src/config.rs:89-94 | the non-blank pieces of `OAUTH_SCOPES` (default `openid email`) split on spaces and commas, kept in order with repetitions by `Text.DropBlank`; no piece holds a separator |
| Config.DefaultScopeList | apps/server/src/config.rs:89-94 | without `OAUTH_SCOPES` the scopes are `openid`, `email` |
| Config.ScopesRoundTrip | apps/server/src/config.rs:89-94 | non-blank scope names free of spaces and commas, written space-separated, are read back as exactly that list, in order |
| Config.CookieSecure | apps/server/src/config.rs:98-101 | true when absent; otherwise true iff the ASCII-lowercased value is `1`, `true` or `yes` |
| Config.CookieSecureSpellings | apps/server/src/config.rs:98-101 | `TRUE` and `Yes` enable the flag; `on` and the empty value disable it |
| Config.TtlAsWritten | apps/server/src/config.rs:102-107 | the lifetime as the code computes it, `None` standing for the panic when a positive value exceeds chrono's range; otherwise the parsed value when positive, else one hour |
| Config.ParsedTtl | apps/server/src/config.rs:102-104 | the `i64` value of `SESSION_TTL_SECONDS` when it parses; 0 when absent or unreadable |
| Config.TtlPanicsBeyondChronoRange | apps/server/src/config.rs:102-107 | `SESSION_TTL_SECONDS=9223372036854776` reaches the panic |
| Config.Ttl | apps/server/src/config.rs:102-107 | always positive and representable; the parsed value whenever it is positive and representable, else one hour; equal to the code's value wherever the code does not panic |
| Config.TtlNonCanonicalSpellings | apps/server/src/config.rs:102-104 | `+5` and `05` both give a five-second lifetime, as `i64::from_str` reads them |
| Config.TtlRoundTrip | apps/server/src/config.rs:102-107 | every representable positive lifetime written in decimal is read back exactly |
| Config.PortRoundTrip | apps/server/src/config.rs:64-67 | every port written in decimal is read back exactly |
| Config.AllowedOrigins | apps/server/src/config.rs:110-115 | the non-blank comma-separated pieces of `ALLOWED_ORIGINS` (default: the frontend origin), in order, each trimmed; each non-empty with no whitespace at either end |
| Config.DefaultOriginList | apps/server/src/config.rs:110-115 | without `ALLOWED_ORIGINS`, a comma-free frontend origin is the one allowed origin, trimmed |
| Config.OriginsRoundTrip | apps/server/src/config.rs:110-115 | non-empty, comma-free origins without surrounding whitespace, written comma-separated, are read back as exactly that list, in order |
| Config.FromEnv | apps/server/src/config.rs:62-144 | missing `MONGODB_URI`, `OAUTH_CLIENT_ID`, `OIDC_ISSUER_URL` reported in that order, and success iff all three are present; then every field is its variable or default: host, port, database, the OAuth and session settings and the allowed origins |
| Config.FromEnvAsWritten | apps/server/src/config.rs:62-144 | the source's `from_env`: it panics exactly when the three required variables are present and the lifetime exceeds chrono's range; otherwise it equals `FromEnv` |
| Config.FromEnvPanicsBeyondChronoRange | apps/server/src/config.rs:102-107 | with the required variables and `SESSION_TTL_SECONDS=9223372036854776`, the source panics while the corrected model uses one hour |
| Config.FromEnvReadsOnlyKnownNames | apps/server/src/config.rs:62-144 | environments that agree on the seventeen variables the configuration reads give the same configuration or error |
| Config.OAuthSettings | apps/server/src/config.rs:73-94 | the client id and issuer; each of the redirect URL and success redirect is its variable when set, else the local callback on the port or the frontend's `/auth/success`; secret and failure redirect optional; the scopes are `Config.Scopes` |
| Config.SessionSettings | apps/server/src/config.rs:96-107 | cookie name from `SESSION_COOKIE_NAME` or `ow_session`, optional domain, the Secure flag of `Config.CookieSecure` and the lifetime of `Config.Ttl` |
| Config.MinimalEnvironment | apps/server/src/config.rs:62-144 | with only the three required variables, every other setting takes its documented default |
| Config.DefaultOAuthSettings | apps/server/src/config.rs:79-94 | the OAuth defaults in an environment with only the required variables |
| Config.DefaultSessionSettings | apps/server/src/config.rs:96-107 | the session defaults: `ow_session`, no domain, Secure, one hour |
| Config.DefaultFrontendOriginAllowed | apps/server/src/config.rs:80-115 | with neither `ALLOWED_ORIGINS` nor `FRONTEND_ORIGIN`, the one allowed origin is `http://localhost:5173` |
| Bearer.IntoResponse | apps/server/src/auth/mod.rs:185-201 | status 401 with the error as body; the challenge header when it is a valid header value, else the bare `Bearer` |
| Bearer.InvalidToken | apps/server/src/auth/mod.rs:169-174 | the `invalid_token` code with the given description |
| Bearer.InvalidRequest | apps/server/src/auth/mod.rs:176-181 | the `invalid_request` code with the given description |
| Bearer.UpToQuoteOf | apps/server/src/auth/mod.rs:187-191 | a quote-free code is read back up to the quote that closes it |
| Bearer.ChallengeTextRoundTrip | apps/server/src/auth/mod.rs:187-191 | the challenge text reads back as the error code and the description, empty when absent, whenever neither holds a double quote |
| Bearer.ChallengeRoundTrip | apps/server/src/auth/mod.rs:187-197 | the error code and description are recovered from the header actually sent, when neither holds a double quote and the challenge is a valid header value |
| Bearer.MiddlewareChallenges | apps/server/src/auth/mod.rs:204-270 | the four errors the gate and the extractor write themselves ("Auth not configured", "Missing Authorization header", "Authorization header must use Bearer scheme", "Missing auth context - is auth middleware applied?") carry the full challenge, never the bare fallback |
| Bearer.ValidChallenge | apps/server/src/auth/mod.rs:187-197 | a challenge is a valid header value when its code and description are |
| Bearer.ToStr | apps/server/src/auth/mod.rs:216 | the header as text iff every byte is a tab or visible ASCII, character for byte |
| Bearer.ToStrRoundTrip | apps/server/src/auth/mod.rs:216 | a header written in visible ASCII reads back exactly |
| Jwks.Init | apps/server/src/auth/mod.rs:51-60 | the first initialisation wins; the key-set URL is the issuer followed by `/.well-known/jwks.json` |
| Jwks.KeysOf | apps/server/src/auth/mod.rs:77-86 | a successful fetch holds only key ids of RSA entries |
| Jwks.CollectRsaKeys | apps/server/src/auth/mod.rs:77-86 | the loop over the entries computes the key set, including aborting at the first unbuildable RSA key |
| Jwks.KeysOfFailureSticks | apps/server/src/auth/mod.rs:80-81 | once a prefix of the entries fails, the whole fetch fails with the same error |
| Jwks.KeysOfFailure | apps/server/src/auth/mod.rs:78-84 | the fetch fails iff some RSA entry's key cannot be built |
| Jwks.KeysOfFirstError | apps/server/src/auth/mod.rs:78-84 | the failure names the first such entry in document order |
| Jwks.KeysOfDomain | apps/server/src/auth/mod.rs:78-84 | a successful fetch holds exactly the key ids of the entries with `kty == "RSA"` |
| Jwks.KeysOfLastWins | apps/server/src/auth/mod.rs:82 | each key id maps to the last RSA entry with that id |
| Jwks.FetchJwks | apps/server/src/auth/mod.rs:67-87 | request and parse failures reported with their reasons; a parsed document reduced to its RSA keys |
| Jwks.GetKey | apps/server/src/auth/mod.rs:90-119 | the cached key iff the cache exists, is under an hour old and holds the id; otherwise a fetch that, on success, replaces the whole cache and fails with "Key not found in JWKS" for an absent id |
| Jwks.VerifyToken | apps/server/src/auth/mod.rs:122-141 | a bad header and a missing key id fail before any key lookup; otherwise the cache is the key lookup's, a lookup failure is passed on, and the library's verdict with that key against the issuer and client id is the answer, its errors prefixed "Token validation failed: " |
| Jwks.VerifyAcceptsExactlyLibraryAccepted | apps/server/src/auth/mod.rs:122-141 | a token is accepted iff its header decodes, names a key id, the key is found and the library validates it; the claims are then the library's |
| Jwks.CacheHitSkipsFetch | apps/server/src/auth/mod.rs:92-102 | a cache hit does not depend on what the network would answer |
| Jwks.FetchedKeyServedForAnHour | apps/server/src/auth/mod.rs:92-114 | a key found by a fetch is served from the cache for the next hour, whatever the key set says by then |
| Jwks.UnknownKidRefetches | apps/server/src/auth/mod.rs:104-118 | an id a fetch did not find is not cached as absent, so the next request fetches again |
| Middleware.BearerToken | apps/server/src/auth/mod.rs:212-230 | the token is the rest of a readable header after the exact `Bearer ` prefix; a missing or unreadable header and a wrong scheme each give their `invalid_request` |
| Middleware.AuthMiddleware | apps/server/src/auth/mod.rs:204-245 | refuses without a verifier, then without a bearer token, then with `invalid_token` carrying the verification error; passes exactly the verified claims; the key cache is the verification's; every refusal is 401 |
| Middleware.ExtractAuthUser | apps/server/src/auth/mod.rs:257-270 | the stored claims, or `invalid_request` when the gate did not run |
| Middleware.BearerHeaderYieldsToken | apps/server/src/auth/mod.rs:224-225 | a visible-ASCII `Bearer <token>` header hands exactly `<token>` on |
| Middleware.LowercaseSchemeRefused | apps/server/src/auth/mod.rs:224-230 | `bearer <token>` is refused as the wrong scheme, before any verification |
| Middleware.PassedClaimsWereValidated | apps/server/src/auth/mod.rs:232-244 | a request let through carries claims the library validated with the key for the token's key id |
| ApiErrors.ParseDisplay | apps/server/src/error.rs:8-22 | a recognised text reads back as the error whose display it is |
| ApiErrors.Display | apps/server/src/error.rs:8-22 | the two fixed texts belong only to their kinds; every other kind's text ends with its detail verbatim |
| ApiErrors.DisplayRoundTrip | apps/server/src/error.rs:8-22 | every error's display text reads back as that error |
| ApiErrors.Status | apps/server/src/error.rs:32-38 | 404 exactly for NotFound, 500 for Database and Http, 401 for Unauthorized, 400 for Auth and Validation |
| ApiErrors.IntoResponse | apps/server/src/error.rs:30-45 | the kind's status and its display text as the body |
| ApiErrors.ResponseIdentifiesError | apps/server/src/error.rs:8-45 | distinct errors give distinct bodies, even at the same status |
| ApiErrors.GlobalError | apps/server/src/error.rs:47-65 | 408 "request timed out" iff the error is a timeout, else 500 "internal server error" |
| ApiErrors.GlobalErrorHidesText | apps/server/src/error.rs:56-63 | two errors of the same kind give identical responses, so the error text is never echoed |
| AppErrors.IntoResponse | apps/server/src/errors.rs:41-62 | status and code correspond one to one; `{r} not found`, the request message verbatim, and a fixed storage message |
| AppErrors.NotFoundError | apps/server/src/errors.rs:28-30 | reaches the client as 404 `NOT_FOUND` with `{resource} not found` |
| AppErrors.BadRequestError | apps/server/src/errors.rs:32-34 | reaches the client as 400 `BAD_REQUEST` with the message verbatim |
| AppErrors.DatabaseError | apps/server/src/errors.rs:36-38 | keeps the driver's text for logging, yet reaches the client as 500 `DATABASE_ERROR` with a fixed message |
| AppErrors.ConstructorResponses | apps/server/src/errors.rs:27-39 | each constructor's error reaches the client as 404 NOT_FOUND, 400 BAD_REQUEST with its message, or 500 DATABASE_ERROR |
| AppErrors.CodeIdentifiesKind | apps/server/src/errors.rs:43-57 | the code alone tells the kind of error |
| AppErrors.DatabaseTextWithheld | apps/server/src/errors.rs:50-57 | two storage failures look identical whatever the driver reported |
| AppErrors.NotFoundNamesResource | apps/server/src/errors.rs:44-48 | distinct resources give distinct not-found messages |
| Text.Trim | apps/server/src/config.rs:114 | `str::trim`: the middle of a cut into a whitespace prefix and suffix, with no whitespace at either end; empty iff the input is blank; an already trimmed string is unchanged |
| Text.TrimCharacterization | apps/server/src/config.rs:114 | any cut into a whitespace prefix, a middle that is empty or has non-whitespace ends, and a whitespace suffix has `trim`'s result as its middle |
| Text.Split | apps/server/src/config.rs:91 | `str::split` on a set of separators: one more piece than separators, and no piece holds a separator |
| Text.SplitJoin | apps/server/src/config.rs:91 | joining the pieces of a split with its separator gives back the input |
| Text.SplitRebuild | apps/server/src/config.rs:91 | putting the separators back between the pieces, in the order they occurred, rebuilds the input |
| Text.SplitOfJoin | apps/server/src/config.rs:91 | separator-free pieces joined with a separator split back into exactly those pieces |
| Text.DropBlank | apps/server/src/config.rs:92 | every kept piece is non-blank, a string is kept iff it is a non-blank piece, and a list without blank pieces is kept whole |
| Text.DropBlankAppend | apps/server/src/config.rs:92 | the pieces kept from a concatenation are those kept from each part, in order and with repetitions |
| Text.DropBlankSnoc | apps/server/src/config.rs:92 | appending a piece appends it to the kept pieces iff it is not blank |
| Text.TrimAllMembers | apps/server/src/config.rs:114 | the trimmed origins are exactly the trimmed forms of the kept pieces, nothing more |
| Text.AsciiLower | apps/server/src/config.rs:100 | `to_ascii_lowercase`, character by character |
| Text.StripPrefix | apps/server/src/auth/mod.rs:224 | the remainder iff the string starts with the prefix exactly |
| Decimal.NatToStringValue | apps/server/src/config.rs:83 | the decimal text of a number denotes that number |
| Decimal.ParseU16 | apps/server/src/config.rs:66 | `u16` parsing: a value iff, after an optional `+`, there is at least one digit, only digits, and the value is at most 65535; the value is the digits' value |
| Decimal.ParseI64 | apps/server/src/config.rs:104 | `i64` parsing: after `-`, a value iff the digits are non-empty and at most 2^63, negated; otherwise a value iff, after an optional `+`, the digits are non-empty and at most 2^63-1 |
| Decimal.ParseSignedRoundTrip | apps/server/src/config.rs:104 | every integer in range written in decimal parses back to itself |
| Decimal.IntToStringInjective | apps/server/src/oauth.rs:348 | distinct numeric ids give distinct id texts |
| Json.Pointer | apps/server/src/oauth.rs:345 | the empty path gives the value itself; a path that reaches something starts with a key of the object |
| Json.PointerTwoKeys | apps/server/src/oauth.rs:345 | the path `/user/id` reaches the `id` member of the object under `user`, and nothing when either step is missing |
| Json.PointerAppend | apps/server/src/oauth.rs:345 | walking a path in two legs equals walking the first leg and then the second |

## Left out

- The network calls have their outcomes as inputs: OIDC discovery and client construction (apps/server/src/oauth.rs:75-97, modelled only as possible errors), token exchange and userinfo (oauth.rs:184-209), and the key-set HTTP request (auth/mod.rs:67-75).
- Randomness is not modelled. The CSRF token, PKCE verifier and challenge, nonce and session id (oauth.rs:141-158, 217) are supplied by the caller; a session id must not already be in use.
- Rendering the authorization URL is left to the OIDC client library. That includes the scope and challenge encoding and the library's own `openid` scope. The model keeps the request's contents.
- JWT decoding, signature and claim validation, and RSA key construction (auth/mod.rs:80, 124, 132-138) belong to the jsonwebtoken library. They are inputs: functions in `Jwks.TokenLibrary`.
- Concurrency (`tokio::sync::RwLock`) is left out: each store operation is one atomic map transition, and two requests racing on `get_key` are not modelled. Logging is left out.
- Clocks are integer seconds. `take_pending` and `create_session` each read the clock separately; one callback uses a single `now`. `cleanup_expired` reads it twice (oauth.rs:311, 325), and `OAuth.CleanupExpired` takes both readings as inputs. `Instant::elapsed` becomes `now - fetchedAt`.
- Rendering cookies to `Set-Cookie` text is left out, and so is the `HeaderValue::from_str(..).unwrap()` applied to it (routes/auth.rs:155, 173, 184). A cookie name or domain holding a control character would panic there.
- Environment values that are not valid Unicode (which `env::var` reports as errors) cannot be represented in `Config.Env`.
- The display texts of `ConfigError` are not modelled.
- JSON numbers are integers. A floating-point id's text is not modelled.
- `expires_in` is whole seconds. Sub-second parts of the token lifetime are dropped.
- Sessions.ExpiryFor: does not model chrono's `DateTime` range. A lifetime that fits a `TimeDelta` but moves `now` past year 262143 makes `Utc::now() + duration` panic in the source (oauth.rs:220); the model gives an expiry instead.
- Config.FromEnv: uses the corrected `Config.Ttl`, so `SESSION_TTL_SECONDS=9223372036854776` gives a configuration with the one-hour lifetime where the source panics (see Findings); `Config.FromEnvAsWritten` keeps the panic.
- Jwks.FetchJwks: takes the key-set document already parsed into entries. serde requires every entry to carry `kid`, `kty`, `alg`, `n` and `e` (auth/mod.rs:23-30), so an entry missing one, such as an EC key, makes the whole document fail at auth/mod.rs:72-75. The model sees only `Unparsable`, not which entry caused it.
- Orders, the database layer, server wiring, OpenAPI generation and plain models (routes/orders.rs, db.rs, main.rs, state.rs, routes/mod.rs, docs.rs, models.rs) are outside this model.

## Findings

| source | as written | input that shows it | evidently intended | confidence | as-written member | corrected member |
|---|---|---|---|---|---|---|
| apps/server/src/config.rs:102-107 | every positive `i64` in `SESSION_TTL_SECONDS` goes to `ChronoDuration::seconds`, which panics above `i64::MAX / 1000` seconds | `SESSION_TTL_SECONDS=9223372036854776` | an unusable lifetime falls back to the one-hour default like any other invalid value, instead of aborting start-up | medium; not executed | Config.TtlAsWritten (shown by Config.TtlPanicsBeyondChronoRange) | Config.Ttl |

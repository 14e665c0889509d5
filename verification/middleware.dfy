/** The API's bearer-token gate (`auth_middleware`) and the extractor that
    hands the verified claims to a handler (`AuthUser`). The process-wide
    verifier slot and its key cache are explicit inputs and outputs. */
module Middleware {
  import opened Wrappers
  import opened Text
  import opened Bearer
  import opened Jwks

  /** The scheme prefix, matched exactly (case-sensitive, one space). */
  const BearerPrefix: string := "Bearer "

  /** Let the request through with its claims, or answer it. */
  datatype Decision = Pass(claims: Claims) | Reject(response: AuthResponse)

  /** The token in an `Authorization` header: its text must be readable and
      start with `Bearer `; the error to answer with otherwise. */
  function BearerToken(authorization: Option<seq<Byte>>): (r: Result<string, AuthError>)
    ensures r.Success? <==> authorization.Some? && ToStr(authorization.value).Some?
                            && StripPrefix(ToStr(authorization.value).value, BearerPrefix).Some?
    ensures r.Success? ==> BearerPrefix + r.value == ToStr(authorization.value).value
    ensures (authorization.None? || ToStr(authorization.value).None?)
            ==> r == Failure(InvalidRequest("Missing Authorization header"))
    ensures authorization.Some? && ToStr(authorization.value).Some? && r.Failure?
            ==> r == Failure(InvalidRequest("Authorization header must use Bearer scheme"))
  {
    match authorization
    case None => Failure(InvalidRequest("Missing Authorization header"))
    case Some(bytes) =>
      match ToStr(bytes)
      case None => Failure(InvalidRequest("Missing Authorization header"))
      case Some(text) =>
        match StripPrefix(text, BearerPrefix)
        case None => Failure(InvalidRequest("Authorization header must use Bearer scheme"))
        case Some(token) => Success(token)
  }

  /** `auth_middleware`: refuse when no verifier was initialised, then take
      the bearer token, then verify it; a verification failure is answered as
      `invalid_token` with the verifier's message. */
  function AuthMiddleware(slot: Option<JwksVerifier>, cache: Option<JwksCache>, authorization: Option<seq<Byte>>,
                          now: int, lib: TokenLibrary, doc: JwksDocument): (r: (Option<JwksCache>, Decision))
    ensures slot.None? ==> r == (cache, Reject(IntoResponse(InvalidToken("Auth not configured"))))
    ensures slot.Some? && BearerToken(authorization).Failure?
            ==> r == (cache, Reject(IntoResponse(BearerToken(authorization).error)))
    ensures r.1.Pass? <==> && slot.Some? && BearerToken(authorization).Success?
                           && VerifyToken(slot.value, cache, BearerToken(authorization).value, now, lib, doc).1.Success?
    ensures r.1.Pass? ==> r == (VerifyToken(slot.value, cache, BearerToken(authorization).value, now, lib, doc).0,
                                Pass(VerifyToken(slot.value, cache, BearerToken(authorization).value, now, lib, doc).1.value))
    ensures slot.Some? && BearerToken(authorization).Success?
            && VerifyToken(slot.value, cache, BearerToken(authorization).value, now, lib, doc).1.Failure?
            ==> var verified := VerifyToken(slot.value, cache, BearerToken(authorization).value, now, lib, doc);
                r == (verified.0, Reject(IntoResponse(InvalidToken(verified.1.error))))
    ensures r.1.Reject? ==> r.1.response.status == Unauthorized
  {
    match slot
    case None => (cache, Reject(IntoResponse(InvalidToken("Auth not configured"))))
    case Some(verifier) =>
      match BearerToken(authorization)
      case Failure(err) => (cache, Reject(IntoResponse(err)))
      case Success(token) =>
        var (cache', verified) := VerifyToken(verifier, cache, token, now, lib, doc);
        match verified
        case Failure(msg) => (cache', Reject(IntoResponse(InvalidToken(msg))))
        case Success(claims) => (cache', Pass(claims))
  }

  /** `AuthUser::from_request_parts`: the claims the gate stored, or an
      `invalid_request` answer when the gate did not run. */
  function ExtractAuthUser(claims: Option<Claims>): (r: Result<Claims, AuthResponse>)
    ensures r.Success? <==> claims.Some?
    ensures r.Success? ==> r.value == claims.value
    ensures r.Failure? ==> r.error == IntoResponse(InvalidRequest("Missing auth context - is auth middleware applied?"))
  {
    match claims
    case Some(c) => Success(c)
    case None => Failure(IntoResponse(InvalidRequest("Missing auth context - is auth middleware applied?")))
  }

  /** A header sent as `Bearer <token>` in visible ASCII hands exactly
      `<token>` to the verifier. */
  lemma {:induction false} BearerHeaderYieldsToken(token: string)
    requires forall i :: 0 <= i < |token| ==> ' ' <= token[i] <= '~'
    ensures BearerToken(Some(Latin1(BearerPrefix + token))) == Success(token)
  {
    var text := BearerPrefix + token;
    ToStrRoundTrip(text);
    assert text[..|BearerPrefix|] == BearerPrefix && text[|BearerPrefix|..] == token;
  }

  /** The scheme is matched case-sensitively: `bearer <token>` is refused
      before any verification. */
  lemma {:induction false} LowercaseSchemeRefused(token: string)
    requires forall i :: 0 <= i < |token| ==> ' ' <= token[i] <= '~'
    ensures BearerToken(Some(Latin1("bearer " + token)))
         == Failure(InvalidRequest("Authorization header must use Bearer scheme"))
  {
    var text := "bearer " + token;
    ToStrRoundTrip(text);
    assert text[0] == 'b';
    assert text[..|BearerPrefix|] != BearerPrefix;
  }

  /** A request the gate lets through carries claims the token library
      validated with the cached or fetched key for the token's key id,
      against the verifier's issuer and client id. */
  lemma PassedClaimsWereValidated(slot: Option<JwksVerifier>, cache: Option<JwksCache>,
                                  authorization: Option<seq<Byte>>, now: int, lib: TokenLibrary, doc: JwksDocument)
    requires AuthMiddleware(slot, cache, authorization, now, lib, doc).1.Pass?
    ensures var token := BearerToken(authorization).value;
            var h := lib.decodeHeader(token).value;
            && lib.decodeHeader(token).Success? && h.kid.Some?
            && GetKey(cache, h.kid.value, now, doc, lib.rsaKeyError).1.Success?
            && lib.decode(token, GetKey(cache, h.kid.value, now, doc, lib.rsaKeyError).1.value,
                          Validation(h.alg, slot.value.issuer, slot.value.clientId))
               == Success(AuthMiddleware(slot, cache, authorization, now, lib, doc).1.claims)
  {
  }
}

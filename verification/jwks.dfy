/** The API's JWT verifier (`auth::JwksVerifier`): the issuer's JSON Web Key
    Set, reduced to its RSA keys by key id, cached for an hour, and used to
    check bearer tokens. The HTTP fetch and the cryptography belong to
    libraries: the fetched document, the key-construction check, header
    decoding and token validation are inputs. */
module Jwks {
  import opened Wrappers

  /** One entry of the key set (`Jwk`). */
  datatype Jwk = Jwk(kid: string, kty: string, alg: string, n: string, e: string)

  /** An RSA public key, by modulus and exponent. */
  datatype DecodingKey = DecodingKey(n: string, e: string)

  type KeyMap = map<string, DecodingKey>

  /** The cached keys and the instant, in seconds, they were fetched. */
  datatype JwksCache = JwksCache(keys: KeyMap, fetchedAt: int)

  datatype JwksVerifier = JwksVerifier(jwksUrl: string, issuer: string, clientId: string)

  /** How long fetched keys are served without refetching, in seconds. */
  const CacheLifetime: int := 3600

  /** Where the key set is published, relative to the issuer. */
  const JwksPath: string := "/.well-known/jwks.json"

  /** The outcome of fetching the key set: the parsed entries, or why the
      request or the parse failed. */
  datatype JwksDocument = Fetched(entries: seq<Jwk>) | Unreachable(reason: string) | Unparsable(reason: string)

  /** The token claims the API uses (`Claims`). */
  datatype Claims = Claims(
    sub: string,
    email: Option<string>,
    username: Option<string>,
    iss: Option<string>,
    aud: Option<string>,
    exp: Option<nat>,
    iat: Option<nat>,
    tokenUse: Option<string>)

  /** The decoded JOSE header: the algorithm and the key id, if any. */
  datatype TokenHeader = TokenHeader(alg: string, kid: Option<string>)

  /** What a token is checked against: its header's algorithm, the issuer and
      the client id as audience. */
  datatype Validation = Validation(alg: string, issuer: string, audience: string)

  /** The library operations the verifier calls: decoding a token's header,
      decoding and validating a token with a key, and the error (if any) of
      building an RSA key from its components. */
  datatype TokenLibrary = TokenLibrary(
    decodeHeader: string -> Result<TokenHeader, string>,
    decode: (string, DecodingKey, Validation) -> Result<Claims, string>,
    rsaKeyError: (string, string) -> Option<string>)

  /** `JwksVerifier::init` on the process-wide slot: the first
      initialisation wins, later ones are ignored. */
  function Init(slot: Option<JwksVerifier>, issuer: string, clientId: string): (r: Option<JwksVerifier>)
    ensures r.Some?
    ensures slot.Some? ==> r == slot
    ensures slot.None? ==> r.value.issuer == issuer && r.value.clientId == clientId
                           && r.value.jwksUrl == issuer + JwksPath
  {
    match slot
    case Some(_) => slot
    case None => Some(JwksVerifier(issuer + JwksPath, issuer, clientId))
  }

  predicate IsRsa(k: Jwk) {
    k.kty == "RSA"
  }

  /** The key set after the entries `entries`, read in order: RSA entries
      are added by key id, a later entry replacing an earlier one with the same
      id; the first RSA entry whose key cannot be built aborts the whole
      fetch. */
  function KeysOf(entries: seq<Jwk>, rsaKeyError: (string, string) -> Option<string>): (r: Result<KeyMap, string>)
    ensures r.Success? ==> forall kid :: kid in r.value ==> RsaEntryFor(entries, kid)
  {
    if |entries| == 0 then Success(map[])
    else
      var init := entries[..|entries| - 1];
      match KeysOf(init, rsaKeyError)
      case Failure(err) => Failure(err)
      case Success(keys) =>
        var k := entries[|entries| - 1];
        assert forall kid :: RsaEntryFor(init, kid) ==> RsaEntryFor(entries, kid) by {
          forall kid | RsaEntryFor(init, kid) ensures RsaEntryFor(entries, kid) {
            var i :| 0 <= i < |init| && IsRsa(init[i]) && init[i].kid == kid;
            assert entries[i] == init[i];
          }
        }
        if !IsRsa(k) then Success(keys)
        else
          match rsaKeyError(k.n, k.e)
          case Some(err) => Failure("Failed to create decoding key: " + err)
          case None => Success(keys[k.kid := DecodingKey(k.n, k.e)])
  }

  /** The loop of `fetch_jwks` over the parsed entries. */
  method CollectRsaKeys(entries: seq<Jwk>, rsaKeyError: (string, string) -> Option<string>)
    returns (r: Result<KeyMap, string>)
    ensures r == KeysOf(entries, rsaKeyError)
  {
    var keys: KeyMap := map[];
    var i := 0;
    while i < |entries|
      invariant 0 <= i <= |entries|
      invariant KeysOf(entries[..i], rsaKeyError) == Success(keys)
    {
      var k := entries[i];
      assert entries[..i + 1][..i] == entries[..i];
      if IsRsa(k) {
        var err := rsaKeyError(k.n, k.e);
        if err.Some? {
          assert entries[..i + 1][i] == k;
          assert KeysOf(entries[..i + 1], rsaKeyError) == Failure("Failed to create decoding key: " + err.value);
          KeysOfFailureSticks(entries, i + 1, rsaKeyError);
          return Failure("Failed to create decoding key: " + err.value);
        }
        keys := keys[k.kid := DecodingKey(k.n, k.e)];
      }
      i := i + 1;
    }
    assert entries[..i] == entries;
    return Success(keys);
  }

  /** Once a prefix of the entries fails, the whole list fails the same way. */
  lemma {:induction false} KeysOfFailureSticks(entries: seq<Jwk>, i: nat, rsaKeyError: (string, string) -> Option<string>)
    requires i <= |entries|
    requires KeysOf(entries[..i], rsaKeyError).Failure?
    ensures KeysOf(entries, rsaKeyError) == KeysOf(entries[..i], rsaKeyError)
    decreases |entries| - i
  {
    if i < |entries| {
      assert entries[..i + 1][..i] == entries[..i];
      assert KeysOf(entries[..i + 1], rsaKeyError) == KeysOf(entries[..i], rsaKeyError);
      KeysOfFailureSticks(entries, i + 1, rsaKeyError);
    } else {
      assert entries[..i] == entries;
    }
  }

  /** An RSA entry whose key cannot be built. */
  predicate Unbuildable(k: Jwk, rsaKeyError: (string, string) -> Option<string>) {
    IsRsa(k) && rsaKeyError(k.n, k.e).Some?
  }

  /** The fetch fails exactly when some RSA entry's key cannot be built. */
  lemma {:induction false} KeysOfFailure(entries: seq<Jwk>, rsaKeyError: (string, string) -> Option<string>)
    ensures KeysOf(entries, rsaKeyError).Failure?
            <==> exists i :: 0 <= i < |entries| && Unbuildable(entries[i], rsaKeyError)
  {
    if |entries| > 0 {
      var init := entries[..|entries| - 1];
      KeysOfFailure(init, rsaKeyError);
      if exists i :: 0 <= i < |entries| && Unbuildable(entries[i], rsaKeyError) {
        var i :| 0 <= i < |entries| && Unbuildable(entries[i], rsaKeyError);
        if i < |init| {
          assert init[i] == entries[i];
        }
      }
      if exists i :: 0 <= i < |init| && Unbuildable(init[i], rsaKeyError) {
        var i :| 0 <= i < |init| && Unbuildable(init[i], rsaKeyError);
        assert entries[i] == init[i];
      }
    }
  }

  /** The failure reports the first RSA entry, in document order, whose key
      cannot be built. */
  lemma {:induction false} KeysOfFirstError(entries: seq<Jwk>, rsaKeyError: (string, string) -> Option<string>, i: int)
    requires 0 <= i < |entries| && Unbuildable(entries[i], rsaKeyError)
    requires forall j :: 0 <= j < i ==> !Unbuildable(entries[j], rsaKeyError)
    ensures KeysOf(entries, rsaKeyError)
         == Failure("Failed to create decoding key: " + rsaKeyError(entries[i].n, entries[i].e).value)
  {
    var prefix := entries[..i];
    KeysOfFailure(prefix, rsaKeyError);
    assert forall j :: 0 <= j < |prefix| ==> prefix[j] == entries[j];
    assert entries[..i + 1][..i] == prefix && entries[..i + 1][i] == entries[i];
    KeysOfFailureSticks(entries, i + 1, rsaKeyError);
  }

  /** A successful fetch holds exactly the key ids of the RSA entries. */
  lemma {:induction false} KeysOfDomain(entries: seq<Jwk>, rsaKeyError: (string, string) -> Option<string>, kid: string)
    requires KeysOf(entries, rsaKeyError).Success?
    ensures kid in KeysOf(entries, rsaKeyError).value <==> RsaEntryFor(entries, kid)
  {
    if |entries| > 0 {
      var init := entries[..|entries| - 1];
      var k := entries[|entries| - 1];
      KeysOfDomain(init, rsaKeyError, kid);
      if RsaEntryFor(entries, kid) && !(IsRsa(k) && k.kid == kid) {
        var i :| 0 <= i < |entries| && IsRsa(entries[i]) && entries[i].kid == kid;
        assert i < |init| && init[i] == entries[i];
      }
      if RsaEntryFor(init, kid) {
        var i :| 0 <= i < |init| && IsRsa(init[i]) && init[i].kid == kid;
        assert entries[i] == init[i];
      }
    }
  }

  /** In a successful fetch each key id maps to the last RSA entry with that id. */
  lemma {:induction false} KeysOfLastWins(entries: seq<Jwk>, rsaKeyError: (string, string) -> Option<string>, i: int)
    requires KeysOf(entries, rsaKeyError).Success?
    requires 0 <= i < |entries| && IsRsa(entries[i]) && LastWithId(entries, i)
    ensures entries[i].kid in KeysOf(entries, rsaKeyError).value
    ensures KeysOf(entries, rsaKeyError).value[entries[i].kid] == DecodingKey(entries[i].n, entries[i].e)
  {
    var init := entries[..|entries| - 1];
    var k := entries[|entries| - 1];
    if i < |init| {
      assert init[i] == entries[i];
      assert LastWithId(init, i);
      KeysOfLastWins(init, rsaKeyError, i);
      assert !(IsRsa(k) && k.kid == entries[i].kid);
    }
  }

  /** Some RSA entry has key id `kid`. */
  predicate RsaEntryFor(entries: seq<Jwk>, kid: string) {
    exists i :: 0 <= i < |entries| && IsRsa(entries[i]) && entries[i].kid == kid
  }

  /** No later RSA entry has the same key id as entry `i`. */
  predicate LastWithId(entries: seq<Jwk>, i: int)
    requires 0 <= i < |entries|
  {
    forall j :: i < j < |entries| && IsRsa(entries[j]) ==> entries[j].kid != entries[i].kid
  }

  /** `fetch_jwks`: the request's and the parse's errors are reported with
      their reason; a parsed document is reduced to its RSA keys. */
  function FetchJwks(doc: JwksDocument, rsaKeyError: (string, string) -> Option<string>): (r: Result<KeyMap, string>)
    ensures doc.Unreachable? ==> r == Failure("Failed to fetch JWKS: " + doc.reason)
    ensures doc.Unparsable? ==> r == Failure("Failed to parse JWKS: " + doc.reason)
    ensures doc.Fetched? ==> r == KeysOf(doc.entries, rsaKeyError)
  {
    match doc
    case Unreachable(reason) => Failure("Failed to fetch JWKS: " + reason)
    case Unparsable(reason) => Failure("Failed to parse JWKS: " + reason)
    case Fetched(entries) => KeysOf(entries, rsaKeyError)
  }

  /** The cache answers a lookup: it exists, is less than an hour old and
      holds the key id. */
  predicate CacheHit(cache: Option<JwksCache>, kid: string, now: int) {
    cache.Some? && now - cache.value.fetchedAt < CacheLifetime && kid in cache.value.keys
  }

  /** `get_key`: the cached key on a hit; otherwise a fetch, which on success
      replaces the whole cache (stamped `now`) and then looks the id up, and
      on failure leaves the cache alone. */
  function GetKey(cache: Option<JwksCache>, kid: string, now: int, doc: JwksDocument,
                  rsaKeyError: (string, string) -> Option<string>): (r: (Option<JwksCache>, Result<DecodingKey, string>))
    ensures CacheHit(cache, kid, now) ==> r == (cache, Success(cache.value.keys[kid]))
    ensures !CacheHit(cache, kid, now) && FetchJwks(doc, rsaKeyError).Failure?
            ==> r == (cache, Failure(FetchJwks(doc, rsaKeyError).error))
    ensures !CacheHit(cache, kid, now) && FetchJwks(doc, rsaKeyError).Success?
            ==> r.0 == Some(JwksCache(FetchJwks(doc, rsaKeyError).value, now))
    ensures r.1.Success? <==> CacheHit(cache, kid, now)
                              || (FetchJwks(doc, rsaKeyError).Success? && kid in FetchJwks(doc, rsaKeyError).value)
    ensures r.1.Failure? && !CacheHit(cache, kid, now) && FetchJwks(doc, rsaKeyError).Success?
            ==> r.1.error == "Key not found in JWKS"
    ensures r.1.Success? && r.0.Some? ==> kid in r.0.value.keys && r.0.value.keys[kid] == r.1.value
  {
    if CacheHit(cache, kid, now) then (cache, Success(cache.value.keys[kid]))
    else
      match FetchJwks(doc, rsaKeyError)
      case Failure(err) => (cache, Failure(err))
      case Success(keys) =>
        (Some(JwksCache(keys, now)), if kid in keys then Success(keys[kid]) else Failure("Key not found in JWKS"))
  }

  /** `verify_token`: read the header, require a key id, get the key, then
      let the library validate the token against the header's algorithm, the
      issuer and the client id. */
  function VerifyToken(v: JwksVerifier, cache: Option<JwksCache>, token: string, now: int,
                       lib: TokenLibrary, doc: JwksDocument): (r: (Option<JwksCache>, Result<Claims, string>))
    ensures lib.decodeHeader(token).Failure?
            ==> r == (cache, Failure("Invalid token header: " + lib.decodeHeader(token).error))
    ensures lib.decodeHeader(token).Success? && lib.decodeHeader(token).value.kid.None?
            ==> r == (cache, Failure("Token missing kid claim"))
    // With a key id, the cache is whatever the key lookup leaves behind ...
    ensures lib.decodeHeader(token).Success? && lib.decodeHeader(token).value.kid.Some?
            ==> var h := lib.decodeHeader(token).value;
                var key := GetKey(cache, h.kid.value, now, doc, lib.rsaKeyError);
                && r.0 == key.0
                // ... a failed lookup is reported as is ...
                && (key.1.Failure? ==> r.1 == Failure(key.1.error))
                // ... and with the key, the library's verdict decides.
                && (key.1.Success? ==>
                      var decoded := lib.decode(token, key.1.value, Validation(h.alg, v.issuer, v.clientId));
                      && (decoded.Success? ==> r.1 == Success(decoded.value))
                      && (decoded.Failure? ==> r.1 == Failure("Token validation failed: " + decoded.error)))
    ensures r.1.Success? ==> && lib.decodeHeader(token).Success?
                             && var h := lib.decodeHeader(token).value;
                             && h.kid.Some?
                             && var key := GetKey(cache, h.kid.value, now, doc, lib.rsaKeyError);
                             && key.1.Success?
                             && lib.decode(token, key.1.value, Validation(h.alg, v.issuer, v.clientId)) == Success(r.1.value)
  {
    match lib.decodeHeader(token)
    case Failure(err) => (cache, Failure("Invalid token header: " + err))
    case Success(header) =>
      match header.kid
      case None => (cache, Failure("Token missing kid claim"))
      case Some(kid) =>
        var (cache', key) := GetKey(cache, kid, now, doc, lib.rsaKeyError);
        match key
        case Failure(err) => (cache', Failure(err))
        case Success(k) =>
          match lib.decode(token, k, Validation(header.alg, v.issuer, v.clientId))
          case Failure(err) => (cache', Failure("Token validation failed: " + err))
          case Success(claims) => (cache', Success(claims))
  }

  /** The library accepts the token: its header decodes with a key id, the
      key for that id is found, and the token validates with it against the
      header's algorithm, the issuer and the client id. */
  predicate LibraryAccepts(v: JwksVerifier, cache: Option<JwksCache>, token: string, now: int,
                           lib: TokenLibrary, doc: JwksDocument)
  {
    && lib.decodeHeader(token).Success?
    && lib.decodeHeader(token).value.kid.Some?
    && var h := lib.decodeHeader(token).value;
    && var key := GetKey(cache, h.kid.value, now, doc, lib.rsaKeyError);
    && key.1.Success?
    && lib.decode(token, key.1.value, Validation(h.alg, v.issuer, v.clientId)).Success?
  }

  /** A token is accepted exactly when the library accepts it, and then with
      the claims the library decoded. */
  lemma VerifyAcceptsExactlyLibraryAccepted(v: JwksVerifier, cache: Option<JwksCache>, token: string, now: int,
                                            lib: TokenLibrary, doc: JwksDocument)
    ensures VerifyToken(v, cache, token, now, lib, doc).1.Success? <==> LibraryAccepts(v, cache, token, now, lib, doc)
    ensures LibraryAccepts(v, cache, token, now, lib, doc)
            ==> var h := lib.decodeHeader(token).value;
                var key := GetKey(cache, h.kid.value, now, doc, lib.rsaKeyError).1.value;
                VerifyToken(v, cache, token, now, lib, doc).1
                == lib.decode(token, key, Validation(h.alg, v.issuer, v.clientId))
  {
  }

  /** A lookup the cache answers never consults the network: any document
      gives the same answer and the same cache. */
  lemma CacheHitSkipsFetch(cache: Option<JwksCache>, kid: string, now: int,
                           doc1: JwksDocument, doc2: JwksDocument, rsaKeyError: (string, string) -> Option<string>)
    requires CacheHit(cache, kid, now)
    ensures GetKey(cache, kid, now, doc1, rsaKeyError) == GetKey(cache, kid, now, doc2, rsaKeyError)
  {
  }

  /** A key found by a fetch is served from the cache for the next hour,
      whatever the key set would say by then. */
  lemma FetchedKeyServedForAnHour(cache: Option<JwksCache>, kid: string, now: int, later: int,
                                  doc: JwksDocument, laterDoc: JwksDocument,
                                  rsaKeyError: (string, string) -> Option<string>)
    requires GetKey(cache, kid, now, doc, rsaKeyError).1.Success?
    requires !CacheHit(cache, kid, now)
    requires now <= later < now + CacheLifetime
    ensures GetKey(GetKey(cache, kid, now, doc, rsaKeyError).0, kid, later, laterDoc, rsaKeyError)
         == GetKey(cache, kid, now, doc, rsaKeyError)
  {
  }

  /** A key id unknown to a fresh fetch is looked up again on every request:
      an unknown id is never cached as absent. */
  lemma UnknownKidRefetches(cache: Option<JwksCache>, kid: string, now: int, later: int,
                            doc: JwksDocument, rsaKeyError: (string, string) -> Option<string>)
    requires !CacheHit(cache, kid, now) && now <= later
    requires GetKey(cache, kid, now, doc, rsaKeyError).1.Failure?
    ensures !CacheHit(GetKey(cache, kid, now, doc, rsaKeyError).0, kid, later)
  {
  }
}

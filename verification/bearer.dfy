/** The bearer-token error of the API middleware (`auth::AuthError`): an
    error code of section 3.1 of RFC 6750 with a description, answered with
    401 and a `WWW-Authenticate: Bearer error="…", error_description="…"`
    challenge (section 3 of RFC 6750). Also the two header rules the
    middleware relies on: which strings a header value may hold, and which
    request header bytes read as text. */
module Bearer {
  import opened Wrappers
  import opened Text

  /** One byte of a raw header value. */
  newtype Byte = b: int | 0 <= b < 256

  datatype AuthError = AuthError(error: string, errorDescription: Option<string>)

  /** A status with the challenge header and the JSON body. */
  datatype AuthResponse = AuthResponse(status: nat, wwwAuthenticate: string, body: AuthError)

  const Unauthorized: nat := 401

  /** `AuthError::invalid_token`. */
  function InvalidToken(description: string): (e: AuthError)
    ensures e.error == "invalid_token" && e.errorDescription == Some(description)
  {
    AuthError("invalid_token", Some(description))
  }

  /** `AuthError::invalid_request`. */
  function InvalidRequest(description: string): (e: AuthError)
    ensures e.error == "invalid_request" && e.errorDescription == Some(description)
  {
    AuthError("invalid_request", Some(description))
  }

  /** The text before the error code, and the text between the code's
      closing quote and the description. */
  const ChallengeHead: string := "Bearer error=\""
  const ChallengeMid: string := ", error_description=\""

  /** The challenge text, with an empty description when there is none. */
  function ChallengeText(e: AuthError): string {
    ChallengeHead + e.error + "\"" + ChallengeMid + e.errorDescription.UnwrapOr("") + "\""
  }

  /** A character `HeaderValue::from_str` accepts: a tab, or anything from
      the space upwards except DEL (characters beyond ASCII encode to bytes
      of 0x80 and above, which are accepted). */
  predicate HeaderValueChar(c: char) {
    c == '\t' || (' ' <= c && c != '\U{7F}')
  }

  predicate ValidHeaderValue(s: string) {
    forall i :: 0 <= i < |s| ==> HeaderValueChar(s[i])
  }

  /** `into_response`: 401 with the error as body and the challenge as
      header, or the bare `Bearer` challenge when the text is not a valid
      header value. */
  function IntoResponse(e: AuthError): (r: AuthResponse)
    ensures r.status == Unauthorized && r.body == e
    ensures ValidHeaderValue(r.wwwAuthenticate)
    ensures ValidHeaderValue(ChallengeText(e)) ==> r.wwwAuthenticate == ChallengeText(e)
    ensures !ValidHeaderValue(ChallengeText(e)) ==> r.wwwAuthenticate == "Bearer"
  {
    var text := ChallengeText(e);
    AuthResponse(Unauthorized, if ValidHeaderValue(text) then text else "Bearer", e)
  }

  /** The text before the first double quote and the text after it. */
  function UpToQuote(s: string): (r: Option<(string, string)>)
    ensures r.Some? ==> r.value.0 + "\"" + r.value.1 == s
    ensures r.Some? ==> forall i :: 0 <= i < |r.value.0| ==> r.value.0[i] != '"'
    ensures r.None? ==> forall i :: 0 <= i < |s| ==> s[i] != '"'
  {
    if |s| == 0 then None
    else if s[0] == '"' then Some(("", s[1..]))
    else
      match UpToQuote(s[1..])
      case None => None
      case Some((a, b)) => Some(([s[0]] + a, b))
  }

  predicate QuoteFree(s: string) {
    forall i :: 0 <= i < |s| ==> s[i] != '"'
  }

  lemma {:induction false} UpToQuoteOf(a: string, b: string)
    requires QuoteFree(a)
    ensures UpToQuote(a + "\"" + b) == Some((a, b))
  {
    var s := a + "\"" + b;
    if |a| > 0 {
      UpToQuoteOf(a[1..], b);
      assert s[0] == a[0] && s[1..] == a[1..] + "\"" + b;
      assert [a[0]] + a[1..] == a;
    } else {
      assert s[0] == '"' && s[1..] == b;
    }
  }

  /** Reads a challenge back into its error code and description, as a
      client following RFC 6750 would. */
  function ParseChallenge(h: string): (r: Option<(string, string)>)
  {
    match StripPrefix(h, ChallengeHead)
    case None => None
    case Some(rest) =>
      match UpToQuote(rest)
      case None => None
      case Some((error, tail)) =>
        match StripPrefix(tail, ChallengeMid)
        case None => None
        case Some(quoted) =>
          if |quoted| > 0 && quoted[|quoted| - 1] == '"' && QuoteFree(quoted[..|quoted| - 1])
          then Some((error, quoted[..|quoted| - 1]))
          else None
  }

  /** A client recovers the error code and the description from the
      challenge whenever neither contains a double quote and the challenge is
      a valid header value. */
  lemma ChallengeRoundTrip(e: AuthError)
    requires QuoteFree(e.error) && QuoteFree(e.errorDescription.UnwrapOr(""))
    requires ValidHeaderValue(ChallengeText(e))
    ensures ParseChallenge(IntoResponse(e).wwwAuthenticate) == Some((e.error, e.errorDescription.UnwrapOr("")))
  {
    ChallengeTextRoundTrip(e);
  }

  /** The challenge text, read back, gives the error code and the
      description (empty when there is none) whenever neither contains a
      double quote. */
  lemma {:induction false} ChallengeTextRoundTrip(e: AuthError)
    requires QuoteFree(e.error) && QuoteFree(e.errorDescription.UnwrapOr(""))
    ensures ParseChallenge(ChallengeText(e)) == Some((e.error, e.errorDescription.UnwrapOr("")))
  {
    var d := e.errorDescription.UnwrapOr("");
    var head := ChallengeHead;
    var mid := ChallengeMid;
    var quoted := d + "\"";
    var tail := mid + quoted;
    var rest := e.error + "\"" + tail;
    assert ChallengeText(e) == head + rest;
    StripPrefixOfConcat(head, rest);
    UpToQuoteOf(e.error, tail);
    StripPrefixOfConcat(mid, quoted);
    assert quoted[..|quoted| - 1] == d;
  }

  lemma StripPrefixOfConcat(a: string, b: string)
    ensures StripPrefix(a + b, a) == Some(b)
  {
    assert (a + b)[..|a|] == a && (a + b)[|a|..] == b;
  }

  /** The errors the gate and the extractor write themselves always carry
      their full challenge, never the bare fallback. */
  lemma MiddlewareChallenges()
    ensures IntoResponse(InvalidToken("Auth not configured")).wwwAuthenticate
         == ChallengeText(InvalidToken("Auth not configured"))
    ensures IntoResponse(InvalidRequest("Missing Authorization header")).wwwAuthenticate
         == ChallengeText(InvalidRequest("Missing Authorization header"))
    ensures IntoResponse(InvalidRequest("Authorization header must use Bearer scheme")).wwwAuthenticate
         == ChallengeText(InvalidRequest("Authorization header must use Bearer scheme"))
    ensures IntoResponse(InvalidRequest("Missing auth context - is auth middleware applied?")).wwwAuthenticate
         == ChallengeText(InvalidRequest("Missing auth context - is auth middleware applied?"))
  {
    FixedTextsValid();
    SchemeTextValid();
    ContextTextValid();
    FullChallenge(InvalidToken("Auth not configured"));
    FullChallenge(InvalidRequest("Missing Authorization header"));
    FullChallenge(InvalidRequest("Authorization header must use Bearer scheme"));
    FullChallenge(InvalidRequest("Missing auth context - is auth middleware applied?"));
  }

  /** An error whose code and description are valid header values is
      answered with its full challenge. */
  lemma FullChallenge(e: AuthError)
    requires ValidHeaderValue(e.error) && ValidHeaderValue(e.errorDescription.UnwrapOr(""))
    ensures IntoResponse(e).wwwAuthenticate == ChallengeText(e)
  {
    ValidChallenge(e);
  }

  lemma FixedTextsValid()
    ensures ValidHeaderValue("invalid_token") && ValidHeaderValue("invalid_request")
    ensures ValidHeaderValue("Auth not configured") && ValidHeaderValue("Missing Authorization header")
  {
  }

  lemma SchemeTextValid()
    ensures ValidHeaderValue("Authorization header must use Bearer scheme")
  {
    ValidConcat("Authorization ", "header must ");
    ValidConcat("Authorization " + "header must ", "use Bearer scheme");
  }

  lemma ContextTextValid()
    ensures ValidHeaderValue("Missing auth context - is auth middleware applied?")
  {
    ValidConcat("Missing auth ", "context - is ");
    ValidConcat("Missing auth " + "context - is ", "auth middleware ");
    ValidConcat("Missing auth " + "context - is " + "auth middleware ", "applied?");
  }

  /** Two valid header values joined are a valid header value. */
  lemma ValidConcat(a: string, b: string)
    requires ValidHeaderValue(a) && ValidHeaderValue(b)
    ensures ValidHeaderValue(a + b)
  {
  }

  /** A challenge is a valid header value when its code and description are. */
  lemma ValidChallenge(e: AuthError)
    requires ValidHeaderValue(e.error) && ValidHeaderValue(e.errorDescription.UnwrapOr(""))
    ensures ValidHeaderValue(ChallengeText(e))
  {
  }

  /** A byte `HeaderValue::to_str` accepts: a tab or visible ASCII. */
  predicate VisibleAscii(b: Byte) {
    b == 9 || (32 <= b < 127)
  }

  /** `HeaderValue::to_str`: the header as text when every byte is a tab or
      visible ASCII, nothing otherwise. */
  function ToStr(bytes: seq<Byte>): (r: Option<string>)
    ensures r.Some? <==> forall i :: 0 <= i < |bytes| ==> VisibleAscii(bytes[i])
    ensures r.Some? ==> |r.value| == |bytes| && forall i :: 0 <= i < |bytes| ==> r.value[i] as int == bytes[i] as int
  {
    if forall i :: 0 <= i < |bytes| ==> VisibleAscii(bytes[i])
    then Some(seq(|bytes|, i requires 0 <= i < |bytes| => (bytes[i] as int) as char))
    else None
  }

  /** The bytes of a Latin-1 string, as a client puts it on the wire. */
  function Latin1(s: string): (b: seq<Byte>)
    requires forall i :: 0 <= i < |s| ==> s[i] as int < 256
    ensures |b| == |s| && forall i :: 0 <= i < |s| ==> b[i] as int == s[i] as int
  {
    seq(|s|, i requires 0 <= i < |s| => s[i] as int as Byte)
  }

  /** A header written in visible ASCII is read back exactly. */
  lemma ToStrRoundTrip(s: string)
    requires forall i :: 0 <= i < |s| ==> s[i] == '\t' || (' ' <= s[i] <= '~')
    ensures ToStr(Latin1(s)) == Some(s)
  {
    var b := Latin1(s);
    assert forall i :: 0 <= i < |b| ==> VisibleAscii(b[i]);
    assert ToStr(b).value == s;
  }
}

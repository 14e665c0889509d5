/** The server's API error (`error::ApiError`): six kinds, each with a
    fixed HTTP status and a display text that becomes the JSON body's
    `error` field; and the fallback for errors no handler produced
    (`handle_global_error`). */
module ApiErrors {
  import opened Wrappers
  import opened Text

  datatype ApiError =
    | NotFound
    | Database(detail: string)
    | Unauthorized
    | Auth(detail: string)
    | Http(detail: string)
    | Validation(detail: string)

  /** A status code with the JSON body `{"error": message}`. */
  datatype ErrorResponse = ErrorResponse(status: nat, message: string)

  /** The `#[error(...)]` text of each kind. */
  function Display(e: ApiError): (r: string)
    ensures e.NotFound? <==> r == "order not found"
    ensures e.Unauthorized? <==> r == "authentication required"
    ensures !e.NotFound? && !e.Unauthorized? ==> |r| > |e.detail| && r[|r| - |e.detail|..] == e.detail
  {
    match e
    case NotFound => "order not found"
    case Database(d) => var r := "database error: " + d; assert r[0] == 'd'; r
    case Unauthorized => "authentication required"
    case Auth(d) => var r := "oauth error: " + d; assert r[1] == 'a'; r
    case Http(d) => var r := "http error: " + d; assert r[0] == 'h'; r
    case Validation(d) => var r := "validation error: " + d; assert r[0] == 'v'; r
  }

  /** Reads a display text back: the inverse of `Display`, which shows that
      the body alone tells every error apart. */
  function ParseDisplay(s: string): (r: Option<ApiError>)
    ensures r.Some? ==> Display(r.value) == s
  {
    if s == "order not found" then Some(NotFound)
    else if s == "authentication required" then Some(Unauthorized)
    else if StripPrefix(s, "database error: ").Some? then Some(Database(StripPrefix(s, "database error: ").value))
    else if StripPrefix(s, "oauth error: ").Some? then Some(Auth(StripPrefix(s, "oauth error: ").value))
    else if StripPrefix(s, "http error: ").Some? then Some(Http(StripPrefix(s, "http error: ").value))
    else if StripPrefix(s, "validation error: ").Some? then Some(Validation(StripPrefix(s, "validation error: ").value))
    else None
  }

  /** Every display text reads back as the error that produced it. */
  lemma {:induction false} DisplayRoundTrip(e: ApiError)
    ensures ParseDisplay(Display(e)) == Some(e)
  {
    var s := Display(e);
    match e
    case NotFound =>
    case Unauthorized =>
    case Database(d) =>
      assert s[0] == 'd' && s[..16] == "database error: " && s[16..] == d;
    case Auth(d) =>
      assert s[0] == 'o' && s[1] == 'a' && s[..13] == "oauth error: " && s[13..] == d;
      assert |s| >= 16 ==> s[..16] != "database error: ";
    case Http(d) =>
      assert s[0] == 'h' && s[..12] == "http error: " && s[12..] == d;
      assert |s| >= 16 ==> s[..16] != "database error: ";
      assert |s| >= 13 ==> s[..13] != "oauth error: ";
    case Validation(d) =>
      assert s[0] == 'v' && s[..18] == "validation error: " && s[18..] == d;
      assert s[..16] != "database error: " && s[..13] != "oauth error: " && s[..12] != "http error: ";
  }

  /** The status of each kind: a missing order is 404, storage and upstream
      HTTP failures are 500, a missing login is 401, a failed OAuth step or
      invalid input is 400. */
  function Status(e: ApiError): (code: nat)
    ensures code == 404 <==> e.NotFound?
    ensures code == 500 <==> e.Database? || e.Http?
    ensures code == 401 <==> e.Unauthorized?
    ensures code == 400 <==> e.Auth? || e.Validation?
  {
    match e
    case NotFound => 404
    case Database(_) => 500
    case Http(_) => 500
    case Unauthorized => 401
    case Auth(_) => 400
    case Validation(_) => 400
  }

  /** `into_response`: the status of the kind and its display text. */
  function IntoResponse(e: ApiError): (r: ErrorResponse)
    ensures r.status == Status(e) && r.message == Display(e)
  {
    ErrorResponse(Status(e), Display(e))
  }

  /** Distinct errors give distinct bodies, even when they share a status
      (`Auth` and `Validation` are both 400). */
  lemma {:induction false} ResponseIdentifiesError(a: ApiError, b: ApiError)
    requires IntoResponse(a).message == IntoResponse(b).message
    ensures a == b
  {
    DisplayRoundTrip(a);
    DisplayRoundTrip(b);
  }

  /** What `handle_global_error` sees of an error: whether it is the timeout
      layer's `Elapsed`, and its text. */
  datatype BoxError = BoxError(elapsed: bool, text: string)

  /** `handle_global_error`: 408 for a timeout, 500 for anything else, with
      fixed messages. */
  function GlobalError(err: BoxError): (r: ErrorResponse)
    ensures r.status == 408 <==> err.elapsed
    ensures r.status == 500 <==> !err.elapsed
    ensures err.elapsed ==> r.message == "request timed out"
    ensures !err.elapsed ==> r.message == "internal server error"
  {
    if err.elapsed then ErrorResponse(408, "request timed out")
    else ErrorResponse(500, "internal server error")
  }

  /** The global fallback never echoes the error's text: two errors of the
      same kind give identical responses. */
  lemma GlobalErrorHidesText(a: BoxError, b: BoxError)
    requires a.elapsed == b.elapsed
    ensures GlobalError(a) == GlobalError(b)
  {
  }
}

/** The handlers' application error (`errors::AppError`): three kinds, each
    rendered as a status with a JSON body `{"code", "message"}`. A storage
    failure is logged, never shown: its body is fixed. */
module AppErrors {
  datatype AppError =
    | NotFound(resource: string)
    | BadRequest(message: string)
    | Database(message: string)

  /** A status code with the body `{"code": code, "message": message}`. */
  datatype ErrorBody = ErrorBody(status: nat, code: string, message: string)

  /** `AppError::not_found`. */
  function NotFoundError(resource: string): (e: AppError)
    ensures IntoResponse(e) == ErrorBody(404, "NOT_FOUND", resource + " not found")
  {
    NotFound(resource)
  }

  /** `AppError::bad_request`. */
  function BadRequestError(message: string): (e: AppError)
    ensures IntoResponse(e) == ErrorBody(400, "BAD_REQUEST", message)
  {
    BadRequest(message)
  }

  /** `AppError::database`, given the driver error's text. */
  function DatabaseError(driverText: string): (e: AppError)
    ensures e.Database? && e.message == driverText
    ensures IntoResponse(e) == ErrorBody(500, "DATABASE_ERROR", "Database operation failed")
  {
    Database(driverText)
  }

  /** `into_response`. */
  function IntoResponse(e: AppError): (r: ErrorBody)
    ensures r.status == 404 <==> r.code == "NOT_FOUND"
    ensures r.status == 400 <==> r.code == "BAD_REQUEST"
    ensures r.status == 500 <==> r.code == "DATABASE_ERROR"
    ensures e.NotFound? ==> r.status == 404 && r.message == e.resource + " not found"
    ensures e.BadRequest? ==> r.status == 400 && r.message == e.message
    ensures e.Database? ==> r.status == 500 && r.message == "Database operation failed"
  {
    match e
    case NotFound(resource) => ErrorBody(404, "NOT_FOUND", resource + " not found")
    case BadRequest(message) => ErrorBody(400, "BAD_REQUEST", message)
    case Database(_) => ErrorBody(500, "DATABASE_ERROR", "Database operation failed")
  }

  /** What each constructor's error looks like to the client: a named missing
      resource, the request complaint verbatim, and a storage failure with
      the driver's text withheld. */
  lemma ConstructorResponses(resource: string, message: string, driverText: string)
    ensures IntoResponse(NotFoundError(resource)) == ErrorBody(404, "NOT_FOUND", resource + " not found")
    ensures IntoResponse(BadRequestError(message)) == ErrorBody(400, "BAD_REQUEST", message)
    ensures IntoResponse(DatabaseError(driverText)) == ErrorBody(500, "DATABASE_ERROR", "Database operation failed")
  {
  }

  /** The code alone tells the kind of error. */
  lemma CodeIdentifiesKind(a: AppError, b: AppError)
    requires IntoResponse(a).code == IntoResponse(b).code
    ensures a.NotFound? == b.NotFound? && a.BadRequest? == b.BadRequest? && a.Database? == b.Database?
  {
  }

  /** Two storage failures look the same to the client, whatever the driver
      reported. */
  lemma DatabaseTextWithheld(a: string, b: string)
    ensures IntoResponse(DatabaseError(a)) == IntoResponse(DatabaseError(b))
  {
  }

  /** The not-found message names the resource unambiguously: distinct
      resources give distinct messages. */
  lemma {:induction false} NotFoundNamesResource(a: string, b: string)
    requires IntoResponse(NotFoundError(a)) == IntoResponse(NotFoundError(b))
    ensures a == b
  {
    var ma := a + " not found";
    var mb := b + " not found";
    assert |a| == |ma| - 10 == |mb| - 10 == |b|;
    assert ma[..|a|] == a && mb[..|b|] == b;
  }
}

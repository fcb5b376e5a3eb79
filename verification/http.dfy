/** The HTTP surface of the service: methods, request bodies, responses, and the body
    validation shared by the create and update handlers. */
module Http {
  import opened Wrappers
  import opened Json

  /** The name of a method other than the four the service routes on; those four always
      parse to their own constructors. */
  type ExtensionMethod = name: string | name != "GET" && name != "POST" && name != "PUT" && name != "DELETE"
    witness "PATCH"

  /** The request method. */
  datatype Method = Get | Post | Put | Delete | Other(name: ExtensionMethod)

  /** A text body, represented by what the JSON parser makes of it. */
  datatype TextDoc = Malformed | WellFormed(value: Value)

  /** lambda_http's `Body`. */
  datatype Body = Empty | Text(doc: TextDoc) | Binary

  datatype Request = Request(verb: Method, path: string, body: Body)

  datatype Response = Response(status: int, headers: map<string, string>, body: Value)

  const BodyRequired := "Request body is required"
  const BodyNotText := "Invalid request body"
  const BodyNotJson := "Invalid JSON format"

  /** A response carrying a JSON body, as every handler builds it. */
  function JsonResponse(status: int, body: Value): Response {
    Response(status, map["Content-Type" := "application/json"], body)
  }

  /** A failure response: `{"error": msg}` with the given status. */
  function ErrorResponse(status: int, msg: string): Response {
    JsonResponse(status, ErrorObject(msg))
  }

  /** The body validation at the top of the create and update handlers: an empty body, a
      non-text body and a text body that does not decode to the request type are each
      answered with 400 and their own message; otherwise the decoded request. */
  function ReadJsonBody<T>(body: Body, decode: Value -> Option<T>): (r: Result<T, Response>)
    ensures r.Success? <==> body.Text? && body.doc.WellFormed? && decode(body.doc.value).Some?
    ensures r.Success? ==> decode(body.doc.value) == Some(r.value)
    ensures body.Empty? ==> r == Failure(ErrorResponse(400, BodyRequired))
    ensures body.Binary? ==> r == Failure(ErrorResponse(400, BodyNotText))
    ensures body.Text? && r.Failure? ==> r == Failure(ErrorResponse(400, BodyNotJson))
  {
    match body
    case Empty => Failure(ErrorResponse(400, BodyRequired))
    case Binary => Failure(ErrorResponse(400, BodyNotText))
    case Text(doc) =>
      if doc.Malformed? then Failure(ErrorResponse(400, BodyNotJson))
      else
        match decode(doc.value)
        case Some(req) => Success(req)
        case None => Failure(ErrorResponse(400, BodyNotJson))
  }
}

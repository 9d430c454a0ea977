/** The global exception filter: from whatever was thrown to the HTTP status and the error
    envelope sent back. Logging and the final `response.status().json()` are left out. */
module ExceptionFilter {
  import opened Wrappers
  import opened Json
  import opened Exceptions
  import opened Http

  /** What reaches the filter: an `HttpException` with its status and `getResponse()` value,
      or anything else, whose text the filter reads only for its log. */
  datatype Thrown =
    | HttpException(status: int, response: Value)
    | Unexpected(description: string)

  /** How one of the four structured exceptions reaches the filter. */
  function Raise(e: HttpError): Thrown
  {
    HttpException(Status(e), Obj(Response(e)))
  }

  /** The envelope; `errors` is `None` where the filter writes no such property. */
  datatype ErrorEnvelope = ErrorEnvelope(success: bool, message: Value, errors: Option<Value>, meta: Meta)

  datatype Reply = Reply(status: int, body: ErrorEnvelope)

  const FallbackMessage := "An error occurred"
  const UnexpectedMessage := "Internal server error occurred. Please try again later."

  /** `(response as any).name` on an object-shaped response; an array has no such property. */
  function Property(v: Value, k: string): Value
  {
    if v.Obj? then Get(v.fields, k) else Undefined
  }

  /** `a || b`. */
  function Or(a: Value, b: Value): Value
  {
    if Truthy(a) then a else b
  }

  /** `catch(exception, host)`. */
  function Catch(exception: Thrown, request: Request, timestamp: string): (r: Reply)
    ensures !r.body.success && r.body.meta == MetaOf(request, timestamp)
    ensures exception.HttpException? ==> r.status == exception.status
    ensures exception.Unexpected? ==>
      r.status == InternalServerError && r.body.message == Str(UnexpectedMessage) && r.body.errors.None?
    ensures r.body.errors.Some? <==>
      exception.HttpException? && IsObjectType(exception.response) && !exception.response.Null?
    ensures exception.HttpException? && !exception.response.Obj? && !exception.response.Arr? ==>
      r.body.message == exception.response
    ensures exception.HttpException? && IsObjectType(exception.response) && !exception.response.Null? ==>
      var message := Property(exception.response, "message");
      var errors := Property(exception.response, "errors");
      && (Truthy(message) ==> r.body.message == message)
      && (!Truthy(message) ==> r.body.message == Str(FallbackMessage))
      && (Truthy(errors) ==> r.body.errors == Some(errors))
      && (!Truthy(errors) ==> r.body.errors == Some(Arr([])))
  {
    var meta := MetaOf(request, timestamp);
    match exception
    case HttpException(status, response) =>
      if IsObjectType(response) && !response.Null? then
        Reply(status, ErrorEnvelope(false, Or(Property(response, "message"), Str(FallbackMessage)),
                                    Some(Or(Property(response, "errors"), Arr([]))), meta))
      else
        Reply(status, ErrorEnvelope(false, response, None, meta))
    case Unexpected(_) =>
      Reply(InternalServerError, ErrorEnvelope(false, Str(UnexpectedMessage), None, meta))
  }

  /** The envelope as the JSON object sent; `errors` appears only when the filter set it. */
  function EnvelopeValue(e: ErrorEnvelope): (r: Value)
    ensures r.Obj? && ("errors" in r.fields <==> e.errors.Some?)
  {
    var base := map["success" := Bool(e.success), "message" := e.message, "meta" := MetaValue(e.meta)];
    Obj(if e.errors.Some? then base["errors" := e.errors.value] else base)
  }

  // ---------------------------------------------------------------- what the filter promises

  /** Each structured exception is answered with its own status and message; a validation
      failure lists its field errors, the others an empty `errors` array. */
  lemma StructuredExceptionReply(e: HttpError, request: Request, timestamp: string)
    ensures var r := Catch(Raise(e), request, timestamp);
      && r.status == Status(e)
      && r.body.message == Str(Message(e))
      && r.body.errors == Some(if e.ValidationException? then FieldErrorsValue(e.errors) else Arr([]))
  {
    var body := Response(e);
    assert Truthy(Str(Message(e)));
  }

  /** An unexpected error's text never reaches the client: two such errors get the same reply. */
  lemma UnexpectedErrorsLookAlike(a: string, b: string, request: Request, timestamp: string)
    ensures Catch(Unexpected(a), request, timestamp) == Catch(Unexpected(b), request, timestamp)
    ensures Catch(Unexpected(a), request, timestamp).status == 500
  {
  }
}

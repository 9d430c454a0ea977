/** The four structured exceptions of the core. Each carries an HTTP status and builds the
    response body it hands to `HttpException`: a `statusCode` equal to that status, a `message`,
    and either an `error` text or, for validation, the `errors` list. */
module Exceptions {
  import opened Json

  const BadRequest := 400
  const NotFound := 404
  const Conflict := 409
  const InternalServerError := 500

  /** One entry of a validation failure: which field, why, and the offending value. */
  datatype FieldError = FieldError(field: string, message: string, value: Value)

  datatype HttpError =
    | DatabaseException(detail: string, status: int)
    | ValidationException(errors: seq<FieldError>)
    | DuplicateResourceException(resource: string, field: string, value: string)
    | ResourceNotFoundException(resource: string, identifier: string)

  /** `new DatabaseException(message)`: the status defaults to 500. */
  function NewDatabaseException(message: string, status: int := InternalServerError): (e: HttpError)
    ensures Status(e) == status
    ensures Get(Response(e), "error") == Str(message)
  {
    DatabaseException(message, status)
  }

  /** `exception.getStatus()`: the three client-side exceptions carry a 4xx status; a database
      exception the status it was built with. */
  function Status(e: HttpError): (r: int)
    ensures !e.DatabaseException? ==> 400 <= r < 500
    ensures e.DatabaseException? ==> r == e.status
  {
    match e
    case DatabaseException(_, status) => status
    case ValidationException(_) => BadRequest
    case DuplicateResourceException(_, _, _) => Conflict
    case ResourceNotFoundException(_, _) => NotFound
  }

  /** The `message` of the response body; it is never empty. */
  function Message(e: HttpError): (r: string)
    ensures |r| > 0
  {
    match e
    case DatabaseException(_, _) => "Database operation failed"
    case ValidationException(_) => "Validation failed"
    case DuplicateResourceException(resource, field, value) =>
      resource + " with " + field + " '" + value + "' already exists"
    case ResourceNotFoundException(resource, identifier) =>
      resource + " with ID '" + identifier + "' not found"
  }

  function FieldErrorValue(f: FieldError): Value
  {
    Obj(map["field" := Str(f.field), "message" := Str(f.message), "value" := f.value])
  }

  function FieldErrorsValue(errors: seq<FieldError>): (r: Value)
    ensures r.Arr? && |r.items| == |errors|
  {
    Arr(seq(|errors|, i requires 0 <= i < |errors| => FieldErrorValue(errors[i])))
  }

  /** `exception.getResponse()`: the object passed to the `HttpException` constructor
      (its `timestamp` entry is not modelled). */
  function Response(e: HttpError): (body: Doc)
    ensures Get(body, "statusCode") == Num(Status(e))
    ensures Get(body, "message") == Str(Message(e))
    ensures "errors" in body <==> e.ValidationException?
    ensures "error" in body <==> !e.ValidationException?
  {
    var base := map["statusCode" := Num(Status(e)), "message" := Str(Message(e))];
    match e
    case DatabaseException(detail, _) => base["error" := Str(detail)]
    case ValidationException(errors) => base["errors" := FieldErrorsValue(errors)]
    case DuplicateResourceException(_, _, _) => base["error" := Str("Duplicate resource")]
    case ResourceNotFoundException(_, _) => base["error" := Str("Resource not found")]
  }

  /** `error.response?.statusCode` is truthy: the test by which the data-access helper recognises
      an exception it raised itself. */
  predicate IsStructured(e: HttpError)
  {
    Truthy(Get(Response(e), "statusCode"))
  }

  /** Every exception is structured, except a `DatabaseException` built with status 0. */
  lemma StructuredUnlessStatusZero(e: HttpError)
    ensures IsStructured(e) <==> Status(e) != 0
    ensures !e.DatabaseException? ==> IsStructured(e)
  {
  }

  /** The message formats, stated as what a reader of the message can take from it. */
  lemma DuplicateMessageShape(resource: string, field: string, value: string)
    ensures var m := Message(DuplicateResourceException(resource, field, value));
      && m[..|resource|] == resource
      && m[|resource|..|resource| + 6] == " with "
      && m[|m| - 16..] == "' already exists"
  {
  }

  lemma NotFoundMessageShape(resource: string, identifier: string)
    ensures var m := Message(ResourceNotFoundException(resource, identifier));
      && m[..|resource|] == resource
      && m[|resource|..|resource| + 10] == " with ID '"
      && m[|resource| + 10..|m| - 11] == identifier
      && m[|m| - 11..] == "' not found"
  {
  }
}

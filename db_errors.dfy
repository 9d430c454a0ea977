/** The error side of the data-access helper: `validateObjectId` and `handleDatabaseError`,
    which turns whatever a store operation threw into one of the four structured exceptions. */
module DbErrors {
  import opened Wrappers
  import opened Text
  import opened Json
  import opened Exceptions

  /** The code MongoDB reports for a unique-index violation. */
  const DuplicateKeyCode := 11000

  /** A thrown value, with every attribute `handleDatabaseError` looks at:
      - `code` and `name`, as the driver and Mongoose set them;
      - `keyPattern` (its keys, in order) and `keyValue` of a duplicate-key error;
      - `errors`, the entries of a Mongoose `ValidationError` (path, message, value);
      - `path` and `value` of a `CastError`;
      - `raised`: the structured exception, when the thrown value is one of ours. */
  datatype ErrorObject = ErrorObject(
    code: Option<int>,
    name: string,
    keyPattern: Option<seq<string>>,
    keyValue: Option<Doc>,
    errors: seq<FieldError>,
    path: string,
    value: Value,
    raised: Option<HttpError>)

  /** A structured exception thrown inside one of the helper's `try` blocks. NestJS names an
      `HttpException` after its class. */
  function Thrown(e: HttpError): ErrorObject
  {
    var name := match e
      case DatabaseException(_, _) => "DatabaseException"
      case ValidationException(_) => "ValidationException"
      case DuplicateResourceException(_, _, _) => "DuplicateResourceException"
      case ResourceNotFoundException(_, _) => "ResourceNotFoundException";
    ErrorObject(None, name, None, None, [], "", Undefined, Some(e))
  }

  /** The driver's error for a write that breaks the unique index on `field`. */
  function DuplicateKeyError(field: string, value: Value): ErrorObject
  {
    ErrorObject(Some(DuplicateKeyCode), "MongoServerError", Some([field]), Some(map[field := value]),
                [], "", Undefined, None)
  }

  /** Mongoose's error for a document or an update that fails schema validation. */
  function SchemaValidationError(errors: seq<FieldError>): ErrorObject
  {
    ErrorObject(None, "ValidationError", None, None, errors, "", Undefined, None)
  }

  /** Any other failure the driver reports. */
  function DriverError(name: string): ErrorObject
  {
    ErrorObject(None, name, None, None, [], "", Undefined, None)
  }

  /** `handleDatabaseError`: the tests run in this order, and the first that applies decides. */
  function HandleDatabaseError(error: ErrorObject, operation: string, resourceName: string): (r: HttpError)
    ensures Status(r) != 0
  {
    if error.code == Some(DuplicateKeyCode) then
      var keys := if error.keyPattern.Some? then error.keyPattern.value else [];
      var field := if |keys| > 0 && keys[0] != "" then keys[0] else "field";
      var v := if error.keyValue.Some? then Get(error.keyValue.value, field) else Undefined;
      DuplicateResourceException(resourceName, field, if Truthy(v) then Render(v) else "unknown")
    else if error.name == "ValidationError" then
      ValidationException(error.errors)
    else if error.name == "CastError" then
      ValidationException([FieldError(error.path, "Invalid " + error.path + " format", error.value)])
    else if error.raised.Some? && IsStructured(error.raised.value) then
      error.raised.value
    else
      NewDatabaseException("Failed to " + operation + " " + ToLower(resourceName))
  }

  /** The `catch` of every helper operation applied to a structured exception thrown in its
      `try`: it comes back unchanged, which is how `ResourceNotFound` and `Validation` raised
      inside an operation reach its caller. */
  function Caught(e: HttpError, operation: string, resourceName: string): (r: HttpError)
    ensures Status(e) != 0 ==> r == e
  {
    HandleDatabaseError(Thrown(e), operation, resourceName)
  }

  // ---------------------------------------------------------------- the classification, case by case

  /** A duplicate-key code wins over every other attribute. The field is the first key of
      `keyPattern` or `'field'`; the value is `keyValue[field]` or `'unknown'` when that is falsy. */
  lemma DuplicateKeyClassified(error: ErrorObject, operation: string, resourceName: string)
    requires error.code == Some(DuplicateKeyCode)
    ensures var r := HandleDatabaseError(error, operation, resourceName);
      && r.DuplicateResourceException? && r.resource == resourceName && Status(r) == Conflict
      && ((error.keyPattern.Some? && |error.keyPattern.value| > 0 && error.keyPattern.value[0] != "")
          ==> r.field == error.keyPattern.value[0])
      && (!(error.keyPattern.Some? && |error.keyPattern.value| > 0 && error.keyPattern.value[0] != "")
          ==> r.field == "field")
      && (!(error.keyValue.Some? && Truthy(Get(error.keyValue.value, r.field))) ==> r.value == "unknown")
      && ((error.keyValue.Some? && Truthy(Get(error.keyValue.value, r.field)))
          ==> r.value == Render(error.keyValue.value[r.field]))
  {
  }

  /** A Mongoose validation error gives a validation exception with the same entries,
      unless it also carries the duplicate-key code. */
  lemma SchemaValidationClassified(error: ErrorObject, operation: string, resourceName: string)
    requires error.code != Some(DuplicateKeyCode) && error.name == "ValidationError"
    ensures HandleDatabaseError(error, operation, resourceName) == ValidationException(error.errors)
  {
  }

  /** A cast error gives a validation exception with one entry naming the failed path. */
  lemma CastErrorClassified(error: ErrorObject, operation: string, resourceName: string)
    requires error.code != Some(DuplicateKeyCode) && error.name == "CastError"
    ensures var r := HandleDatabaseError(error, operation, resourceName);
      && r.ValidationException? && |r.errors| == 1
      && r.errors[0].field == error.path && r.errors[0].value == error.value
  {
  }

  /** Anything else becomes a `DatabaseException` with status 500 naming the operation and the
      lower-cased resource. */
  lemma OtherErrorsClassified(error: ErrorObject, operation: string, resourceName: string)
    requires error.code != Some(DuplicateKeyCode)
    requires error.name != "ValidationError" && error.name != "CastError"
    requires error.raised.None? || !IsStructured(error.raised.value)
    ensures var r := HandleDatabaseError(error, operation, resourceName);
      && r == DatabaseException("Failed to " + operation + " " + ToLower(resourceName), InternalServerError)
      && Status(r) == InternalServerError && Message(r) == "Database operation failed"
  {
  }

  /** Whatever the classifier produces is structured, so catching it again (as `softDelete`
      does around `update`) changes nothing. */
  lemma HandledIsStable(error: ErrorObject, op1: string, op2: string, resourceName: string)
    ensures var r := HandleDatabaseError(error, op1, resourceName);
      Caught(r, op2, resourceName) == r
  {
  }

  // ---------------------------------------------------------------- identifiers

  predicate IsHexDigit(c: char)
  {
    '0' <= c <= '9' || 'a' <= c <= 'f' || 'A' <= c <= 'F'
  }

  /** `Types.ObjectId.isValid` on a string: 24 hexadecimal digits. */
  predicate IsValidObjectId(id: string)
  {
    |id| == 24 && forall i :: 0 <= i < |id| ==> IsHexDigit(id[i])
  }

  /** The value of one hexadecimal digit. */
  function HexValue(c: char): nat
    requires IsHexDigit(c)
  {
    if '0' <= c <= '9' then c as int - '0' as int
    else if 'a' <= c <= 'f' then c as int - 'a' as int + 10
    else c as int - 'A' as int + 10
  }

  /** The hexadecimal string of the ObjectId an id string is cast to before a query. Digits are
      read without regard to case and the driver renders an ObjectId in lower case, so stored
      records are keyed by this form. */
  function IdKey(id: string): (r: string)
    ensures |r| == |id| && IsLower(r)
  {
    ToLowerIsLower(id);
    ToLower(id)
  }

  lemma IdKeyIdempotent(id: string)
    ensures IdKey(IdKey(id)) == IdKey(id)
  {
    ToLowerOfLower(IdKey(id));
  }

  /** Two well-formed ids cast to the same ObjectId exactly when they have the same digit
      values, position by position: `507F...` and `507f...` name one record. */
  lemma SameObjectIdIff(a: string, b: string)
    requires IsValidObjectId(a) && IsValidObjectId(b)
    ensures IdKey(a) == IdKey(b) <==> forall i :: 0 <= i < |a| ==> HexValue(a[i]) == HexValue(b[i])
  {
    forall i | 0 <= i < |a| ensures IdKey(a)[i] == IdKey(b)[i] <==> HexValue(a[i]) == HexValue(b[i]) {
      ToLowerAt(a, i);
      ToLowerAt(b, i);
    }
    if forall i :: 0 <= i < |a| ==> HexValue(a[i]) == HexValue(b[i]) {
      assert forall i :: 0 <= i < |a| ==> IdKey(a)[i] == IdKey(b)[i];
    }
  }

  /** `validateObjectId`: `None` when the id is well formed, otherwise the validation exception
      it throws, with one entry for the field `id`. */
  function ValidateObjectId(id: string, resourceName: string): (r: Option<HttpError>)
    ensures r.None? <==> IsValidObjectId(id)
    ensures r.Some? ==> && r.value.ValidationException? && |r.value.errors| == 1
                        && r.value.errors[0].field == "id" && r.value.errors[0].value == Str(id)
                        && Status(r.value) == BadRequest
  {
    if IsValidObjectId(id) then None
    else Some(ValidationException([FieldError("id", "Invalid " + ToLower(resourceName) + " ID format", Str(id))]))
  }
}

/** The generic data-access helper, as functions of the state of one collection.
    A collection holds documents by id and remembers the order in which they were created;
    newest first by `createdAt` is the reverse of that order. What the driver and Mongoose
    contribute (setters, defaults, validators, the unique index) comes from the model's
    `Schema`. */
module Store {
  import opened Wrappers
  import opened Json
  import opened Exceptions
  import opened DbErrors

  type Id = string

  /** What a Mongoose model applies to the data it is given:
      - `paths`: the declared paths; any other property is dropped on save (strict mode);
      - `setter`: the path's setters (`trim`, `lowercase`), run on saved values, on update
        values and on query filter values alike;
      - `defaults`: values for paths the data leaves out, filled in on insert;
      - `validate`: the validators run by `save`, one entry per failing path;
      - `validateUpdate`: the validators `runValidators` runs on the paths of an update;
      - `unique`: the paths that carry a unique index, in index order. */
  datatype Schema = Schema(
    paths: set<string>,
    setter: (string, Value) -> Value,
    defaults: Doc,
    validate: Doc -> seq<FieldError>,
    validateUpdate: Doc -> seq<FieldError>,
    unique: seq<string>)

  /** One entry of `checkDuplicates`: no other document may have `value` at `field`. */
  datatype DuplicateCheck = DuplicateCheck(field: string, value: Value)

  datatype Document = Document(id: Id, fields: Doc)

  /** Documents by id, and the ids in creation order (oldest first). */
  datatype StoreState = StoreState(docs: map<Id, Doc>, order: seq<Id>)

  datatype Page = Page(data: seq<Document>, total: nat)

  /** What a state-changing operation returns, and the state it leaves behind. */
  datatype Outcome = Outcome(result: Result<Document, HttpError>, after: StoreState)

  // ---------------------------------------------------------------- store invariants

  predicate NoDups(xs: seq<Id>)
  {
    forall i, j :: 0 <= i < j < |xs| ==> xs[i] != xs[j]
  }

  /** The creation order lists every stored id exactly once, and every stored id is in the
      driver's lower-case form. */
  ghost predicate WellFormed(s: StoreState)
  {
    && NoDups(s.order)
    && (forall id :: id in s.docs ==> IdKey(id) == id)
    && (forall i :: 0 <= i < |s.order| ==> s.order[i] in s.docs)
    && (forall id :: id in s.docs ==> id in s.order)
  }

  /** No two documents share a value at a uniquely indexed path. */
  ghost predicate UniqueIndexHolds(docs: map<Id, Doc>, unique: seq<string>)
  {
    forall a, b, f :: a in docs && b in docs && a != b && f in unique && f in docs[a] && f in docs[b]
      ==> docs[a][f] != docs[b][f]
  }

  ghost predicate Consistent(s: StoreState, schema: Schema)
  {
    WellFormed(s) && UniqueIndexHolds(s.docs, schema.unique)
  }

  // ---------------------------------------------------------------- what Mongoose does to data

  /** The setters applied to the declared paths of `data`; undeclared paths are dropped. */
  function Cast(schema: Schema, data: Doc): (r: Doc)
    ensures r.Keys == data.Keys * schema.paths
    ensures forall k :: k in r ==> r[k] == schema.setter(k, data[k])
  {
    map k | k in data && k in schema.paths :: schema.setter(k, data[k])
  }

  /** `new model(data)`: defaults for the paths the cast data leaves out. */
  function Build(schema: Schema, data: Doc): (r: Doc)
    ensures r.Keys == schema.defaults.Keys + Cast(schema, data).Keys
    ensures forall k :: k in Cast(schema, data) ==> r[k] == Cast(schema, data)[k]
    ensures forall k :: k in schema.defaults && k !in Cast(schema, data) ==> r[k] == schema.defaults[k]
  {
    schema.defaults + Cast(schema, data)
  }

  /** An equality filter, its values cast by the setters as Mongoose casts a query. */
  predicate Matches(schema: Schema, doc: Doc, filter: Doc)
  {
    forall k :: k in filter ==> k in doc && doc[k] == schema.setter(k, filter[k])
  }

  // ---------------------------------------------------------------- duplicate checks

  /** `if (excludeId) query._id = { $ne: excludeId }`: the stored `_id` is compared with the
      ObjectId the string is cast to. */
  predicate Excluded(id: Id, excludeId: Option<Id>)
  {
    excludeId.Some? && excludeId.value != "" && id == IdKey(excludeId.value)
  }

  /** `model.findOne({ [check.field]: check.value, _id: { $ne: excludeId } })` finds something. */
  predicate Taken(s: StoreState, schema: Schema, check: DuplicateCheck, excludeId: Option<Id>)
  {
    exists id :: id in s.docs && !Excluded(id, excludeId) && check.field in s.docs[id]
                 && s.docs[id][check.field] == schema.setter(check.field, check.value)
  }

  function DuplicateOf(check: DuplicateCheck, resourceName: string): HttpError
  {
    DuplicateResourceException(resourceName, check.field, Render(check.value))
  }

  /** What `checkDuplicates` throws, if anything: the exception for the first check some
      other document matches. */
  function FirstDuplicate(s: StoreState, schema: Schema, checks: seq<DuplicateCheck>,
                          excludeId: Option<Id>, resourceName: string): Option<HttpError>
    decreases |checks|
  {
    if checks == [] then None
    else if Taken(s, schema, checks[0], excludeId) then Some(DuplicateOf(checks[0], resourceName))
    else FirstDuplicate(s, schema, checks[1..], excludeId, resourceName)
  }

  // ---------------------------------------------------------------- the unique index

  /** A uniquely indexed path at which `doc`, stored under `id`, would repeat another document's value. */
  predicate Clashes(docs: map<Id, Doc>, id: Id, doc: Doc, f: string)
  {
    f in doc && exists other :: other in docs && other != id && f in docs[other] && docs[other][f] == doc[f]
  }

  /** The first unique index a write of `doc` under `id` would violate. */
  function FirstClash(docs: map<Id, Doc>, id: Id, doc: Doc, unique: seq<string>): (r: Option<string>)
    ensures r.Some? ==> r.value in unique && r.value in doc && Clashes(docs, id, doc, r.value)
    decreases |unique|
  {
    if unique == [] then None
    else if Clashes(docs, id, doc, unique[0]) then Some(unique[0])
    else FirstClash(docs, id, doc, unique[1..])
  }

  /** The driver's reply to writing `doc` under `id`: a duplicate `_id`, a unique-index
      violation, or nothing. */
  function WriteError(docs: map<Id, Doc>, id: Id, doc: Doc, unique: seq<string>, isInsert: bool): Option<ErrorObject>
  {
    if isInsert && id in docs then Some(DuplicateKeyError("_id", Str(id)))
    else match FirstClash(docs, id, doc, unique)
      case Some(f) => Some(DuplicateKeyError(f, doc[f]))
      case None => None
  }

  // ---------------------------------------------------------------- reads

  function Reversed(xs: seq<Id>): (r: seq<Id>)
    ensures |r| == |xs|
    ensures forall i :: 0 <= i < |xs| ==> r[i] == xs[|xs| - 1 - i]
  {
    if xs == [] then [] else Reversed(xs[1..]) + [xs[0]]
  }

  /** The ids of `ids` whose documents match `filter`, in the order of `ids`. */
  function Selected(ids: seq<Id>, docs: map<Id, Doc>, schema: Schema, filter: Doc): (r: seq<Id>)
    ensures |r| <= |ids|
    ensures forall i :: 0 <= i < |r| ==> r[i] in docs && Matches(schema, docs[r[i]], filter)
    ensures forall i :: 0 <= i < |r| ==> r[i] in ids
  {
    if ids == [] then []
    else
      var rest := Selected(ids[1..], docs, schema, filter);
      if ids[0] in docs && Matches(schema, docs[ids[0]], filter) then [ids[0]] + rest else rest
  }

  /** The matching ids sorted by `{ createdAt: -1 }`, the default sort of `findAll`. */
  function NewestFirst(s: StoreState, schema: Schema, filter: Doc): (r: seq<Id>)
    ensures forall i :: 0 <= i < |r| ==> r[i] in s.docs && Matches(schema, s.docs[r[i]], filter)
  {
    Selected(Reversed(s.order), s.docs, schema, filter)
  }

  /** `countDocuments(filter)`. */
  function MatchCount(s: StoreState, schema: Schema, filter: Doc): nat
  {
    |set id | id in s.docs && Matches(schema, s.docs[id], filter)|
  }

  /** `.skip(skip).limit(limit)` over a listing. */
  function Window(ids: seq<Id>, skip: nat, limit: nat): (r: seq<Id>)
    ensures |r| <= limit
    ensures |r| == if skip >= |ids| then 0 else if skip + limit <= |ids| then limit else |ids| - skip
    ensures forall i :: 0 <= i < |r| ==> r[i] == ids[skip + i]
  {
    if skip >= |ids| then [] else if skip + limit <= |ids| then ids[skip..skip + limit] else ids[skip..]
  }

  function Documents(s: StoreState, ids: seq<Id>): (r: seq<Document>)
    requires forall i :: 0 <= i < |ids| ==> ids[i] in s.docs
    ensures |r| == |ids|
    ensures forall i :: 0 <= i < |ids| ==> r[i] == Document(ids[i], s.docs[ids[i]])
  {
    seq(|ids|, i requires 0 <= i < |ids| => Document(ids[i], s.docs[ids[i]]))
  }

  /** `findAll(model, filter, { page, limit })` with the default sort. A page below 1 makes the
      skip negative, which the driver refuses. */
  function FindAll(s: StoreState, schema: Schema, filter: Doc, resourceName: string,
                   page: int := 1, limit: int := 10): (r: Result<Page, HttpError>)
    requires limit > 0
    ensures r.Success? <==> page >= 1
    ensures r.Success? ==> r.value.total == MatchCount(s, schema, filter) && |r.value.data| <= limit
    ensures r.Success? ==> forall i :: 0 <= i < |r.value.data| ==>
      var d := r.value.data[i]; d.id in s.docs && d.fields == s.docs[d.id] && Matches(schema, d.fields, filter)
  {
    var skip := (page - 1) * limit;
    if skip < 0 then
      Failure(HandleDatabaseError(DriverError("MongoServerError"), "find all", resourceName))
    else
      var ids := NewestFirst(s, schema, filter);
      Success(Page(Documents(s, Window(ids, skip, limit)), MatchCount(s, schema, filter)))
  }

  /** `findById(model, id)`: the id is cast to an ObjectId, so any spelling of its hexadecimal
      digits finds the record; the not-found message names the id as given. */
  function FindById(s: StoreState, id: Id, resourceName: string): (r: Result<Document, HttpError>)
    ensures r.Success? <==> IsValidObjectId(id) && IdKey(id) in s.docs
    ensures r.Success? ==> r.value == Document(IdKey(id), s.docs[IdKey(id)])
    ensures !IsValidObjectId(id) ==> r == Failure(ValidateObjectId(id, resourceName).value)
    ensures IsValidObjectId(id) && IdKey(id) !in s.docs ==> r == Failure(ResourceNotFoundException(resourceName, id))
  {
    match ValidateObjectId(id, resourceName)
    case Some(e) => Failure(Caught(e, "find by ID", resourceName))
    case None =>
      var key := IdKey(id);
      if key in s.docs then Success(Document(key, s.docs[key]))
      else Failure(Caught(ResourceNotFoundException(resourceName, id), "find by ID", resourceName))
  }

  function FirstMatch(ids: seq<Id>, docs: map<Id, Doc>, schema: Schema, filter: Doc): (r: Option<Id>)
    ensures r.Some? ==> r.value in ids && r.value in docs && Matches(schema, docs[r.value], filter)
    ensures r.None? ==> forall i :: 0 <= i < |ids| && ids[i] in docs ==> !Matches(schema, docs[ids[i]], filter)
  {
    if ids == [] then None
    else if ids[0] in docs && Matches(schema, docs[ids[0]], filter) then Some(ids[0])
    else FirstMatch(ids[1..], docs, schema, filter)
  }

  /** `findOne(model, filter)`: the first match in natural order, or `null`. */
  function FindOne(s: StoreState, schema: Schema, filter: Doc): (r: Option<Document>)
    ensures r.Some? ==> r.value.id in s.docs && r.value.fields == s.docs[r.value.id]
                        && Matches(schema, r.value.fields, filter)
  {
    match FirstMatch(s.order, s.docs, schema, filter)
    case Some(id) => Some(Document(id, s.docs[id]))
    case None => None
  }

  // ---------------------------------------------------------------- writes

  /** `create(model, data, { checkDuplicates: checks })`; `newId` is the id the driver assigns,
      stored in its lower-case form. */
  function CreateOutcome(s: StoreState, schema: Schema, data: Doc, checks: seq<DuplicateCheck>,
                         newId: Id, resourceName: string): Outcome
  {
    var key := IdKey(newId);
    var dup := if |checks| > 0 then FirstDuplicate(s, schema, checks, None, resourceName) else None;
    if dup.Some? then Outcome(Failure(Caught(dup.value, "create", resourceName)), s)
    else
      var doc := Build(schema, data);
      var errors := schema.validate(doc);
      if errors != [] then
        Outcome(Failure(HandleDatabaseError(SchemaValidationError(errors), "create", resourceName)), s)
      else match WriteError(s.docs, key, doc, schema.unique, true)
        case Some(error) => Outcome(Failure(HandleDatabaseError(error, "create", resourceName)), s)
        case None => Outcome(Success(Document(key, doc)), StoreState(s.docs[key := doc], s.order + [key]))
  }

  /** `update(model, id, data, { checkDuplicates: checks })`: `findByIdAndUpdate` with
      `{ new: true, runValidators: true }`, so the result is the updated document. The record
      is the one whose `_id` the id casts to. */
  function UpdateOutcome(s: StoreState, schema: Schema, id: Id, data: Doc, checks: seq<DuplicateCheck>,
                         resourceName: string): Outcome
  {
    match ValidateObjectId(id, resourceName)
    case Some(e) => Outcome(Failure(Caught(e, "update", resourceName)), s)
    case None =>
      var dup := if |checks| > 0 then FirstDuplicate(s, schema, checks, Some(id), resourceName) else None;
      if dup.Some? then Outcome(Failure(Caught(dup.value, "update", resourceName)), s)
      else
        var patch := Cast(schema, data);
        var errors := schema.validateUpdate(patch);
        if errors != [] then
          Outcome(Failure(HandleDatabaseError(SchemaValidationError(errors), "update", resourceName)), s)
        else if IdKey(id) !in s.docs then
          Outcome(Failure(Caught(ResourceNotFoundException(resourceName, id), "update", resourceName)), s)
        else
          var key := IdKey(id);
          var merged := s.docs[key] + patch;
          match WriteError(s.docs, key, merged, schema.unique, false)
          case Some(error) => Outcome(Failure(HandleDatabaseError(error, "update", resourceName)), s)
          case None => Outcome(Success(Document(key, merged)), StoreState(s.docs[key := merged], s.order))
  }

  /** The creation order without `id`. */
  function Without(xs: seq<Id>, id: Id): (r: seq<Id>)
    ensures forall x :: x in r <==> x in xs && x != id
  {
    if xs == [] then [] else (if xs[0] == id then [] else [xs[0]]) + Without(xs[1..], id)
  }

  /** `delete(model, id)`: `findByIdAndDelete`, returning the removed document. */
  function DeleteOutcome(s: StoreState, id: Id, resourceName: string): Outcome
  {
    match ValidateObjectId(id, resourceName)
    case Some(e) => Outcome(Failure(Caught(e, "delete", resourceName)), s)
    case None =>
      var key := IdKey(id);
      if key !in s.docs then
        Outcome(Failure(Caught(ResourceNotFoundException(resourceName, id), "delete", resourceName)), s)
      else
        Outcome(Success(Document(key, s.docs[key])), StoreState(s.docs - {key}, Without(s.order, key)))
  }

  const Deactivate: Doc := map["isActive" := Bool(false)]

  /** `softDelete(model, id)`: `update(model, id, { isActive: false }, {})` inside its own `try`. */
  function SoftDeleteOutcome(s: StoreState, schema: Schema, id: Id, resourceName: string): Outcome
  {
    var o := UpdateOutcome(s, schema, id, Deactivate, [], resourceName);
    if o.result.Failure? then Outcome(Failure(Caught(o.result.error, "soft delete", resourceName)), o.after)
    else o
  }
}

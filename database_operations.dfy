/** The data-access helper as the source writes it: a service over one mutable collection,
    whose operations run their steps in order and leave the store as module `Store` says. */
module DatabaseOperations {
  import opened Wrappers
  import opened Json
  import opened Exceptions
  import opened DbErrors
  import opened Store
  import StoreLemmas

  class Collection {
    const schema: Schema
    var docs: map<Id, Doc>
    var order: seq<Id>

    function Snapshot(): StoreState
      reads this
    {
      StoreState(docs, order)
    }

    /** The store invariant the database maintains: the creation order lists every stored id
        once, and the unique indexes hold. */
    ghost predicate Valid()
      reads this
    {
      Consistent(Snapshot(), schema)
    }

    constructor (schema: Schema)
      ensures Valid()
      ensures this.schema == schema && docs == map[] && order == []
    {
      this.schema := schema;
      docs := map[];
      order := [];
    }

    /** `checkDuplicates`: runs the checks in order and stops at the first one another record
        matches, returning the exception it throws. */
    method CheckDuplicates(checks: seq<DuplicateCheck>, excludeId: Option<Id>, resourceName: string)
      returns (dup: Option<HttpError>)
      ensures dup == FirstDuplicate(Snapshot(), schema, checks, excludeId, resourceName)
    {
      for i := 0 to |checks|
        invariant FirstDuplicate(Snapshot(), schema, checks, excludeId, resourceName)
               == FirstDuplicate(Snapshot(), schema, checks[i..], excludeId, resourceName)
      {
        var check := checks[i];
        assert checks[i..][1..] == checks[i + 1..];
        var existing := Taken(Snapshot(), schema, check, excludeId);
        if existing {
          return Some(DuplicateOf(check, resourceName));
        }
      }
      return None;
    }

    /** `create(model, data, { checkDuplicates: checks })`; `newId` is the id the driver assigns. */
    method Create(data: Doc, checks: seq<DuplicateCheck>, newId: Id, resourceName: string)
      returns (r: Result<Document, HttpError>)
      requires Valid()
      modifies this
      ensures Valid()
      ensures Outcome(r, Snapshot()) == CreateOutcome(old(Snapshot()), schema, data, checks, newId, resourceName)
    {
      StoreLemmas.CreatePreservesConsistent(Snapshot(), schema, data, checks, newId, resourceName);
      if |checks| > 0 {
        var dup := CheckDuplicates(checks, None, resourceName);
        if dup.Some? {
          return Failure(Caught(dup.value, "create", resourceName));
        }
      }
      var document := Build(schema, data);
      var errors := schema.validate(document);
      if errors != [] {
        return Failure(HandleDatabaseError(SchemaValidationError(errors), "create", resourceName));
      }
      var key := IdKey(newId);
      var writeError := WriteError(docs, key, document, schema.unique, true);
      if writeError.Some? {
        return Failure(HandleDatabaseError(writeError.value, "create", resourceName));
      }
      docs := docs[key := document];
      order := order + [key];
      return Success(Document(key, document));
    }

    /** `update(model, id, data, { checkDuplicates: checks })`. */
    method Update(id: Id, data: Doc, checks: seq<DuplicateCheck>, resourceName: string)
      returns (r: Result<Document, HttpError>)
      requires Valid()
      modifies this
      ensures Valid()
      ensures Outcome(r, Snapshot()) == UpdateOutcome(old(Snapshot()), schema, id, data, checks, resourceName)
    {
      StoreLemmas.UpdatePreservesConsistent(Snapshot(), schema, id, data, checks, resourceName);
      var invalid := ValidateObjectId(id, resourceName);
      if invalid.Some? {
        return Failure(Caught(invalid.value, "update", resourceName));
      }
      if |checks| > 0 {
        var dup := CheckDuplicates(checks, Some(id), resourceName);
        if dup.Some? {
          return Failure(Caught(dup.value, "update", resourceName));
        }
      }
      var patch := Cast(schema, data);
      var errors := schema.validateUpdate(patch);
      if errors != [] {
        return Failure(HandleDatabaseError(SchemaValidationError(errors), "update", resourceName));
      }
      var key := IdKey(id);
      if key !in docs {
        return Failure(Caught(ResourceNotFoundException(resourceName, id), "update", resourceName));
      }
      var merged := docs[key] + patch;
      var writeError := WriteError(docs, key, merged, schema.unique, false);
      if writeError.Some? {
        return Failure(HandleDatabaseError(writeError.value, "update", resourceName));
      }
      docs := docs[key := merged];
      return Success(Document(key, merged));
    }

    /** `delete(model, id)`. */
    method Delete(id: Id, resourceName: string) returns (r: Result<Document, HttpError>)
      requires Valid()
      modifies this
      ensures Valid()
      ensures Outcome(r, Snapshot()) == DeleteOutcome(old(Snapshot()), id, resourceName)
    {
      StoreLemmas.DeletePreservesConsistent(Snapshot(), schema, id, resourceName);
      var invalid := ValidateObjectId(id, resourceName);
      if invalid.Some? {
        return Failure(Caught(invalid.value, "delete", resourceName));
      }
      var key := IdKey(id);
      if key !in docs {
        return Failure(Caught(ResourceNotFoundException(resourceName, id), "delete", resourceName));
      }
      var document := Document(key, docs[key]);
      docs := docs - {key};
      order := Without(order, key);
      return Success(document);
    }

    /** `softDelete(model, id)`: `update` with `{ isActive: false }` and no checks, its
        exceptions caught once more. */
    method SoftDelete(id: Id, resourceName: string) returns (r: Result<Document, HttpError>)
      requires Valid()
      modifies this
      ensures Valid()
      ensures Outcome(r, Snapshot()) == SoftDeleteOutcome(old(Snapshot()), schema, id, resourceName)
    {
      r := Update(id, Deactivate, [], resourceName);
      if r.Failure? {
        r := Failure(Caught(r.error, "soft delete", resourceName));
      }
    }
  }
}

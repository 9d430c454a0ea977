/** What the data-access helper promises, proved about the functions of module `Store`. */
module StoreLemmas {
  import opened Wrappers
  import opened Json
  import opened Exceptions
  import opened DbErrors
  import opened Store

  // ---------------------------------------------------------------- checkDuplicates

  /** The checks pass exactly when no check matches another document; when one fails, it is the
      first matching check, in the order given, that names the field and value. */
  lemma FirstDuplicateSpec(s: StoreState, schema: Schema, checks: seq<DuplicateCheck>,
                           excludeId: Option<Id>, resourceName: string)
    ensures var r := FirstDuplicate(s, schema, checks, excludeId, resourceName);
      && (r.None? <==> forall i :: 0 <= i < |checks| ==> !Taken(s, schema, checks[i], excludeId))
      && (r.Some? ==> exists i :: && 0 <= i < |checks| && Taken(s, schema, checks[i], excludeId)
                                  && (forall j :: 0 <= j < i ==> !Taken(s, schema, checks[j], excludeId))
                                  && r.value == DuplicateOf(checks[i], resourceName))
  {
    FirstDuplicateNone(s, schema, checks, excludeId, resourceName);
    if FirstDuplicate(s, schema, checks, excludeId, resourceName).Some? {
      FirstDuplicateWitness(s, schema, checks, excludeId, resourceName);
    }
  }

  /** `checkDuplicates` passes exactly when no check finds another record. */
  lemma {:induction false} FirstDuplicateNone(s: StoreState, schema: Schema, checks: seq<DuplicateCheck>,
                                              excludeId: Option<Id>, resourceName: string)
    ensures FirstDuplicate(s, schema, checks, excludeId, resourceName).None?
        <==> forall i :: 0 <= i < |checks| ==> !Taken(s, schema, checks[i], excludeId)
    decreases |checks|
  {
    if checks != [] {
      var rest := checks[1..];
      FirstDuplicateNone(s, schema, rest, excludeId, resourceName);
      assert forall i :: 1 <= i < |checks| ==> checks[i] == rest[i - 1];
    }
  }

  /** A conflict reported by `checkDuplicates` is that of the earliest check that finds another
      record. */
  lemma {:induction false} FirstDuplicateWitness(s: StoreState, schema: Schema, checks: seq<DuplicateCheck>,
                                                 excludeId: Option<Id>, resourceName: string)
    requires FirstDuplicate(s, schema, checks, excludeId, resourceName).Some?
    ensures exists i :: && 0 <= i < |checks| && Taken(s, schema, checks[i], excludeId)
                        && (forall j :: 0 <= j < i ==> !Taken(s, schema, checks[j], excludeId))
                        && FirstDuplicate(s, schema, checks, excludeId, resourceName).value
                           == DuplicateOf(checks[i], resourceName)
    decreases |checks|
  {
    if !Taken(s, schema, checks[0], excludeId) {
      var rest := checks[1..];
      FirstDuplicateWitness(s, schema, rest, excludeId, resourceName);
      var i :| && 0 <= i < |rest| && Taken(s, schema, rest[i], excludeId)
               && (forall j :: 0 <= j < i ==> !Taken(s, schema, rest[j], excludeId))
               && FirstDuplicate(s, schema, rest, excludeId, resourceName).value == DuplicateOf(rest[i], resourceName);
      assert checks[i + 1] == rest[i];
      forall j | 0 <= j < i + 1 ensures !Taken(s, schema, checks[j], excludeId) {
        if j > 0 { assert checks[j] == rest[j - 1]; }
      }
    }
  }


  /** With the unique index in place, the record being updated never counts as a duplicate of
      its own current value, however the request spells its id: updating a field to what it
      already holds passes the check. */
  lemma OwnValueIsNoDuplicate(s: StoreState, schema: Schema, id: Id, check: DuplicateCheck)
    requires UniqueIndexHolds(s.docs, schema.unique)
    requires check.field in schema.unique && id != ""
    requires IdKey(id) in s.docs && check.field in s.docs[IdKey(id)]
    requires s.docs[IdKey(id)][check.field] == schema.setter(check.field, check.value)
    ensures !Taken(s, schema, check, Some(id))
  {
  }

  // ---------------------------------------------------------------- the unique index

  lemma {:induction false} FirstClashNone(docs: map<Id, Doc>, id: Id, doc: Doc, unique: seq<string>)
    ensures FirstClash(docs, id, doc, unique).None? <==> forall f :: f in unique ==> !Clashes(docs, id, doc, f)
    decreases |unique|
  {
    if unique != [] {
      FirstClashNone(docs, id, doc, unique[1..]);
      assert forall f :: f in unique ==> f == unique[0] || f in unique[1..];
    }
  }

  /** Storing `doc` under `id`, when it clashes at no unique path, keeps the index intact. */
  lemma PutKeepsUniqueIndex(docs: map<Id, Doc>, unique: seq<string>, id: Id, doc: Doc)
    requires UniqueIndexHolds(docs, unique)
    requires FirstClash(docs, id, doc, unique).None?
    ensures UniqueIndexHolds(docs[id := doc], unique)
  {
    FirstClashNone(docs, id, doc, unique);
    var d := docs[id := doc];
    forall a, b, f | a in d && b in d && a != b && f in unique && f in d[a] && f in d[b]
      ensures d[a][f] != d[b][f]
    {
      if a == id {
        assert !Clashes(docs, id, doc, f);
      } else if b == id {
        assert !Clashes(docs, id, doc, f);
      }
    }
  }

  // ---------------------------------------------------------------- create

  /** `create` either fails and leaves the store as it was, or adds exactly one record, under
      the new id, holding the data with setters and defaults applied. */
  lemma CreateEffect(s: StoreState, schema: Schema, data: Doc, checks: seq<DuplicateCheck>,
                     newId: Id, resourceName: string)
    ensures var o := CreateOutcome(s, schema, data, checks, newId, resourceName);
      && (o.result.Failure? ==> o.after == s)
      && (o.result.Success? ==>
            && IdKey(newId) !in s.docs
            && o.result.value == Document(IdKey(newId), Build(schema, data))
            && o.after.docs == s.docs[IdKey(newId) := Build(schema, data)]
            && o.after.order == s.order + [IdKey(newId)]
            && |o.after.docs| == |s.docs| + 1)
  {
  }

  /** The duplicate checks run before anything is inserted: the first failing check decides
      the result, whatever the data. */
  lemma CreateChecksFirst(s: StoreState, schema: Schema, data: Doc, checks: seq<DuplicateCheck>,
                          newId: Id, resourceName: string)
    requires FirstDuplicate(s, schema, checks, None, resourceName).Some?
    ensures var o := CreateOutcome(s, schema, data, checks, newId, resourceName);
      o.result == Failure(FirstDuplicate(s, schema, checks, None, resourceName).value) && o.after == s
  {
    assert checks != [];
  }

  /** When `create` succeeds, and only then: every check passed, the built document is valid,
      the id is new and no unique index is violated. */
  lemma CreateSucceedsIff(s: StoreState, schema: Schema, data: Doc, checks: seq<DuplicateCheck>,
                          newId: Id, resourceName: string)
    ensures CreateOutcome(s, schema, data, checks, newId, resourceName).result.Success? <==>
      && (forall i :: 0 <= i < |checks| ==> !Taken(s, schema, checks[i], None))
      && schema.validate(Build(schema, data)) == []
      && IdKey(newId) !in s.docs
      && (forall f :: f in schema.unique ==> !Clashes(s.docs, IdKey(newId), Build(schema, data), f))
  {
    FirstDuplicateSpec(s, schema, checks, None, resourceName);
    FirstClashNone(s.docs, IdKey(newId), Build(schema, data), schema.unique);
  }

  lemma CreatePreservesConsistent(s: StoreState, schema: Schema, data: Doc, checks: seq<DuplicateCheck>,
                                  newId: Id, resourceName: string)
    requires Consistent(s, schema)
    ensures Consistent(CreateOutcome(s, schema, data, checks, newId, resourceName).after, schema)
  {
    var o := CreateOutcome(s, schema, data, checks, newId, resourceName);
    if o.result.Success? {
      var doc := Build(schema, data);
      var key := IdKey(newId);
      IdKeyIdempotent(newId);
      assert WriteError(s.docs, key, doc, schema.unique, true).None?;
      PutKeepsUniqueIndex(s.docs, schema.unique, key, doc);
      assert key !in s.order;
      var order := s.order + [key];
      assert NoDups(order) by {
        forall i, j | 0 <= i < j < |order| ensures order[i] != order[j] {
          if j == |s.order| {
            assert order[i] == s.order[i];
          }
        }
      }
    }
  }

  // ---------------------------------------------------------------- update

  /** `update` either fails and leaves the store as it was, or changes the one record with the
      given id, merging the cast patch over it, and nothing else. */
  lemma UpdateEffect(s: StoreState, schema: Schema, id: Id, data: Doc, checks: seq<DuplicateCheck>,
                     resourceName: string)
    ensures var o := UpdateOutcome(s, schema, id, data, checks, resourceName);
      && (o.result.Failure? ==> o.after == s)
      && (o.result.Success? ==>
            && IsValidObjectId(id) && IdKey(id) in s.docs
            && o.result.value == Document(IdKey(id), s.docs[IdKey(id)] + Cast(schema, data))
            && o.after.docs.Keys == s.docs.Keys && o.after.order == s.order
            && o.after.docs[IdKey(id)] == s.docs[IdKey(id)] + Cast(schema, data)
            && (forall other :: other in s.docs && other != IdKey(id) ==> o.after.docs[other] == s.docs[other]))
  {
  }

  /** When the id, the checks, the update validators and the unique index all pass, `update`
      rewrites the record with the patch overlaid and returns it. */
  lemma UpdateSucceedsWhen(s: StoreState, schema: Schema, id: Id, data: Doc, checks: seq<DuplicateCheck>,
                           resourceName: string)
    requires IsValidObjectId(id) && IdKey(id) in s.docs
    requires FirstDuplicate(s, schema, checks, Some(id), resourceName).None?
    requires schema.validateUpdate(Cast(schema, data)) == []
    requires WriteError(s.docs, IdKey(id), s.docs[IdKey(id)] + Cast(schema, data), schema.unique, false).None?
    ensures var key := IdKey(id);
      var merged := s.docs[key] + Cast(schema, data);
      UpdateOutcome(s, schema, id, data, checks, resourceName)
        == Outcome(Success(Document(key, merged)), StoreState(s.docs[key := merged], s.order))
  {
  }

  /** An update whose cast patch leaves the record as it is succeeds, once every gate passes,
      returns the record and changes nothing. */
  lemma UpdateNoChange(s: StoreState, schema: Schema, id: Id, data: Doc, checks: seq<DuplicateCheck>,
                       resourceName: string)
    requires IsValidObjectId(id) && IdKey(id) in s.docs
    requires FirstDuplicate(s, schema, checks, Some(id), resourceName).None?
    requires schema.validateUpdate(Cast(schema, data)) == []
    requires s.docs[IdKey(id)] + Cast(schema, data) == s.docs[IdKey(id)]
    requires WriteError(s.docs, IdKey(id), s.docs[IdKey(id)], schema.unique, false).None?
    ensures UpdateOutcome(s, schema, id, data, checks, resourceName)
      == Outcome(Success(Document(IdKey(id), s.docs[IdKey(id)])), s)
  {
    var key := IdKey(id);
    UpdateSucceedsWhen(s, schema, id, data, checks, resourceName);
    assert s.docs[key := s.docs[key]] == s.docs;
  }

  /** A one-property patch at a declared path is cast to that property, set. */
  lemma CastSingle(schema: Schema, k: string, v: Value)
    requires k in schema.paths
    ensures Cast(schema, map[k := v]) == map[k := schema.setter(k, v)]
  {
    var c := Cast(schema, map[k := v]);
    assert c.Keys == {k};
    assert c[k] == schema.setter(k, v);
  }

  /** A two-property filter matches when both properties match, each value cast by its setter. */
  lemma MatchesPair(schema: Schema, doc: Doc, k1: string, v1: Value, k2: string, v2: Value)
    requires k1 != k2
    ensures Matches(schema, doc, map[k1 := v1, k2 := v2]) <==>
      && k1 in doc && doc[k1] == schema.setter(k1, v1)
      && k2 in doc && doc[k2] == schema.setter(k2, v2)
  {
    var filter := map[k1 := v1, k2 := v2];
    assert filter.Keys == {k1, k2};
    assert filter[k1] == v1 && filter[k2] == v2;
  }

  /** A malformed id is refused before the store is touched, with the validation exception of
      `validateObjectId`. */
  lemma UpdateRejectsMalformedId(s: StoreState, schema: Schema, id: Id, data: Doc,
                                 checks: seq<DuplicateCheck>, resourceName: string)
    requires !IsValidObjectId(id)
    ensures var o := UpdateOutcome(s, schema, id, data, checks, resourceName);
      o.result == Failure(ValidateObjectId(id, resourceName).value) && o.after == s
  {
  }

  /** Once the id, the checks and the update validators pass, a missing record gives
      `ResourceNotFound` for that id, unchanged by the `catch`. */
  lemma UpdateMissingIsNotFound(s: StoreState, schema: Schema, id: Id, data: Doc,
                                checks: seq<DuplicateCheck>, resourceName: string)
    requires IsValidObjectId(id) && IdKey(id) !in s.docs
    requires forall i :: 0 <= i < |checks| ==> !Taken(s, schema, checks[i], Some(id))
    requires schema.validateUpdate(Cast(schema, data)) == []
    ensures var o := UpdateOutcome(s, schema, id, data, checks, resourceName);
      o.result == Failure(ResourceNotFoundException(resourceName, id)) && o.after == s
  {
    FirstDuplicateSpec(s, schema, checks, Some(id), resourceName);
  }

  /** A check whose value some other record holds makes `update` fail with that duplicate.
      The record the id casts to is excluded from the checks, whatever the case of its
      hexadecimal digits: a check finds something only in a record with a different `_id`. */
  lemma UpdateChecksExcludeOwnId(s: StoreState, schema: Schema, id: Id, data: Doc,
                                 checks: seq<DuplicateCheck>, resourceName: string)
    requires IsValidObjectId(id)
    ensures var o := UpdateOutcome(s, schema, id, data, checks, resourceName);
      var dup := FirstDuplicate(s, schema, checks, Some(id), resourceName);
      dup.Some? ==> o.result == Failure(dup.value) && o.after == s
    ensures forall i :: 0 <= i < |checks| ==>
      (Taken(s, schema, checks[i], Some(id)) <==>
        exists other :: && other in s.docs && other != IdKey(id) && checks[i].field in s.docs[other]
                        && s.docs[other][checks[i].field] == schema.setter(checks[i].field, checks[i].value))
  {
  }

  lemma UpdatePreservesConsistent(s: StoreState, schema: Schema, id: Id, data: Doc,
                                  checks: seq<DuplicateCheck>, resourceName: string)
    requires Consistent(s, schema)
    ensures Consistent(UpdateOutcome(s, schema, id, data, checks, resourceName).after, schema)
  {
    var o := UpdateOutcome(s, schema, id, data, checks, resourceName);
    if o.result.Success? {
      var key := IdKey(id);
      var merged := s.docs[key] + Cast(schema, data);
      assert WriteError(s.docs, key, merged, schema.unique, false).None?;
      PutKeepsUniqueIndex(s.docs, schema.unique, key, merged);
    }
  }

  // ---------------------------------------------------------------- delete and soft delete

  /** `delete` removes exactly the record with the given id and returns it; a missing record
      gives `ResourceNotFound` and a malformed id the validation exception, both leaving the
      store as it was. */
  lemma DeleteEffect(s: StoreState, id: Id, resourceName: string)
    ensures var o := DeleteOutcome(s, id, resourceName);
      && (o.result.Failure? ==> o.after == s)
      && (!IsValidObjectId(id) ==> o.result == Failure(ValidateObjectId(id, resourceName).value))
      && (IsValidObjectId(id) && IdKey(id) !in s.docs ==> o.result == Failure(ResourceNotFoundException(resourceName, id)))
      && (o.result.Success? <==> IsValidObjectId(id) && IdKey(id) in s.docs)
      && (o.result.Success? ==> && o.result.value == Document(IdKey(id), s.docs[IdKey(id)])
                                && o.after.docs == s.docs - {IdKey(id)}
                                && (forall x :: x in o.after.order <==> x in s.order && x != IdKey(id)))
  {
  }

  lemma {:induction false} WithoutKeepsNoDups(xs: seq<Id>, id: Id)
    requires NoDups(xs)
    ensures NoDups(Without(xs, id))
  {
    if xs != [] {
      var rest := xs[1..];
      assert NoDups(rest) by {
        forall i, j | 0 <= i < j < |rest| ensures rest[i] != rest[j] {
          assert rest[i] == xs[i + 1] && rest[j] == xs[j + 1];
        }
      }
      WithoutKeepsNoDups(rest, id);
      var w := Without(rest, id);
      if xs[0] != id {
        assert xs[0] !in rest by {
          forall j | 0 <= j < |rest| ensures rest[j] != xs[0] {
            assert rest[j] == xs[j + 1];
          }
        }
        assert xs[0] !in w;
        var r := [xs[0]] + w;
        forall i, j | 0 <= i < j < |r| ensures r[i] != r[j] {
          if i == 0 {
            assert r[j] == w[j - 1];
            assert r[j] in w;
          } else {
            assert r[i] == w[i - 1] && r[j] == w[j - 1];
          }
        }
      }
    }
  }

  lemma DeletePreservesConsistent(s: StoreState, schema: Schema, id: Id, resourceName: string)
    requires Consistent(s, schema)
    ensures Consistent(DeleteOutcome(s, id, resourceName).after, schema)
  {
    var o := DeleteOutcome(s, id, resourceName);
    if o.result.Success? {
      WithoutKeepsNoDups(s.order, IdKey(id));
      var order := Without(s.order, IdKey(id));
      forall i | 0 <= i < |order| ensures order[i] in o.after.docs {
        assert order[i] in order;
      }
    }
  }

  /** `softDelete` is `update(id, { isActive: false })` with no duplicate checks: the outer
      `catch` hands every exception of `update` on unchanged. */
  lemma SoftDeleteIsUpdate(s: StoreState, schema: Schema, id: Id, resourceName: string)
    ensures SoftDeleteOutcome(s, schema, id, resourceName) == UpdateOutcome(s, schema, id, Deactivate, [], resourceName)
  {
  }

  lemma SoftDeletePreservesConsistent(s: StoreState, schema: Schema, id: Id, resourceName: string)
    requires Consistent(s, schema)
    ensures Consistent(SoftDeleteOutcome(s, schema, id, resourceName).after, schema)
  {
    SoftDeleteIsUpdate(s, schema, id, resourceName);
    UpdatePreservesConsistent(s, schema, id, Deactivate, [], resourceName);
  }

  // ---------------------------------------------------------------- findById, findAll and findOne

  /** Two well-formed ids that cast to the same ObjectId fetch the same answer: the case of the
      hexadecimal digits does not matter. */
  lemma FindByIdIgnoresCase(s: StoreState, a: Id, b: Id, resourceName: string)
    requires IsValidObjectId(a) && IsValidObjectId(b)
    requires forall i :: 0 <= i < |a| ==> HexValue(a[i]) == HexValue(b[i])
    ensures FindById(s, a, resourceName).Success? <==> FindById(s, b, resourceName).Success?
    ensures FindById(s, a, resourceName).Success? ==> FindById(s, a, resourceName) == FindById(s, b, resourceName)
  {
    SameObjectIdIff(a, b);
  }

  lemma ReversedKeepsMembers(xs: seq<Id>)
    ensures forall x :: x in Reversed(xs) <==> x in xs
  {
    var r := Reversed(xs);
    forall x | x in xs ensures x in r {
      var k :| 0 <= k < |xs| && xs[k] == x;
      assert r[|xs| - 1 - k] == x;
    }
  }

  lemma ReversedKeepsNoDups(xs: seq<Id>)
    requires NoDups(xs)
    ensures NoDups(Reversed(xs))
  {
    var r := Reversed(xs);
    forall i, j | 0 <= i < j < |r| ensures r[i] != r[j] {
      assert r[i] == xs[|xs| - 1 - i] && r[j] == xs[|xs| - 1 - j];
    }
  }

  lemma {:induction false} SelectedCount(ids: seq<Id>, docs: map<Id, Doc>, schema: Schema, filter: Doc)
    requires NoDups(ids)
    ensures |Selected(ids, docs, schema, filter)|
         == |set id | id in ids && id in docs && Matches(schema, docs[id], filter)|
  {
    var all := set id | id in ids && id in docs && Matches(schema, docs[id], filter);
    if ids == [] {
      assert all == {};
    } else {
      var rest := ids[1..];
      NoDupsTail(ids);
      SelectedCount(rest, docs, schema, filter);
      var later := set id | id in rest && id in docs && Matches(schema, docs[id], filter);
      MatchingSetSplit(ids, docs, schema, filter);
      assert ids[0] !in later;
    }
  }

  /** The tail of a duplicate-free list is duplicate-free and does not hold its head. */
  lemma NoDupsTail(ids: seq<Id>)
    requires NoDups(ids) && ids != []
    ensures NoDups(ids[1..]) && ids[0] !in ids[1..]
  {
    var rest := ids[1..];
    forall i, j | 0 <= i < j < |rest| ensures rest[i] != rest[j] {
      assert rest[i] == ids[i + 1] && rest[j] == ids[j + 1];
    }
    forall j | 0 <= j < |rest| ensures rest[j] != ids[0] {
      assert rest[j] == ids[j + 1];
    }
  }

  /** The matching ids of a list are those of its tail, plus its head when that matches. */
  lemma MatchingSetSplit(ids: seq<Id>, docs: map<Id, Doc>, schema: Schema, filter: Doc)
    requires ids != []
    ensures var head := if ids[0] in docs && Matches(schema, docs[ids[0]], filter) then {ids[0]} else {};
      (set id | id in ids && id in docs && Matches(schema, docs[id], filter))
        == (set id | id in ids[1..] && id in docs && Matches(schema, docs[id], filter)) + head
  {
    assert forall x :: x in ids <==> x == ids[0] || x in ids[1..];
  }


  /** `total` counts every match, whatever the page: it is the length of the full listing. */
  lemma TotalIsListingLength(s: StoreState, schema: Schema, filter: Doc)
    requires WellFormed(s)
    ensures |NewestFirst(s, schema, filter)| == MatchCount(s, schema, filter)
  {
    var ids := Reversed(s.order);
    ReversedKeepsMembers(s.order);
    ReversedKeepsNoDups(s.order);
    SelectedCount(ids, s.docs, schema, filter);
    assert (set id | id in ids && id in s.docs && Matches(schema, s.docs[id], filter))
        == (set id | id in s.docs && Matches(schema, s.docs[id], filter));
  }

  /** Page `page` of size `limit` skips `(page - 1) * limit` matches and holds the next `limit`
      of them, or fewer on the last page, and none past it. */
  lemma FindAllPageSize(s: StoreState, schema: Schema, filter: Doc, resourceName: string, page: int, limit: int)
    requires WellFormed(s) && page >= 1 && limit > 0
    ensures var r := FindAll(s, schema, filter, resourceName, page, limit);
      var skip := (page - 1) * limit;
      var total := MatchCount(s, schema, filter);
      && r.Success?
      && |r.value.data| == (if skip >= total then 0 else if skip + limit <= total then limit else total - skip)
      && (forall i :: 0 <= i < |r.value.data| ==> r.value.data[i].id == NewestFirst(s, schema, filter)[skip + i])
  {
    TotalIsListingLength(s, schema, filter);
    assert (page - 1) * limit >= 0;
  }

  /** The record at position `k` of the full listing is on page `k / limit + 1`, at index
      `k % limit`: consecutive pages cover the listing without gaps or overlaps. */
  lemma PageLocation(s: StoreState, schema: Schema, filter: Doc, resourceName: string, limit: int, k: nat)
    requires WellFormed(s) && limit > 0 && k < MatchCount(s, schema, filter)
    ensures var r := FindAll(s, schema, filter, resourceName, k / limit + 1, limit);
      && r.Success? && k % limit < |r.value.data| && k < |NewestFirst(s, schema, filter)|
      && r.value.data[k % limit].id == NewestFirst(s, schema, filter)[k]
  {
    var page, m := k / limit + 1, k % limit;
    var skip := (page - 1) * limit;
    TotalIsListingLength(s, schema, filter);
    PageArithmetic(k, limit, MatchCount(s, schema, filter));
    FindAllPageSize(s, schema, filter, resourceName, page, limit);
    var data := FindAll(s, schema, filter, resourceName, page, limit).value.data;
    assert skip + m == k && m < |data|;
    assert data[m].id == NewestFirst(s, schema, filter)[skip + m];
  }

  /** Position `k` lies `k % limit` places into page `k / limit + 1`, within the size that
      page has when the listing holds `total` records. */
  lemma PageArithmetic(k: nat, limit: int, total: nat)
    requires limit > 0 && k < total
    ensures var skip := (k / limit + 1 - 1) * limit;
      && 0 <= skip <= k && k - skip == k % limit
      && k % limit < (if skip >= total then 0 else if skip + limit <= total then limit else total - skip)
  {
    assert (k / limit + 1 - 1) * limit == (k / limit) * limit;
    assert (k / limit) * limit + k % limit == k;
  }

  /** Every stored record that matches the filter is in the listing. */
  lemma NewestFirstComplete(s: StoreState, schema: Schema, filter: Doc, id: Id)
    requires WellFormed(s) && id in s.docs && Matches(schema, s.docs[id], filter)
    ensures id in NewestFirst(s, schema, filter)
  {
    ReversedKeepsMembers(s.order);
    SelectedComplete(Reversed(s.order), s.docs, schema, filter, id);
  }

  lemma {:induction false} SelectedComplete(ids: seq<Id>, docs: map<Id, Doc>, schema: Schema, filter: Doc, id: Id)
    requires id in ids && id in docs && Matches(schema, docs[id], filter)
    ensures id in Selected(ids, docs, schema, filter)
  {
    if ids[0] != id {
      SelectedComplete(ids[1..], docs, schema, filter, id);
    }
  }

  /** `a` is `b` with some elements left out, the rest in the same order. */
  predicate IsSubsequence(a: seq<Id>, b: seq<Id>)
    decreases |b|
  {
    a == [] || (b != [] && if a[0] == b[0] then IsSubsequence(a[1..], b[1..]) else IsSubsequence(a, b[1..]))
  }

  lemma {:induction false} SelectedIsSubsequence(ids: seq<Id>, docs: map<Id, Doc>, schema: Schema, filter: Doc)
    requires NoDups(ids)
    ensures IsSubsequence(Selected(ids, docs, schema, filter), ids)
  {
    if ids != [] {
      var rest := ids[1..];
      assert NoDups(rest) by {
        forall i, j | 0 <= i < j < |rest| ensures rest[i] != rest[j] {
          assert rest[i] == ids[i + 1] && rest[j] == ids[j + 1];
        }
      }
      SelectedIsSubsequence(rest, docs, schema, filter);
      var sel := Selected(rest, docs, schema, filter);
      if !(ids[0] in docs && Matches(schema, docs[ids[0]], filter)) && sel != [] {
        assert sel[0] in rest;
        assert ids[0] !in rest by {
          forall j | 0 <= j < |rest| ensures rest[j] != ids[0] {
            assert rest[j] == ids[j + 1];
          }
        }
      }
    }
  }

  /** The listing is sorted newest first: it keeps the reverse creation order. */
  lemma NewestFirstIsSorted(s: StoreState, schema: Schema, filter: Doc)
    requires WellFormed(s)
    ensures IsSubsequence(NewestFirst(s, schema, filter), Reversed(s.order))
  {
    ReversedKeepsNoDups(s.order);
    SelectedIsSubsequence(Reversed(s.order), s.docs, schema, filter);
  }

  /** `findOne` returns `null`, not an error, exactly when no stored record matches. */
  lemma FindOneNullIffNoMatch(s: StoreState, schema: Schema, filter: Doc)
    requires WellFormed(s)
    ensures FindOne(s, schema, filter).None? <==> forall id :: id in s.docs ==> !Matches(schema, s.docs[id], filter)
  {
    if FindOne(s, schema, filter).None? {
      forall id | id in s.docs ensures !Matches(schema, s.docs[id], filter) {
        var k :| 0 <= k < |s.order| && s.order[k] == id;
      }
    }
  }
}

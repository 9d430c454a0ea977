/** What the user service promises, proved from the helper's semantics and the user schema. */
module UsersLemmas {
  import opened Wrappers
  import opened Text
  import opened Json
  import opened Exceptions
  import opened DbErrors
  import opened Http
  import opened Store
  import opened StoreLemmas
  import opened UserSchema
  import opened UserDto
  import opened Users

  /** Some stored user already has the (normalised) email `v`. */
  ghost predicate EmailTaken(s: StoreState, v: Value)
  {
    exists id :: id in s.docs && "email" in s.docs[id] && s.docs[id]["email"] == v
  }

  // ---------------------------------------------------------------- createUser

  /** A create whose email some stored user already has fails with the conflict for that email
      and leaves the store unchanged, whatever else the body holds. */
  lemma CreateUserTakenEmailFails(s: StoreState, dto: Doc, newId: Id)
    requires EmailTaken(s, Setter("email", Get(dto, "email")))
    ensures var o := CreateUserOutcome(s, dto, newId);
      && o.result == Failure(DuplicateResourceException(Resource, "email", Render(Get(dto, "email"))))
      && o.after == s
  {
    var checks := CreateChecks(dto);
    assert Taken(s, User, checks[0], None);
    CreateChecksFirst(s, User, dto, checks, newId, Resource);
  }

  /** For a new id, the unique index refuses an insert exactly when the email is taken. */
  lemma InsertClashIffEmailTaken(s: StoreState, newId: Id, doc: Doc, v: Value)
    requires newId !in s.docs && "email" in doc && doc["email"] == v
    ensures (forall f :: f in User.unique ==> !Clashes(s.docs, newId, doc, f)) <==> !EmailTaken(s, v)
  {
    assert User.unique == ["email"];
    assert Clashes(s.docs, newId, doc, "email") <==> EmailTaken(s, v);
  }

  /** The one check `createUser` runs fails exactly when the email is taken. */
  lemma CreateCheckIffEmailTaken(s: StoreState, dto: Doc)
    ensures (forall i :: 0 <= i < |CreateChecks(dto)| ==> !Taken(s, User, CreateChecks(dto)[i], None))
        <==> !EmailTaken(s, Setter("email", Get(dto, "email")))
  {
    var checks := CreateChecks(dto);
    assert |checks| == 1;
    assert Taken(s, User, checks[0], None) <==> EmailTaken(s, Setter("email", Get(dto, "email")));
  }

  /** A body the create rules accept, with a name that is not blank, is stored exactly when the
      new id is free and no stored user has its email once lower-cased and trimmed. */
  lemma CreateValidUserSucceedsIff(s: StoreState, dto: Doc, newId: Id)
    requires ValidCreate(dto) && Trim(dto["name"].s) != ""
    ensures CreateUserOutcome(s, dto, newId).result.Success? <==>
      IdKey(newId) !in s.docs && !EmailTaken(s, Str(Trim(ToLower(dto["email"].s))))
  {
    var doc := Build(User, dto);
    var v := Str(Trim(ToLower(dto["email"].s)));
    CreateSucceedsIff(s, User, dto, CreateChecks(dto), newId, Resource);
    CreateCheckIffEmailTaken(s, dto);
    CreateBodyPassesSchema(dto);
    BuildNormalises(dto);
    if IdKey(newId) !in s.docs {
      InsertClashIffEmailTaken(s, IdKey(newId), doc, v);
    }
  }

  /** A create that succeeds stores the body normalised, with the defaults filled in (a body
      the create rules accept has these properties and no `isActive`). */
  lemma CreateUserStoresNormalised(s: StoreState, dto: Doc, newId: Id)
    requires "name" in dto && dto["name"].Str? && "email" in dto && dto["email"].Str?
    requires "age" in dto && "isActive" !in dto
    ensures var o := CreateUserOutcome(s, dto, newId);
      var key := IdKey(newId);
      o.result.Success? ==>
        && o.after.docs == s.docs[key := Build(User, dto)]
        && o.after.docs[key]["name"] == Str(Trim(dto["name"].s))
        && o.after.docs[key]["email"] == Str(Trim(ToLower(dto["email"].s)))
        && o.after.docs[key]["isActive"] == Bool(true)
        && o.after.docs[key]["age"] == dto["age"]
  {
    CreateEffect(s, User, dto, CreateChecks(dto), newId, Resource);
    BuildNormalises(dto);
  }

  // ---------------------------------------------------------------- the listings

  /** `getAllUsers` leaves out no active user while there are at most 1000 of them. */
  lemma GetAllUsersComplete(s: StoreState, id: Id)
    requires WellFormed(s) && MatchCount(s, User, ActiveFilter) <= AllUsersLimit
    requires id in s.docs && "isActive" in s.docs[id] && s.docs[id]["isActive"] == Bool(true)
    ensures exists i :: 0 <= i < |GetAllUsers(s).value| && GetAllUsers(s).value[i].id == id
  {
    var listing := NewestFirst(s, User, ActiveFilter);
    NewestFirstComplete(s, User, ActiveFilter, id);
    FindAllPageSize(s, User, ActiveFilter, Resource, 1, AllUsersLimit);
    TotalIsListingLength(s, User, ActiveFilter);
    var k :| 0 <= k < |listing| && listing[k] == id;
    var page := FindAll(s, User, ActiveFilter, Resource, 1, AllUsersLimit);
    assert GetAllUsers(s).value == page.value.data;
    assert page.value.data[k].id == id;
  }

  /** Page 2 of size 5 over 12 active users holds 5 of them, and there are 3 pages. */
  lemma PaginationExample(s: StoreState, timestamp: string)
    requires WellFormed(s) && MatchCount(s, User, ActiveFilter) == 12
    ensures var r := GetUsersPaginated(s, 2, 5, timestamp);
      r.Success? && |r.value.data| == 5 && r.value.pagination.totalPages == 3
  {
    FindAllPageSize(s, User, ActiveFilter, Resource, 2, 5);
  }

  /** Position `k` of a listing of `total` lies on a page no later than the last one. */
  lemma PageWithinCount(k: nat, limit: int, total: nat)
    requires limit > 0 && k < total
    ensures k / limit + 1 <= CeilDiv(total, limit)
  {
    assert (k / limit) * limit <= k;
  }

  /** The pages `1 .. totalPages` cover the active users: the user at position `k` of the
      newest-first listing is on page `k / limit + 1`, which is at most `totalPages`. */
  lemma EveryActiveUserOnSomePage(s: StoreState, limit: int, k: nat, timestamp: string)
    requires WellFormed(s) && limit > 0 && k < MatchCount(s, User, ActiveFilter)
    ensures var page := k / limit + 1;
      var r := GetUsersPaginated(s, page, limit, timestamp);
      && r.Success? && 1 <= page <= r.value.pagination.totalPages
      && k % limit < |r.value.data| && k < |NewestFirst(s, User, ActiveFilter)|
      && r.value.data[k % limit].id == NewestFirst(s, User, ActiveFilter)[k]
  {
    var page := k / limit + 1;
    PageLocation(s, User, ActiveFilter, Resource, limit, k);
    PageWithinCount(k, limit, MatchCount(s, User, ActiveFilter));
    var f := FindAll(s, User, ActiveFilter, Resource, page, limit);
    var r := GetUsersPaginated(s, page, limit, timestamp);
    assert r.value.data == f.value.data;
    TotalIsListingLength(s, User, ActiveFilter);
  }

  /** The `getUserByEmail` filter matches exactly the active records holding the email once
      it is lower-cased and trimmed. */
  lemma ActiveEmailMatches(doc: Doc, email: string)
    ensures Matches(User, doc, map["email" := Str(email), "isActive" := Bool(true)]) <==>
      ("email" in doc && doc["email"] == Str(Trim(ToLower(email)))
       && "isActive" in doc && doc["isActive"] == Bool(true))
  {
    MatchesPair(User, doc, "email", Str(email), "isActive", Bool(true));
    assert User.setter("email", Str(email)) == Str(Trim(ToLower(email)));
    assert User.setter("isActive", Bool(true)) == Bool(true);
  }

  /** `getUserByEmail` answers `null` exactly when no active user has the email once it is
      lower-cased and trimmed. */
  lemma GetUserByEmailNullIff(s: StoreState, email: string)
    requires WellFormed(s)
    ensures GetUserByEmail(s, email).None? <==>
      forall id :: id in s.docs ==>
        !("email" in s.docs[id] && s.docs[id]["email"] == Str(Trim(ToLower(email)))
          && "isActive" in s.docs[id] && s.docs[id]["isActive"] == Bool(true))
  {
    var filter := map["email" := Str(email), "isActive" := Bool(true)];
    FindOneNullIffNoMatch(s, User, filter);
    forall id | id in s.docs
      ensures Matches(User, s.docs[id], filter) <==>
        ("email" in s.docs[id] && s.docs[id]["email"] == Str(Trim(ToLower(email)))
         && "isActive" in s.docs[id] && s.docs[id]["isActive"] == Bool(true))
    {
      ActiveEmailMatches(s.docs[id], email);
    }
  }

  // ---------------------------------------------------------------- updateUser

  lemma MergeSameValue(d: Doc, k: string, v: Value)
    requires k in d && d[k] == v
    ensures d + map[k := v] == d
  {
    var m := d + map[k := v];
    assert m.Keys == d.Keys;
    forall x | x in m ensures m[x] == d[x] {
    }
  }

  /** The unique index accepts rewriting a stored record with its email left as it was. */
  lemma RewriteKeepsUniqueIndex(s: StoreState, id: Id, doc: Doc)
    requires UniqueIndexHolds(s.docs, User.unique) && id in s.docs
    requires ("email" in doc <==> "email" in s.docs[id])
    requires "email" in doc ==> doc["email"] == s.docs[id]["email"]
    ensures WriteError(s.docs, id, doc, User.unique, false).None?
  {
    assert User.unique == ["email"];
    forall other | other in s.docs && other != id && "email" in s.docs[other] && "email" in s.docs[id]
      ensures s.docs[other]["email"] != s.docs[id]["email"]
    {
      assert "email" in User.unique;
    }
    assert !Clashes(s.docs, id, doc, "email");
    FirstClashNone(s.docs, id, doc, User.unique);
  }

  /** The email check of an update to the record's own email finds nothing. */
  lemma OwnEmailCheckPasses(s: StoreState, id: Id, email: string)
    requires UniqueIndexHolds(s.docs, User.unique) && IsValidObjectId(id) && IdKey(id) in s.docs && email != ""
    requires "email" in s.docs[IdKey(id)] && s.docs[IdKey(id)]["email"] == Str(Trim(ToLower(email)))
    ensures FirstDuplicate(s, User, UpdateChecks(map["email" := Str(email)]), Some(id), Resource).None?
  {
    var checks := UpdateChecks(map["email" := Str(email)]);
    assert checks == [DuplicateCheck("email", Str(email))];
    assert "email" in User.unique;
    OwnValueIsNoDuplicate(s, User, id, checks[0]);
    FirstDuplicateSpec(s, User, checks, Some(id), Resource);
  }

  /** A patch setting only the email is cast to the normalised email, and passes the update
      validators when that is not blank. */
  lemma EmailPatch(email: string)
    requires Trim(ToLower(email)) != ""
    ensures Cast(User, map["email" := Str(email)]) == map["email" := Str(Trim(ToLower(email)))]
    ensures ValidateUpdate(map["email" := Str(Trim(ToLower(email)))]) == []
  {
    CastSingle(User, "email", Str(email));
    assert User.setter("email", Str(email)) == Str(Trim(ToLower(email)));
    EmailOnlyPatchValid(Str(Trim(ToLower(email))));
  }

  lemma EmailOnlyPatchValid(v: Value)
    requires v.Str? && v.s != ""
    ensures ValidateUpdate(map["email" := v]) == []
  {
  }

  lemma NormalisedNotBlank(email: string)
    ensures email == "" ==> Trim(ToLower(email)) == ""
  {
    if email == "" {
      assert ToLower(email) == "";
    }
  }

  /** An update that sets a user's email to the one it already has passes the duplicate check
      (its own record is excluded, whatever the case of the id's digits) and changes nothing. */
  lemma UpdateOwnEmailSucceeds(s: StoreState, id: Id, email: string)
    requires UniqueIndexHolds(s.docs, User.unique) && IsValidObjectId(id) && IdKey(id) in s.docs
    requires Trim(ToLower(email)) != ""
    requires "email" in s.docs[IdKey(id)] && s.docs[IdKey(id)]["email"] == Str(Trim(ToLower(email)))
    ensures var o := UpdateUserOutcome(s, id, map["email" := Str(email)]);
      o.result == Success(Document(IdKey(id), s.docs[IdKey(id)])) && o.after == s
  {
    var dto := map["email" := Str(email)];
    var v := Str(Trim(ToLower(email)));
    var key := IdKey(id);
    NormalisedNotBlank(email);
    OwnEmailCheckPasses(s, id, email);
    EmailPatch(email);
    MergeSameValue(s.docs[key], "email", v);
    assert User.validateUpdate(Cast(User, dto)) == [];
    RewriteKeepsUniqueIndex(s, key, s.docs[key]);
    UpdateNoChange(s, User, id, dto, UpdateChecks(dto), Resource);
  }

  /** An update to an email another user already has fails with the conflict for that email
      and leaves the store unchanged. */
  lemma UpdateToTakenEmailFails(s: StoreState, id: Id, email: string, other: Id)
    requires IsValidObjectId(id) && email != ""
    requires other in s.docs && other != IdKey(id)
    requires "email" in s.docs[other] && s.docs[other]["email"] == Str(Trim(ToLower(email)))
    ensures var o := UpdateUserOutcome(s, id, map["email" := Str(email)]);
      o.result == Failure(DuplicateResourceException(Resource, "email", email)) && o.after == s
  {
    var dto := map["email" := Str(email)];
    var checks := UpdateChecks(dto);
    assert checks[0] == DuplicateCheck("email", Str(email));
    assert User.setter("email", Str(email)) == Str(Trim(ToLower(email)));
    assert !Excluded(other, Some(id));
    assert Taken(s, User, checks[0], Some(id));
    UpdateChecksExcludeOwnId(s, User, id, dto, checks, Resource);
  }

  /** An update whose name is white space only passes the request rules, is refused by the
      `required` validator once the setter has trimmed it, and leaves the store as it was. */
  lemma BlankNameUpdateFails(s: StoreState, id: Id)
    requires IsValidObjectId(id)
    ensures var o := UpdateUserOutcome(s, id, map["name" := Str("   ")]);
      o.result.Failure? && o.result.error.ValidationException? && o.after == s
  {
    var dto := map["name" := Str("   ")];
    assert UpdateChecks(dto) == [];
    BlankNameUpdateRejected();
  }

  /** A patch without a truthy email runs no duplicate check, so a clash with another user's
      email is caught only by the unique index, as a driver duplicate-key error. */
  lemma UpdateWithoutEmailSkipsCheck(s: StoreState, id: Id, dto: Doc)
    requires !Truthy(Get(dto, "email"))
    ensures UpdateUserOutcome(s, id, dto) == UpdateOutcome(s, User, id, dto, [], Resource)
  {
    assert UpdateChecks(dto) == [];
  }

  // ---------------------------------------------------------------- deleteUser, softDeleteUser

  /** The soft-delete patch is kept as it is by the setters and passes the update validators. */
  lemma DeactivatePatch()
    ensures Cast(User, Deactivate) == Deactivate
    ensures ValidateUpdate(Deactivate) == []
  {
    CastSingle(User, "isActive", Bool(false));
  }

  /** On a consistent store, soft-deleting succeeds exactly for a well-formed id that is
      stored, and then only that record changes: its `isActive` becomes false. */
  lemma SoftDeleteUserSucceedsIff(s: StoreState, id: Id)
    requires Consistent(s, User)
    ensures var o := SoftDeleteUserOutcome(s, id);
      var key := IdKey(id);
      && (o.result.Success? <==> IsValidObjectId(id) && key in s.docs)
      && (o.result.Failure? ==> o.after == s)
      && (o.result.Success? ==>
            && o.after.docs == s.docs[key := s.docs[key]["isActive" := Bool(false)]]
            && o.after.order == s.order)
  {
    SoftDeleteIsUpdate(s, User, id, Resource);
    var key := IdKey(id);
    if IsValidObjectId(id) && key in s.docs {
      DeactivatePatch();
      var merged := s.docs[key] + Deactivate;
      assert merged == s.docs[key]["isActive" := Bool(false)];
      RewriteKeepsUniqueIndex(s, key, merged);
      UpdateSucceedsWhen(s, User, id, Deactivate, [], Resource);
    } else {
      UpdateEffect(s, User, id, Deactivate, [], Resource);
    }
  }

  /** A soft-deleted user stays stored and can still be fetched by id, but it is in no later
      `getAllUsers` result and in no `getUserByEmail` answer. */
  lemma SoftDeletedUserHidden(s: StoreState, id: Id, email: string)
    requires Consistent(s, User) && SoftDeleteUserOutcome(s, id).result.Success?
    ensures var after := SoftDeleteUserOutcome(s, id).after;
      var key := IdKey(id);
      && key in after.docs
      && GetUserById(after, id) == Success(Document(key, after.docs[key]))
      && (forall i :: 0 <= i < |GetAllUsers(after).value| ==> GetAllUsers(after).value[i].id != key)
      && (GetUserByEmail(after, email).Some? ==> GetUserByEmail(after, email).value.id != key)
  {
    SoftDeleteUserSucceedsIff(s, id);
    var after := SoftDeleteUserOutcome(s, id).after;
    assert after.docs[IdKey(id)]["isActive"] == Bool(false);
  }

  /** After a delete succeeds the record is gone: fetching it by id is a not-found error. */
  lemma DeletedUserNotFound(s: StoreState, id: Id)
    ensures var o := DeleteUserOutcome(s, id);
      o.result.Success? ==>
        && IdKey(id) !in o.after.docs && |o.after.docs| == |s.docs| - 1
        && GetUserById(o.after, id) == Failure(ResourceNotFoundException(Resource, id))
  {
    DeleteEffect(s, id, Resource);
  }
}

/** The user service: the policy it adds on top of the data-access helper (which duplicate
    checks to run, which records to list, the paginated envelope), and the service object whose
    write operations change the shared user collection. */
module Users {
  import opened Wrappers
  import opened Text
  import opened Json
  import opened Exceptions
  import opened DbErrors
  import opened Http
  import opened Store
  import opened StoreLemmas
  import opened UserSchema
  import opened UserDto
  import opened DatabaseOperations

  const Resource := "User"

  /** `{ isActive: true }`: the listings and the email lookup see active users only. */
  const ActiveFilter: Doc := map["isActive" := Bool(true)]

  const AllUsersLimit := 1000

  const UsersPath := "/users"

  // ---------------------------------------------------------------- the policy

  /** `createUser` always checks the given email, whatever it is, even when it is absent. */
  function CreateChecks(dto: Doc): (r: seq<DuplicateCheck>)
    ensures |r| == 1 && r[0].field == "email" && r[0].value == Get(dto, "email")
  {
    [DuplicateCheck("email", Get(dto, "email"))]
  }

  /** `updateUser` checks the email only when the patch gives a truthy one. */
  function UpdateChecks(dto: Doc): (r: seq<DuplicateCheck>)
    ensures |r| <= 1
    ensures r != [] <==> Truthy(Get(dto, "email"))
    ensures r != [] ==> r[0] == DuplicateCheck("email", dto["email"])
  {
    if Truthy(Get(dto, "email")) then [DuplicateCheck("email", dto["email"])] else []
  }

  function CreateUserOutcome(s: StoreState, dto: Doc, newId: Id): Outcome
  {
    CreateOutcome(s, User, dto, CreateChecks(dto), newId, Resource)
  }

  function UpdateUserOutcome(s: StoreState, id: Id, dto: Doc): Outcome
  {
    UpdateOutcome(s, User, id, dto, UpdateChecks(dto), Resource)
  }

  function DeleteUserOutcome(s: StoreState, id: Id): Outcome
  {
    DeleteOutcome(s, id, Resource)
  }

  function SoftDeleteUserOutcome(s: StoreState, id: Id): Outcome
  {
    SoftDeleteOutcome(s, User, id, Resource)
  }

  predicate IsActive(d: Document)
  {
    "isActive" in d.fields && d.fields["isActive"] == Bool(true)
  }

  /** A record the active-user filter matches is active. */
  lemma ActiveFilterSelectsActive()
    ensures forall d: Document :: Matches(User, d.fields, ActiveFilter) ==> IsActive(d)
  {
    forall d: Document | Matches(User, d.fields, ActiveFilter) ensures IsActive(d) {
      assert "isActive" in ActiveFilter;
      assert User.setter("isActive", Bool(true)) == Bool(true);
    }
  }

  /** `getAllUsers`: the newest active users, at most 1000 of them. */
  function GetAllUsers(s: StoreState): (r: Result<seq<Document>, HttpError>)
    ensures r.Success? && |r.value| <= AllUsersLimit
    ensures forall i :: 0 <= i < |r.value| ==>
      IsActive(r.value[i]) && r.value[i].id in s.docs && r.value[i].fields == s.docs[r.value[i].id]
  {
    var page := FindAll(s, User, ActiveFilter, Resource, 1, AllUsersLimit);
    match page
    case Success(p) =>
      ActiveFilterSelectsActive();
      Success(p.data)
    case Failure(e) => Failure(e)
  }

  /** `Math.ceil(total / limit)` for a positive limit. */
  function CeilDiv(total: nat, limit: int): (r: nat)
    requires limit > 0
    ensures r * limit >= total && (r == 0 || (r - 1) * limit < total)
  {
    (total + limit - 1) / limit
  }

  datatype Pagination = Pagination(page: int, limit: int, total: nat, totalPages: nat)

  datatype PaginatedResponse = PaginatedResponse(success: bool, data: seq<Document>,
                                                 pagination: Pagination, meta: Meta)

  /** `getUsersPaginated(page, limit)`: one page of the newest active users in the envelope. */
  function GetUsersPaginated(s: StoreState, page: int, limit: int, timestamp: string)
    : (r: Result<PaginatedResponse, HttpError>)
    requires limit > 0
    ensures r.Success? <==> page >= 1
    ensures r.Success? ==>
      && r.value.success
      && r.value.pagination.page == page && r.value.pagination.limit == limit
      && r.value.pagination.total == MatchCount(s, User, ActiveFilter)
      && r.value.pagination.totalPages == CeilDiv(r.value.pagination.total, limit)
      && |r.value.data| <= limit
      && (forall i :: 0 <= i < |r.value.data| ==> IsActive(r.value.data[i]))
      && r.value.meta == Meta(timestamp, UsersPath, "GET")
  {
    match FindAll(s, User, ActiveFilter, Resource, page, limit)
    case Failure(e) => Failure(e)
    case Success(p) =>
      ActiveFilterSelectsActive();
      Success(PaginatedResponse(true, p.data, Pagination(page, limit, p.total, CeilDiv(p.total, limit)),
                                Meta(timestamp, UsersPath, "GET")))
  }

  /** `getUserById(id)`: a stored record is found whatever the case of the id's hexadecimal
      digits, and whether it is active or not. */
  function GetUserById(s: StoreState, id: Id): (r: Result<Document, HttpError>)
    ensures r.Success? <==> IsValidObjectId(id) && IdKey(id) in s.docs
    ensures r.Success? ==> r.value.id == IdKey(id) && r.value.fields == s.docs[IdKey(id)]
    ensures r.Failure? ==>
      r.error == if IsValidObjectId(id) then ResourceNotFoundException(Resource, id)
                 else ValidateObjectId(id, Resource).value
  {
    FindById(s, id, Resource)
  }

  /** `getUserByEmail(email)`: an active user with that email (the query passes through the
      email setter), or `null`. */
  function GetUserByEmail(s: StoreState, email: string): (r: Option<Document>)
    ensures r.Some? ==>
      && r.value.id in s.docs && r.value.fields == s.docs[r.value.id]
      && IsActive(r.value) && "email" in r.value.fields && r.value.fields["email"] == Str(Trim(ToLower(email)))
  {
    FindOne(s, User, map["email" := Str(email), "isActive" := Bool(true)])
  }

  // ---------------------------------------------------------------- the service object

  class UsersService {
    const users: Collection

    ghost predicate Valid()
      reads this, users
    {
      users.Valid() && users.schema == User
    }

    constructor ()
      ensures Valid() && fresh(users)
      ensures users.docs == map[] && users.order == []
    {
      users := new Collection(User);
    }

    /** `createUser(dto)`; `newId` is the id the driver assigns. */
    method CreateUser(dto: Doc, newId: Id) returns (r: Result<Document, HttpError>)
      requires Valid()
      modifies users
      ensures Valid()
      ensures Outcome(r, users.Snapshot()) == CreateUserOutcome(old(users.Snapshot()), dto, newId)
    {
      r := users.Create(dto, CreateChecks(dto), newId, Resource);
    }

    /** `updateUser(id, dto)`. */
    method UpdateUser(id: Id, dto: Doc) returns (r: Result<Document, HttpError>)
      requires Valid()
      modifies users
      ensures Valid()
      ensures Outcome(r, users.Snapshot()) == UpdateUserOutcome(old(users.Snapshot()), id, dto)
    {
      r := users.Update(id, dto, UpdateChecks(dto), Resource);
    }

    /** `deleteUser(id)`: the removed document is not returned. */
    method DeleteUser(id: Id) returns (r: Option<HttpError>)
      requires Valid()
      modifies users
      ensures Valid()
      ensures var o := DeleteUserOutcome(old(users.Snapshot()), id);
        users.Snapshot() == o.after && (r.None? <==> o.result.Success?)
        && (r.Some? ==> r.value == o.result.error)
    {
      var deleted := users.Delete(id, Resource);
      r := if deleted.Success? then None else Some(deleted.error);
    }

    /** `softDeleteUser(id)`. */
    method SoftDeleteUser(id: Id) returns (r: Result<Document, HttpError>)
      requires Valid()
      modifies users
      ensures Valid()
      ensures Outcome(r, users.Snapshot()) == SoftDeleteUserOutcome(old(users.Snapshot()), id)
    {
      r := users.SoftDelete(id, Resource);
    }
  }
}

/** The users controller: which service call each route makes, the choice between the plain
    and the paginated listing, and the success status of each route. */
module UsersController {
  import opened Wrappers
  import opened Text
  import opened Json
  import opened Exceptions
  import opened Http
  import opened Store
  import opened Users
  import ResponseTransform

  const Created := 201
  const NoContent := 204
  const Ok := 200

  const DefaultPage := "1"
  const DefaultLimit := "10"

  /** A query parameter: `undefined` when absent. */
  type Query = Option<string>

  /** `page || limit`: a parameter counts when it is present and non-empty. */
  predicate Given(q: Query)
  {
    q.Some? && q.value != ""
  }

  /** The query strings the model covers: absent, empty or decimal digits, so `parseInt` never
      yields `NaN`. */
  predicate Decimal(q: Query)
  {
    q.Some? ==> IsDigits(q.value)
  }

  /** `parseInt(q || fallback, 10)`. */
  function ParseOr(q: Query, fallback: string): int
    requires Decimal(q) && IsDigits(fallback)
  {
    if Given(q) then DecimalValue(q.value) else DecimalValue(fallback)
  }

  datatype Listing = Paginated(page: int, limit: int) | AllActive

  /** The branch `getUsers` takes for its query. */
  function ListDispatch(page: Query, limit: Query): (r: Listing)
    requires Decimal(page) && Decimal(limit)
    ensures r.Paginated? <==> Given(page) || Given(limit)
    ensures r.Paginated? ==> (if Given(page) then r.page == DecimalValue(page.value) else r.page == 1)
    ensures r.Paginated? ==> (if Given(limit) then r.limit == DecimalValue(limit.value) else r.limit == 10)
  {
    assert DecimalValue("1") == 1 && DecimalValue("10") == 10 by {
      assert "10"[..1] == "1";
    }
    if Given(page) || Given(limit) then Paginated(ParseOr(page, DefaultPage), ParseOr(limit, DefaultLimit))
    else AllActive
  }

  datatype ListResponse = Plain(users: seq<Document>) | Paged(response: PaginatedResponse)

  /** `getUsers(page, limit)`; a limit of 0 is outside the model. Without paging parameters
      it lists the active users; with them it answers one page, and fails only for page 0. */
  function GetUsers(s: StoreState, page: Query, limit: Query, timestamp: string): (r: Result<ListResponse, HttpError>)
    requires Decimal(page) && Decimal(limit)
    requires ListDispatch(page, limit).Paginated? ==> ListDispatch(page, limit).limit > 0
    ensures ListDispatch(page, limit).AllActive? ==> r == Success(Plain(GetAllUsers(s).value))
    ensures ListDispatch(page, limit).Paginated? ==>
      var l := ListDispatch(page, limit);
      && (r.Success? <==> l.page >= 1)
      && (r.Success? ==> r.value == Paged(GetUsersPaginated(s, l.page, l.limit, timestamp).value))
      && (r.Failure? ==> r.error == GetUsersPaginated(s, l.page, l.limit, timestamp).error)
  {
    match ListDispatch(page, limit)
    case Paginated(p, l) =>
      (match GetUsersPaginated(s, p, l, timestamp)
       case Success(r) => Success(Paged(r))
       case Failure(e) => Failure(e))
    case AllActive =>
      (match GetAllUsers(s)
       case Success(users) => Success(Plain(users))
       case Failure(e) => Failure(e))
  }

  // ---------------------------------------------------------------- routes

  datatype Route =
    | PostUser                 // POST /users
    | GetUserList              // GET /users
    | GetUser                  // GET /users/:id
    | PutUser                  // PUT /users/:id
    | PatchUser                // PATCH /users/:id
    | DeleteUser               // DELETE /users/:id
    | GetUserWithEmail         // GET /users/email/:email

  /** The service operation a route runs, with its arguments. */
  datatype ServiceCall =
    | CreateUser(dto: Doc)
    | List(listing: Listing)
    | GetById(id: string)
    | UpdateUser(id: string, dto: Doc)
    | RemoveUser(id: string)
    | GetByEmail(email: string)

  function Target(route: Route, param: string, body: Doc, page: Query, limit: Query): ServiceCall
    requires Decimal(page) && Decimal(limit)
  {
    match route
    case PostUser => CreateUser(body)
    case GetUserList => List(ListDispatch(page, limit))
    case GetUser => GetById(param)
    case PutUser => UpdateUser(param, body)
    case PatchUser => UpdateUser(param, body)
    case DeleteUser => RemoveUser(param)
    case GetUserWithEmail => GetByEmail(param)
  }

  /** The status of a successful reply: `@HttpCode(201)` on POST, `@HttpCode(204)` on DELETE,
      Nest's default 200 elsewhere. */
  function SuccessStatus(route: Route): (status: int)
    ensures status == Created <==> route == PostUser
    ensures status == NoContent <==> route == DeleteUser
    ensures status == Ok <==> !route.PostUser? && !route.DeleteUser?
  {
    match route
    case PostUser => Created
    case DeleteUser => NoContent
    case _ => Ok
  }

  // ---------------------------------------------------------------- what the controller promises

  /** PUT and PATCH are the same operation. */
  lemma PutIsPatch(param: string, body: Doc, page: Query, limit: Query)
    requires Decimal(page) && Decimal(limit)
    ensures Target(PutUser, param, body, page, limit) == Target(PatchUser, param, body, page, limit)
    ensures Target(PutUser, param, body, page, limit) == UpdateUser(param, body)
  {
  }

  /** Page and limit given as decimal numbers reach the service as those numbers. */
  lemma ListDispatchReadsNumbers(page: nat, limit: nat)
    ensures ListDispatch(Some(NatString(page)), Some(NatString(limit))) == Paginated(page, limit)
  {
    DecimalRoundTrip(page);
    DecimalRoundTrip(limit);
  }

  function UserValue(d: Document): Value
  {
    Obj(d.fields["_id" := Str(d.id)])
  }

  function UsersValue(users: seq<Document>): Value
  {
    Arr(seq(|users|, i requires 0 <= i < |users| => UserValue(users[i])))
  }

  function PaginatedValue(r: PaginatedResponse): Value
  {
    var p := r.pagination;
    Obj(map[
      "success" := Bool(r.success),
      "data" := UsersValue(r.data),
      "pagination" := Obj(map["page" := Num(p.page), "limit" := Num(p.limit),
                              "total" := Num(p.total), "totalPages" := Num(p.totalPages)]),
      "meta" := MetaValue(r.meta)])
  }

  function ListValue(r: ListResponse): Value
  {
    match r
    case Plain(users) => UsersValue(users)
    case Paged(response) => PaginatedValue(response)
  }

  /** Through the response interceptor, the paginated listing goes out as the service built
      it, while the plain listing is wrapped as `{ success: true, data: [...] }`. */
  lemma ListingThroughInterceptor(s: StoreState, page: Query, limit: Query, timestamp: string,
                                  request: Request, now: string)
    requires Decimal(page) && Decimal(limit)
    requires ListDispatch(page, limit).Paginated? ==> ListDispatch(page, limit).limit > 0
    requires GetUsers(s, page, limit, timestamp).Success?
    ensures var r := GetUsers(s, page, limit, timestamp).value;
      var out := ResponseTransform.Transform(ListValue(r), request, now);
      && (r.Paged? ==> out == ListValue(r))
      && (r.Plain? ==> out == ResponseTransform.Wrap(ListValue(r), MetaOf(request, now)))
  {
  }
}

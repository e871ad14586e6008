/** The `users` routes: the method and path of each, the permission each demands, the
    guards every route passes through in order, and the choice between the full and the
    paged listing. */
module UserController {
  import opened Common
  import opened Entities
  import opened UserMapper
  import opened Filters
  import FiltersUserDto
  import UserService

  datatype Route = ListUsers | GetUser | CreateUser | UpdateUser | RemoveUser | RestoreUser

  datatype Verb = Get | Post | Patch | Delete

  /** The method of each route. */
  function VerbOf(r: Route): Verb {
    match r
    case ListUsers => Get
    case GetUser => Get
    case CreateUser => Post
    case UpdateUser => Patch
    case RemoveUser => Delete
    case RestoreUser => Patch
  }

  /** The path of each route, below the controller's `users` prefix. */
  function PathOf(r: Route): seq<string> {
    match r
    case ListUsers => ["users"]
    case GetUser => ["users", ":id"]
    case CreateUser => ["users"]
    case UpdateUser => ["users", ":id"]
    case RemoveUser => ["users", ":id"]
    case RestoreUser => ["users", "restore", ":id"]
  }

  /** No two routes share a method and a path. */
  lemma RoutesDistinct(a: Route, b: Route)
    ensures VerbOf(a) == VerbOf(b) && PathOf(a) == PathOf(b) <==> a == b
  {
    if VerbOf(a) == VerbOf(b) && PathOf(a) == PathOf(b) {
      assert |PathOf(a)| == |PathOf(b)|;
      assert PathOf(a)[|PathOf(a)| - 1] == PathOf(b)[|PathOf(b)| - 1];
    }
  }

  const ViewPermission: string := "system-administration.users.view"
  const CreatePermission: string := "system-administration.users.create"
  const UpdatePermission: string := "system-administration.users.update"
  const DeletePermission: string := "system-administration.users.delete"

  /** `@Permissions(...)` on each route. */
  function RequiredPermission(r: Route): (p: string)
    ensures r == ListUsers || r == GetUser <==> p == ViewPermission
    ensures r == CreateUser <==> p == CreatePermission
    ensures r == UpdateUser || r == RestoreUser <==> p == UpdatePermission
    ensures r == RemoveUser <==> p == DeletePermission
  {
    match r
    case ListUsers => ViewPermission
    case GetUser => ViewPermission
    case CreateUser => CreatePermission
    case UpdateUser => UpdatePermission
    case RemoveUser => DeletePermission
    case RestoreUser => UpdatePermission
  }

  /** Two routes demand the same permission exactly when both read, or both write an
      existing user (update and restore). */
  lemma SharedPermissions(a: Route, b: Route)
    ensures RequiredPermission(a) == RequiredPermission(b) <==>
      (a == b
       || ({a, b} == {ListUsers, GetUser})
       || ({a, b} == {UpdateUser, RestoreUser}))
  {
    if {a, b} == {ListUsers, GetUser} {
      assert a in {ListUsers, GetUser} && b in {ListUsers, GetUser};
    }
    if {a, b} == {UpdateUser, RestoreUser} {
      assert a in {UpdateUser, RestoreUser} && b in {UpdateUser, RestoreUser};
    }
  }

  /** A guard of the chain: the bearer-token check, then the permission check for the
      route's permission. */
  datatype Guard = JwtAuth | PermissionsCheck(permission: string)

  /** `@UseGuards(JwtAuthGuard, PermissionsGuard)` on the controller, with each route's
      `@Permissions(...)`: the guards in the order they run. */
  function Guards(r: Route): (g: seq<Guard>)
    ensures |g| == 2 && g[0] == JwtAuth && g[1] == PermissionsCheck(RequiredPermission(r))
  {
    [JwtAuth, PermissionsCheck(RequiredPermission(r))]
  }

  /** JavaScript truthiness of an optional number. */
  predicate TruthyNumber(n: Option<int>) {
    n.Some? && n.value != 0
  }

  /** `q && (q.page || q.pageSize || q.q || q.sortBy || q.sortOrder || q.withDeleted)`. */
  predicate PagedPath(q: Option<ListQuery>) {
    q.Some? &&
    (TruthyNumber(q.value.page) || TruthyNumber(q.value.pageSize) || TruthyText(q.value.q)
     || TruthyText(q.value.sortBy) || q.value.sortOrder.Some? || TruthyFlag(q.value.withDeleted))
  }

  /** What `findAll` answers: every live user, or one page. */
  datatype UserListing = Everything(users: seq<UserResponse>) | OnePage(page: UserService.PagedUsers)

  /** `findAll`: the paged listing when any filter is truthy, the full one otherwise. */
  function FindAll(t: Tables, q: Option<ListQuery>): (r: UserListing)
    requires PagedPath(q) ==> PagingOk(q.value)
    ensures r.OnePage? <==> PagedPath(q)
    ensures r.OnePage? ==> r.page == UserService.FindAllPaged(t, q.value)
    ensures r.Everything? ==> r.users == UserService.FindAll(t)
  {
    if PagedPath(q) then OnePage(UserService.FindAllPaged(t, q.value)) else Everything(UserService.FindAll(t))
  }

  /** A query without any field, or with only falsy ones, gets the full listing. */
  lemma FalsyQueryListsEverything(t: Tables, q: ListQuery)
    requires q.page.None? || q.page == Some(0)
    requires q.pageSize.None? || q.pageSize == Some(0)
    requires !TruthyText(q.q) && !TruthyText(q.sortBy) && q.sortOrder.None? && !TruthyFlag(q.withDeleted)
    ensures FindAll(t, Some(q)).Everything?
    ensures FindAll(t, None).Everything?
  {
  }

  /** Validation fills `page` with its class default, so every query that passes
      validation takes the paged path: the full listing is reached only without it. */
  lemma ValidatedQueryIsPaged(raw: RawFilters)
    requires FiltersUserDto.Validate(raw).Success?
    ensures PagedPath(Some(FiltersUserDto.Validate(raw).value))
  {
  }
}

/** The user lifecycle store: the `users` and `user_roles` tables, the four transactions
    that change them (create, update, soft delete, restore) and the reads (list, paged
    list, find by id). Each transaction runs its checks before its first write, so a
    failed one leaves both tables as they were. */
module UserService {
  import opened Common
  import opened Text
  import opened Calendar
  import opened Listing
  import opened Entities
  import opened UserMapper
  import opened Filters

  const EmailTakenMessage: string := "El email ya est\U{e1} registrado en el sistema"
  const UsernameTakenMessage: string := "El nombre de usuario ya est\U{e1} en uso"
  const RoleMissingMessage: string := "El rol especificado no existe"
  const UserNotFoundMessage: string := "Usuario no encontrado"

  /** The body of a create request; `None` is an absent key. */
  datatype UserCreateDto = UserCreateDto(
    firstName: string,
    lastName: string,
    email: string,
    username: string,
    profileImage: Option<Nullable<string>>,
    isActive: Option<bool>,
    darkMode: Option<bool>,
    expirationPassword: Option<Nullable<Date>>,
    flagPassword: Option<bool>,
    roleId: int,
    password: string)

  /** The body of an update request: every key optional. */
  datatype UserUpdateDto = UserUpdateDto(
    firstName: Option<string>,
    lastName: Option<string>,
    email: Option<string>,
    username: Option<string>,
    profileImage: Option<Nullable<string>>,
    isActive: Option<bool>,
    darkMode: Option<bool>,
    expirationPassword: Option<Nullable<Date>>,
    flagPassword: Option<bool>,
    roleId: Option<int>,
    password: Option<string>)

  // ----- Lookups behind the checks -----

  /** `findOne({ where: { email } })` finds a user: a live one, since the lookup does not
      ask for soft-deleted rows. */
  predicate EmailInUse(users: seq<User>, email: string) {
    exists i | 0 <= i < |users| :: users[i].deletedAt.Null? && users[i].email == email
  }

  predicate UsernameInUse(users: seq<User>, username: string) {
    exists i | 0 <= i < |users| :: users[i].deletedAt.Null? && users[i].username == username
  }

  /** `validateRoleExists`: a live role with this id. */
  predicate RoleExists(roles: seq<Role>, roleId: int) {
    var r := FindById(roles, RoleId, roleId);
    r.Some? && r.value.deletedAt.Null?
  }

  /** The foreign key of `user_roles.role_id`: any row of `roles`, soft-deleted or not. */
  predicate RoleRowExists(roles: seq<Role>, roleId: int) {
    FindById(roles, RoleId, roleId).Some?
  }

  /** The position of the live user `id`, as `findOne({ where: { id } })` finds it. */
  function LiveIndex(users: seq<User>, id: int): (r: Option<nat>)
    ensures r.Some? ==> r.value < |users| && users[r.value].id == id && users[r.value].deletedAt.Null?
    ensures r.Some? <==> FindIndex(users, UserId, id).Some? && users[FindIndex(users, UserId, id).value].deletedAt.Null?
  {
    var k := FindIndex(users, UserId, id);
    if k.Some? && users[k.value].deletedAt.Null? then k else None
  }

  // ----- create -----

  /** `dto.expirationPassword ?? (now + 6 months)`: an absent or null expiry gets the default. */
  function Expiration(given: Option<Nullable<Date>>, now: Date): (d: Date)
    requires ValidDate(now)
    ensures given.Some? && given.value.NonNull? ==> d == given.value.value
    ensures !(given.Some? && given.value.NonNull?) ==> d == SixMonthsLater(now)
  {
    if given.Some? && given.value.NonNull? then given.value.value else SixMonthsLater(now)
  }

  /** The checks of `create`, in the order the code runs them, on the normalised email
      and username. */
  function CreateError(users: seq<User>, roles: seq<Role>, dto: UserCreateDto): (e: Option<HttpError>)
    ensures e == Some(Conflict(EmailTakenMessage)) <==> EmailInUse(users, NormalizeEmail(dto.email))
    ensures e == Some(Conflict(UsernameTakenMessage)) <==>
      !EmailInUse(users, NormalizeEmail(dto.email)) && UsernameInUse(users, Trim(dto.username))
    ensures e == Some(BadRequest(RoleMissingMessage)) <==>
      !EmailInUse(users, NormalizeEmail(dto.email)) && !UsernameInUse(users, Trim(dto.username)) && !RoleExists(roles, dto.roleId)
    ensures e.None? || e == Some(Conflict(EmailTakenMessage)) || e == Some(Conflict(UsernameTakenMessage)) || e == Some(BadRequest(RoleMissingMessage))
  {
    if EmailInUse(users, NormalizeEmail(dto.email)) then Some(Conflict(EmailTakenMessage))
    else if UsernameInUse(users, Trim(dto.username)) then Some(Conflict(UsernameTakenMessage))
    else if !RoleExists(roles, dto.roleId) then Some(BadRequest(RoleMissingMessage))
    else None
  }

  /** The row `create` saves: the request's fields over the column defaults (active, light
      mode, no image), with the normalised email and username, the hashed password, the
      "must change password" flag forced on and the expiry defaulted. */
  function NewUser(id: int, dto: UserCreateDto, now: Date, hash: string -> string): User
    requires ValidDate(now)
  {
    User(
      id,
      dto.firstName,
      dto.lastName,
      NormalizeEmail(dto.email),
      Trim(dto.username),
      hash(dto.password),
      dto.isActive.GetOr(true),
      dto.profileImage.GetOr(Null),
      dto.darkMode.GetOr(false),
      NonNull(Expiration(dto.expirationPassword, now)),
      true,
      now,
      now,
      Null)
  }

  /** What `create` stores: the normalised identity, the hash and never the plain password
      (unless the hash function returns it), a forced `flagPassword`, an expiry that,
      when defaulted, lies after `now`, and a live row stamped `now`. */
  lemma NewUserStored(id: int, dto: UserCreateDto, now: Date, hash: string -> string)
    requires ValidDate(now)
    ensures var u := NewUser(id, dto, now, hash);
      && u.id == id
      && u.email == NormalizeEmail(dto.email) && IsTrimmed(u.email)
      && u.username == Trim(dto.username) && IsTrimmed(u.username)
      && u.password == hash(dto.password)
      && u.flagPassword
      && u.expirationPassword.NonNull?
      && (dto.expirationPassword.None? ==> Instant(u.expirationPassword.value) > Instant(now))
      && u.deletedAt.Null? && u.createdAt == now && u.updatedAt == now
      && (dto.isActive.None? ==> u.isActive)
  {
  }

  // ----- update -----

  /** `if (dto.roleId)`: a present, non-zero role id. */
  predicate RoleTruthy(roleId: Option<int>) {
    roleId.Some? && roleId.value != 0
  }

  /** `if (email && email !== entity.email)` fails: a sent email whose normal form is
      non-empty, differs from the stored one and is held by a live user. */
  predicate EmailRefused(users: seq<User>, entity: User, dto: UserUpdateDto) {
    dto.email.Some? && NormalizeEmail(dto.email.value) != "" && NormalizeEmail(dto.email.value) != entity.email
      && EmailInUse(users, NormalizeEmail(dto.email.value))
  }

  /** `if (username && username !== entity.username)` fails, on the trimmed username. */
  predicate UsernameRefused(users: seq<User>, entity: User, dto: UserUpdateDto) {
    dto.username.Some? && Trim(dto.username.value) != "" && Trim(dto.username.value) != entity.username
      && UsernameInUse(users, Trim(dto.username.value))
  }

  /** The new role link breaks the foreign key: a truthy role id no `roles` row has. */
  predicate RoleLinkRefused(roles: seq<Role>, dto: UserUpdateDto) {
    RoleTruthy(dto.roleId) && !RoleRowExists(roles, dto.roleId.value)
  }

  /** The checks of `update` in order: the live row, then the uniqueness of a changed
      email and of a changed username, then (once the row is saved, inside the same
      transaction) the foreign key of the new role link, whose failure rolls everything
      back and reaches the client as an unhandled error. */
  function UpdateError(users: seq<User>, roles: seq<Role>, id: int, dto: UserUpdateDto): (e: Option<HttpError>)
    ensures LiveIndex(users, id).None? <==> e == Some(NotFound(UserNotFoundMessage))
    ensures e == Some(Conflict(EmailTakenMessage)) <==>
      LiveIndex(users, id).Some? && EmailRefused(users, users[LiveIndex(users, id).value], dto)
    ensures e == Some(Conflict(UsernameTakenMessage)) <==>
      && LiveIndex(users, id).Some?
      && !EmailRefused(users, users[LiveIndex(users, id).value], dto)
      && UsernameRefused(users, users[LiveIndex(users, id).value], dto)
    ensures e == Some(InternalServerError(UnhandledMessage)) <==>
      && LiveIndex(users, id).Some?
      && !EmailRefused(users, users[LiveIndex(users, id).value], dto)
      && !UsernameRefused(users, users[LiveIndex(users, id).value], dto)
      && RoleLinkRefused(roles, dto)
    ensures e.None? || e == Some(NotFound(UserNotFoundMessage)) || e == Some(Conflict(EmailTakenMessage))
      || e == Some(Conflict(UsernameTakenMessage)) || e == Some(InternalServerError(UnhandledMessage))
  {
    ConflictMessagesDistinct();
    match LiveIndex(users, id)
    case None => Some(NotFound(UserNotFoundMessage))
    case Some(k) =>
      var entity := users[k];
      var email := if dto.email.Some? then NormalizeEmail(dto.email.value) else "";
      var username := if dto.username.Some? then Trim(dto.username.value) else "";
      if email != "" && email != entity.email && EmailInUse(users, email) then Some(Conflict(EmailTakenMessage))
      else if username != "" && username != entity.username && UsernameInUse(users, username) then Some(Conflict(UsernameTakenMessage))
      else if RoleTruthy(dto.roleId) && !RoleRowExists(roles, dto.roleId.value) then Some(InternalServerError(UnhandledMessage))
      else None
  }

  /** An unchanged email (after normalisation) is never re-checked, even when another live
      user holds the same address. */
  lemma UpdateSkipsUnchangedEmail(users: seq<User>, roles: seq<Role>, id: int, dto: UserUpdateDto)
    requires LiveIndex(users, id).Some?
    requires dto.email.Some? && NormalizeEmail(dto.email.value) == users[LiveIndex(users, id).value].email
    ensures UpdateError(users, roles, id, dto) != Some(Conflict(EmailTakenMessage))
  {
    var k := LiveIndex(users, id).value;
    ConflictMessagesDistinct();
    assert Some(Conflict(UsernameTakenMessage)) != Some(Conflict(EmailTakenMessage));
    assert !(NormalizeEmail(dto.email.value) != users[k].email);
  }

  lemma ConflictMessagesDistinct()
    ensures EmailTakenMessage != UsernameTakenMessage
  {
    assert EmailTakenMessage[3] != UsernameTakenMessage[3];
  }

  /** A changed email that a live user holds is refused with Conflict. */
  lemma UpdateRefusesTakenEmail(users: seq<User>, roles: seq<Role>, id: int, dto: UserUpdateDto)
    requires LiveIndex(users, id).Some?
    requires dto.email.Some? && NormalizeEmail(dto.email.value) != ""
    requires NormalizeEmail(dto.email.value) != users[LiveIndex(users, id).value].email
    requires EmailInUse(users, NormalizeEmail(dto.email.value))
    ensures UpdateError(users, roles, id, dto) == Some(Conflict(EmailTakenMessage))
  {
  }

  /** `Object.assign(entity, { ...dto, ...(email && { email }), ...(username && { username }) })`
      followed by the re-hash when a password is supplied: every present key overwrites
      its column; a normalised email or username that comes out empty leaves the raw
      value of the request in place, and so does an empty password. */
  function Merge(u: User, dto: UserUpdateDto, now: Date, hash: string -> string): User {
    var email := if dto.email.Some? then NormalizeEmail(dto.email.value) else "";
    var username := if dto.username.Some? then Trim(dto.username.value) else "";
    u.(
      firstName := dto.firstName.GetOr(u.firstName),
      lastName := dto.lastName.GetOr(u.lastName),
      email := if email != "" then email else dto.email.GetOr(u.email),
      username := if username != "" then username else dto.username.GetOr(u.username),
      password := if dto.password.Some? && dto.password.value != "" then hash(dto.password.value) else dto.password.GetOr(u.password),
      isActive := dto.isActive.GetOr(u.isActive),
      profileImage := dto.profileImage.GetOr(u.profileImage),
      darkMode := dto.darkMode.GetOr(u.darkMode),
      expirationPassword := dto.expirationPassword.GetOr(u.expirationPassword),
      flagPassword := dto.flagPassword.GetOr(u.flagPassword),
      updatedAt := now)
  }

  /** The merge never touches the key, the creation time or the soft-delete mark, and an
      empty request only refreshes `updatedAt`. */
  lemma MergeKeepsIdentity(u: User, dto: UserUpdateDto, now: Date, hash: string -> string)
    ensures var m := Merge(u, dto, now, hash);
      m.id == u.id && m.createdAt == u.createdAt && m.deletedAt == u.deletedAt && m.updatedAt == now
    ensures dto == UserUpdateDto(None, None, None, None, None, None, None, None, None, None, None) ==>
      Merge(u, dto, now, hash) == u.(updatedAt := now)
  {
  }

  /** The password column after an update: kept when no password is sent, re-hashed when
      a non-empty one is, and set to the empty string itself when an empty one is. */
  lemma MergePassword(u: User, dto: UserUpdateDto, now: Date, hash: string -> string)
    ensures dto.password.None? ==> Merge(u, dto, now, hash).password == u.password
    ensures dto.password.Some? && dto.password.value != "" ==> Merge(u, dto, now, hash).password == hash(dto.password.value)
    ensures dto.password == Some("") ==> Merge(u, dto, now, hash).password == ""
  {
  }

  /** The email column after an update: the normalised address when it is non-empty, and
      the raw request value when it normalises to nothing (a blank email). */
  lemma MergeEmail(u: User, dto: UserUpdateDto, now: Date, hash: string -> string)
    ensures dto.email.None? ==> Merge(u, dto, now, hash).email == u.email
    ensures dto.email.Some? && NormalizeEmail(dto.email.value) != "" ==>
      Merge(u, dto, now, hash).email == NormalizeEmail(dto.email.value)
    ensures dto.email.Some? && NormalizeEmail(dto.email.value) == "" ==> Merge(u, dto, now, hash).email == dto.email.value
  {
  }

  /** A blank email is stored raw and escapes the uniqueness check. */
  lemma BlankEmailStoredRaw(u: User, now: Date, hash: string -> string)
    ensures var dto := UserUpdateDto(None, None, Some(" "), None, None, None, None, None, None, None, None);
      Merge(u, dto, now, hash).email == " "
  {
    var s := " ";
    assert IsWhitespace(s[0]);
    TrimAllWhitespace(s);
  }

  /** `delete({ user: { id } })` and the insert of one link to the new role. */
  function ReplaceLinks(links: seq<UserRole>, userId: int, roleId: int, linkId: int): seq<UserRole> {
    RemoveLinksOf(links, userId) + [UserRole(linkId, userId, roleId)]
  }

  /** After the replacement the user has exactly the new link, and every other user keeps
      the links it had, in order. */
  lemma ReplaceLinksEffect(links: seq<UserRole>, userId: int, roleId: int, linkId: int, other: int)
    ensures LinksOf(ReplaceLinks(links, userId, roleId, linkId), userId) == [UserRole(linkId, userId, roleId)]
    ensures other != userId ==> LinksOf(ReplaceLinks(links, userId, roleId, linkId), other) == LinksOf(links, other)
  {
    LinksOfAppend(RemoveLinksOf(links, userId), UserRole(linkId, userId, roleId), userId);
    LinksOfRemoved(links, userId, userId);
    LinksOfAppend(RemoveLinksOf(links, userId), UserRole(linkId, userId, roleId), other);
    LinksOfRemoved(links, userId, other);
  }

  // ----- remove / restore -----

  /** `softDelete(id)` then `update(id, { isActive: false })`. */
  function SoftDeleted(u: User, now: Date): User {
    u.(deletedAt := NonNull(now), isActive := false, updatedAt := now)
  }

  /** `restore(id)` then `update(id, { isActive: true })`. */
  function Restored(u: User, now: Date): User {
    u.(deletedAt := Null, isActive := true, updatedAt := now)
  }

  /** Soft delete and restore move the active flag and the delete mark together, and
      restoring a removed active user gives back the same row, apart from `updatedAt`. */
  lemma RemoveRestoreRoundTrip(u: User, removedAt: Date, restoredAt: Date)
    ensures SoftDeleted(u, removedAt).deletedAt.NonNull? && !SoftDeleted(u, removedAt).isActive
    ensures Restored(u, restoredAt).deletedAt.Null? && Restored(u, restoredAt).isActive
    ensures u.deletedAt.Null? && u.isActive ==>
      Restored(SoftDeleted(u, removedAt), restoredAt) == u.(updatedAt := restoredAt)
  {
  }

  // ----- the store invariant -----

  /** Every stored id lies in [1, nextId). */
  predicate IdsBelow(users: seq<User>, nextId: int) {
    forall i :: 0 <= i < |users| ==> 1 <= users[i].id < nextId
  }

  /** Every link points at a stored user and a stored role (the two foreign keys). */
  predicate LinksResolve(users: seq<User>, links: seq<UserRole>, roles: seq<Role>) {
    Keys(links, LinkUser) <= Keys(users, UserId) && Keys(links, LinkRole) <= Keys(roles, RoleId)
  }

  function LinkUser(l: UserRole): int { l.userId }
  function LinkRole(l: UserRole): int { l.roleId }

  /** Links drawn from a table name no key the table does not name. */
  lemma KeysOfSublist(sub: seq<UserRole>, links: seq<UserRole>, f: UserRole -> int)
    requires forall l :: l in sub ==> l in links
    ensures Keys(sub, f) <= Keys(links, f)
  {
    forall k | k in Keys(sub, f)
      ensures k in Keys(links, f)
    {
      var i :| 0 <= i < |sub| && f(sub[i]) == k;
      assert sub[i] in links;
      var j :| 0 <= j < |links| && links[j] == sub[i];
    }
  }

  /** Every stored user has exactly one role link. */
  predicate OneLinkEach(users: seq<User>, links: seq<UserRole>) {
    forall i :: 0 <= i < |users| ==> |LinksOf(links, users[i].id)| == 1
  }

  /** A soft-deleted user is never active. */
  predicate DeletedInactive(users: seq<User>) {
    forall i :: 0 <= i < |users| ==> users[i].deletedAt.NonNull? ==> !users[i].isActive
  }

  /** What the transactions keep true of the two tables: users in id order below the next
      id, links resolving, one link per user, and no active soft-deleted user. */
  predicate StoreInvariant(users: seq<User>, links: seq<UserRole>, roles: seq<Role>, nextId: int) {
    && nextId >= 1
    && IdsIncreasing(users, UserId)
    && IdsBelow(users, nextId)
    && LinksResolve(users, links, roles)
    && OneLinkEach(users, links)
    && DeletedInactive(users)
  }

  /** A user that is not stored has no links. */
  lemma NoLinksForAbsentUser(users: seq<User>, links: seq<UserRole>, roles: seq<Role>, id: int)
    requires LinksResolve(users, links, roles)
    requires id !in Keys(users, UserId)
    ensures LinksOf(links, id) == []
  {
    forall i | 0 <= i < |links|
      ensures links[i].userId != id
    {
      assert LinkUser(links[i]) in Keys(links, LinkUser);
    }
    LinksOfUnnamed(links, id);
  }

  /** Appending a user together with a link to it and to a stored role keeps every link
      resolving. */
  lemma AppendUserResolves(users: seq<User>, links: seq<UserRole>, roles: seq<Role>, u: User, l: UserRole)
    requires LinksResolve(users, links, roles)
    requires l.userId == u.id && RoleRowExists(roles, l.roleId)
    ensures LinksResolve(users + [u], links + [l], roles)
  {
    KeysAppend(users, u, UserId);
    KeysAppend(links, l, LinkUser);
    KeysAppend(links, l, LinkRole);
    KeysFound(roles, RoleId, l.roleId);
  }

  /** Appending a user that had no links, together with its one link, keeps one link per user. */
  lemma AppendUserOneLink(users: seq<User>, links: seq<UserRole>, u: User, l: UserRole)
    requires OneLinkEach(users, links)
    requires l.userId == u.id && LinksOf(links, u.id) == []
    requires forall i :: 0 <= i < |users| ==> users[i].id != u.id
    ensures OneLinkEach(users + [u], links + [l])
    ensures LinksOf(links + [l], u.id) == [l]
  {
    var users', links' := users + [u], links + [l];
    forall i | 0 <= i < |users'|
      ensures |LinksOf(links', users'[i].id)| == 1
    {
      LinksOfAppend(links, l, users'[i].id);
    }
    LinksOfAppend(links, l, u.id);
  }

  /** Appending a new user, above every stored id, with one link to a stored role keeps
      the invariant; the new user then has exactly that link. */
  lemma AppendUserKeepsInvariant(users: seq<User>, links: seq<UserRole>, roles: seq<Role>, nextId: int, u: User, l: UserRole)
    requires StoreInvariant(users, links, roles, nextId)
    requires u.id == nextId && l.userId == nextId && RoleRowExists(roles, l.roleId)
    requires u.deletedAt.NonNull? ==> !u.isActive
    ensures StoreInvariant(users + [u], links + [l], roles, nextId + 1)
    ensures LinksOf(links + [l], nextId) == [l]
  {
    IdsIncreasingAppend(users, u, UserId);
    KeysFound(users, UserId, nextId);
    NoLinksForAbsentUser(users, links, roles, nextId);
    AppendUserResolves(users, links, roles, u, l);
    AppendUserOneLink(users, links, u, l);
    assert IdsBelow(users + [u], nextId + 1);
    assert DeletedInactive(users + [u]);
  }

  /** The user just created loads back live, with the role of its one link. */
  lemma CreatedUserLoads(users: seq<User>, links: seq<UserRole>, roles: seq<Role>, u: User, l: UserRole)
    requires FindIndex(users, UserId, u.id).None? && u.deletedAt.Null?
    requires l.userId == u.id && LinksOf(links + [l], u.id) == [l] && RoleExists(roles, l.roleId)
    ensures var r := Respond(Tables(users + [u], links + [l], roles, [], []), u.id, false);
      r.Some? && r.value.id == u.id && r.value.roleId == Some(l.roleId)
  {
    FindIndexAppend(users, u, UserId, u.id);
  }

  /** A create that passes its checks appends a row and its single link that keep the
      invariant, and the new row loads back with the requested role. */
  lemma CreateStep(users: seq<User>, links: seq<UserRole>, roles: seq<Role>, nextId: int,
                   dto: UserCreateDto, u: User, l: UserRole)
    requires StoreInvariant(users, links, roles, nextId)
    requires CreateError(users, roles, dto).None?
    requires u.id == nextId && u.deletedAt.Null?
    requires l.userId == nextId && l.roleId == dto.roleId
    ensures StoreInvariant(users + [u], links + [l], roles, nextId + 1)
    ensures LinksOf(links + [l], nextId) == [l]
    ensures Respond(Tables(users + [u], links + [l], roles, [], []), nextId, false).Some?
    ensures Respond(Tables(users + [u], links + [l], roles, [], []), nextId, false).value.roleId == Some(dto.roleId)
  {
    assert RoleExists(roles, dto.roleId);
    AppendUserKeepsInvariant(users, links, roles, nextId, u, l);
    KeysFound(users, UserId, nextId);
    CreatedUserLoads(users, links, roles, u, l);
  }

  /** Replacing a stored user by a row with the same id keeps the invariant, provided the
      row is not soft-deleted while active. */
  lemma ReplaceUserKeepsInvariant(users: seq<User>, links: seq<UserRole>, roles: seq<Role>, nextId: int, k: nat, u: User)
    requires StoreInvariant(users, links, roles, nextId)
    requires k < |users| && u.id == users[k].id
    requires u.deletedAt.NonNull? ==> !u.isActive
    ensures StoreInvariant(users[k := u], links, roles, nextId)
  {
    var users' := users[k := u];
    IdsIncreasingUpdate(users, k, u, UserId);
    KeysUpdate(users, k, u, UserId);
    assert OneLinkEach(users', links) by {
      forall i | 0 <= i < |users'|
        ensures |LinksOf(links, users'[i].id)| == 1
      {
        assert users'[i].id == users[i].id;
      }
    }
  }

  /** Replacing the links of a stored user by one link to a stored role keeps the invariant. */
  lemma ReplaceLinksKeepsInvariant(users: seq<User>, links: seq<UserRole>, roles: seq<Role>, nextId: int, userId: int, roleId: int, linkId: int)
    requires StoreInvariant(users, links, roles, nextId)
    requires FindById(users, UserId, userId).Some? && RoleRowExists(roles, roleId)
    ensures StoreInvariant(users, ReplaceLinks(links, userId, roleId, linkId), roles, nextId)
  {
    var links' := ReplaceLinks(links, userId, roleId, linkId);
    KeysFound(users, UserId, userId);
    KeysFound(roles, RoleId, roleId);
    var kept := RemoveLinksOf(links, userId);
    KeysOfSublist(kept, links, LinkUser);
    KeysOfSublist(kept, links, LinkRole);
    KeysAppend(kept, UserRole(linkId, userId, roleId), LinkUser);
    KeysAppend(kept, UserRole(linkId, userId, roleId), LinkRole);
    assert OneLinkEach(users, links') by {
      forall i | 0 <= i < |users|
        ensures |LinksOf(links', users[i].id)| == 1
      {
        ReplaceLinksEffect(links, userId, roleId, linkId, users[i].id);
      }
    }
  }

  /** Creating a user whose checks pass keeps live emails unique: the stored, normalised
      address is not held by any live user. */
  predicate LiveEmailsUnique(users: seq<User>) {
    forall i, j :: 0 <= i < j < |users| && users[i].deletedAt.Null? && users[j].deletedAt.Null? ==>
      users[i].email != users[j].email
  }

  lemma CreateKeepsEmailsUnique(users: seq<User>, roles: seq<Role>, dto: UserCreateDto, id: int, now: Date, hash: string -> string)
    requires ValidDate(now)
    requires LiveEmailsUnique(users) && CreateError(users, roles, dto).None?
    ensures LiveEmailsUnique(users + [NewUser(id, dto, now, hash)])
  {
    var u := NewUser(id, dto, now, hash);
    var users' := users + [u];
    forall i, j | 0 <= i < j < |users'| && users'[i].deletedAt.Null? && users'[j].deletedAt.Null?
      ensures users'[i].email != users'[j].email
    {
      if j == |users| {
        assert users'[i] == users[i];
        assert !(users[i].deletedAt.Null? && users[i].email == NormalizeEmail(dto.email));
      }
    }
  }

  /** Restore does not re-check the email: restoring a soft-deleted user whose address a
      live user took meanwhile leaves two live users with one email. */
  lemma RestoreMayDuplicateEmail(a: User, b: User, now: Date)
    requires a.id < b.id && a.email == b.email
    requires a.deletedAt.NonNull? && b.deletedAt.Null?
    ensures LiveEmailsUnique([a, b])
    ensures !LiveEmailsUnique([Restored(a, now), b])
  {
    assert [Restored(a, now), b][0].email == [Restored(a, now), b][1].email;
  }

  // ----- reads -----

  /** A user as a load with its role links and their roles returns it, projected. */
  function Respond(t: Tables, id: int, withDeleted: bool): (r: Option<UserResponse>)
    ensures r.Some? <==> LoadUser(t, id, withDeleted, false).Some?
    ensures r.Some? ==> r.value == ToResponseDto(LoadUser(t, id, withDeleted, false).value)
  {
    match LoadUser(t, id, withDeleted, false)
    case None => None
    case Some(u) => Some(ToResponseDto(u))
  }

  /** `findOne`: the user with this id, deleted or not, or NotFound. */
  function FindOne(t: Tables, id: int): (r: Result<UserResponse, HttpError>)
    ensures r.Failure? <==> FindById(t.users, UserId, id).None?
    ensures r.Failure? ==> r.error == NotFound(UserNotFoundMessage)
    ensures r.Success? ==> r.value.id == id
    ensures r.Success? ==> r.value == ToResponseDto(LoadUser(t, id, true, false).value)
  {
    match Respond(t, id, true)
    case None => Failure(NotFound(UserNotFoundMessage))
    case Some(u) => Success(u)
  }

  /** The live users, in table order. */
  function LiveUsers(users: seq<User>): (r: seq<User>)
    ensures forall u :: u in r <==> u in users && u.deletedAt.Null?
    ensures |r| <= |users|
  {
    if users == [] then []
    else if users[0].deletedAt.Null? then [users[0]] + LiveUsers(users[1..])
    else LiveUsers(users[1..])
  }

  /** Appending a user adds it at the end of the live users exactly when it is live. */
  lemma {:induction false} LiveUsersAppend(users: seq<User>, u: User)
    ensures LiveUsers(users + [u]) == LiveUsers(users) + (if u.deletedAt.Null? then [u] else [])
  {
    if users != [] {
      assert (users + [u])[1..] == users[1..] + [u];
      LiveUsersAppend(users[1..], u);
    }
  }

  /** A user with its links joined, as the list loads see them. */
  function Joined(t: Tables, u: User, withDeleted: bool): LoadedUser {
    LoadedUser(u, LoadLinks(t, LinksOf(t.userRoles, u.id), withDeleted, false))
  }

  /** `findAll`: every live user, with the live roles of its links, projected. */
  function FindAll(t: Tables): (r: seq<UserResponse>)
    ensures |r| == |LiveUsers(t.users)|
    ensures forall i :: 0 <= i < |r| ==> r[i] == ToResponseDto(Joined(t, LiveUsers(t.users)[i], false))
    ensures forall i :: 0 <= i < |r| ==> r[i].deletedAt.None?
  {
    var live := LiveUsers(t.users);
    seq(|live|, i requires 0 <= i < |live| => ToResponseDto(Joined(t, live[i], false)))
  }

  /** The sortable columns of `SORT_MAP`. */
  datatype UserColumn = CreatedAtColumn | EmailColumn | UsernameColumn | FirstNameColumn | LastNameColumn | IsActiveColumn

  /** `SORT_MAP[key]`. */
  function SortMap(key: string): (c: Option<UserColumn>)
    ensures c.Some? <==> key in {"createdAt", "email", "username", "firstName", "lastName", "isActive"}
  {
    if key == "createdAt" then Some(CreatedAtColumn)
    else if key == "email" then Some(EmailColumn)
    else if key == "username" then Some(UsernameColumn)
    else if key == "firstName" then Some(FirstNameColumn)
    else if key == "lastName" then Some(LastNameColumn)
    else if key == "isActive" then Some(IsActiveColumn)
    else None
  }

  /** `q.sortBy ? (SORT_MAP[q.sortBy] ?? 'u.createdAt') : 'u.createdAt'`. */
  function SortColumn(sortBy: Option<string>): (c: UserColumn)
    ensures sortBy.Some? && SortMap(sortBy.value).Some? ==> c == SortMap(sortBy.value).value
    ensures sortBy.None? || SortMap(sortBy.value).None? ==> c == CreatedAtColumn
  {
    if TruthyText(sortBy) && SortMap(sortBy.value).Some? then SortMap(sortBy.value).value else CreatedAtColumn
  }

  /** The example sort key of the query documentation, `created_at`, is not a key of the
      map: it sorts by creation time through the fallback. */
  lemma SnakeCaseSortKeyFallsBack()
    ensures SortMap("created_at").None? && SortColumn(Some("created_at")) == CreatedAtColumn
  {
  }

  function ColumnValue(c: UserColumn): User -> SortValue {
    match c
    case CreatedAtColumn => (u: User) => Time(Instant(u.createdAt))
    case EmailColumn => (u: User) => Text(u.email)
    case UsernameColumn => (u: User) => Text(u.username)
    case FirstNameColumn => (u: User) => Text(u.firstName)
    case LastNameColumn => (u: User) => Text(u.lastName)
    case IsActiveColumn => (u: User) => Flag(u.isActive)
  }

  /** The search: the lower-cased term inside the lower-cased email, username, first name
      or last name. */
  predicate MatchesSearch(u: User, term: string) {
    var like := ToLower(term);
    Contains(ToLower(u.email), like) || Contains(ToLower(u.username), like)
      || Contains(ToLower(u.firstName), like) || Contains(ToLower(u.lastName), like)
  }

  /** The conditions of the paged query: live rows unless `withDeleted` is truthy, and
      the search when `q` is a non-empty string. */
  predicate Listed(u: User, q: ListQuery) {
    (TruthyFlag(q.withDeleted) || u.deletedAt.Null?) && (!TruthyText(q.q) || MatchesSearch(u, q.q.value))
  }

  function ListedUsers(users: seq<User>, q: ListQuery): (r: seq<User>)
    ensures forall u :: u in r <==> u in users && Listed(u, q)
    ensures |r| <= |users|
  {
    if users == [] then []
    else if Listed(users[0], q) then [users[0]] + ListedUsers(users[1..], q)
    else ListedUsers(users[1..], q)
  }

  /** Appending a user adds it at the end of the listed users exactly when the query
      lists it, so `total` counts each listed row once. */
  lemma {:induction false} ListedUsersAppend(users: seq<User>, u: User, q: ListQuery)
    ensures ListedUsers(users + [u], q) == ListedUsers(users, q) + (if Listed(u, q) then [u] else [])
  {
    if users != [] {
      assert (users + [u])[1..] == users[1..] + [u];
      ListedUsersAppend(users[1..], u, q);
    }
  }

  datatype PagedUsers = PagedUsers(items: seq<UserResponse>, total: int, page: int, pageSize: int)

  /** `findAllPaged`: the listed users sorted by the chosen column (default creation time,
      descending), page `page` of `pageSize` rows, projected with all their links. */
  function FindAllPaged(t: Tables, q: ListQuery): (r: PagedUsers)
    requires PagingOk(q)
    ensures r.page == PageOf(q) && r.pageSize == PageSizeOf(q)
    ensures r.total == |ListedUsers(t.users, q)|
    ensures |r.items| <= r.pageSize
    ensures |r.items| == 0 <==> Offset(r.page, r.pageSize) >= r.total
  {
    var listed := ListedUsers(t.users, q);
    var order := q.sortOrder.GetOr(Desc);
    var rows := Page(listed, ColumnValue(SortColumn(q.sortBy)), order, Offset(PageOf(q), PageSizeOf(q)), PageSizeOf(q));
    var items := seq(|rows|, i requires 0 <= i < |rows| => ToResponseDto(Joined(t, rows[i], true)));
    PagedUsers(items, |listed|, PageOf(q), PageSizeOf(q))
  }

  /** The users on a page: listed ones, deleted ones only when asked for, each at most
      once per position, ordered by the sort column in the chosen direction. */
  lemma FindAllPagedRows(t: Tables, q: ListQuery)
    requires PagingOk(q)
    ensures var listed := ListedUsers(t.users, q);
      var rows := Page(listed, ColumnValue(SortColumn(q.sortBy)), q.sortOrder.GetOr(Desc), Offset(PageOf(q), PageSizeOf(q)), PageSizeOf(q));
      && FindAllPaged(t, q).items == seq(|rows|, i requires 0 <= i < |rows| => ToResponseDto(Joined(t, rows[i], true)))
      && (forall i :: 0 <= i < |rows| ==> rows[i] in t.users && Listed(rows[i], q))
      && (!TruthyFlag(q.withDeleted) ==> forall i :: 0 <= i < |rows| ==> rows[i].deletedAt.Null?)
      && (forall i, j :: 0 <= i < j < |rows| ==>
            Precedes(ColumnValue(SortColumn(q.sortBy))(rows[i]), ColumnValue(SortColumn(q.sortBy))(rows[j]), q.sortOrder.GetOr(Desc)))
  {
  }

  /** The store of users and their role links; `roles` is read, never written, here. */
  class UserStore {
    var users: seq<User>
    var userRoles: seq<UserRole>
    const roles: seq<Role>
    var nextUserId: int
    var nextLinkId: int

    ghost predicate Valid()
      reads this
    {
      StoreInvariant(users, userRoles, roles, nextUserId) && nextLinkId >= 1
    }

    constructor (roles: seq<Role>)
      ensures Valid()
      ensures this.roles == roles && users == [] && userRoles == []
    {
      this.roles := roles;
      users := [];
      userRoles := [];
      nextUserId := 1;
      nextLinkId := 1;
    }

    /** The tables as the user loads read them. */
    function Snapshot(): Tables
      reads this
    {
      Tables(users, userRoles, roles, [], [])
    }

    /** The two saves of `create`'s transaction: the new row under the next id and its
        single role link under the next link id. */
    method Insert(u: User, l: UserRole)
      requires Valid()
      requires u.id == nextUserId && u.deletedAt.Null?
      requires l.id == nextLinkId && l.userId == nextUserId && RoleRowExists(roles, l.roleId)
      modifies this
      ensures Valid()
      ensures users == old(users) + [u] && userRoles == old(userRoles) + [l]
      ensures nextUserId == old(nextUserId) + 1 && nextLinkId == old(nextLinkId) + 1
      ensures LinksOf(userRoles, u.id) == [l]
    {
      AppendUserKeepsInvariant(users, userRoles, roles, nextUserId, u, l);
      users := users + [u];
      userRoles := userRoles + [l];
      nextUserId := nextUserId + 1;
      nextLinkId := nextLinkId + 1;
    }

    /** `create`: the three checks, then the new row and its single link, then the row
        loaded back with its role. */
    method Create(dto: UserCreateDto, now: Date, hash: string -> string) returns (r: Result<UserResponse, HttpError>)
      requires Valid() && ValidDate(now)
      modifies this
      ensures Valid()
      ensures r.Failure? <==> CreateError(old(users), roles, dto).Some?
      ensures r.Failure? ==> r.error == CreateError(old(users), roles, dto).value && unchanged(this)
      ensures r.Success? ==>
        && users == old(users) + [NewUser(old(nextUserId), dto, now, hash)]
        && userRoles == old(userRoles) + [UserRole(old(nextLinkId), old(nextUserId), dto.roleId)]
        && LinksOf(userRoles, old(nextUserId)) == [UserRole(old(nextLinkId), old(nextUserId), dto.roleId)]
        && nextUserId == old(nextUserId) + 1 && nextLinkId == old(nextLinkId) + 1
        && Some(r.value) == Respond(Snapshot(), old(nextUserId), false)
        && r.value.roleId == Some(dto.roleId)
    {
      var refused := CreateError(users, roles, dto);
      if refused.Some? {
        return Failure(refused.value);
      }
      var id := nextUserId;
      var user := NewUser(id, dto, now, hash);
      var link := UserRole(nextLinkId, id, dto.roleId);
      CreateStep(users, userRoles, roles, id, dto, user, link);
      Insert(user, link);
      var loaded := Respond(Snapshot(), id, false);
      r := Success(loaded.value);
    }

    /** `save` of a loaded row: the row at position `k` is replaced by one with the same id. */
    method SaveUser(k: nat, u: User)
      requires Valid()
      requires k < |users| && u.id == users[k].id
      requires u.deletedAt.NonNull? ==> !u.isActive
      modifies this
      ensures Valid()
      ensures users == old(users)[k := u]
      ensures userRoles == old(userRoles) && nextUserId == old(nextUserId) && nextLinkId == old(nextLinkId)
      ensures FindIndex(users, UserId, u.id) == Some(k)
    {
      ReplaceUserKeepsInvariant(users, userRoles, roles, nextUserId, k, u);
      FindIndexUpdate(users, k, u, UserId, u.id);
      users := users[k := u];
    }

    /** The link replacement of `update`: the user's links are deleted and one link to the
        new role is saved under the next link id. */
    method ReplaceRole(userId: int, roleId: int)
      requires Valid()
      requires FindById(users, UserId, userId).Some? && RoleRowExists(roles, roleId)
      modifies this
      ensures Valid()
      ensures userRoles == ReplaceLinks(old(userRoles), userId, roleId, old(nextLinkId))
      ensures users == old(users) && nextUserId == old(nextUserId) && nextLinkId == old(nextLinkId) + 1
    {
      ReplaceLinksKeepsInvariant(users, userRoles, roles, nextUserId, userId, roleId, nextLinkId);
      userRoles := ReplaceLinks(userRoles, userId, roleId, nextLinkId);
      nextLinkId := nextLinkId + 1;
    }

    /** `update`: the checks, the merge, the link replacement when a truthy role id is
        sent, then the row loaded back. */
    method Update(id: int, dto: UserUpdateDto, now: Date, hash: string -> string) returns (r: Result<UserResponse, HttpError>)
      requires Valid()
      modifies this
      ensures Valid()
      ensures r.Failure? <==> UpdateError(old(users), roles, id, dto).Some?
      ensures r.Failure? ==> r.error == UpdateError(old(users), roles, id, dto).value && unchanged(this)
      ensures r.Success? ==> LiveIndex(old(users), id).Some?
      ensures r.Success? ==>
        var k := LiveIndex(old(users), id).value;
        && users == old(users)[k := Merge(old(users)[k], dto, now, hash)]
        && userRoles == (if RoleTruthy(dto.roleId) then ReplaceLinks(old(userRoles), id, dto.roleId.value, old(nextLinkId)) else old(userRoles))
        && Some(r.value) == Respond(Snapshot(), id, false)
    {
      var refused := UpdateError(users, roles, id, dto);
      if refused.Some? {
        return Failure(refused.value);
      }
      var k := LiveIndex(users, id).value;
      var entity := users[k];
      var merged := Merge(entity, dto, now, hash);
      SaveUser(k, merged);
      if RoleTruthy(dto.roleId) {
        ReplaceRole(id, dto.roleId.value);
      }
      var loaded := Respond(Snapshot(), id, false);
      r := Success(loaded.value);
    }

    /** `remove`: the live row is soft-deleted and deactivated; its links stay. */
    method Remove(id: int, now: Date) returns (r: Result<UserResponse, HttpError>)
      requires Valid()
      modifies this
      ensures Valid()
      ensures r.Failure? <==> LiveIndex(old(users), id).None?
      ensures r.Failure? ==> r.error == NotFound(UserNotFoundMessage) && unchanged(this)
      ensures r.Success? ==>
        var k := LiveIndex(old(users), id).value;
        && users == old(users)[k := SoftDeleted(old(users)[k], now)]
        && userRoles == old(userRoles)
        && Some(r.value) == Respond(Snapshot(), id, true)
        && r.value.deletedAt == Some(now) && !r.value.isActive
    {
      var found := LiveIndex(users, id);
      if found.None? {
        return Failure(NotFound(UserNotFoundMessage));
      }
      var k := found.value;
      var deleted := SoftDeleted(users[k], now);
      SaveUser(k, deleted);
      var loaded := Respond(Snapshot(), id, true);
      r := Success(loaded.value);
    }

    /** `restore`: any row with this id, deleted or not, is restored and activated; its
        links stay. */
    method Restore(id: int, now: Date) returns (r: Result<UserResponse, HttpError>)
      requires Valid()
      modifies this
      ensures Valid()
      ensures r.Failure? <==> FindIndex(old(users), UserId, id).None?
      ensures r.Failure? ==> r.error == NotFound(UserNotFoundMessage) && unchanged(this)
      ensures r.Success? ==>
        var k := FindIndex(old(users), UserId, id).value;
        && users == old(users)[k := Restored(old(users)[k], now)]
        && userRoles == old(userRoles)
        && Some(r.value) == Respond(Snapshot(), id, false)
        && r.value.deletedAt.None? && r.value.isActive
    {
      var found := FindIndex(users, UserId, id);
      if found.None? {
        return Failure(NotFound(UserNotFoundMessage));
      }
      var k := found.value;
      var restored := Restored(users[k], now);
      SaveUser(k, restored);
      var loaded := Respond(Snapshot(), id, false);
      r := Success(loaded.value);
    }
  }
}

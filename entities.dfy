/** The persisted entities of the identity store (users, roles, permissions, modules and
    the two link tables), lookups by id, and the eager loads of the User -> UserRole ->
    Role -> RolePermission -> Permission graph with their soft-delete visibility. */
module Entities {
  import opened Common
  import opened Calendar
  import opened Listing

  datatype User = User(
    id: int,
    firstName: string,
    lastName: string,
    email: string,
    username: string,
    password: string,
    isActive: bool,
    profileImage: Nullable<string>,
    darkMode: bool,
    expirationPassword: Nullable<Date>,
    flagPassword: bool,
    createdAt: Date,
    updatedAt: Date,
    deletedAt: Nullable<Date>)

  datatype Role = Role(
    id: int,
    name: string,
    description: Nullable<string>,
    isActive: bool,
    createdAt: Date,
    updatedAt: Date,
    deletedAt: Nullable<Date>)

  datatype Permission = Permission(
    id: int,
    name: string,
    description: Nullable<string>,
    moduleId: int,
    createdAt: Date,
    updatedAt: Date,
    deletedAt: Nullable<Date>)

  datatype Module = Module(
    id: int,
    name: string,
    description: Nullable<string>,
    createdAt: Date,
    updatedAt: Date,
    deletedAt: Nullable<Date>)

  /** A row of `user_roles`: user `userId` holds role `roleId`. */
  datatype UserRole = UserRole(id: int, userId: int, roleId: int)

  /** A row of `role_permissions`: role `roleId` grants permission `permissionId`. */
  datatype RolePermission = RolePermission(id: int, roleId: int, permissionId: int)

  function UserId(u: User): int { u.id }
  function RoleId(r: Role): int { r.id }
  function PermissionId(p: Permission): int { p.id }
  function ModuleId(m: Module): int { m.id }

  /** A read without `withDeleted` sees only rows whose `deletedAt` is null. */
  predicate Visible(deletedAt: Nullable<Date>, withDeleted: bool) {
    withDeleted || deletedAt.Null?
  }

  /** Rows are kept in id order, as an auto-increment key enumerates them. */
  predicate IdsIncreasing<T>(rows: seq<T>, idOf: T -> int) {
    forall i, j :: 0 <= i < j < |rows| ==> idOf(rows[i]) < idOf(rows[j])
  }

  /** The position of the row with key `id`, if there is one. */
  function FindIndex<T>(rows: seq<T>, idOf: T -> int, id: int): (r: Option<nat>)
    ensures r.Some? ==> r.value < |rows| && idOf(rows[r.value]) == id
    ensures r.None? <==> forall i :: 0 <= i < |rows| ==> idOf(rows[i]) != id
  {
    if rows == [] then None
    else if idOf(rows[0]) == id then Some(0)
    else
      match FindIndex(rows[1..], idOf, id)
      case None => None
      case Some(k) => Some(k + 1)
  }

  /** In an id-ordered table the row found for `id` is the only one with that key. */
  lemma FindIndexUnique<T>(rows: seq<T>, idOf: T -> int, id: int, k: nat)
    requires IdsIncreasing(rows, idOf)
    requires k < |rows| && idOf(rows[k]) == id
    ensures FindIndex(rows, idOf, id) == Some(k)
  {
    var r := FindIndex(rows, idOf, id);
    assert r.Some?;
  }

  /** Appending a row leaves every existing key where it was and adds the new key last. */
  lemma {:induction false} FindIndexAppend<T>(rows: seq<T>, x: T, idOf: T -> int, id: int)
    ensures FindIndex(rows + [x], idOf, id) ==
      if FindIndex(rows, idOf, id).Some? then FindIndex(rows, idOf, id)
      else if idOf(x) == id then Some(|rows|)
      else None
  {
    if rows != [] {
      assert (rows + [x])[1..] == rows[1..] + [x];
      FindIndexAppend(rows[1..], x, idOf, id);
    }
  }

  /** Replacing a row by one with the same key moves no key. */
  lemma {:induction false} FindIndexUpdate<T>(rows: seq<T>, k: nat, x: T, idOf: T -> int, id: int)
    requires k < |rows| && idOf(x) == idOf(rows[k])
    ensures FindIndex(rows[k := x], idOf, id) == FindIndex(rows, idOf, id)
  {
    if k > 0 {
      assert rows[k := x][1..] == rows[1..][k - 1 := x];
      FindIndexUpdate(rows[1..], k - 1, x, idOf, id);
    }
  }

  /** Appending or replacing rows (keeping keys) keeps a table in id order. */
  lemma IdsIncreasingAppend<T>(rows: seq<T>, x: T, idOf: T -> int)
    requires IdsIncreasing(rows, idOf)
    requires forall i :: 0 <= i < |rows| ==> idOf(rows[i]) < idOf(x)
    ensures IdsIncreasing(rows + [x], idOf)
  {
  }

  lemma IdsIncreasingUpdate<T>(rows: seq<T>, k: nat, x: T, idOf: T -> int)
    requires IdsIncreasing(rows, idOf)
    requires k < |rows| && idOf(x) == idOf(rows[k])
    ensures IdsIncreasing(rows[k := x], idOf)
  {
  }

  /** The keys present in a table. */
  function Keys<T>(rows: seq<T>, idOf: T -> int): set<int> {
    set i | 0 <= i < |rows| :: idOf(rows[i])
  }

  /** A key is present exactly when the lookup finds it. */
  lemma KeysFound<T>(rows: seq<T>, idOf: T -> int, id: int)
    ensures id in Keys(rows, idOf) <==> FindIndex(rows, idOf, id).Some?
  {
    var r := FindIndex(rows, idOf, id);
    if r.Some? {
      assert idOf(rows[r.value]) in Keys(rows, idOf);
    }
  }

  lemma KeysAppend<T>(rows: seq<T>, x: T, idOf: T -> int)
    ensures Keys(rows + [x], idOf) == Keys(rows, idOf) + {idOf(x)}
  {
    var s := rows + [x];
    forall k | k in Keys(rows, idOf)
      ensures k in Keys(s, idOf)
    {
      var i :| 0 <= i < |rows| && idOf(rows[i]) == k;
      assert s[i] == rows[i];
    }
    assert s[|rows|] == x;
  }

  lemma KeysUpdate<T>(rows: seq<T>, k: nat, x: T, idOf: T -> int)
    requires k < |rows| && idOf(x) == idOf(rows[k])
    ensures Keys(rows[k := x], idOf) == Keys(rows, idOf)
  {
    var s := rows[k := x];
    forall key | key in Keys(rows, idOf)
      ensures key in Keys(s, idOf)
    {
      var i :| 0 <= i < |rows| && idOf(rows[i]) == key;
      assert idOf(s[i]) == key;
    }
  }

  /** Dropping rows keeps the rest in id order. */
  lemma {:induction false} WhereIdsIncreasing<T(!new)>(rows: seq<T>, keep: T -> bool, idOf: T -> int)
    requires IdsIncreasing(rows, idOf)
    ensures IdsIncreasing(Where(rows, keep), idOf)
  {
    if rows != [] {
      WhereIdsIncreasing(rows[1..], keep, idOf);
      var rest := Where(rows[1..], keep);
      if keep(rows[0]) {
        assert Where(rows, keep) == [rows[0]] + rest;
        forall j | 0 <= j < |rest|
          ensures idOf(rows[0]) < idOf(rest[j])
        {
          assert rest[j] in rows[1..];
          var k :| 0 <= k < |rows[1..]| && rows[1..][k] == rest[j];
          assert rows[k + 1] == rest[j];
        }
      }
    }
  }

  /** Dropping rows adds no key. */
  lemma KeysWhere<T(!new)>(rows: seq<T>, keep: T -> bool, idOf: T -> int)
    ensures Keys(Where(rows, keep), idOf) <= Keys(rows, idOf)
  {
    var r := Where(rows, keep);
    forall key | key in Keys(r, idOf)
      ensures key in Keys(rows, idOf)
    {
      var i :| 0 <= i < |r| && idOf(r[i]) == key;
      assert r[i] in rows;
      var j :| 0 <= j < |rows| && rows[j] == r[i];
      assert idOf(rows[j]) == key;
    }
  }

  /** `findOne({ where: { id } })`: the row with key `id`, subject to soft-delete visibility. */
  function FindById<T>(rows: seq<T>, idOf: T -> int, id: int): (r: Option<T>)
    ensures r.Some? ==> r.value in rows && idOf(r.value) == id
    ensures r.None? <==> forall i :: 0 <= i < |rows| ==> idOf(rows[i]) != id
  {
    match FindIndex(rows, idOf, id)
    case None => None
    case Some(k) => Some(rows[k])
  }

  /** The `user_roles` rows of user `userId`, in table order. */
  function LinksOf(links: seq<UserRole>, userId: int): (r: seq<UserRole>)
    ensures forall l :: l in r <==> l in links && l.userId == userId
    ensures |r| <= |links|
  {
    if links == [] then []
    else if links[0].userId == userId then [links[0]] + LinksOf(links[1..], userId)
    else LinksOf(links[1..], userId)
  }

  lemma {:induction false} LinksOfAppend(links: seq<UserRole>, l: UserRole, userId: int)
    ensures LinksOf(links + [l], userId) == LinksOf(links, userId) + (if l.userId == userId then [l] else [])
  {
    if links != [] {
      assert (links + [l])[1..] == links[1..] + [l];
      LinksOfAppend(links[1..], l, userId);
    }
  }

  /** A user that no link names has no links. */
  lemma {:induction false} LinksOfUnnamed(links: seq<UserRole>, userId: int)
    requires forall i :: 0 <= i < |links| ==> links[i].userId != userId
    ensures LinksOf(links, userId) == []
  {
    if links != [] {
      LinksOfUnnamed(links[1..], userId);
    }
  }

  /** `delete({ user: { id } })` on `user_roles`: every link of user `userId` removed, the
      others kept in order. */
  function RemoveLinksOf(links: seq<UserRole>, userId: int): (r: seq<UserRole>)
    ensures forall l :: l in r <==> l in links && l.userId != userId
  {
    if links == [] then []
    else if links[0].userId == userId then RemoveLinksOf(links[1..], userId)
    else [links[0]] + RemoveLinksOf(links[1..], userId)
  }

  /** Removing a user's links takes away exactly that user's links. */
  lemma {:induction false} LinksOfRemoved(links: seq<UserRole>, userId: int, other: int)
    ensures LinksOf(RemoveLinksOf(links, userId), other) == if other == userId then [] else LinksOf(links, other)
  {
    if links != [] {
      LinksOfRemoved(links[1..], userId, other);
    }
  }

  /** The `role_permissions` rows of role `roleId`, in table order. */
  function GrantsOf(grants: seq<RolePermission>, roleId: int): (r: seq<RolePermission>)
    ensures forall g :: g in r <==> g in grants && g.roleId == roleId
  {
    if grants == [] then []
    else if grants[0].roleId == roleId then [grants[0]] + GrantsOf(grants[1..], roleId)
    else GrantsOf(grants[1..], roleId)
  }

  /** Appending a grant extends only its own role's grants, at the end: the grants of a
      role are kept in table order, one entry per row. */
  lemma {:induction false} GrantsOfAppend(grants: seq<RolePermission>, g: RolePermission, roleId: int)
    ensures GrantsOf(grants + [g], roleId) == GrantsOf(grants, roleId) + (if g.roleId == roleId then [g] else [])
  {
    if grants != [] {
      assert (grants + [g])[1..] == grants[1..] + [g];
      GrantsOfAppend(grants[1..], g, roleId);
    }
  }

  /** All tables of the identity store, as one snapshot. */
  datatype Tables = Tables(
    users: seq<User>,
    userRoles: seq<UserRole>,
    roles: seq<Role>,
    rolePermissions: seq<RolePermission>,
    permissions: seq<Permission>)

  /** A `role_permissions` row with its joined permission (absent when the permission row
      is missing or hidden as soft-deleted). */
  datatype LoadedGrant = LoadedGrant(grant: RolePermission, permission: Option<Permission>)

  /** A role with, when the load asked for the `permissions` relation, its grants. */
  datatype LoadedRole = LoadedRole(role: Role, permissions: Option<seq<LoadedGrant>>)

  /** A `user_roles` row with its joined role (absent when hidden or missing). */
  datatype LoadedUserRole = LoadedUserRole(link: UserRole, role: Option<LoadedRole>)

  /** A user with the `roles` relation loaded. */
  datatype LoadedUser = LoadedUser(user: User, roles: seq<LoadedUserRole>)

  function LoadGrants(t: Tables, grants: seq<RolePermission>, withDeleted: bool): (r: seq<LoadedGrant>)
    ensures |r| == |grants|
    ensures forall i :: 0 <= i < |r| ==> r[i].grant == grants[i]
    ensures forall i :: 0 <= i < |r| ==> (r[i].permission.Some? <==>
      (var p := FindById(t.permissions, PermissionId, grants[i].permissionId); p.Some? && Visible(p.value.deletedAt, withDeleted)))
    ensures forall i :: 0 <= i < |r| && r[i].permission.Some? ==> r[i].permission.value.id == grants[i].permissionId
  {
    if grants == [] then []
    else
      var p := FindById(t.permissions, PermissionId, grants[0].permissionId);
      var loaded := if p.Some? && Visible(p.value.deletedAt, withDeleted) then p else None;
      [LoadedGrant(grants[0], loaded)] + LoadGrants(t, grants[1..], withDeleted)
  }

  /** The role `roleId` as a relation join sees it, with its grants when `withPermissions`. */
  function LoadRole(t: Tables, roleId: int, withDeleted: bool, withPermissions: bool): (r: Option<LoadedRole>)
    ensures r.Some? <==> (var found := FindById(t.roles, RoleId, roleId); found.Some? && Visible(found.value.deletedAt, withDeleted))
    ensures r.Some? ==> r.value.role.id == roleId && r.value.role in t.roles
    ensures r.Some? ==> (r.value.permissions.Some? <==> withPermissions)
  {
    match FindById(t.roles, RoleId, roleId)
    case None => None
    case Some(role) =>
      if !Visible(role.deletedAt, withDeleted) then None
      else if withPermissions then Some(LoadedRole(role, Some(LoadGrants(t, GrantsOf(t.rolePermissions, roleId), withDeleted))))
      else Some(LoadedRole(role, None))
  }

  function LoadLinks(t: Tables, links: seq<UserRole>, withDeleted: bool, withPermissions: bool): (r: seq<LoadedUserRole>)
    ensures |r| == |links|
    ensures forall i :: 0 <= i < |r| ==> r[i].link == links[i]
    ensures forall i :: 0 <= i < |r| ==> r[i].role == LoadRole(t, links[i].roleId, withDeleted, withPermissions)
  {
    if links == [] then []
    else
      var head := LoadedUserRole(links[0], LoadRole(t, links[0].roleId, withDeleted, withPermissions));
      [head] + LoadLinks(t, links[1..], withDeleted, withPermissions)
  }

  /** `findOne({ where: { id }, relations: [...], withDeleted })`: the user with its role
      links, each joined to its role (and the role's permissions when `withPermissions`).
      Without `withDeleted` a soft-deleted user is not found, and soft-deleted roles and
      permissions are not joined. */
  function LoadUser(t: Tables, id: int, withDeleted: bool, withPermissions: bool): (r: Option<LoadedUser>)
    ensures r.Some? <==> (var u := FindById(t.users, UserId, id); u.Some? && Visible(u.value.deletedAt, withDeleted))
    ensures r.Some? ==> r.value.user.id == id && r.value.user in t.users
    ensures r.Some? ==> r.value.roles == LoadLinks(t, LinksOf(t.userRoles, id), withDeleted, withPermissions)
  {
    match FindById(t.users, UserId, id)
    case None => None
    case Some(u) =>
      if !Visible(u.deletedAt, withDeleted) then None
      else Some(LoadedUser(u, LoadLinks(t, LinksOf(t.userRoles, id), withDeleted, withPermissions)))
  }
}

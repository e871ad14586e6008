/** The permission store: permissions listed page by page, read by id, created and updated
    as sent, and deleted for good. Only the listing catches failures; everywhere else a
    failure of the storage layer (a missing row for `findOneOrFail`, a broken foreign key)
    escapes and the framework answers it with its generic InternalServerError. */
module PermissionService {
  import opened Common
  import opened Text
  import opened Calendar
  import opened Listing
  import opened Entities
  import opened PermissionMapper
  import opened Filters

  const PermissionNotFoundMessage: string := "Permiso no encontrado"
  const ListFailedMessage: string := "Error al obtener los permisos"

  /** A permission update request: each field absent (`None`) or given. */
  datatype PermissionUpdateDto = PermissionUpdateDto(name: Option<string>, description: Option<Nullable<string>>, moduleId: Option<int>)

  /** The answer of `remove`. */
  datatype Deleted = Deleted(deleted: bool)

  function PermissionModule(p: Permission): int { p.moduleId }

  /** `findOne({ where: { id } })` on an entity with a deletion column: the live row. */
  function LiveIndex(permissions: seq<Permission>, id: int): (r: Option<nat>)
    ensures r.Some? ==> r.value < |permissions| && permissions[r.value].id == id && permissions[r.value].deletedAt.Null?
    ensures r.Some? <==> FindIndex(permissions, PermissionId, id).Some? && permissions[FindIndex(permissions, PermissionId, id).value].deletedAt.Null?
  {
    var k := FindIndex(permissions, PermissionId, id);
    if k.Some? && permissions[k.value].deletedAt.Null? then k else None
  }

  // ----- findOne and restore -----

  /** `findOne`: the live row through the mapper, NotFound when there is none; a storage
      failure is not caught. */
  function FindOne(permissions: seq<Permission>, id: int, outage: bool): (r: Result<PermissionResponse, HttpError>)
    ensures outage ==> r == Failure(InternalServerError(UnhandledMessage))
    ensures !outage ==> (r.Failure? <==> LiveIndex(permissions, id).None?)
    ensures !outage && r.Failure? ==> r.error == NotFound(PermissionNotFoundMessage)
    ensures r.Success? ==>
      && LiveIndex(permissions, id).Some?
      && r.value == ToResponseDto(permissions[LiveIndex(permissions, id).value])
  {
    if outage then Failure(InternalServerError(UnhandledMessage))
    else match LiveIndex(permissions, id)
      case None => Failure(NotFound(PermissionNotFoundMessage))
      case Some(k) => Success(ToResponseDto(permissions[k]))
  }

  /** `restore`: nothing is restored; the live row with this id is returned as stored,
      or null. */
  function Restore(permissions: seq<Permission>, id: int, outage: bool): (r: Result<Nullable<Permission>, HttpError>)
    ensures outage ==> r == Failure(InternalServerError(UnhandledMessage))
    ensures !outage ==> r.Success?
    ensures r.Success? && r.value.NonNull? ==>
      && LiveIndex(permissions, id).Some?
      && r.value.value == permissions[LiveIndex(permissions, id).value]
    ensures r.Success? && r.value.Null? ==> LiveIndex(permissions, id).None?
  {
    if outage then Failure(InternalServerError(UnhandledMessage))
    else match LiveIndex(permissions, id)
      case None => Success(Null)
      case Some(k) => Success(NonNull(permissions[k]))
  }

  /** Restoring a soft-deleted permission answers null: the lookup does not see it. */
  lemma RestoreMissesDeleted(permissions: seq<Permission>, k: nat)
    requires IdsIncreasing(permissions, PermissionId)
    requires k < |permissions| && permissions[k].deletedAt.NonNull?
    ensures Restore(permissions, permissions[k].id, false) == Success(Null)
  {
    FindIndexUnique(permissions, PermissionId, permissions[k].id, k);
  }

  // ----- findAllPaged -----

  /** The columns `SORT_MAP` names. */
  datatype PermissionColumn = CreatedAtColumn | NameColumn | DescriptionColumn | UpdatedAtColumn | DeletedAtColumn

  /** `SORT_MAP`: the snake-case keys of the sortable columns. */
  function SortMap(key: string): (c: Option<PermissionColumn>)
    ensures c.Some? <==> key in {"created_at", "name", "description", "updated_at", "deleted_at"}
    ensures key == "created_at" ==> c == Some(CreatedAtColumn)
  {
    if key == "created_at" then Some(CreatedAtColumn)
    else if key == "name" then Some(NameColumn)
    else if key == "description" then Some(DescriptionColumn)
    else if key == "updated_at" then Some(UpdatedAtColumn)
    else if key == "deleted_at" then Some(DeletedAtColumn)
    else None
  }

  /** `SORT_MAP[sortBy ?? 'created_at'] ?? 'permission.createdAt'`. */
  function SortColumn(sortBy: Option<string>): (c: PermissionColumn)
    ensures sortBy.None? ==> c == CreatedAtColumn
    ensures sortBy.Some? && SortMap(sortBy.value).Some? ==> c == SortMap(sortBy.value).value
    ensures sortBy.Some? && SortMap(sortBy.value).None? ==> c == CreatedAtColumn
  {
    SortMap(sortBy.GetOr("created_at")).GetOr(CreatedAtColumn)
  }

  /** A camel-case column name is not a key: `createdAt` and `updatedAt` both sort by
      creation time. */
  lemma CamelCaseSortKeysFallBack()
    ensures SortColumn(Some("createdAt")) == CreatedAtColumn && SortColumn(Some("updatedAt")) == CreatedAtColumn
  {
  }

  function ColumnValue(c: PermissionColumn): Permission -> SortValue {
    match c
    case CreatedAtColumn => (p: Permission) => Time(Instant(p.createdAt))
    case NameColumn => (p: Permission) => Text(p.name)
    case DescriptionColumn => (p: Permission) => NullableText(p.description)
    case UpdatedAtColumn => (p: Permission) => Time(Instant(p.updatedAt))
    case DeletedAtColumn => (p: Permission) => NullableTime(p.deletedAt)
  }

  /** The `WHERE` clause as the query builder assembles it: `deletedAt IS NULL` unless
      `withDeleted` is truthy, then `AND` the unparenthesised search
      `name ILIKE :q OR description ILIKE :q` when `q` is a non-empty string, read with
      `AND` binding tighter than `OR`. */
  predicate Listed(p: Permission, q: ListQuery) {
    var visible := TruthyFlag(q.withDeleted) || p.deletedAt.Null?;
    if TruthyText(q.q) then
      (visible && ILike(p.name, q.q.value)) || (p.description.NonNull? && ILike(p.description.value, q.q.value))
    else visible
  }

  /** Without a search, deleted permissions are listed exactly when asked for. */
  lemma UnsearchedListingHidesDeleted(p: Permission, q: ListQuery)
    requires !TruthyText(q.q)
    ensures Listed(p, q) <==> TruthyFlag(q.withDeleted) || p.deletedAt.Null?
  {
  }

  /** With a search and without `withDeleted`, a deleted permission is listed exactly when
      its description matches. */
  lemma SearchPrecedence(p: Permission, q: ListQuery)
    requires TruthyText(q.q) && !TruthyFlag(q.withDeleted) && p.deletedAt.NonNull?
    ensures Listed(p, q) <==> p.description.NonNull? && ILike(p.description.value, q.q.value)
  {
  }

  datatype PagedPermissions = PagedPermissions(items: seq<PermissionResponse>, total: int, page: int, pageSize: int)

  /** `findAllPaged`: the listed permissions ordered by the chosen column (default creation
      time, descending), page `page` of `pageSize` rows through the mapper, so without their
      joined module; any failure becomes one InternalServerError. */
  function FindAllPaged(permissions: seq<Permission>, filters: Option<ListQuery>, outage: bool): (r: Result<PagedPermissions, HttpError>)
    requires PagingOk(QueryOrEmpty(filters))
    ensures r.Failure? <==> outage
    ensures r.Failure? ==> r.error == InternalServerError(ListFailedMessage)
    ensures r.Success? ==>
      var q := QueryOrEmpty(filters);
      && r.value.page == PageOf(q) && r.value.pageSize == PageSizeOf(q)
      && r.value.total == |Where(permissions, (p: Permission) => Listed(p, q))|
      && |r.value.items| <= r.value.pageSize
      && (|r.value.items| == 0 <==> Offset(r.value.page, r.value.pageSize) >= r.value.total)
  {
    if outage then Failure(InternalServerError(ListFailedMessage))
    else
      var q := QueryOrEmpty(filters);
      var listed := Where(permissions, (p: Permission) => Listed(p, q));
      var rows := Page(listed, ColumnValue(SortColumn(q.sortBy)), q.sortOrder.GetOr(Desc), Offset(PageOf(q), PageSizeOf(q)), PageSizeOf(q));
      var items := seq(|rows|, i requires 0 <= i < |rows| => ToResponseDto(rows[i]));
      Success(PagedPermissions(items, |listed|, PageOf(q), PageSizeOf(q)))
  }

  /** The permissions on a page are stored, pass the `WHERE` clause, and are ordered by
      the sort column in the chosen direction. */
  lemma FindAllPagedRows(permissions: seq<Permission>, filters: Option<ListQuery>)
    requires PagingOk(QueryOrEmpty(filters))
    ensures var q := QueryOrEmpty(filters);
      var value := ColumnValue(SortColumn(q.sortBy));
      var listed := Where(permissions, (p: Permission) => Listed(p, q));
      var rows := Page(listed, value, q.sortOrder.GetOr(Desc), Offset(PageOf(q), PageSizeOf(q)), PageSizeOf(q));
      && FindAllPaged(permissions, filters, false).value.items == seq(|rows|, i requires 0 <= i < |rows| => ToResponseDto(rows[i]))
      && (forall i :: 0 <= i < |rows| ==> rows[i] in permissions && Listed(rows[i], q))
      && (forall i, j :: 0 <= i < j < |rows| ==> Precedes(value(rows[i]), value(rows[j]), q.sortOrder.GetOr(Desc)))
  {
  }

  // ----- writes -----

  /** The row `save` stores for `create(data)`: name, description and module id as sent
      (an absent description stored as null). */
  function NewPermission(id: int, data: PermissionCreateDto, now: Date): (p: Permission)
    ensures p.id == id && p.name == data.name && p.moduleId == data.moduleId
    ensures p.description == if data.description.Some? then data.description.value else Null
    ensures p.createdAt == now && p.updatedAt == now && p.deletedAt.Null?
  {
    Permission(id, data.name, data.description.GetOr(Null), data.moduleId, now, now, Null)
  }

  /** Unlike the mapper's `toEntity`, `create` keeps the module id; the two agree on name
      and description. */
  lemma CreateKeepsWhatToEntityDrops(id: int, data: PermissionCreateDto, now: Date)
    ensures ToEntity(data).moduleId.None? && NewPermission(id, data, now).moduleId == data.moduleId
    ensures ToEntity(data).name == Some(NewPermission(id, data, now).name)
    ensures data.description.Some? ==> ToEntity(data).description == Some(NewPermission(id, data, now).description)
  {
  }

  /** `Object.assign(permission, data)` and `save`: the given fields replace the stored
      ones. */
  function Merge(p: Permission, data: PermissionUpdateDto, now: Date): (r: Permission)
    ensures r.id == p.id && r.createdAt == p.createdAt && r.deletedAt == p.deletedAt && r.updatedAt == now
    ensures r.name == if data.name.Some? then data.name.value else p.name
    ensures r.description == if data.description.Some? then data.description.value else p.description
    ensures r.moduleId == if data.moduleId.Some? then data.moduleId.value else p.moduleId
  {
    p.(name := data.name.GetOr(p.name), description := data.description.GetOr(p.description),
       moduleId := data.moduleId.GetOr(p.moduleId), updatedAt := now)
  }

  /** Merging the same request twice changes nothing more, and an empty request only
      touches `updatedAt`. */
  lemma MergeIdempotent(p: Permission, data: PermissionUpdateDto, now: Date)
    ensures Merge(Merge(p, data, now), data, now) == Merge(p, data, now)
    ensures Merge(p, PermissionUpdateDto(None, None, None), now) == p.(updatedAt := now)
  {
  }

  /** `delete(id)`: every row with this id is gone, deleted or not. */
  function Delete(permissions: seq<Permission>, id: int): (r: seq<Permission>)
    ensures forall p :: p in r <==> p in permissions && p.id != id
    ensures FindIndex(r, PermissionId, id).None?
  {
    Where(permissions, (p: Permission) => p.id != id)
  }

  /** Deleting an id that is not stored changes nothing. */
  lemma {:induction false} DeleteAbsent(permissions: seq<Permission>, id: int)
    requires FindIndex(permissions, PermissionId, id).None?
    ensures Delete(permissions, id) == permissions
  {
    if permissions != [] {
      assert FindIndex(permissions[1..], PermissionId, id).None?;
      DeleteAbsent(permissions[1..], id);
    }
  }

  // ----- the store -----

  /** Every stored id lies in [1, nextId). */
  predicate IdsBelow(permissions: seq<Permission>, nextId: int) {
    forall i :: 0 <= i < |permissions| ==> 1 <= permissions[i].id < nextId
  }

  /** Every permission names a stored module (the foreign key). */
  predicate ModulesResolve(permissions: seq<Permission>, modules: seq<Module>) {
    Keys(permissions, PermissionModule) <= Keys(modules, ModuleId)
  }

  /** A write that would leave a permission naming no stored module breaks the foreign
      key, and so fails like a storage failure. */
  predicate ModuleMissing(modules: seq<Module>, moduleId: int) {
    moduleId !in Keys(modules, ModuleId)
  }

  /** The `permissions` table, its rows in id order; `modules` is read, never written,
      here. */
  class PermissionStore {
    var permissions: seq<Permission>
    const modules: seq<Module>
    var nextId: int

    ghost predicate Valid()
      reads this
    {
      && nextId >= 1
      && IdsIncreasing(permissions, PermissionId)
      && IdsBelow(permissions, nextId)
      && ModulesResolve(permissions, modules)
    }

    constructor (modules: seq<Module>)
      ensures Valid() && permissions == [] && this.modules == modules
    {
      this.modules := modules;
      permissions := [];
      nextId := 1;
    }

    /** `create`: the row is saved as sent and returned as saved. */
    method Create(data: PermissionCreateDto, now: Date, outage: bool) returns (r: Result<Permission, HttpError>)
      requires Valid()
      modifies this
      ensures Valid()
      ensures r.Failure? <==> outage || ModuleMissing(modules, data.moduleId)
      ensures r.Failure? ==> unchanged(this)
      ensures r.Failure? ==> r.error == InternalServerError(UnhandledMessage)
      ensures r.Success? ==>
        && permissions == old(permissions) + [NewPermission(old(nextId), data, now)]
        && nextId == old(nextId) + 1
        && r.value == NewPermission(old(nextId), data, now)
    {
      if outage || ModuleMissing(modules, data.moduleId) {
        return Failure(InternalServerError(UnhandledMessage));
      }
      var created := NewPermission(nextId, data, now);
      IdsIncreasingAppend(permissions, created, PermissionId);
      KeysAppend(permissions, created, PermissionModule);
      permissions := permissions + [created];
      nextId := nextId + 1;
      r := Success(created);
    }

    /** `update`: `findOneOrFail` on the live row (its failure is not an HTTP error), the
        merge, and the row returned as saved. */
    method Update(id: int, data: PermissionUpdateDto, now: Date, outage: bool) returns (r: Result<Permission, HttpError>)
      requires Valid()
      modifies this
      ensures Valid()
      ensures r.Failure? <==> (outage || LiveIndex(old(permissions), id).None?
        || ModuleMissing(modules, Merge(old(permissions)[LiveIndex(old(permissions), id).value], data, now).moduleId))
      ensures r.Failure? ==> unchanged(this)
      ensures r.Failure? ==> r.error == InternalServerError(UnhandledMessage)
      ensures r.Success? ==>
        var k := LiveIndex(old(permissions), id).value;
        && permissions == old(permissions)[k := Merge(old(permissions)[k], data, now)]
        && nextId == old(nextId)
        && r.value == Merge(old(permissions)[k], data, now)
    {
      var found := LiveIndex(permissions, id);
      if outage || found.None? {
        return Failure(InternalServerError(UnhandledMessage));
      }
      var k := found.value;
      var merged := Merge(permissions[k], data, now);
      if ModuleMissing(modules, merged.moduleId) {
        return Failure(InternalServerError(UnhandledMessage));
      }
      IdsIncreasingUpdate(permissions, k, merged, PermissionId);
      assert ModulesResolve(permissions[k := merged], modules) by {
        var ps := permissions[k := merged];
        forall key | key in Keys(ps, PermissionModule)
          ensures key in Keys(modules, ModuleId)
        {
          var i :| 0 <= i < |ps| && PermissionModule(ps[i]) == key;
          if i != k {
            assert PermissionModule(permissions[i]) in Keys(permissions, PermissionModule);
          }
        }
      }
      permissions := permissions[k := merged];
      r := Success(merged);
    }

    /** `remove`: the row with this id is deleted for good, whether it was live, already
        soft-deleted or never there. */
    method Remove(id: int, outage: bool) returns (r: Result<Deleted, HttpError>)
      requires Valid()
      modifies this
      ensures Valid()
      ensures r.Failure? <==> outage
      ensures r.Failure? ==> unchanged(this) && r.error == InternalServerError(UnhandledMessage)
      ensures r.Success? ==> permissions == Delete(old(permissions), id) && nextId == old(nextId) && r.value == Deleted(true)
    {
      if outage {
        return Failure(InternalServerError(UnhandledMessage));
      }
      var kept := Delete(permissions, id);
      WhereIdsIncreasing(permissions, (p: Permission) => p.id != id, PermissionId);
      KeysWhere(permissions, (p: Permission) => p.id != id, PermissionModule);
      assert IdsBelow(kept, nextId) by {
        forall i | 0 <= i < |kept|
          ensures 1 <= kept[i].id < nextId
        {
          assert kept[i] in permissions;
        }
      }
      permissions := kept;
      r := Success(Deleted(true));
    }
  }
}

/** The module store: modules listed page by page, read by id, created under a name no live
    module holds, renamed or re-described, soft-deleted and restored. Every operation runs
    inside one `try` whose `catch` lets through the HTTP errors it names and turns every
    other failure into an InternalServerError with the operation's own message. */
module ModuleService {
  import opened Common
  import opened Text
  import opened Calendar
  import opened Listing
  import opened Entities
  import opened ModuleMapper
  import opened Filters
  import FiltersModuleDto

  const InvalidIdMessage: string := "El ID debe ser un n\U{fa}mero v\U{e1}lido"
  const ModuleNotFoundMessage: string := "M\U{f3}dulo no encontrado"
  const NameTakenMessage: string := "Ya existe un m\U{f3}dulo con este nombre"
  const NotDeletedMessage: string := "El m\U{f3}dulo no est\U{e1} eliminado"
  const ListFailedMessage: string := "Error al obtener los m\U{f3}dulos"
  const FindFailedMessage: string := "Error al obtener el m\U{f3}dulo"
  const CreateFailedMessage: string := "Error al crear el m\U{f3}dulo"
  const UpdateFailedMessage: string := "Error al actualizar el m\U{f3}dulo"
  const RemoveFailedMessage: string := "Error al eliminar el m\U{f3}dulo"
  const RestoreFailedMessage: string := "Error al restaurar el m\U{f3}dulo"

  /** A JavaScript number as the service receives an id: NaN, or an integer. */
  datatype JsNumber = NaN | Num(value: int)

  /** `!id || isNaN(id)`: NaN and zero are refused. */
  predicate IdRejected(id: JsNumber) {
    id.NaN? || id.value == 0
  }

  /** A module update request: each field absent (`None`) or given. */
  datatype ModuleUpdateDto = ModuleUpdateDto(name: Option<string>, description: Option<Nullable<string>>)

  /** The service's own `toResponseDto` (`module.description ?? undefined`). */
  function ServiceResponse(m: Module): (r: ModuleResponse)
    ensures r.id == m.id && r.name == m.name && r.createdAt == m.createdAt && r.updatedAt == m.updatedAt
    ensures r.description.None? <==> m.description.Null?
    ensures r.description.Some? ==> r.description.value == m.description
  {
    ModuleResponse(m.id, m.name, if m.description.Null? then None else Some(m.description), m.createdAt, m.updatedAt)
  }

  /** The two projections of a module agree except on a null description, which the
      mapper answers as null and the service leaves out. */
  lemma ProjectionsDifferOnlyOnNull(m: Module)
    ensures ServiceResponse(m) == ToResponseDto(m) <==> m.description.NonNull?
    ensures ServiceResponse(m).(description := Some(m.description)) == ToResponseDto(m)
  {
  }

  // ----- lookups -----

  /** `findOne({ where: { id, deletedAt: IsNull() } })`: the position of the live module. */
  function LiveIndex(modules: seq<Module>, id: int): (r: Option<nat>)
    ensures r.Some? ==> r.value < |modules| && modules[r.value].id == id && modules[r.value].deletedAt.Null?
    ensures r.Some? <==> FindIndex(modules, ModuleId, id).Some? && modules[FindIndex(modules, ModuleId, id).value].deletedAt.Null?
  {
    var k := FindIndex(modules, ModuleId, id);
    if k.Some? && modules[k.value].deletedAt.Null? then k else None
  }

  /** `findOne({ where: { name } })`: a live module carries this name. */
  predicate NameInUse(modules: seq<Module>, name: string) {
    exists i | 0 <= i < |modules| :: modules[i].name == name && modules[i].deletedAt.Null?
  }

  /** No two live modules share a name. */
  predicate LiveNamesUnique(modules: seq<Module>) {
    forall i, j :: 0 <= i < j < |modules| && modules[i].deletedAt.Null? && modules[j].deletedAt.Null? ==>
      modules[i].name != modules[j].name
  }

  // ----- findOne -----

  /** `findOne`: the id check, the live lookup, the mapper's projection; only BadRequest
      and NotFound pass the `catch`. */
  function FindOne(modules: seq<Module>, id: JsNumber, outage: bool): (r: Result<ModuleResponse, HttpError>)
    ensures IdRejected(id) ==> r == Failure(BadRequest(InvalidIdMessage))
    ensures !IdRejected(id) && outage ==> r == Failure(InternalServerError(FindFailedMessage))
    ensures !IdRejected(id) && !outage ==>
      (r.Failure? <==> LiveIndex(modules, id.value).None?)
    ensures r.Failure? && !IdRejected(id) && !outage ==> r.error == NotFound(ModuleNotFoundMessage)
    ensures r.Success? ==>
      && !IdRejected(id) && !outage && LiveIndex(modules, id.value).Some?
      && r.value == ToResponseDto(modules[LiveIndex(modules, id.value).value])
  {
    var outcome: Result<Module, Thrown> :=
      if IdRejected(id) then Failure(Http(BadRequest(InvalidIdMessage)))
      else if outage then Failure(StorageFailure)
      else match LiveIndex(modules, id.value)
        case None => Failure(Http(NotFound(ModuleNotFoundMessage)))
        case Some(k) => Success(modules[k]);
    match outcome
    case Success(m) => Success(ToResponseDto(m))
    case Failure(t) => Failure(Rethrow(t, {BadRequestKind, NotFoundKind}, FindFailedMessage))
  }

  /** A soft-deleted module is not found, although its row is still stored. */
  lemma FindOneHidesDeleted(modules: seq<Module>, k: nat, outage: bool)
    requires IdsIncreasing(modules, ModuleId)
    requires k < |modules| && modules[k].deletedAt.NonNull? && modules[k].id != 0
    ensures FindOne(modules, Num(modules[k].id), outage).Failure?
  {
    FindIndexUnique(modules, ModuleId, modules[k].id, k);
  }

  // ----- findAllPaged -----

  /** The columns `SORT_MAP` names. */
  datatype ModuleColumn = CreatedAtColumn | NameColumn | DescriptionColumn | UpdatedAtColumn | DeletedAtColumn

  /** `SORT_MAP`: the snake-case keys of the sortable columns. */
  function SortMap(key: string): (c: Option<ModuleColumn>)
    ensures c.Some? <==> key in {"created_at", "name", "description", "updated_at", "deleted_at"}
    ensures key == "created_at" ==> c == Some(CreatedAtColumn)
  {
    if key == "created_at" then Some(CreatedAtColumn)
    else if key == "name" then Some(NameColumn)
    else if key == "description" then Some(DescriptionColumn)
    else if key == "updated_at" then Some(UpdatedAtColumn)
    else if key == "deleted_at" then Some(DeletedAtColumn)
    else None
  }

  /** `SORT_MAP[sortBy ?? 'created_at'] ?? 'module.createdAt'`. */
  function SortColumn(sortBy: Option<string>): (c: ModuleColumn)
    ensures sortBy.None? ==> c == CreatedAtColumn
    ensures sortBy.Some? && SortMap(sortBy.value).Some? ==> c == SortMap(sortBy.value).value
    ensures sortBy.Some? && SortMap(sortBy.value).None? ==> c == CreatedAtColumn
  {
    SortMap(sortBy.GetOr("created_at")).GetOr(CreatedAtColumn)
  }

  /** Every sort key the listing query accepts names a column of `SORT_MAP`, so for a
      validated query the fallback is never taken. */
  lemma AcceptedSortKeysAreMapped(key: string)
    requires key in FiltersModuleDto.SortKeys
    ensures SortMap(key).Some?
  {
  }

  function ColumnValue(c: ModuleColumn): Module -> SortValue {
    match c
    case CreatedAtColumn => (m: Module) => Time(Instant(m.createdAt))
    case NameColumn => (m: Module) => Text(m.name)
    case DescriptionColumn => (m: Module) => NullableText(m.description)
    case UpdatedAtColumn => (m: Module) => Time(Instant(m.updatedAt))
    case DeletedAtColumn => (m: Module) => NullableTime(m.deletedAt)
  }

  /** The `WHERE` clause as the query builder assembles it:
      `deletedAt IS NULL` unless `withDeleted` is truthy, then `AND` the unparenthesised
      search `name ILIKE :q OR description ILIKE :q` when `q` is a non-empty string. SQL
      binds `AND` tighter than `OR`, so a description match needs no live row. */
  predicate Listed(m: Module, q: ListQuery) {
    var visible := TruthyFlag(q.withDeleted) || m.deletedAt.Null?;
    if TruthyText(q.q) then
      (visible && ILike(m.name, q.q.value)) || (m.description.NonNull? && ILike(m.description.value, q.q.value))
    else visible
  }

  /** Without a search, soft-deleted modules are listed only when asked for. */
  lemma UnsearchedListingHidesDeleted(m: Module, q: ListQuery)
    requires !TruthyText(q.q)
    ensures Listed(m, q) <==> TruthyFlag(q.withDeleted) || m.deletedAt.Null?
  {
  }

  /** With a search, a soft-deleted module whose description matches is listed even when
      deleted rows were not asked for; one that matches by name alone is not. */
  lemma SearchPrecedence(m: Module, q: ListQuery)
    requires TruthyText(q.q) && !TruthyFlag(q.withDeleted) && m.deletedAt.NonNull?
    ensures Listed(m, q) <==> m.description.NonNull? && ILike(m.description.value, q.q.value)
  {
  }

  datatype PagedModules = PagedModules(items: seq<ModuleResponse>, total: int, page: int, pageSize: int)

  /** `findAllPaged`: the listed modules ordered by the chosen column (default creation
      time, descending), page `page` of `pageSize` rows through the mapper; any failure of
      the query becomes one InternalServerError. */
  function FindAllPaged(modules: seq<Module>, filters: Option<ListQuery>, outage: bool): (r: Result<PagedModules, HttpError>)
    requires PagingOk(QueryOrEmpty(filters))
    ensures r.Failure? <==> outage
    ensures r.Failure? ==> r.error == InternalServerError(ListFailedMessage)
    ensures r.Success? ==>
      var q := QueryOrEmpty(filters);
      && r.value.page == PageOf(q) && r.value.pageSize == PageSizeOf(q)
      && r.value.total == |Where(modules, (m: Module) => Listed(m, q))|
      && |r.value.items| <= r.value.pageSize
      && (|r.value.items| == 0 <==> Offset(r.value.page, r.value.pageSize) >= r.value.total)
  {
    if outage then Failure(InternalServerError(ListFailedMessage))
    else
      var q := QueryOrEmpty(filters);
      var listed := Where(modules, (m: Module) => Listed(m, q));
      var rows := Page(listed, ColumnValue(SortColumn(q.sortBy)), q.sortOrder.GetOr(Desc), Offset(PageOf(q), PageSizeOf(q)), PageSizeOf(q));
      var items := seq(|rows|, i requires 0 <= i < |rows| => ToResponseDto(rows[i]));
      Success(PagedModules(items, |listed|, PageOf(q), PageSizeOf(q)))
  }

  /** The modules on a page are stored, pass the `WHERE` clause, and are ordered by the
      sort column in the chosen direction. */
  lemma FindAllPagedRows(modules: seq<Module>, filters: Option<ListQuery>)
    requires PagingOk(QueryOrEmpty(filters))
    ensures var q := QueryOrEmpty(filters);
      var value := ColumnValue(SortColumn(q.sortBy));
      var listed := Where(modules, (m: Module) => Listed(m, q));
      var rows := Page(listed, value, q.sortOrder.GetOr(Desc), Offset(PageOf(q), PageSizeOf(q)), PageSizeOf(q));
      && FindAllPaged(modules, filters, false).value.items == seq(|rows|, i requires 0 <= i < |rows| => ToResponseDto(rows[i]))
      && (forall i :: 0 <= i < |rows| ==> rows[i] in modules && Listed(rows[i], q))
      && (forall i, j :: 0 <= i < j < |rows| ==> Precedes(value(rows[i]), value(rows[j]), q.sortOrder.GetOr(Desc)))
  {
  }

  // ----- create -----

  /** What the `try` of `create` throws before writing: a failing lookup, or Conflict when
      a live module already has the name. */
  function CreateThrown(modules: seq<Module>, data: ModuleCreateDto, outage: bool): (t: Option<Thrown>)
    ensures t.None? <==> !outage && !NameInUse(modules, data.name)
    ensures outage ==> t == Some(StorageFailure)
    ensures !outage && NameInUse(modules, data.name) ==> t == Some(Http(Conflict(NameTakenMessage)))
  {
    if outage then Some(StorageFailure)
    else if NameInUse(modules, data.name) then Some(Http(Conflict(NameTakenMessage)))
    else None
  }

  /** The row `save` stores for `create(data)`: an absent description is stored as null. */
  function NewModule(id: int, data: ModuleCreateDto, now: Date): (m: Module)
    ensures m.id == id && m.name == data.name && m.deletedAt.Null?
    ensures m.description == if data.description.Some? then data.description.value else Null
    ensures m.createdAt == now && m.updatedAt == now
  {
    Module(id, data.name, data.description.GetOr(Null), now, now, Null)
  }

  /** The answer to `create` is built from the in-memory entity, which holds the request's
      description; it coincides with the projection of the stored row. */
  lemma CreatedResponse(id: int, data: ModuleCreateDto, now: Date)
    ensures ServiceResponse(NewModule(id, data, now)).description ==
      if data.description.Some? && data.description.value.NonNull? then Some(data.description.value) else None
  {
  }

  /** A create that passes its check keeps live names unique. */
  lemma CreateKeepsNamesUnique(modules: seq<Module>, data: ModuleCreateDto, id: int, now: Date, outage: bool)
    requires LiveNamesUnique(modules) && CreateThrown(modules, data, outage).None?
    ensures LiveNamesUnique(modules + [NewModule(id, data, now)])
  {
    var ms := modules + [NewModule(id, data, now)];
    forall i, j | 0 <= i < j < |ms| && ms[i].deletedAt.Null? && ms[j].deletedAt.Null?
      ensures ms[i].name != ms[j].name
    {
      if j == |modules| {
        assert ms[i] == modules[i];
      }
    }
  }

  // ----- update -----

  /** `data.name && data.name !== module.name` and a live module already carries it. */
  predicate RenameRefused(modules: seq<Module>, current: Module, data: ModuleUpdateDto) {
    data.name.Some? && data.name.value != "" && data.name.value != current.name && NameInUse(modules, data.name.value)
  }

  /** What the `try` of `update` throws before writing. */
  function UpdateThrown(modules: seq<Module>, id: JsNumber, data: ModuleUpdateDto, outage: bool): (t: Option<Thrown>)
    ensures IdRejected(id) ==> t == Some(Http(BadRequest(InvalidIdMessage)))
    ensures !IdRejected(id) && outage ==> t == Some(StorageFailure)
    ensures !IdRejected(id) && !outage && LiveIndex(modules, id.value).None? ==> t == Some(Http(NotFound(ModuleNotFoundMessage)))
    ensures t.None? <==> (!IdRejected(id) && !outage && LiveIndex(modules, id.value).Some?
      && !RenameRefused(modules, modules[LiveIndex(modules, id.value).value], data))
    ensures t == Some(Http(Conflict(NameTakenMessage))) <==> (!IdRejected(id) && !outage && LiveIndex(modules, id.value).Some?
      && RenameRefused(modules, modules[LiveIndex(modules, id.value).value], data))
  {
    if IdRejected(id) then Some(Http(BadRequest(InvalidIdMessage)))
    else if outage then Some(StorageFailure)
    else match LiveIndex(modules, id.value)
      case None => Some(Http(NotFound(ModuleNotFoundMessage)))
      case Some(k) =>
        if RenameRefused(modules, modules[k], data) then Some(Http(Conflict(NameTakenMessage))) else None
  }

  /** `Object.assign(module, data)` and `save`: the given fields replace the stored ones. */
  function Merge(m: Module, data: ModuleUpdateDto, now: Date): (r: Module)
    ensures r.id == m.id && r.createdAt == m.createdAt && r.deletedAt == m.deletedAt && r.updatedAt == now
    ensures r.name == if data.name.Some? then data.name.value else m.name
    ensures r.description == if data.description.Some? then data.description.value else m.description
  {
    m.(name := data.name.GetOr(m.name), description := data.description.GetOr(m.description), updatedAt := now)
  }

  /** Merging the same request twice changes nothing more, and an empty request only
      touches `updatedAt`. */
  lemma MergeIdempotent(m: Module, data: ModuleUpdateDto, now: Date)
    ensures Merge(Merge(m, data, now), data, now) == Merge(m, data, now)
    ensures Merge(m, ModuleUpdateDto(None, None), now) == m.(updatedAt := now)
  {
  }

  /** An empty name is assigned without the uniqueness check: the update is never refused
      for it. */
  lemma EmptyNameSkipsCheck(modules: seq<Module>, id: JsNumber, description: Option<Nullable<string>>, outage: bool)
    ensures UpdateThrown(modules, id, ModuleUpdateDto(Some(""), description), outage) != Some(Http(Conflict(NameTakenMessage)))
  {
  }

  /** An update that passes its checks and does not send an empty name keeps live names
      unique. */
  lemma UpdateKeepsNamesUnique(modules: seq<Module>, id: JsNumber, data: ModuleUpdateDto, now: Date, outage: bool)
    requires LiveNamesUnique(modules) && UpdateThrown(modules, id, data, outage).None?
    requires data.name != Some("")
    ensures var k := LiveIndex(modules, id.value).value;
      LiveNamesUnique(modules[k := Merge(modules[k], data, now)])
  {
    var k := LiveIndex(modules, id.value).value;
    var ms := modules[k := Merge(modules[k], data, now)];
    forall i, j | 0 <= i < j < |ms| && ms[i].deletedAt.Null? && ms[j].deletedAt.Null?
      ensures ms[i].name != ms[j].name
    {
      if (i == k || j == k) && ms[k].name != modules[k].name {
        var other := if i == k then j else i;
        assert ms[other] == modules[other];
      }
    }
  }

  // ----- remove and restore -----

  /** What the `try` of `remove` throws before writing. */
  function RemoveThrown(modules: seq<Module>, id: JsNumber, outage: bool): (t: Option<Thrown>)
    ensures IdRejected(id) ==> t == Some(Http(BadRequest(InvalidIdMessage)))
    ensures !IdRejected(id) && outage ==> t == Some(StorageFailure)
    ensures t.None? <==> !IdRejected(id) && !outage && LiveIndex(modules, id.value).Some?
    ensures !IdRejected(id) && !outage && t.Some? ==> t == Some(Http(NotFound(ModuleNotFoundMessage)))
  {
    if IdRejected(id) then Some(Http(BadRequest(InvalidIdMessage)))
    else if outage then Some(StorageFailure)
    else if LiveIndex(modules, id.value).None? then Some(Http(NotFound(ModuleNotFoundMessage)))
    else None
  }

  /** `softDelete(id)`: the row stays, stamped with its deletion time. */
  function SoftDeleted(m: Module, now: Date): (r: Module)
    ensures r.deletedAt == NonNull(now) && r.updatedAt == now
    ensures r.(deletedAt := m.deletedAt, updatedAt := m.updatedAt) == m
  {
    m.(deletedAt := NonNull(now), updatedAt := now)
  }

  /** What the `try` of `restore` throws before writing: the lookup counts deleted rows,
      and a row that is not deleted is refused. */
  function RestoreThrown(modules: seq<Module>, id: JsNumber, outage: bool): (t: Option<Thrown>)
    ensures IdRejected(id) ==> t == Some(Http(BadRequest(InvalidIdMessage)))
    ensures !IdRejected(id) && outage ==> t == Some(StorageFailure)
    ensures !IdRejected(id) && !outage && FindIndex(modules, ModuleId, id.value).None? ==> t == Some(Http(NotFound(ModuleNotFoundMessage)))
    ensures t.None? <==> (!IdRejected(id) && !outage && FindIndex(modules, ModuleId, id.value).Some?
      && modules[FindIndex(modules, ModuleId, id.value).value].deletedAt.NonNull?)
    ensures !IdRejected(id) && !outage && LiveIndex(modules, id.value).Some? ==> t == Some(Http(BadRequest(NotDeletedMessage)))
  {
    if IdRejected(id) then Some(Http(BadRequest(InvalidIdMessage)))
    else if outage then Some(StorageFailure)
    else match FindIndex(modules, ModuleId, id.value)
      case None => Some(Http(NotFound(ModuleNotFoundMessage)))
      case Some(k) => if modules[k].deletedAt.Null? then Some(Http(BadRequest(NotDeletedMessage))) else None
  }

  /** `restore(id)`: the deletion time is cleared. */
  function Restored(m: Module, now: Date): (r: Module)
    ensures r.deletedAt.Null? && r.updatedAt == now
    ensures r.(deletedAt := m.deletedAt, updatedAt := m.updatedAt) == m
  {
    m.(deletedAt := Null, updatedAt := now)
  }

  /** Removing and then restoring a live module gives it back, apart from `updatedAt`. */
  lemma RemoveRestoreRoundTrip(m: Module, removedAt: Date, restoredAt: Date)
    requires m.deletedAt.Null?
    ensures Restored(SoftDeleted(m, removedAt), restoredAt) == m.(updatedAt := restoredAt)
  {
  }

  /** A module just removed can be restored: its restore passes every check. */
  lemma RemovedCanBeRestored(modules: seq<Module>, id: JsNumber, now: Date)
    requires IdsIncreasing(modules, ModuleId)
    requires RemoveThrown(modules, id, false).None?
    ensures var k := LiveIndex(modules, id.value).value;
      RestoreThrown(modules[k := SoftDeleted(modules[k], now)], id, false).None?
  {
    var k := LiveIndex(modules, id.value).value;
    FindIndexUpdate(modules, k, SoftDeleted(modules[k], now), ModuleId, id.value);
  }

  /** Restore does not re-check the name: restoring a module whose name a live module took
      meanwhile leaves two live modules with one name. */
  lemma RestoreMayDuplicateName(a: Module, b: Module, now: Date)
    requires a.id < b.id && a.name == b.name
    requires a.deletedAt.NonNull? && b.deletedAt.Null?
    ensures LiveNamesUnique([a, b])
    ensures !LiveNamesUnique([Restored(a, now), b])
  {
    assert [Restored(a, now), b][0].name == [Restored(a, now), b][1].name;
  }

  // ----- the store -----

  /** Every stored id lies in [1, nextId). */
  predicate IdsBelow(modules: seq<Module>, nextId: int) {
    forall i :: 0 <= i < |modules| ==> 1 <= modules[i].id < nextId
  }

  /** The `modules` table, its rows in id order. */
  class ModuleStore {
    var modules: seq<Module>
    var nextId: int

    ghost predicate Valid()
      reads this
    {
      nextId >= 1 && IdsIncreasing(modules, ModuleId) && IdsBelow(modules, nextId)
    }

    constructor ()
      ensures Valid() && modules == []
    {
      modules := [];
      nextId := 1;
    }

    /** `create`: the name check, the new row, the answer built from the saved entity. */
    method Create(data: ModuleCreateDto, now: Date, outage: bool) returns (r: Result<ModuleResponse, HttpError>)
      requires Valid()
      modifies this
      ensures Valid()
      ensures r.Failure? <==> outage || NameInUse(old(modules), data.name)
      ensures r.Failure? ==> unchanged(this)
      ensures r.Failure? ==> r.error == (if outage then InternalServerError(CreateFailedMessage) else Conflict(NameTakenMessage))
      ensures r.Success? ==>
        && modules == old(modules) + [NewModule(old(nextId), data, now)]
        && nextId == old(nextId) + 1
        && r.value == ServiceResponse(NewModule(old(nextId), data, now))
    {
      var thrown := CreateThrown(modules, data, outage);
      if thrown.Some? {
        return Failure(Rethrow(thrown.value, {ConflictKind}, CreateFailedMessage));
      }
      var created := NewModule(nextId, data, now);
      IdsIncreasingAppend(modules, created, ModuleId);
      modules := modules + [created];
      nextId := nextId + 1;
      r := Success(ServiceResponse(created));
    }

    /** `update`: the id check, the live lookup, the name check when a new name is sent,
        the merge, the answer built from the merged entity. */
    method Update(id: JsNumber, data: ModuleUpdateDto, now: Date, outage: bool) returns (r: Result<ModuleResponse, HttpError>)
      requires Valid()
      modifies this
      ensures Valid()
      ensures r.Failure? <==> UpdateThrown(old(modules), id, data, outage).Some?
      ensures r.Failure? ==> unchanged(this)
      ensures r.Failure? ==> r.error == Rethrow(UpdateThrown(old(modules), id, data, outage).value, {BadRequestKind, NotFoundKind, ConflictKind}, UpdateFailedMessage)
      ensures r.Failure? && outage && !IdRejected(id) ==> r.error == InternalServerError(UpdateFailedMessage)
      ensures r.Success? ==>
        var k := LiveIndex(old(modules), id.value).value;
        && modules == old(modules)[k := Merge(old(modules)[k], data, now)]
        && nextId == old(nextId)
        && r.value == ServiceResponse(Merge(old(modules)[k], data, now))
    {
      var thrown := UpdateThrown(modules, id, data, outage);
      if thrown.Some? {
        return Failure(Rethrow(thrown.value, {BadRequestKind, NotFoundKind, ConflictKind}, UpdateFailedMessage));
      }
      var k := LiveIndex(modules, id.value).value;
      var merged := Merge(modules[k], data, now);
      IdsIncreasingUpdate(modules, k, merged, ModuleId);
      modules := modules[k := merged];
      r := Success(ServiceResponse(merged));
    }

    /** `remove`: the id check, the live lookup, the soft delete; the answer is built from
        the entity as it was loaded, with only its deletion time set in memory. */
    method Remove(id: JsNumber, now: Date, outage: bool) returns (r: Result<ModuleResponse, HttpError>)
      requires Valid()
      modifies this
      ensures Valid()
      ensures r.Failure? <==> RemoveThrown(old(modules), id, outage).Some?
      ensures r.Failure? ==> unchanged(this)
      ensures r.Failure? ==> r.error == Rethrow(RemoveThrown(old(modules), id, outage).value, {BadRequestKind, NotFoundKind}, RemoveFailedMessage)
      ensures r.Success? ==>
        var k := LiveIndex(old(modules), id.value).value;
        && modules == old(modules)[k := SoftDeleted(old(modules)[k], now)]
        && nextId == old(nextId)
        && r.value == ServiceResponse(old(modules)[k])
    {
      var thrown := RemoveThrown(modules, id, outage);
      if thrown.Some? {
        return Failure(Rethrow(thrown.value, {BadRequestKind, NotFoundKind}, RemoveFailedMessage));
      }
      var k := LiveIndex(modules, id.value).value;
      var loaded := modules[k];
      var deleted := SoftDeleted(loaded, now);
      IdsIncreasingUpdate(modules, k, deleted, ModuleId);
      modules := modules[k := deleted];
      var answered := loaded.(deletedAt := NonNull(now));
      r := Success(ServiceResponse(answered));
    }

    /** `restore`: the id check, the lookup counting deleted rows, the refusal of a row
        that is not deleted, the restore, and the row read back live. */
    method Restore(id: JsNumber, now: Date, outage: bool) returns (r: Result<ModuleResponse, HttpError>)
      requires Valid()
      modifies this
      ensures Valid()
      ensures r.Failure? <==> RestoreThrown(old(modules), id, outage).Some?
      ensures r.Failure? ==> unchanged(this)
      ensures r.Failure? ==> r.error == Rethrow(RestoreThrown(old(modules), id, outage).value, {BadRequestKind, NotFoundKind}, RestoreFailedMessage)
      ensures r.Success? ==>
        var k := FindIndex(old(modules), ModuleId, id.value).value;
        && modules == old(modules)[k := Restored(old(modules)[k], now)]
        && nextId == old(nextId)
        && LiveIndex(modules, id.value) == Some(k)
        && r.value == ServiceResponse(Restored(old(modules)[k], now))
    {
      var thrown := RestoreThrown(modules, id, outage);
      if thrown.Some? {
        return Failure(Rethrow(thrown.value, {BadRequestKind, NotFoundKind}, RestoreFailedMessage));
      }
      var k := FindIndex(modules, ModuleId, id.value).value;
      var restored := Restored(modules[k], now);
      IdsIncreasingUpdate(modules, k, restored, ModuleId);
      FindIndexUpdate(modules, k, restored, ModuleId, id.value);
      modules := modules[k := restored];
      var reloaded := LiveIndex(modules, id.value);
      r := Success(ServiceResponse(modules[reloaded.value]));
    }
  }
}

/** The permission mapper: a permission entity built from a creation request, and the
    outward projection of a stored permission. */
module PermissionMapper {
  import opened Common
  import opened Calendar
  import opened Entities

  /** A permission creation request: a name, an optional (possibly null) description and
      the id of the module the permission belongs to. */
  datatype PermissionCreateDto = PermissionCreateDto(name: string, description: Option<Nullable<string>>, moduleId: int)

  /** A `new Permission()` before it is saved: `None` is a column nothing has assigned. */
  datatype PermissionDraft = PermissionDraft(
    id: Option<int>,
    name: Option<string>,
    description: Option<Nullable<string>>,
    moduleId: Option<int>,
    createdAt: Option<Date>,
    updatedAt: Option<Date>,
    deletedAt: Option<Nullable<Date>>)

  /** The permission as the mapper answers it: no module id, no module, no deletion time. */
  datatype PermissionResponse = PermissionResponse(
    id: int,
    name: string,
    description: Nullable<string>,
    createdAt: Date,
    updatedAt: Date)

  /** `toEntity`: only the name and the description are assigned; the module id of the
      request is not copied. */
  function ToEntity(dto: PermissionCreateDto): (e: PermissionDraft)
    ensures e.name == Some(dto.name) && e.description == dto.description
    ensures e.moduleId.None?
    ensures e.id.None? && e.createdAt.None? && e.updatedAt.None? && e.deletedAt.None?
  {
    PermissionDraft(None, Some(dto.name), dto.description, None, None, None, None)
  }

  /** Two requests give the same entity exactly when they agree on name and description,
      whatever their module ids. */
  lemma ToEntitySeesNameAndDescription(a: PermissionCreateDto, b: PermissionCreateDto)
    ensures ToEntity(a) == ToEntity(b) <==> a.name == b.name && a.description == b.description
  {
  }

  /** `toResponseDto`: id, name, description and the two timestamps. */
  function ToResponseDto(e: Permission): (r: PermissionResponse)
    ensures r.id == e.id && r.name == e.name && r.description == e.description
    ensures r.createdAt == e.createdAt && r.updatedAt == e.updatedAt
  {
    PermissionResponse(e.id, e.name, e.description, e.createdAt, e.updatedAt)
  }

  /** The projection forgets the module id and the deletion time and nothing else. */
  lemma ResponseForgetsModuleAndDeletion(a: Permission, b: Permission)
    ensures ToResponseDto(a) == ToResponseDto(b) <==> a.(moduleId := b.moduleId, deletedAt := b.deletedAt) == b
  {
    if ToResponseDto(a) == ToResponseDto(b) {
      assert a.(moduleId := b.moduleId, deletedAt := b.deletedAt) == b;
    }
  }
}

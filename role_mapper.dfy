/** The role mapper: a role entity built from a creation request, and the outward
    projection of a stored role. */
module RoleMapper {
  import opened Common
  import opened Calendar
  import opened Entities

  /** A role creation request; `description` may be absent, null or text, and
      `permissions` lists the permission ids to grant. */
  datatype RoleCreateDto = RoleCreateDto(name: string, description: Option<Nullable<string>>, permissions: seq<int>)

  /** A `new Role()` before it is saved: `None` is a column nothing has assigned. */
  datatype RoleDraft = RoleDraft(
    id: Option<int>,
    name: Option<string>,
    description: Option<Nullable<string>>,
    isActive: Option<bool>,
    createdAt: Option<Date>,
    updatedAt: Option<Date>,
    deletedAt: Option<Nullable<Date>>)

  /** The role as it is answered: the columns of the row, its deletion time under the key
      `deleted_at`, and no `isActive`. */
  datatype RoleResponse = RoleResponse(
    id: int,
    name: string,
    description: Nullable<string>,
    createdAt: Date,
    updatedAt: Date,
    deleted_at: Nullable<Date>)

  /** `toEntity`: only the name and the description are assigned, as the request holds
      them; every other column is left for the storage layer. */
  function ToEntity(dto: RoleCreateDto): (e: RoleDraft)
    ensures e.name == Some(dto.name) && e.description == dto.description
    ensures e.id.None? && e.isActive.None? && e.createdAt.None? && e.updatedAt.None? && e.deletedAt.None?
  {
    RoleDraft(None, Some(dto.name), dto.description, None, None, None, None)
  }

  /** Two requests give the same entity exactly when they agree on name and description:
      the permission list is not used. */
  lemma ToEntitySeesNameAndDescription(a: RoleCreateDto, b: RoleCreateDto)
    ensures ToEntity(a) == ToEntity(b) <==> a.name == b.name && a.description == b.description
  {
  }

  /** `toResponseDto`: every column but `isActive`, the deletion time under `deleted_at`. */
  function ToResponseDto(e: Role): (r: RoleResponse)
    ensures r.id == e.id && r.name == e.name && r.description == e.description
    ensures r.createdAt == e.createdAt && r.updatedAt == e.updatedAt
    ensures r.deleted_at == e.deletedAt
  {
    RoleResponse(e.id, e.name, e.description, e.createdAt, e.updatedAt, e.deletedAt)
  }

  /** The projection forgets `isActive` and nothing else: two roles answer alike exactly
      when they differ at most in that column. */
  lemma ResponseForgetsOnlyIsActive(a: Role, b: Role)
    ensures ToResponseDto(a) == ToResponseDto(b) <==> a.(isActive := b.isActive) == b
  {
    if ToResponseDto(a) == ToResponseDto(b) {
      assert a.(isActive := b.isActive) == b;
    }
  }
}

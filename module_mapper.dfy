/** The module mapper: a module entity built from a creation request, and the outward
    projection of a stored module. */
module ModuleMapper {
  import opened Common
  import opened Calendar
  import opened Entities

  /** A module creation request: a name and an optional (possibly null) description. */
  datatype ModuleCreateDto = ModuleCreateDto(name: string, description: Option<Nullable<string>>)

  /** A `new Module()` before it is saved: `None` is a column nothing has assigned. */
  datatype ModuleDraft = ModuleDraft(
    id: Option<int>,
    name: Option<string>,
    description: Option<Nullable<string>>,
    createdAt: Option<Date>,
    updatedAt: Option<Date>,
    deletedAt: Option<Nullable<Date>>)

  /** The module as it is answered; `description` is absent (`None`), null or text. */
  datatype ModuleResponse = ModuleResponse(
    id: int,
    name: string,
    description: Option<Nullable<string>>,
    createdAt: Date,
    updatedAt: Date)

  /** `toEntity`: only the name and the description are assigned. */
  function ToEntity(dto: ModuleCreateDto): (e: ModuleDraft)
    ensures e.name == Some(dto.name) && e.description == dto.description
    ensures e.id.None? && e.createdAt.None? && e.updatedAt.None? && e.deletedAt.None?
  {
    ModuleDraft(None, Some(dto.name), dto.description, None, None, None)
  }

  /** The entity determines the request: different requests give different entities. */
  lemma ToEntityInjective(a: ModuleCreateDto, b: ModuleCreateDto)
    ensures ToEntity(a) == ToEntity(b) <==> a == b
  {
  }

  /** `toResponseDto`: id, name and timestamps copied, and the description passed through
      as stored, a null one included. */
  function ToResponseDto(e: Module): (r: ModuleResponse)
    ensures r.id == e.id && r.name == e.name && r.createdAt == e.createdAt && r.updatedAt == e.updatedAt
    ensures r.description == Some(e.description)
    ensures e.description.Null? ==> r.description == Some(Null)
  {
    ModuleResponse(e.id, e.name, Some(e.description), e.createdAt, e.updatedAt)
  }

  /** The projection forgets the deletion time and nothing else. */
  lemma ResponseForgetsOnlyDeletion(a: Module, b: Module)
    ensures ToResponseDto(a) == ToResponseDto(b) <==> a.(deletedAt := b.deletedAt) == b
  {
    if ToResponseDto(a) == ToResponseDto(b) {
      assert a.(deletedAt := b.deletedAt) == b;
    }
  }
}

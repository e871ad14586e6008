/** Validation of the module listing query: the common paging checks, a whitelist of sort
    keys, and `withDeleted` true only for `true` or `'true'`. */
module FiltersModuleDto {
  import opened Common
  import opened Listing
  import opened Filters

  /** The values `@IsIn` accepts for `sortBy`. */
  const SortKeys: set<string> := {"created_at", "name", "description", "updated_at"}

  predicate SortByOk(sortBy: Option<string>) {
    sortBy.None? || sortBy.value in SortKeys
  }

  function Validate(raw: RawFilters): (r: Result<ListQuery, seq<string>>)
    ensures r.Success? <==> PageOk(raw.page) && PageSizeOk(raw.pageSize) && SortByOk(raw.sortBy) && SortOrderOk(raw.sortOrder)
    ensures r.Failure? ==> r.error != []
    ensures r.Failure? ==> ("page" in r.error <==> !PageOk(raw.page))
    ensures r.Failure? ==> ("pageSize" in r.error <==> !PageSizeOk(raw.pageSize))
    ensures r.Failure? ==> ("sortBy" in r.error <==> !SortByOk(raw.sortBy))
    ensures r.Failure? ==> ("sortOrder" in r.error <==> !SortOrderOk(raw.sortOrder))
    ensures r.Success? ==> WellFormed(r.value) && (r.value.sortBy.None? || r.value.sortBy.value in SortKeys)
    ensures r.Success? ==> (TruthyFlag(r.value.withDeleted) <==> raw.withDeleted == Some(BoolFlag(true)) || raw.withDeleted == Some(TextFlag("true")))
    ensures r.Success? ==> r.value.page == Some(if raw.page.None? then DefaultPage else raw.page.value.value)
    ensures r.Success? ==> r.value.pageSize == Some(if raw.pageSize.None? then DefaultPageSize else raw.pageSize.value.value)
    ensures r.Success? ==> (r.value.sortOrder == Some(Asc) <==> raw.sortOrder == Some("ASC"))
    ensures r.Success? ==> (r.value.sortOrder == Some(Desc) <==> raw.sortOrder == Some("DESC"))
    ensures r.Success? ==> (r.value.sortOrder.None? <==> raw.sortOrder.None?)
    ensures r.Success? ==> r.value.withDeleted == (if raw.withDeleted.None? then None else Some(TransformFlag(raw.withDeleted.value)))
  {
    var errors := Failing(PageOk(raw.page), PageSizeOk(raw.pageSize), SortByOk(raw.sortBy), SortOrderOk(raw.sortOrder));
    if errors == [] then Success(Validated(raw, TransformFlag)) else Failure(errors)
  }

  /** `deleted_at`, a sort key the module service knows, is refused by the DTO. */
  lemma DeletedAtRefused(raw: RawFilters)
    ensures Validate(raw.(sortBy := Some("deleted_at"))).Failure?
  {
    assert "deleted_at" !in SortKeys;
  }
}

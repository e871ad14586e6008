/** Validation of the user listing query: page and page size ranges with class defaults,
    any string as sort key and search term, and `withDeleted` converted by `Boolean()`. */
module FiltersUserDto {
  import opened Common
  import opened Listing
  import opened Filters

  /** Every constraint of the DTO, in declaration order; `sortBy` and `q` accept any string. */
  function Validate(raw: RawFilters): (r: Result<ListQuery, seq<string>>)
    ensures r.Success? <==> PageOk(raw.page) && PageSizeOk(raw.pageSize) && SortOrderOk(raw.sortOrder)
    ensures r.Failure? ==> r.error != []
    ensures r.Failure? ==> "sortBy" !in r.error
    ensures r.Failure? ==> ("page" in r.error <==> !PageOk(raw.page))
    ensures r.Failure? ==> ("pageSize" in r.error <==> !PageSizeOk(raw.pageSize))
    ensures r.Failure? ==> ("sortOrder" in r.error <==> !SortOrderOk(raw.sortOrder))
    ensures r.Success? ==> WellFormed(r.value) && r.value.sortBy == raw.sortBy && r.value.q == raw.q
    ensures r.Success? ==> r.value.page == Some(if raw.page.None? then DefaultPage else raw.page.value.value)
    ensures r.Success? ==> r.value.pageSize == Some(if raw.pageSize.None? then DefaultPageSize else raw.pageSize.value.value)
    ensures r.Success? ==> (r.value.sortOrder == Some(Asc) <==> raw.sortOrder == Some("ASC"))
    ensures r.Success? ==> (r.value.sortOrder == Some(Desc) <==> raw.sortOrder == Some("DESC"))
    ensures r.Success? ==> (r.value.sortOrder.None? <==> raw.sortOrder.None?)
    ensures r.Success? ==> r.value.withDeleted == (if raw.withDeleted.None? then None else Some(BooleanOf(raw.withDeleted.value)))
  {
    var errors := Failing(PageOk(raw.page), PageSizeOk(raw.pageSize), true, SortOrderOk(raw.sortOrder));
    if errors == [] then Success(Validated(raw, BooleanOf)) else Failure(errors)
  }

  /** A page size is accepted exactly when it is an integer from 1 to 100, whatever the
      other fields hold. */
  lemma PageSizeRange(raw: RawFilters, n: int)
    requires PageOk(raw.page) && SortOrderOk(raw.sortOrder)
    ensures Validate(raw.(pageSize := Some(Integral(n)))).Success? <==> 1 <= n <= 100
  {
  }

  /** Without any query the listing asks for page 1 of 10 rows. */
  lemma EmptyQueryDefaults()
    ensures Validate(RawFilters(None, None, None, None, None, None))
      == Success(ListQuery(Some(1), Some(10), None, None, None, None))
  {
  }

  /** `Boolean()` makes every non-empty string true: `withDeleted=false` in a query string
      asks for the deleted users too; only an empty value is false. */
  lemma WithDeletedFalseTextIsTrue(raw: RawFilters)
    requires PageOk(raw.page) && PageSizeOk(raw.pageSize) && SortOrderOk(raw.sortOrder)
    ensures Validate(raw.(withDeleted := Some(TextFlag("false")))).value.withDeleted == Some(true)
    ensures Validate(raw.(withDeleted := Some(TextFlag("")))).value.withDeleted == Some(false)
  {
  }
}

/** What the three listing filter DTOs share: the raw query values as the validation pipe
    receives them, the checks common to all three, and the listing query the services
    read after validation. */
module Filters {
  import opened Common
  import opened Listing

  /** A numeric query value after `@Type(() => Number)`: an integer, or anything `IsInt`
      rejects (NaN, a fraction, an infinity). */
  datatype Numeric = Integral(value: int) | NotIntegral

  /** A raw `withDeleted` value before its transformation. */
  datatype RawFlag = BoolFlag(b: bool) | TextFlag(s: string)

  /** The query of a listing request before validation; `None` is an absent key. */
  datatype RawFilters = RawFilters(
    page: Option<Numeric>,
    pageSize: Option<Numeric>,
    sortBy: Option<string>,
    sortOrder: Option<string>,
    q: Option<string>,
    withDeleted: Option<RawFlag>)

  /** A listing query as a service reads it; `None` is an absent (undefined) field. */
  datatype ListQuery = ListQuery(
    page: Option<int>,
    pageSize: Option<int>,
    sortBy: Option<string>,
    sortOrder: Option<Order>,
    q: Option<string>,
    withDeleted: Option<bool>)

  const DefaultPage: int := 1
  const DefaultPageSize: int := 10
  const MaxPageSize: int := 100

  /** `@IsInt() @Min(1)` on a field whose class default is 1. */
  predicate PageOk(page: Option<Numeric>) {
    page.None? || (page.value.Integral? && page.value.value >= 1)
  }

  /** `@IsInt() @Min(1) @Max(100)` on a field whose class default is 10. */
  predicate PageSizeOk(pageSize: Option<Numeric>) {
    pageSize.None? || (pageSize.value.Integral? && 1 <= pageSize.value.value <= MaxPageSize)
  }

  /** `@IsOptional() @IsIn(['ASC', 'DESC'])`. */
  predicate SortOrderOk(sortOrder: Option<string>) {
    sortOrder.None? || sortOrder.value == "ASC" || sortOrder.value == "DESC"
  }

  /** The value of a validated numeric field, or its class default when absent. */
  function NumericOr(n: Option<Numeric>, default: int): (v: int)
    requires n.None? || n.value.Integral?
    ensures n.None? ==> v == default
    ensures n.Some? ==> v == n.value.value
  {
    if n.None? then default else n.value.value
  }

  function ParseOrder(s: string): (r: Option<Order>)
    ensures r == Some(Asc) <==> s == "ASC"
    ensures r == Some(Desc) <==> s == "DESC"
    ensures r.None? <==> s != "ASC" && s != "DESC"
  {
    if s == "ASC" then Some(Asc) else if s == "DESC" then Some(Desc) else None
  }

  /** `@Transform(({ value }) => value === true || value === 'true')`. */
  function TransformFlag(raw: RawFlag): (b: bool)
    ensures b <==> raw == BoolFlag(true) || raw == TextFlag("true")
  {
    match raw
    case BoolFlag(v) => v
    case TextFlag(s) => s == "true"
  }

  /** `@Type(() => Boolean)`: JavaScript's `Boolean(value)`, true for every non-empty string. */
  function BooleanOf(raw: RawFlag): (b: bool)
    ensures raw.TextFlag? ==> (b <==> raw.s != "")
    ensures raw.BoolFlag? ==> b == raw.b
  {
    match raw
    case BoolFlag(v) => v
    case TextFlag(s) => s != ""
  }

  /** The names of the fields whose checks fail, in declaration order. */
  function Failing(pageOk: bool, pageSizeOk: bool, sortByOk: bool, sortOrderOk: bool): (r: seq<string>)
    ensures "page" in r <==> !pageOk
    ensures "pageSize" in r <==> !pageSizeOk
    ensures "sortBy" in r <==> !sortByOk
    ensures "sortOrder" in r <==> !sortOrderOk
    ensures r == [] <==> pageOk && pageSizeOk && sortByOk && sortOrderOk
  {
    (if pageOk then [] else ["page"])
      + (if pageSizeOk then [] else ["pageSize"])
      + (if sortByOk then [] else ["sortBy"])
      + (if sortOrderOk then [] else ["sortOrder"])
  }

  /** A validated query: page and page size always present (from the class defaults) and
      in range, and a sort order, when present, parsed. */
  predicate WellFormed(q: ListQuery) {
    && q.page.Some? && q.page.value >= 1
    && q.pageSize.Some? && 1 <= q.pageSize.value <= MaxPageSize
  }

  /** The query the service reads once every check has passed; `flag` is the field's
      transformation of the raw `withDeleted`. */
  function Validated(raw: RawFilters, flag: RawFlag -> bool): (q: ListQuery)
    requires PageOk(raw.page) && PageSizeOk(raw.pageSize) && SortOrderOk(raw.sortOrder)
    ensures WellFormed(q)
    ensures raw.page.None? ==> q.page == Some(DefaultPage)
    ensures raw.pageSize.None? ==> q.pageSize == Some(DefaultPageSize)
    ensures q.sortBy == raw.sortBy && q.q == raw.q
    ensures raw.page.Some? ==> q.page == Some(raw.page.value.value)
    ensures raw.pageSize.Some? ==> q.pageSize == Some(raw.pageSize.value.value)
    ensures q.sortOrder.None? <==> raw.sortOrder.None?
    ensures q.sortOrder == Some(Asc) <==> raw.sortOrder == Some("ASC")
    ensures q.sortOrder == Some(Desc) <==> raw.sortOrder == Some("DESC")
    ensures q.withDeleted.None? <==> raw.withDeleted.None?
    ensures raw.withDeleted.Some? ==> q.withDeleted == Some(flag(raw.withDeleted.value))
  {
    ListQuery(
      Some(NumericOr(raw.page, DefaultPage)),
      Some(NumericOr(raw.pageSize, DefaultPageSize)),
      raw.sortBy,
      if raw.sortOrder.None? then None else ParseOrder(raw.sortOrder.value),
      raw.q,
      if raw.withDeleted.None? then None else Some(flag(raw.withDeleted.value)))
  }

  /** The paging the services read from a query: `page ?? 1` and `pageSize ?? 10`. */
  function PageOf(q: ListQuery): int { q.page.GetOr(DefaultPage) }
  function PageSizeOf(q: ListQuery): int { q.pageSize.GetOr(DefaultPageSize) }

  /** The services are called with pages counted from 1 and a positive page size. */
  predicate PagingOk(q: ListQuery) {
    PageOf(q) >= 1 && PageSizeOf(q) >= 1
  }

  /** Every validated query has usable paging. */
  lemma WellFormedPaging(q: ListQuery)
    requires WellFormed(q)
    ensures PagingOk(q)
  {
  }

  /** JavaScript truthiness of an optional string field (`if (q.q)`). */
  predicate TruthyText(s: Option<string>) {
    s.Some? && s.value != ""
  }

  /** JavaScript truthiness of an optional flag (`!q.withDeleted` is its negation). */
  predicate TruthyFlag(b: Option<bool>) {
    b == Some(true)
  }

  /** `filters || {}`: a service called without filters reads every field as absent. */
  function QueryOrEmpty(filters: Option<ListQuery>): (q: ListQuery)
    ensures filters.Some? ==> q == filters.value
    ensures filters.None? ==> q == ListQuery(None, None, None, None, None, None)
    ensures filters.None? ==> PagingOk(q)
  {
    if filters.Some? then filters.value else ListQuery(None, None, None, None, None, None)
  }
}

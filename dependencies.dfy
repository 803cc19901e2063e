/**
 * Pagination for list endpoints (backend/users-service/app/lib/dependencies.py):
 * a page number and a page size become a LIMIT/OFFSET filter.
 */
module Dependencies {

  /** advanced_alchemy's `LimitOffset(limit, offset)` filter. */
  datatype LimitOffset = LimitOffset(limit: int, offset: int)

  /** The query-parameter defaults, `limit=1` and `offset=20`. */
  const DefaultLimit := 1
  const DefaultOffset := 20

  const LimitOffsetDependencyKey := "limit_offset"

  /** `provide_limit_offset_filter(limit, offset)`: the framework enforces
      `ge=1` on both parameters before the call; `offset` is a page number. */
  function ProvideLimitOffsetFilter(limit: int, offset: int): (f: LimitOffset)
    requires limit >= 1 && offset >= 1
    ensures f.limit == limit
    ensures f.offset >= 0
    ensures offset == 1 <==> f.offset == 0
  {
    LimitOffset(limit, limit * (offset - 1))
  }

  /** Consecutive pages are adjacent and do not overlap: the next page starts
      exactly `limit` rows after this one. */
  lemma PagesAdjacent(limit: int, page: int)
    requires limit >= 1 && page >= 1
    ensures ProvideLimitOffsetFilter(limit, page + 1).offset
      == ProvideLimitOffsetFilter(limit, page).offset + limit
  {
  }

  /** The filter the defaults give: one row, starting at row 19. */
  lemma DefaultFilter()
    ensures ProvideLimitOffsetFilter(DefaultLimit, DefaultOffset) == LimitOffset(1, 19)
  {
  }

  /** `Provide(provide_limit_offset_filter, sync_to_thread=False)`. */
  datatype Provider = Provide(dependency: string, syncToThread: bool)

  /** `provide_dependencies()`: exactly one entry, keyed "limit_offset". */
  function ProvideDependencies(): (d: map<string, Provider>)
    ensures d.Keys == {LimitOffsetDependencyKey}
    ensures d[LimitOffsetDependencyKey] == Provide("provide_limit_offset_filter", false)
  {
    map[LimitOffsetDependencyKey := Provide("provide_limit_offset_filter", false)]
  }
}

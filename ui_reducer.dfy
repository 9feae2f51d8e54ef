/**
 * The `ui` slice of the store: view mode, route, language, the filters and
 * the pagination position. Changing the search term or the page size sends
 * the list back to its first page.
 */
module UiReducer {
  import opened ActionTypes

  datatype Filters = Filters(search: string, department: string, position: string)

  datatype PaginationState = PaginationState(currentPage: int, itemsPerPage: int)

  datatype UiState = UiState(
    viewMode: string,
    currentRoute: string,
    language: string,
    filters: Filters,
    pagination: PaginationState)

  /** Table view on the employees route, English, no filters, page 1 of 10 items. */
  const InitialState := UiState("table", "employees", "en", Filters("", "", ""), PaginationState(1, 10))

  /**
   * The reducer. `SET_DEPARTMENT_FILTER`, `SET_POSITION_FILTER` and
   * `CLEAR_FILTERS` are declared action types, but no case handles them.
   */
  function Reduce(state: UiState, action: Action): UiState
  {
    match action
    case SetViewMode(mode) => state.(viewMode := mode)
    case SetCurrentRoute(route) => state.(currentRoute := route)
    case SetSearchFilter(term) =>
      state.(filters := state.filters.(search := term),
             pagination := state.pagination.(currentPage := 1))
    case SetCurrentPage(page) => state.(pagination := state.pagination.(currentPage := page))
    case SetItemsPerPage(n) => state.(pagination := state.pagination.(itemsPerPage := n, currentPage := 1))
    case SetLanguage(language) => state.(language := language)
    case _ => state
  }

  /** Whether `a` is one of the six actions this slice handles. */
  predicate Handled(a: Action)
  {
    a.SetViewMode? || a.SetCurrentRoute? || a.SetSearchFilter? || a.SetCurrentPage?
    || a.SetItemsPerPage? || a.SetLanguage?
  }

  /** The search setter stores the term, resets the page, and keeps the page size and the other filters. */
  lemma SearchResetsPage(s: UiState, term: string)
    ensures var r := Reduce(s, SetSearchFilter(term));
            r.filters == Filters(term, s.filters.department, s.filters.position)
            && r.pagination == PaginationState(1, s.pagination.itemsPerPage)
            && r.viewMode == s.viewMode && r.currentRoute == s.currentRoute && r.language == s.language
  {
  }

  /** The page-size setter stores the size and resets the page, whatever the page was. */
  lemma ItemsPerPageResetsPage(s: UiState, n: int)
    ensures var r := Reduce(s, SetItemsPerPage(n));
            r.pagination == PaginationState(1, n) && r == s.(pagination := r.pagination)
  {
  }

  /** The page setter changes the current page and nothing else. */
  lemma CurrentPageOnly(s: UiState, p: int)
    ensures var r := Reduce(s, SetCurrentPage(p));
            r.pagination.currentPage == p && r == s.(pagination := PaginationState(p, s.pagination.itemsPerPage))
  {
  }

  /** The view-mode, route and language setters each change their own field only. */
  lemma OwnFieldOnly(s: UiState, v: string)
    ensures Reduce(s, SetViewMode(v)) == UiState(v, s.currentRoute, s.language, s.filters, s.pagination)
    ensures Reduce(s, SetCurrentRoute(v)) == UiState(s.viewMode, v, s.language, s.filters, s.pagination)
    ensures Reduce(s, SetLanguage(v)) == UiState(s.viewMode, s.currentRoute, v, s.filters, s.pagination)
  {
  }

  /** Every action outside the six handled ones, the three declared filter actions included, is ignored. */
  lemma UnhandledIgnored(s: UiState, a: Action, term: string)
    ensures !Handled(a) ==> Reduce(s, a) == s
    ensures Reduce(s, SetDepartmentFilter(term)) == s && Reduce(s, SetPositionFilter(term)) == s
            && Reduce(s, ClearFilters) == s
  {
  }

  /** Applying any action twice is the same as applying it once. */
  lemma Idempotent(s: UiState, a: Action)
    ensures Reduce(Reduce(s, a), a) == Reduce(s, a)
  {
  }
}

/**
 * The action alphabet of the store. Each constructor is one action type
 * constant, and its fields are the action's payload; the synchronous
 * action creators that merely wrap their argument (`deleteEmployee`,
 * `setEmployees`, `setLoading`, `setError`, `clearError` and every creator
 * of the UI slice) are these constructors themselves.
 */
module ActionTypes {
  import opened EmployeeRecord

  datatype Action =
    // Employee actions
    | AddEmployee(employee: Employee)
    | UpdateEmployee(id: string, updates: Employee)
    | DeleteEmployee(deleteId: string)
    | SetEmployees(employees: seq<Employee>)
    // Request status
    | SetLoading(isLoading: bool)
    | SetError(error: string)
    | ClearError
    // UI actions
    | SetViewMode(mode: string)
    | SetCurrentRoute(route: string)
    | SetLanguage(language: string)
    // Filter actions (the last three are declared but no reducer handles them)
    | SetSearchFilter(searchTerm: string)
    | SetDepartmentFilter(department: string)
    | SetPositionFilter(position: string)
    | ClearFilters
    // Pagination actions
    | SetCurrentPage(page: int)
    | SetItemsPerPage(itemsPerPage: int)
    // Any action whose type is none of the declared constants
    | Other(actionType: string)

  /** The `type` string carried by each action. */
  function TypeOf(a: Action): string
  {
    match a
    case AddEmployee(_) => "ADD_EMPLOYEE"
    case UpdateEmployee(_, _) => "UPDATE_EMPLOYEE"
    case DeleteEmployee(_) => "DELETE_EMPLOYEE"
    case SetEmployees(_) => "SET_EMPLOYEES"
    case SetLoading(_) => "SET_LOADING"
    case SetError(_) => "SET_ERROR"
    case ClearError => "CLEAR_ERROR"
    case SetViewMode(_) => "SET_VIEW_MODE"
    case SetCurrentRoute(_) => "SET_CURRENT_ROUTE"
    case SetLanguage(_) => "SET_LANGUAGE"
    case SetSearchFilter(_) => "SET_SEARCH_FILTER"
    case SetDepartmentFilter(_) => "SET_DEPARTMENT_FILTER"
    case SetPositionFilter(_) => "SET_POSITION_FILTER"
    case ClearFilters => "CLEAR_FILTERS"
    case SetCurrentPage(_) => "SET_CURRENT_PAGE"
    case SetItemsPerPage(_) => "SET_ITEMS_PER_PAGE"
    case Other(t) => t
  }

  /** The action type constants, as declared. */
  const DeclaredTypes: set<string> := {
    "ADD_EMPLOYEE", "UPDATE_EMPLOYEE", "DELETE_EMPLOYEE", "SET_EMPLOYEES",
    "SET_LOADING", "SET_ERROR", "CLEAR_ERROR", "SET_VIEW_MODE", "SET_CURRENT_ROUTE",
    "SET_LANGUAGE", "SET_SEARCH_FILTER", "SET_DEPARTMENT_FILTER", "SET_POSITION_FILTER",
    "CLEAR_FILTERS", "SET_CURRENT_PAGE", "SET_ITEMS_PER_PAGE"
  }

  /** An `Other` action really is outside the declared alphabet. */
  predicate WellFormed(a: Action)
  {
    a.Other? ==> a.actionType !in DeclaredTypes
  }

  /** The declared constants are pairwise distinct, so the `type` string of a
      well-formed action determines which kind of action it is. */
  lemma TypeDeterminesKind(a: Action, b: Action)
    requires WellFormed(a) && WellFormed(b)
    requires TypeOf(a) == TypeOf(b)
    ensures a.Other? == b.Other?
    ensures !a.Other? ==> a.AddEmployee? == b.AddEmployee? && a.UpdateEmployee? == b.UpdateEmployee?
                          && a.DeleteEmployee? == b.DeleteEmployee? && a.SetEmployees? == b.SetEmployees?
                          && a.SetLoading? == b.SetLoading? && a.SetError? == b.SetError?
                          && a.ClearError? == b.ClearError? && a.SetViewMode? == b.SetViewMode?
                          && a.SetCurrentRoute? == b.SetCurrentRoute? && a.SetLanguage? == b.SetLanguage?
                          && a.SetSearchFilter? == b.SetSearchFilter?
                          && a.SetDepartmentFilter? == b.SetDepartmentFilter?
                          && a.SetPositionFilter? == b.SetPositionFilter? && a.ClearFilters? == b.ClearFilters?
                          && a.SetCurrentPage? == b.SetCurrentPage? && a.SetItemsPerPage? == b.SetItemsPerPage?
  {
  }
}

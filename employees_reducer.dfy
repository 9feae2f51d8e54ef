/**
 * The `employees` slice of the store and its reducer: a pure
 * `(state, action) -> state` function. Ids are not assumed unique (they come
 * from a millisecond clock, and several records can be added within one
 * millisecond), so UPDATE and DELETE act on every entry that carries the id.
 */
module EmployeesReducer {
  import opened Wrappers
  import opened EmployeeRecord
  import opened ActionTypes

  datatype EmployeesState = EmployeesState(list: seq<Employee>, loading: bool, error: Option<string>)

  /** `{list: [], loading: false, error: null}`. */
  const InitialState := EmployeesState([], false, None)

  /** `{...employee, ...updates}`: the fields of `updates` win, every other field is kept. */
  function Overlay(employee: Employee, updates: Employee): (r: Employee)
    ensures r.Keys == employee.Keys + updates.Keys
    ensures forall k :: k in updates ==> r[k] == updates[k]
    ensures forall k :: k in employee && k !in updates ==> r[k] == employee[k]
  {
    employee + updates
  }

  /** `list.map(e => e.id === id ? {...e, ...updates} : e)`. */
  function UpdateList(list: seq<Employee>, id: string, updates: Employee): seq<Employee>
  {
    if list == [] then []
    else [if HasId(list[0], id) then Overlay(list[0], updates) else list[0]]
         + UpdateList(list[1..], id, updates)
  }

  /** `list.filter(e => e.id !== id)`. */
  function RemoveId(list: seq<Employee>, id: string): seq<Employee>
  {
    if list == [] then []
    else if HasId(list[0], id) then RemoveId(list[1..], id)
    else [list[0]] + RemoveId(list[1..], id)
  }

  /** The reducer; every action it does not handle returns the state unchanged. */
  function Reduce(state: EmployeesState, action: Action): EmployeesState
  {
    match action
    case SetEmployees(employees) => state.(list := employees)
    case AddEmployee(employee) => state.(list := state.list + [employee], error := None)
    case UpdateEmployee(id, updates) => state.(list := UpdateList(state.list, id, updates), error := None)
    case DeleteEmployee(id) => state.(list := RemoveId(state.list, id), error := None)
    case SetLoading(isLoading) => state.(loading := isLoading)
    case SetError(error) => state.(error := Some(error), loading := false)
    case ClearError => state.(error := None)
    case _ => state
  }

  /** The state after dispatching `actions` one after the other. */
  function Run(state: EmployeesState, actions: seq<Action>): EmployeesState
    decreases |actions|
  {
    if actions == [] then state else Run(Reduce(state, actions[0]), actions[1..])
  }

  // ---------------------------------------------------------------------------
  // Properties of the list operations
  // ---------------------------------------------------------------------------

  /** UPDATE keeps length and order; each entry with the id is overlaid, the others are untouched. */
  lemma {:induction false} UpdateListAt(list: seq<Employee>, id: string, updates: Employee)
    ensures |UpdateList(list, id, updates)| == |list|
    ensures forall i :: 0 <= i < |list| && HasId(list[i], id) ==>
              UpdateList(list, id, updates)[i] == Overlay(list[i], updates)
    ensures forall i :: 0 <= i < |list| && !HasId(list[i], id) ==>
              UpdateList(list, id, updates)[i] == list[i]
  {
    if list != [] {
      UpdateListAt(list[1..], id, updates);
      var r := UpdateList(list, id, updates);
      forall i | 1 <= i < |list| ensures r[i] == UpdateList(list[1..], id, updates)[i - 1] {
      }
    }
  }

  /** DELETE keeps exactly the entries without the id. */
  lemma {:induction false} RemoveIdMembers(list: seq<Employee>, id: string)
    ensures forall e :: e in RemoveId(list, id) <==> e in list && !HasId(e, id)
  {
    if list != [] {
      RemoveIdMembers(list[1..], id);
      assert list == [list[0]] + list[1..];
    }
  }

  /** DELETE acts piecewise, so it keeps the order of what remains. */
  lemma {:induction false} RemoveIdConcat(a: seq<Employee>, b: seq<Employee>, id: string)
    ensures RemoveId(a + b, id) == RemoveId(a, id) + RemoveId(b, id)
  {
    if a != [] {
      assert (a + b)[1..] == a[1..] + b;
      RemoveIdConcat(a[1..], b, id);
    } else {
      assert a + b == b;
    }
  }

  /** DELETE of an id no entry carries leaves the list unchanged. */
  lemma {:induction false} RemoveIdAbsent(list: seq<Employee>, id: string)
    requires forall i :: 0 <= i < |list| ==> !HasId(list[i], id)
    ensures RemoveId(list, id) == list
  {
    if list != [] {
      RemoveIdAbsent(list[1..], id);
      assert list == [list[0]] + list[1..];
    }
  }

  /** The number of entries that carry `id`. */
  function CountId(list: seq<Employee>, id: string): nat
  {
    if list == [] then 0 else (if HasId(list[0], id) then 1 else 0) + CountId(list[1..], id)
  }

  /** DELETE removes exactly as many entries as carry the id. */
  lemma {:induction false} RemoveIdLength(list: seq<Employee>, id: string)
    ensures |RemoveId(list, id)| == |list| - CountId(list, id)
  {
    if list != [] {
      RemoveIdLength(list[1..], id);
    }
  }

  // ---------------------------------------------------------------------------
  // One property per action
  // ---------------------------------------------------------------------------

  /** ADD appends the payload as the last entry, clears the error and keeps loading. */
  lemma AddAppends(s: EmployeesState, e: Employee)
    ensures var r := Reduce(s, AddEmployee(e));
            |r.list| == |s.list| + 1 && r.list[..|s.list|] == s.list && r.list[|s.list|] == e
            && r.error == None && r.loading == s.loading
  {
    var r := Reduce(s, AddEmployee(e));
    assert r.list[..|s.list|] == s.list;
  }

  /** UPDATE overlays every entry with the id, keeps the rest, clears the error. */
  lemma UpdateOverlays(s: EmployeesState, id: string, updates: Employee)
    ensures var r := Reduce(s, UpdateEmployee(id, updates));
            |r.list| == |s.list| && r.error == None && r.loading == s.loading
            && (forall i :: 0 <= i < |s.list| && HasId(s.list[i], id) ==>
                  r.list[i].Keys == s.list[i].Keys + updates.Keys
                  && (forall k :: k in updates ==> r.list[i][k] == updates[k])
                  && (forall k :: k in s.list[i] && k !in updates ==> r.list[i][k] == s.list[i][k]))
            && (forall i :: 0 <= i < |s.list| && !HasId(s.list[i], id) ==> r.list[i] == s.list[i])
  {
    UpdateListAt(s.list, id, updates);
  }

  /** DELETE leaves exactly the entries without the id, in order, and clears the error. */
  lemma DeleteFilters(s: EmployeesState, id: string)
    ensures var r := Reduce(s, DeleteEmployee(id));
            r.error == None && r.loading == s.loading
            && (forall e :: e in r.list <==> e in s.list && !HasId(e, id))
            && |r.list| == |s.list| - CountId(s.list, id)
            && ((forall i :: 0 <= i < |s.list| ==> !HasId(s.list[i], id)) ==> r.list == s.list)
  {
    RemoveIdMembers(s.list, id);
    RemoveIdLength(s.list, id);
    if forall i :: 0 <= i < |s.list| ==> !HasId(s.list[i], id) {
      RemoveIdAbsent(s.list, id);
    }
  }

  /** SET_EMPLOYEES replaces the list and nothing else; SET_LOADING changes only loading. */
  lemma SetEmployeesAndLoading(s: EmployeesState, l: seq<Employee>, b: bool)
    ensures Reduce(s, SetEmployees(l)) == EmployeesState(l, s.loading, s.error)
    ensures Reduce(s, SetLoading(b)) == EmployeesState(s.list, b, s.error)
  {
  }

  /** SET_ERROR records the message and forces loading off; CLEAR_ERROR nulls the error only. */
  lemma ErrorActions(s: EmployeesState, m: string)
    ensures Reduce(s, SetError(m)) == EmployeesState(s.list, false, Some(m))
    ensures Reduce(s, ClearError) == EmployeesState(s.list, s.loading, None)
  {
  }

  /** The actions of the UI slice, and unknown ones, leave this slice unchanged. */
  lemma OtherActionsIgnored(s: EmployeesState, a: Action)
    requires !(a.AddEmployee? || a.UpdateEmployee? || a.DeleteEmployee? || a.SetEmployees?
               || a.SetLoading? || a.SetError? || a.ClearError?)
    ensures Reduce(s, a) == s
  {
  }

  /** Dispatching a sequence in two parts is dispatching the parts in turn. */
  lemma {:induction false} RunConcat(s: EmployeesState, a: seq<Action>, b: seq<Action>)
    ensures Run(s, a + b) == Run(Run(s, a), b)
    decreases |a|
  {
    if a != [] {
      assert (a + b)[1..] == a[1..] + b;
      RunConcat(Reduce(s, a[0]), a[1..], b);
    } else {
      assert a + b == b;
    }
  }
}

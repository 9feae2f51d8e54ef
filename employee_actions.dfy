/**
 * The employee action creators and the three asynchronous wrappers.
 *
 * The clock is an input: `now` is the millisecond timestamp behind the new
 * id, and the ISO-8601 stamps are passed in as text. A wrapper is the fixed
 * sequence of actions it dispatches: two before its delay, two after it.
 * Whether the deferred work throws before its mutation action is dispatched
 * is an input too (`thrown`, the message of the error).
 */
module EmployeeActions {
  import opened Wrappers
  import opened Text
  import opened EmployeeRecord
  import opened ActionTypes
  import opened EmployeesReducer

  /** The stored record: the input's fields, then a fresh id and both timestamps, which win. */
  function NewEmployee(employee: Employee, now: nat, createdAt: string, updatedAt: string): (r: Employee)
    ensures r.Keys == employee.Keys + {"id", "createdAt", "updatedAt"}
    ensures forall k :: k in employee && k !in {"id", "createdAt", "updatedAt"} ==> r[k] == employee[k]
    ensures r["id"] == NatToString(now) && r["createdAt"] == createdAt && r["updatedAt"] == updatedAt
  {
    employee + map["id" := NatToString(now), "createdAt" := createdAt, "updatedAt" := updatedAt]
  }

  /** `addEmployee`: an ADD_EMPLOYEE action carrying the stamped record. */
  function AddEmployeeAction(employee: Employee, now: nat, createdAt: string, updatedAt: string): (a: Action)
    ensures a.AddEmployee? && WellFormed(a)
    ensures HasId(a.employee, NatToString(now))
  {
    AddEmployee(NewEmployee(employee, now, createdAt, updatedAt))
  }

  /** `updateEmployee`: the given id, and the updates with `updatedAt` added or overridden. */
  function UpdateEmployeeAction(id: string, updates: Employee, updatedAt: string): (a: Action)
    ensures a.UpdateEmployee? && a.id == id
    ensures a.updates.Keys == updates.Keys + {"updatedAt"} && a.updates["updatedAt"] == updatedAt
    ensures forall k :: k in updates && k != "updatedAt" ==> a.updates[k] == updates[k]
  {
    UpdateEmployee(id, updates["updatedAt" := updatedAt])
  }

  /** The remaining creators wrap their argument unchanged; `clearError` has no payload. */
  lemma PlainCreators(id: string, l: seq<Employee>, b: bool, m: string)
    ensures TypeOf(DeleteEmployee(id)) == "DELETE_EMPLOYEE" && DeleteEmployee(id).deleteId == id
    ensures TypeOf(SetEmployees(l)) == "SET_EMPLOYEES" && SetEmployees(l).employees == l
    ensures TypeOf(SetLoading(b)) == "SET_LOADING" && SetLoading(b).isLoading == b
    ensures TypeOf(SetError(m)) == "SET_ERROR" && SetError(m).error == m
    ensures TypeOf(ClearError) == "CLEAR_ERROR"
  {
  }

  // ---------------------------------------------------------------------------
  // Dispatch sequences of the wrappers
  // ---------------------------------------------------------------------------

  /** How the returned promise settles. */
  datatype Completion = Resolved | Rejected(message: string)

  /** Dispatched synchronously, before the delay. */
  const Started: seq<Action> := [SetLoading(true), ClearError]

  /** Dispatched after the delay: the mutation when nothing throws, the error otherwise. */
  function Settled(mutation: Action, thrown: Option<string>): seq<Action>
  {
    match thrown
    case None => [mutation, SetLoading(false)]
    case Some(m) => [SetError(m), SetLoading(false)]
  }

  /** Everything one wrapper call dispatches. */
  function Dispatched(mutation: Action, thrown: Option<string>): (r: seq<Action>)
    ensures |r| == 4 && r[..2] == Started && r[3] == SetLoading(false)
    ensures r[2] == (if thrown.None? then mutation else SetError(thrown.value))
  {
    Started + Settled(mutation, thrown)
  }

  function Outcome(thrown: Option<string>): Completion
  {
    if thrown.None? then Resolved else Rejected(thrown.value)
  }

  /** Dispatching four actions is reducing them one after the other. */
  lemma RunFour(s: EmployeesState, a: Action, b: Action, c: Action, d: Action)
    ensures Run(s, [a, b, c, d]) == Reduce(Reduce(Reduce(Reduce(s, a), b), c), d)
  {
    var s1, s2, s3 := Reduce(s, a), Reduce(Reduce(s, a), b), Reduce(Reduce(Reduce(s, a), b), c);
    assert [a, b, c, d][1..] == [b, c, d];
    assert [b, c, d][1..] == [c, d];
    assert [c, d][1..] == [d];
    assert Run(s3, [d]) == Reduce(s3, d);
    assert Run(s2, [c, d]) == Run(s3, [d]);
    assert Run(s1, [b, c, d]) == Run(s2, [c, d]);
  }

  /** While the wrapper waits, the slice shows loading and no error; the list is untouched. */
  lemma PendingState(s: EmployeesState)
    ensures Run(s, Started) == EmployeesState(s.list, true, None)
  {
  }

  /** A failure leaves the list as it was, loading off and the message as the error. */
  lemma FailureFold(s: EmployeesState, mutation: Action, m: string)
    ensures Run(s, Dispatched(mutation, Some(m))) == EmployeesState(s.list, false, Some(m))
  {
    assert Dispatched(mutation, Some(m)) == [SetLoading(true), ClearError, SetError(m), SetLoading(false)];
    RunFour(s, SetLoading(true), ClearError, SetError(m), SetLoading(false));
  }

  /** A successful add ends with the stamped record appended, loading off and no error. */
  lemma AddSuccessFold(s: EmployeesState, employee: Employee, now: nat, createdAt: string, updatedAt: string)
    ensures var r := Run(s, Dispatched(AddEmployeeAction(employee, now, createdAt, updatedAt), None));
            r == EmployeesState(s.list + [NewEmployee(employee, now, createdAt, updatedAt)], false, None)
  {
    var a := AddEmployeeAction(employee, now, createdAt, updatedAt);
    assert Dispatched(a, None) == [SetLoading(true), ClearError, a, SetLoading(false)];
    RunFour(s, SetLoading(true), ClearError, a, SetLoading(false));
  }

  /** A successful update overlays every entry with the id, with loading off and no error. */
  lemma UpdateSuccessFold(s: EmployeesState, id: string, updates: Employee, updatedAt: string)
    ensures var r := Run(s, Dispatched(UpdateEmployeeAction(id, updates, updatedAt), None));
            r == EmployeesState(UpdateList(s.list, id, updates["updatedAt" := updatedAt]), false, None)
  {
    var a := UpdateEmployeeAction(id, updates, updatedAt);
    assert Dispatched(a, None) == [SetLoading(true), ClearError, a, SetLoading(false)];
    RunFour(s, SetLoading(true), ClearError, a, SetLoading(false));
  }

  /** A successful delete drops every entry with the id, with loading off and no error. */
  lemma DeleteSuccessFold(s: EmployeesState, id: string)
    ensures var r := Run(s, Dispatched(DeleteEmployee(id), None));
            r == EmployeesState(RemoveId(s.list, id), false, None)
            && forall e :: e in r.list ==> !HasId(e, id)
  {
    assert Dispatched(DeleteEmployee(id), None) ==
      [SetLoading(true), ClearError, DeleteEmployee(id), SetLoading(false)];
    RunFour(s, SetLoading(true), ClearError, DeleteEmployee(id), SetLoading(false));
    RemoveIdMembers(s.list, id);
  }

  // ---------------------------------------------------------------------------
  // The store as the wrappers see it
  // ---------------------------------------------------------------------------

  /**
   * The `dispatch` the wrappers receive: it applies each action to the
   * employees slice and records it. `start` is the state before the first
   * recorded action.
   */
  class Dispatcher {
    ghost var start: EmployeesState
    var state: EmployeesState
    var log: seq<Action>

    ghost predicate Valid()
      reads this
    {
      state == Run(start, log)
    }

    constructor(initial: EmployeesState)
      ensures Valid() && state == initial && log == []
    {
      start := initial;
      state := initial;
      log := [];
    }

    method Dispatch(a: Action)
      requires Valid()
      modifies this
      ensures Valid() && start == old(start)
      ensures log == old(log) + [a] && state == Reduce(old(state), a)
    {
      RunConcat(start, log, [a]);
      log := log + [a];
      state := Reduce(state, a);
    }

    /** The shared body of the three wrappers. */
    method DispatchAsync(mutation: Action, thrown: Option<string>) returns (c: Completion)
      requires Valid()
      modifies this
      ensures Valid() && start == old(start)
      ensures log == old(log) + Dispatched(mutation, thrown)
      ensures state == Run(old(state), Dispatched(mutation, thrown))
      ensures c == Outcome(thrown)
    {
      Dispatch(SetLoading(true));
      Dispatch(ClearError);
      if thrown.None? {
        Dispatch(mutation);
        Dispatch(SetLoading(false));
        c := Resolved;
      } else {
        Dispatch(SetError(thrown.value));
        Dispatch(SetLoading(false));
        c := Rejected(thrown.value);
      }
      var d := Dispatched(mutation, thrown);
      assert log == old(log) + d;
      RunFour(old(state), d[0], d[1], d[2], d[3]);
      assert d == [d[0], d[1], d[2], d[3]];
    }

    /** `addEmployeeAsync(employee)`. */
    method AddEmployeeAsync(employee: Employee, now: nat, createdAt: string, updatedAt: string, thrown: Option<string>)
      returns (c: Completion)
      requires Valid()
      modifies this
      ensures Valid() && start == old(start)
      ensures log == old(log) + Dispatched(AddEmployeeAction(employee, now, createdAt, updatedAt), thrown)
      ensures thrown.None? ==> (c == Resolved
        && state == EmployeesState(old(state).list + [NewEmployee(employee, now, createdAt, updatedAt)], false, None))
      ensures thrown.Some? ==> (c == Rejected(thrown.value)
        && state == EmployeesState(old(state).list, false, thrown))
    {
      var a := AddEmployeeAction(employee, now, createdAt, updatedAt);
      c := DispatchAsync(a, thrown);
      if thrown.None? {
        AddSuccessFold(old(state), employee, now, createdAt, updatedAt);
      } else {
        FailureFold(old(state), a, thrown.value);
      }
    }

    /** `updateEmployeeAsync(id, updates)`. */
    method UpdateEmployeeAsync(id: string, updates: Employee, updatedAt: string, thrown: Option<string>)
      returns (c: Completion)
      requires Valid()
      modifies this
      ensures Valid() && start == old(start)
      ensures log == old(log) + Dispatched(UpdateEmployeeAction(id, updates, updatedAt), thrown)
      ensures thrown.None? ==> (c == Resolved
        && state == EmployeesState(UpdateList(old(state).list, id, updates["updatedAt" := updatedAt]), false, None))
      ensures thrown.Some? ==> (c == Rejected(thrown.value)
        && state == EmployeesState(old(state).list, false, thrown))
    {
      var a := UpdateEmployeeAction(id, updates, updatedAt);
      c := DispatchAsync(a, thrown);
      if thrown.None? {
        UpdateSuccessFold(old(state), id, updates, updatedAt);
      } else {
        FailureFold(old(state), a, thrown.value);
      }
    }

    /** `deleteEmployeeAsync(id)`. */
    method DeleteEmployeeAsync(id: string, thrown: Option<string>) returns (c: Completion)
      requires Valid()
      modifies this
      ensures Valid() && start == old(start)
      ensures log == old(log) + Dispatched(DeleteEmployee(id), thrown)
      ensures thrown.None? ==> (c == Resolved
        && state == EmployeesState(RemoveId(old(state).list, id), false, None))
      ensures thrown.Some? ==> (c == Rejected(thrown.value)
        && state == EmployeesState(old(state).list, false, thrown))
    {
      c := DispatchAsync(DeleteEmployee(id), thrown);
      if thrown.None? {
        DeleteSuccessFold(old(state), id);
      } else {
        FailureFold(old(state), DeleteEmployee(id), thrown.value);
      }
    }
  }
}

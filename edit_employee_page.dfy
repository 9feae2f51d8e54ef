/**
 * The edit page: it takes the employee id from the route or the path, looks
 * the record up in the store's list whenever the store changes, and shows
 * either the form or an error banner.
 */
module EditEmployeePage {
  import opened Wrappers
  import opened Text
  import opened EmployeeRecord

  /** A JavaScript string is truthy when it is present and not empty. */
  predicate Truthy(s: Option<string>)
  {
    s.Some? && s.value != ""
  }

  const NotFound := "Employee not found"

  /** `list.find(emp => emp.id === id)`: the first record with the id. */
  function FindById(list: seq<Employee>, id: string): Option<Employee>
  {
    if list == [] then None
    else if HasId(list[0], id) then Some(list[0])
    else FindById(list[1..], id)
  }

  /** Nothing is found iff no record has the id; otherwise the first record that has it is found. */
  lemma {:induction false} FindByIdMeaning(list: seq<Employee>, id: string)
    ensures FindById(list, id).None? <==> forall i :: 0 <= i < |list| ==> !HasId(list[i], id)
    ensures FindById(list, id).Some? ==>
              exists i :: 0 <= i < |list| && list[i] == FindById(list, id).value && HasId(list[i], id)
                          && forall j :: 0 <= j < i ==> !HasId(list[j], id)
  {
    if list != [] && !HasId(list[0], id) {
      var tail := list[1..];
      FindByIdMeaning(tail, id);
      assert forall j :: 1 <= j < |list| ==> list[j] == tail[j - 1];
      if FindById(tail, id).Some? {
        var i :| 0 <= i < |tail| && tail[i] == FindById(tail, id).value && HasId(tail[i], id)
                 && forall j :: 0 <= j < i ==> !HasId(tail[j], id);
        assert list[i + 1] == tail[i];
      }
    }
  }

  /** The part of the path that leads to this page. */
  const Marker := "/edit-employee/"

  /**
   * What `/\/edit-employee\/(.+)/` captures: everything after the first
   * `/edit-employee/`, when something follows it.
   */
  function ExtractId(path: string): (r: Option<string>)
    ensures r.Some? ==> r.value != "" && exists i: nat :: OccursAt(path, Marker, i) && r.value == path[i + |Marker|..]
                                                  && forall j: nat :: j < i ==> !OccursAt(path, Marker, j)
    ensures r.None? <==> forall i: nat :: OccursAt(path, Marker, i) ==> i + |Marker| == |path|
  {
    match IndexOfSub(path, Marker)
    case None => None
    case Some(i) =>
      if i + |Marker| < |path| then Some(path[i + |Marker|..])
      else
        assert forall j: nat :: OccursAt(path, Marker, j) ==> j == i;
        None
  }

  /** The path the table's edit button pushes gives back the record's id. */
  lemma ExtractIdRoundTrip(id: string)
    requires id != ""
    ensures ExtractId(Marker + id) == Some(id)
  {
    var path := Marker + id;
    assert OccursAt(path, Marker, 0) by { assert path[..|Marker|] == Marker; }
    assert path[|Marker|..] == id;
  }

  /** What `render` shows. */
  datatype View = ErrorBanner(message: string) | EditForm(employee: Employee)

  /** An error banner when there is an error or no record, with the error or the fallback text. */
  function Render(error: Option<string>, employee: Option<Employee>): (v: View)
    ensures v.ErrorBanner? <==> Truthy(error) || employee.None?
    ensures v.ErrorBanner? ==> v.message == (if Truthy(error) then error.value else NotFound)
    ensures v.EditForm? ==> employee == Some(v.employee)
  {
    if Truthy(error) || employee.None? then ErrorBanner(if Truthy(error) then error.value else NotFound)
    else EditForm(employee.value)
  }

  class EditEmployeePageElement {
    var employeeId: Option<string>
    var employee: Option<Employee>
    var loading: bool
    var error: Option<string>

    constructor()
      ensures employeeId == None && employee == None && !loading && error == None
    {
      employeeId := None;
      employee := None;
      loading := false;
      error := None;
    }

    /**
     * `stateChanged`: copy loading and error from the employees slice; with an
     * id, look the record up, and report it missing unless the list is still
     * loading. The slice's list is never `null` here.
     */
    method StateChanged(list: seq<Employee>, storeLoading: bool, storeError: Option<string>)
      modifies this
      ensures loading == storeLoading && employeeId == old(employeeId)
      ensures Truthy(employeeId) ==> employee == FindById(list, employeeId.value)
      ensures Truthy(employeeId) && employee.None? && !storeLoading ==> error == Some(NotFound)
      ensures !(Truthy(employeeId) && employee.None? && !storeLoading) ==> error == storeError
      ensures !Truthy(employeeId) ==> employee == old(employee)
    {
      loading := storeLoading;
      error := storeError;
      if Truthy(employeeId) {
        var found := FindById(list, employeeId.value);
        employee := found;
        if found.None? && !loading {
          error := Some(NotFound);
        }
      }
    }

    /** `onBeforeEnter(location)`: take the route's id and let the navigation continue. */
    method OnBeforeEnter(paramsId: Option<string>) returns (proceed: bool)
      modifies this
      ensures employeeId == paramsId && proceed
      ensures employee == old(employee) && loading == old(loading) && error == old(error)
    {
      employeeId := paramsId;
      proceed := true;
    }

    /** `_extractEmployeeIdFromLocation(path)`: only when no id is set yet, and only a non-empty capture. */
    method ExtractEmployeeIdFromLocation(path: string)
      modifies this
      ensures Truthy(old(employeeId)) ==> employeeId == old(employeeId)
      ensures !Truthy(old(employeeId)) ==>
                employeeId == (if ExtractId(path).Some? then ExtractId(path) else old(employeeId))
      ensures employee == old(employee) && loading == old(loading) && error == old(error)
    {
      if !Truthy(employeeId) {
        var matches := ExtractId(path);
        if matches.Some? {
          employeeId := matches;
        }
      }
    }
  }

  /** With an id that no record carries, the page ends up on the error banner, whatever the loading flag. */
  lemma MissingRecordShowsError(list: seq<Employee>, id: string, storeLoading: bool, storeError: Option<string>)
    requires id != "" && forall i :: 0 <= i < |list| ==> !HasId(list[i], id)
    ensures FindById(list, id) == None
    ensures Render(if storeLoading then storeError else Some(NotFound), FindById(list, id)).ErrorBanner?
    ensures !storeLoading ==> Render(Some(NotFound), FindById(list, id)) == ErrorBanner(NotFound)
  {
    FindByIdMeaning(list, id);
  }
}

/**
 * The card view of the employee list. It slices its list without the null or
 * empty guard of the table, shows the phone as it is, uses the same badge
 * classes as the table (`EmployeeTable.DepartmentClass` and
 * `EmployeeTable.PositionClass`), and confirms a delete only when a record
 * has been chosen.
 */
module EmployeeList {
  import opened Wrappers
  import opened Text
  import opened EmployeeRecord
  import opened EmployeeTable

  /** `employees.slice((page - 1) * n, (page - 1) * n + n)`, on whichever page number it is given. */
  function ListPaginated(employees: seq<Employee>, currentPage: int, itemsPerPage: int): seq<Employee>
  {
    var startIndex := (currentPage - 1) * itemsPerPage;
    Slice(employees, startIndex, startIndex + itemsPerPage)
  }

  /** Without the guard the rows are still the table's rows, on every page and for every size. */
  lemma SameRowsAsTable(employees: seq<Employee>, currentPage: int, itemsPerPage: int)
    ensures ListPaginated(employees, currentPage, itemsPerPage) == Paginated(Some(employees), currentPage, itemsPerPage)
  {
  }

  /** Twenty-five records at ten per page: pages of 10, 10 and 5 cards. */
  lemma TwentyFiveCards(employees: seq<Employee>)
    requires |employees| == 25
    ensures |ListPaginated(employees, 1, 10)| == 10 && |ListPaginated(employees, 2, 10)| == 10
    ensures |ListPaginated(employees, 3, 10)| == 5
  {
    TwentyFiveRecords(employees);
    SameRowsAsTable(employees, 1, 10);
    SameRowsAsTable(employees, 2, 10);
    SameRowsAsTable(employees, 3, 10);
  }

  /** A page number below 1 makes the start index negative, which `slice` counts from the end. */
  lemma PageBeforeFirst(employees: seq<Employee>)
    requires |employees| == 25
    ensures ListPaginated(employees, 0, 10) == []
    ensures ListPaginated(employees, -1, 10) == employees[5..15]
  {
  }

  /** `_formatPhone`: `phone || ''`. */
  function ListFormatPhone(phone: Option<string>): (r: string)
    ensures phone.Some? ==> r == phone.value
    ensures phone.None? ==> r == ""
  {
    phone.GetOr("")
  }

  /** The two views agree on a present phone without a run of ten digits, and differ on an empty one. */
  lemma PhoneViewsCompared(s: string)
    ensures s != "" && (forall j: nat :: !DigitRunAt(s, j)) ==> ListFormatPhone(Some(s)) == FormatPhone(Some(s))
    ensures ListFormatPhone(Some("")) == "" && FormatPhone(Some("")) == "-"
  {
    if s != "" {
      FormatPhoneFrame(s);
    }
  }

  class EmployeeListElement {
    var employees: seq<Employee>
    var loading: bool
    var currentPage: int
    var itemsPerPage: int
    var employeeToDelete: Option<Employee>
    var deleteModalOpen: bool
    var deleteLoading: bool

    /** The properties the delete handlers never touch. */
    ghost function Listing(): (seq<Employee>, bool, int, int)
      reads this
    {
      (employees, loading, currentPage, itemsPerPage)
    }

    /** The modal is open exactly while a record is chosen, and only a chosen record is ever being deleted. */
    ghost predicate DeleteFlagsConsistent()
      reads this
    {
      (deleteModalOpen <==> employeeToDelete.Some?) && (deleteLoading ==> employeeToDelete.Some?)
    }

    constructor()
      ensures employees == [] && !loading && currentPage == 1 && itemsPerPage == 10
      ensures employeeToDelete == None && !deleteModalOpen && !deleteLoading
      ensures DeleteFlagsConsistent()
    {
      employees := [];
      loading := false;
      currentPage := 1;
      itemsPerPage := 10;
      employeeToDelete := None;
      deleteModalOpen := false;
      deleteLoading := false;
    }

    /** `_handleDelete(employee)`: choose the record and open the modal. */
    method HandleDelete(employee: Employee)
      modifies this
      ensures employeeToDelete == Some(employee) && deleteModalOpen && deleteLoading == old(deleteLoading)
      ensures Listing() == old(Listing())
      ensures old(DeleteFlagsConsistent()) ==> DeleteFlagsConsistent()
    {
      employeeToDelete := Some(employee);
      deleteModalOpen := true;
    }

    /**
     * `_handleDeleteConfirmed`: with a chosen record, start loading and emit it; otherwise do nothing.
     * A confirmation from the open modal of a consistent element always emits a record.
     */
    method HandleDeleteConfirmed() returns (emitted: Option<Employee>)
      modifies this
      ensures emitted == old(employeeToDelete)
      ensures deleteLoading == (old(employeeToDelete).Some? || old(deleteLoading))
      ensures employeeToDelete == old(employeeToDelete) && deleteModalOpen == old(deleteModalOpen)
      ensures Listing() == old(Listing())
      ensures old(DeleteFlagsConsistent()) ==> DeleteFlagsConsistent()
      ensures old(DeleteFlagsConsistent()) && deleteModalOpen ==> emitted.Some? && deleteLoading
    {
      emitted := None;
      if employeeToDelete.Some? {
        deleteLoading := true;
        emitted := employeeToDelete;
      }
    }

    /** `_handleDeleteCancelled`: close the modal, forget the record, stop loading. */
    method HandleDeleteCancelled()
      modifies this
      ensures employeeToDelete == None && !deleteModalOpen && !deleteLoading
      ensures Listing() == old(Listing()) && DeleteFlagsConsistent()
    {
      deleteModalOpen := false;
      employeeToDelete := None;
      deleteLoading := false;
    }

    /** `closeDeleteModal`: the same reset. */
    method CloseDeleteModal()
      modifies this
      ensures employeeToDelete == None && !deleteModalOpen && !deleteLoading
      ensures Listing() == old(Listing()) && DeleteFlagsConsistent()
    {
      HandleDeleteCancelled();
    }
  }
}

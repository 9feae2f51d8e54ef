/**
 * The table view of the employee list: the rows of the current page, the
 * phone formatting, the badge classes, and the three flags of the delete
 * confirmation.
 */
module EmployeeTable {
  import opened Wrappers
  import opened Text
  import opened EmployeeRecord
  import opened Pagination

  // ---------------------------------------------------------------------------
  // Rows of the current page (`paginatedEmployees`)
  // ---------------------------------------------------------------------------

  /** `[]` for a missing or empty list, otherwise `slice((page - 1) * n, (page - 1) * n + n)`. */
  function Paginated(employees: Option<seq<Employee>>, currentPage: int, itemsPerPage: int): seq<Employee>
  {
    match employees
    case None => []
    case Some(list) =>
      if |list| == 0 then []
      else
        var startIndex := (currentPage - 1) * itemsPerPage;
        Slice(list, startIndex, startIndex + itemsPerPage)
  }

  /** From page 1 on, a page is the run of items from its first index, cut at the end of the list. */
  lemma PageIsSegment(list: seq<Employee>, currentPage: int, itemsPerPage: int)
    requires currentPage >= 1 && itemsPerPage > 0
    ensures var s := (currentPage - 1) * itemsPerPage;
            Paginated(Some(list), currentPage, itemsPerPage) == list[Min(s, |list|)..Min(s + itemsPerPage, |list|)]
  {
    var s := (currentPage - 1) * itemsPerPage;
    ProductNonNegative(currentPage - 1, itemsPerPage);
    if |list| == 0 {
      assert list[Min(s, |list|)..Min(s + itemsPerPage, |list|)] == [];
    } else {
      SegmentFrom(list, s, itemsPerPage);
    }
  }

  lemma MulStep(k: int, n: int)
    ensures (k - 1) * n + n == k * n
  {
  }

  lemma ProductNonNegative(a: int, b: int)
    requires a >= 0 && b >= 0
    ensures a * b >= 0
  {
  }

  lemma SegmentFrom(list: seq<Employee>, s: int, n: int)
    requires s >= 0 && n > 0
    ensures Slice(list, s, s + n) == list[Min(s, |list|)..Min(s + n, |list|)]
  {
    SliceNonNegative(list, s, s + n);
  }

  /** The rows of an existing page are exactly items `startItem`..`endItem` of the pagination control. */
  lemma PageMatchesRange(list: seq<Employee>, p: Props)
    requires p.itemsPerPage > 0 && p.totalItems == |list| && 1 <= p.currentPage <= TotalPages(p)
    ensures 1 <= StartItem(p) <= EndItem(p) <= |list|
    ensures Paginated(Some(list), p.currentPage, p.itemsPerPage) == list[StartItem(p) - 1..EndItem(p)]
  {
    ItemRange(p);
    PageIsSegment(list, p.currentPage, p.itemsPerPage);
    assert p.currentPage * p.itemsPerPage == (p.currentPage - 1) * p.itemsPerPage + p.itemsPerPage;
  }

  /** Pages 1..k one after the other. */
  function PagesUpTo(list: seq<Employee>, itemsPerPage: int, k: int): seq<Employee>
    decreases k
  {
    if k <= 0 then [] else PagesUpTo(list, itemsPerPage, k - 1) + Paginated(Some(list), k, itemsPerPage)
  }

  /** The first k pages together are the first k * n items. */
  lemma {:induction false} PagesUpToPrefix(list: seq<Employee>, itemsPerPage: int, k: int)
    requires itemsPerPage > 0 && k >= 0
    ensures PagesUpTo(list, itemsPerPage, k) == list[..Min(k * itemsPerPage, |list|)]
    decreases k
  {
    if k > 0 {
      PagesUpToPrefix(list, itemsPerPage, k - 1);
      var m := (k - 1) * itemsPerPage;
      MulStep(k, itemsPerPage);
      ProductNonNegative(k - 1, itemsPerPage);
      PageIsSegment(list, k, itemsPerPage);
      var a, b := Min(m, |list|), Min(m + itemsPerPage, |list|);
      assert list[..a] + list[a..b] == list[..b];
    }
  }

  /** Every page, from the first to the last, read in order, gives back the whole list. */
  lemma AllPagesConcat(list: seq<Employee>, p: Props)
    requires p.itemsPerPage > 0 && p.totalItems == |list|
    ensures PagesUpTo(list, p.itemsPerPage, TotalPages(p)) == list
  {
    TotalPagesBounds(p);
    PagesUpToPrefix(list, p.itemsPerPage, TotalPages(p));
  }

  /** Twenty-five records at ten per page: pages of 10, 10 and 5 rows, then nothing. */
  lemma TwentyFiveRecords(list: seq<Employee>)
    requires |list| == 25
    ensures |Paginated(Some(list), 1, 10)| == 10 && |Paginated(Some(list), 2, 10)| == 10
    ensures |Paginated(Some(list), 3, 10)| == 5 && Paginated(Some(list), 4, 10) == []
  {
    PageIsSegment(list, 1, 10);
    PageIsSegment(list, 2, 10);
    PageIsSegment(list, 3, 10);
    PageIsSegment(list, 4, 10);
  }

  // ---------------------------------------------------------------------------
  // Phone formatting (`_formatPhone`)
  // ---------------------------------------------------------------------------

  /** Ten ASCII digits start at `i`. */
  predicate DigitRunAt(s: string, i: nat)
  {
    i + 10 <= |s| && AllDigits(s[i..i + 10])
  }

  /** Where `/(\d{3})(\d{3})(\d{4})/` first matches at or after `from`: the leftmost run of ten digits. */
  function FirstDigitRun(s: string, from: nat): (r: Option<nat>)
    ensures r.Some? ==> from <= r.value && DigitRunAt(s, r.value)
                        && forall j :: from <= j < r.value ==> !DigitRunAt(s, j)
    ensures r.None? ==> forall j :: from <= j ==> !DigitRunAt(s, j)
    decreases |s| - from
  {
    if from + 10 > |s| then None
    else if DigitRunAt(s, from) then Some(from)
    else FirstDigitRun(s, from + 1)
  }

  /** `'($1) $2-$3'` on the ten digits. */
  function Grouped(d: string): string
    requires |d| == 10
  {
    "(" + d[..3] + ") " + d[3..6] + "-" + d[6..]
  }

  /** `_formatPhone`: `'-'` for a missing or empty value, else the first ten-digit run grouped. */
  function FormatPhone(phone: Option<string>): string
  {
    match phone
    case None => "-"
    case Some(s) =>
      if s == "" then "-"
      else match FirstDigitRun(s, 0)
        case None => s
        case Some(i) => s[..i] + Grouped(s[i..i + 10]) + s[i + 10..]
  }

  /** The digits of a string, in order. */
  function DigitsOf(s: string): string
  {
    if s == [] then [] else (if IsDigit(s[0]) then [s[0]] else []) + DigitsOf(s[1..])
  }

  lemma {:induction false} DigitsOfConcat(a: string, b: string)
    ensures DigitsOf(a + b) == DigitsOf(a) + DigitsOf(b)
  {
    if a != [] {
      assert (a + b)[1..] == a[1..] + b;
      DigitsOfConcat(a[1..], b);
    } else {
      assert a + b == b;
    }
  }

  lemma {:induction false} DigitsOfAllDigits(d: string)
    requires AllDigits(d)
    ensures DigitsOf(d) == d
  {
    if d != [] {
      DigitsOfAllDigits(d[1..]);
      assert d == [d[0]] + d[1..];
    }
  }

  /** A slice of an all-digit string is all digits. */
  lemma AllDigitsSlice(d: string, i: nat, j: nat)
    requires AllDigits(d) && i <= j <= |d|
    ensures AllDigits(d[i..j])
  {
    forall k | 0 <= k < j - i ensures IsDigit(d[i..j][k]) {
      assert d[i..j][k] == d[i + k];
    }
  }

  /** A punctuation mark followed by some text has that text's digits. */
  lemma DigitsAfterMark(mark: string, a: string)
    requires mark in ["(", ") ", "-"]
    ensures DigitsOf(mark + a) == DigitsOf(a)
  {
    assert DigitsOf(mark) == [];
    DigitsOfConcat(mark, a);
  }

  /** Three digit groups between the grouping's punctuation keep their digits. */
  lemma DigitsOfGroups(a: string, b: string, c: string)
    requires DigitsOf(a) == a && DigitsOf(b) == b && DigitsOf(c) == c
    ensures DigitsOf("(" + (a + (") " + (b + ("-" + c))))) == a + b + c
  {
    var t3 := "-" + c;
    assert DigitsOf(t3) == c by { DigitsAfterMark("-", c); }
    var t2 := b + t3;
    assert DigitsOf(t2) == b + c by { DigitsOfConcat(b, t3); }
    var t1 := ") " + t2;
    assert DigitsOf(t1) == b + c by { DigitsAfterMark(") ", t2); }
    var t0 := a + t1;
    assert DigitsOf(t0) == a + (b + c) by { DigitsOfConcat(a, t1); }
    assert DigitsOf("(" + t0) == a + (b + c) by { DigitsAfterMark("(", t0); }
    assert a + (b + c) == a + b + c;
  }

  /** The grouping adds four punctuation characters and keeps the ten digits. */
  lemma GroupedKeepsDigits(d: string)
    requires |d| == 10 && AllDigits(d)
    ensures |Grouped(d)| == 14 && DigitsOf(Grouped(d)) == d
  {
    var a, b, c := d[..3], d[3..6], d[6..];
    AllDigitsSlice(d, 0, 3);
    AllDigitsSlice(d, 3, 6);
    AllDigitsSlice(d, 6, 10);
    assert d[0..3] == a && d[6..10] == c;
    assert Grouped(d) == "(" + (a + (") " + (b + ("-" + c))));
    DigitsOfAllDigits(a);
    DigitsOfAllDigits(b);
    DigitsOfAllDigits(c);
    DigitsOfGroups(a, b, c);
    assert d == a + b + c;
  }

  /** Formatting never changes the digits of a phone, nor their order. */
  lemma FormatPhoneKeepsDigits(s: string)
    requires s != ""
    ensures DigitsOf(FormatPhone(Some(s))) == DigitsOf(s)
  {
    match FirstDigitRun(s, 0)
    case None =>
    case Some(i) =>
      var pre, d, post := s[..i], s[i..i + 10], s[i + 10..];
      GroupedKeepsDigits(d);
      DigitsOfAllDigits(d);
      DigitsOfConcat(pre, Grouped(d));
      DigitsOfConcat(pre + Grouped(d), post);
      DigitsOfConcat(pre, d);
      DigitsOfConcat(pre + d, post);
      assert s == pre + d + post;
  }

  /**
   * A non-empty phone without ten consecutive digits is kept as it is;
   * otherwise only the first run changes: it is grouped as `(ddd) ddd-dddd`,
   * and the text before and after it is kept.
   */
  lemma FormatPhoneFrame(s: string)
    requires s != ""
    ensures (forall j: nat :: !DigitRunAt(s, j)) ==> FormatPhone(Some(s)) == s
    ensures forall i: nat :: DigitRunAt(s, i) && (forall j: nat :: j < i ==> !DigitRunAt(s, j)) ==>
              var r := FormatPhone(Some(s));
              |r| == |s| + 4 && r[..i] == s[..i] && r[i..i + 14] == Grouped(s[i..i + 10])
              && r[i + 14..] == s[i + 10..]
  {
    match FirstDigitRun(s, 0)
    case None =>
    case Some(i) =>
      var r := FormatPhone(Some(s));
      var pre, d, post := s[..i], s[i..i + 10], s[i + 10..];
      assert |Grouped(d)| == 14;
      assert r == pre + Grouped(d) + post;
      assert r[..i] == pre;
      assert r[i..i + 14] == Grouped(d);
      assert r[i + 14..] == post;
  }

  /** The example the table shows: ten bare digits become `(555) 123-4567`. */
  lemma FormatPhoneExample()
    ensures FormatPhone(Some("5551234567")) == "(555) 123-4567"
  {
    var s := "5551234567";
    assert s[0..10] == s;
    assert DigitRunAt(s, 0);
    FormatPhoneFrame(s);
    var r := FormatPhone(Some(s));
    assert r == r[0..14];
    GroupedExample();
  }

  lemma GroupedExample()
    ensures Grouped("5551234567") == "(555) 123-4567"
  {
    var s := "5551234567";
    assert s[..3] == "555" && s[3..6] == "123" && s[6..] == "4567";
  }

  /** A missing or empty phone shows a dash. */
  lemma FormatPhoneMissing()
    ensures FormatPhone(None) == "-" && FormatPhone(Some("")) == "-"
  {
  }

  // ---------------------------------------------------------------------------
  // Badge classes
  // ---------------------------------------------------------------------------

  /** `_getDepartmentClass`: `analytics` in any case gets its own class, everything else the tech class. */
  function DepartmentClass(department: Option<string>): (r: string)
    ensures r == "department-analytics" <==> department.Some? && Lower(department.value) == "analytics"
    ensures r != "department-analytics" ==> r == "department-tech"
  {
    match department
    case None => "department-tech"
    case Some(d) =>
      var key := Lower(d);
      if key == "tech" then "department-tech"
      else if key == "analytics" then "department-analytics"
      else "department-tech"
  }

  /** `_getPositionClass`: `medior` and `senior` in any case get their own class, everything else junior. */
  function PositionClass(position: Option<string>): (r: string)
    ensures r == "position-medior" <==> position.Some? && Lower(position.value) == "medior"
    ensures r == "position-senior" <==> position.Some? && Lower(position.value) == "senior"
    ensures r != "position-medior" && r != "position-senior" ==> r == "position-junior"
  {
    match position
    case None => "position-junior"
    case Some(p) =>
      var key := Lower(p);
      if key == "junior" then "position-junior"
      else if key == "medior" then "position-medior"
      else if key == "senior" then "position-senior"
      else "position-junior"
  }

  /** The class depends only on the lower-cased value: `Analytics` and `ANALYTICS` agree. */
  lemma ClassesIgnoreCase(a: string, b: string)
    requires Lower(a) == Lower(b)
    ensures DepartmentClass(Some(a)) == DepartmentClass(Some(b))
    ensures PositionClass(Some(a)) == PositionClass(Some(b))
  {
  }

  // ---------------------------------------------------------------------------
  // The delete confirmation
  // ---------------------------------------------------------------------------

  class EmployeeTableElement {
    var employees: Option<seq<Employee>>
    var loading: bool
    var currentPage: int
    var itemsPerPage: int
    var employeeToDelete: Option<Employee>
    var deleteModalOpen: bool
    var deleteLoading: bool

    /** The properties the delete handlers never touch. */
    ghost function Listing(): (Option<seq<Employee>>, bool, int, int)
      reads this
    {
      (employees, loading, currentPage, itemsPerPage)
    }

    /** The modal is open exactly while a record is chosen for deletion. */
    ghost predicate ModalConsistent()
      reads this
    {
      deleteModalOpen <==> employeeToDelete.Some?
    }

    constructor()
      ensures employees == Some([]) && !loading && currentPage == 1 && itemsPerPage == 10
      ensures employeeToDelete == None && !deleteModalOpen && !deleteLoading
      ensures ModalConsistent()
    {
      employees := Some([]);
      loading := false;
      currentPage := 1;
      itemsPerPage := 10;
      employeeToDelete := None;
      deleteModalOpen := false;
      deleteLoading := false;
    }

    /** `_handleDelete(employee)`: choose the record and open the modal. */
    method HandleDelete(employee: Employee)
      modifies this
      ensures employeeToDelete == Some(employee) && deleteModalOpen && deleteLoading == old(deleteLoading)
      ensures Listing() == old(Listing()) && ModalConsistent()
    {
      employeeToDelete := Some(employee);
      deleteModalOpen := true;
    }

    /**
     * `_handleDeleteConfirmed`: start loading and emit the chosen record, which may be `null`;
     * a confirmation from the open modal of a consistent element always emits a record.
     */
    method HandleDeleteConfirmed() returns (detail: Option<Employee>)
      modifies this
      ensures deleteLoading && detail == employeeToDelete
      ensures employeeToDelete == old(employeeToDelete) && deleteModalOpen == old(deleteModalOpen)
      ensures Listing() == old(Listing())
      ensures old(ModalConsistent()) ==> ModalConsistent()
      ensures old(ModalConsistent()) && deleteModalOpen ==> detail.Some?
    {
      deleteLoading := true;
      detail := employeeToDelete;
    }

    /** `_handleDeleteCancelled`: forget the record, close the modal, stop loading. */
    method HandleDeleteCancelled()
      modifies this
      ensures employeeToDelete == None && !deleteModalOpen && !deleteLoading
      ensures Listing() == old(Listing()) && ModalConsistent()
    {
      employeeToDelete := None;
      deleteModalOpen := false;
      deleteLoading := false;
    }

    /** `closeDeleteModal`: the same reset, called by the page once the delete has been dispatched. */
    method CloseDeleteModal()
      modifies this
      ensures employeeToDelete == None && !deleteModalOpen && !deleteLoading
      ensures Listing() == old(Listing()) && ModalConsistent()
    {
      HandleDeleteCancelled();
    }
  }
}

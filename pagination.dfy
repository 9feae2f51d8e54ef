/**
 * The pagination control: the page count, the "showing start-end of total"
 * range, the window of page buttons, the guard on page changes and the
 * choice of first/last buttons and ellipses.
 *
 * JavaScript numbers are modelled as integers; `Math.floor(x / 2)` is
 * Dafny's `/` by a positive divisor, which rounds down for every sign.
 */
module Pagination {
  import opened Wrappers
  import opened Text

  /** The component's properties. */
  datatype Props = Props(currentPage: int, totalItems: int, itemsPerPage: int, maxVisiblePages: int)

  /** Page 1, no items, ten per page, five page buttons. */
  const Defaults := Props(1, 0, 10, 5)

  /** `Math.ceil(totalItems / itemsPerPage)`. */
  function TotalPages(p: Props): int
    requires p.itemsPerPage > 0
  {
    (p.totalItems + p.itemsPerPage - 1) / p.itemsPerPage
  }

  /** The page count is the least number of pages that holds every item. */
  lemma TotalPagesBounds(p: Props)
    requires p.itemsPerPage > 0
    ensures (TotalPages(p) - 1) * p.itemsPerPage < p.totalItems <= TotalPages(p) * p.itemsPerPage
    ensures p.totalItems >= 0 ==> (TotalPages(p) == 0 <==> p.totalItems == 0)
  {
    var n, t := p.itemsPerPage, p.totalItems;
    var q, r := (t + n - 1) / n, (t + n - 1) % n;
    assert t + n - 1 == q * n + r && 0 <= r < n;
    assert (q - 1) * n == q * n - n;
    if t >= 0 && q == 0 {
      assert t + n - 1 == r;
    }
    if t > 0 {
      assert q * n >= t;
    }
  }

  /** `(currentPage - 1) * itemsPerPage + 1`, the number of the first item shown. */
  function StartItem(p: Props): int
  {
    (p.currentPage - 1) * p.itemsPerPage + 1
  }

  /** `Math.min(currentPage * itemsPerPage, totalItems)`, the number of the last item shown. */
  function EndItem(p: Props): int
  {
    Min(p.currentPage * p.itemsPerPage, p.totalItems)
  }

  /** On an existing page the range is non-empty, within the items, and at most a page long. */
  lemma ItemRange(p: Props)
    requires p.itemsPerPage > 0 && 1 <= p.currentPage <= TotalPages(p)
    ensures 1 <= StartItem(p) <= EndItem(p) <= p.totalItems
    ensures EndItem(p) - StartItem(p) + 1 == Min(p.itemsPerPage, p.totalItems - (p.currentPage - 1) * p.itemsPerPage)
  {
    TotalPagesBounds(p);
    var n, c, t := p.itemsPerPage, p.currentPage, TotalPages(p);
    assert (c - 1) * n <= (t - 1) * n by {
      assert (t - 1) * n - (c - 1) * n == (t - c) * n;
    }
    assert c * n == (c - 1) * n + n;
    assert (c - 1) * n >= 0;
  }

  /** `Array.from({length: count}, (_, i) => from + i)`; a negative length gives an empty array. */
  function Range(from: int, count: int): (r: seq<int>)
    ensures |r| == Max(count, 0)
    ensures forall i :: 0 <= i < |r| ==> r[i] == from + i
  {
    seq(Max(count, 0), i => from + i)
  }

  /** `_getVisiblePages` on the page count, the current page and the number of buttons. */
  function Window(totalPages: int, current: int, maxVisible: int): seq<int>
  {
    if totalPages <= maxVisible then Range(1, totalPages)
    else
      var half := maxVisible / 2;
      var start := Max(1, current - half);
      var end := Min(totalPages, start + maxVisible - 1);
      var start' := if end - start + 1 < maxVisible then Max(1, end - maxVisible + 1) else start;
      Range(start', end - start' + 1)
  }

  function VisiblePages(p: Props): seq<int>
    requires p.itemsPerPage > 0
  {
    Window(TotalPages(p), p.currentPage, p.maxVisiblePages)
  }

  /** Ten pages and five buttons: the window is clamped at the start and at the end. */
  lemma TenPagesExample()
    ensures VisiblePages(Props(1, 100, 10, 5)) == [1, 2, 3, 4, 5]
    ensures VisiblePages(Props(9, 100, 10, 5)) == [6, 7, 8, 9, 10]
  {
    assert TotalPages(Props(1, 100, 10, 5)) == 10;
    assert TotalPages(Props(9, 100, 10, 5)) == 10;
  }

  /** When every page fits, the window is exactly 1..totalPages. */
  lemma WindowAll(totalPages: int, current: int, maxVisible: int)
    requires totalPages <= maxVisible
    ensures var w := Window(totalPages, current, maxVisible);
            |w| == Max(totalPages, 0) && forall i :: 0 <= i < |w| ==> w[i] == i + 1
  {
  }

  /**
   * Otherwise it is `maxVisible` consecutive pages inside 1..totalPages,
   * starting `maxVisible / 2` before the current page unless clamped at an end.
   */
  lemma WindowShape(totalPages: int, current: int, maxVisible: int)
    requires 1 <= maxVisible < totalPages
    ensures var w := Window(totalPages, current, maxVisible);
            |w| == maxVisible
            && w[0] == Max(1, Min(current - maxVisible / 2, totalPages - maxVisible + 1))
            && 1 <= w[0] && w[|w| - 1] <= totalPages
            && forall i :: 0 <= i < |w| ==> w[i] == w[0] + i
  {
  }

  /** A window with at least one button holds only existing pages, in increasing order. */
  lemma WindowWithin(totalPages: int, current: int, maxVisible: int)
    requires maxVisible >= 1
    ensures var w := Window(totalPages, current, maxVisible);
            (forall i :: 0 <= i < |w| ==> 1 <= w[i] <= totalPages)
            && (forall i :: 0 <= i < |w| ==> w[i] == w[0] + i)
            && (totalPages >= 1 ==> |w| >= 1)
  {
    if totalPages > maxVisible {
      WindowShape(totalPages, current, maxVisible);
    }
  }

  /** An existing current page is always among the buttons. */
  lemma WindowHasCurrent(totalPages: int, current: int, maxVisible: int)
    requires maxVisible >= 1 && 1 <= current <= totalPages
    ensures current in Window(totalPages, current, maxVisible)
  {
    var w := Window(totalPages, current, maxVisible);
    if totalPages <= maxVisible {
      assert w[current - 1] == current;
    } else {
      WindowShape(totalPages, current, maxVisible);
      assert w[current - w[0]] == current;
    }
  }

  /** `_handlePageChange(page)`: the page the event carries, or nothing. */
  function PageChange(p: Props, page: int): Option<int>
    requires p.itemsPerPage > 0
  {
    if 1 <= page <= TotalPages(p) && page != p.currentPage then Some(page) else None
  }

  /**
   * Only another existing page is emitted; "previous" on page 1 and "next" on
   * the last page emit nothing; every other visible page button does emit.
   */
  lemma PageChangeGuard(p: Props, page: int)
    requires p.itemsPerPage > 0
    ensures PageChange(p, page).Some? ==> PageChange(p, page).value == page && page != p.currentPage
                                          && 1 <= page <= TotalPages(p)
    ensures p.currentPage == 1 ==> PageChange(p, p.currentPage - 1) == None
    ensures p.currentPage >= TotalPages(p) ==> PageChange(p, p.currentPage + 1) == None
    ensures p.maxVisiblePages >= 1 ==>
              forall x :: x in VisiblePages(p) && x != p.currentPage ==> PageChange(p, x) == Some(x)
  {
    if p.maxVisiblePages >= 1 {
      WindowWithin(TotalPages(p), p.currentPage, p.maxVisiblePages);
    }
  }

  /** What `render` draws, besides the page buttons themselves. */
  datatype Controls = Controls(
    pages: seq<int>,
    firstButton: bool,
    firstEllipsis: bool,
    lastEllipsis: bool,
    lastButton: bool,
    prevDisabled: bool,
    nextDisabled: bool,
    start: int,
    end: int)

  /**
   * `render`: nothing when there are no items; otherwise the window, the
   * button and ellipsis flags (an out-of-range `visiblePages[0]` compares as
   * false), the disabled arrows and the displayed range.
   */
  function Render(p: Props): Option<Controls>
    requires p.itemsPerPage > 0
  {
    if p.totalItems == 0 then None
    else
      var v := VisiblePages(p);
      var t := TotalPages(p);
      Some(Controls(v,
                    |v| > 0 && v[0] > 1,
                    |v| > 0 && v[0] > 2,
                    |v| > 0 && v[|v| - 1] < t - 1,
                    |v| > 0 && v[|v| - 1] < t,
                    p.currentPage == 1,
                    p.currentPage == t,
                    StartItem(p),
                    EndItem(p)))
  }

  /**
   * With items and at least one button, page 1 and the last page are each
   * shown exactly once (in the window or as an extra button), and an
   * ellipsis appears exactly where a page next to that button is hidden.
   */
  lemma RenderEnds(p: Props)
    requires p.itemsPerPage > 0 && p.totalItems > 0 && p.maxVisiblePages >= 1
    ensures Render(p).Some?
    ensures var c, t := Render(p).value, TotalPages(p);
            (c.firstButton <==> 1 !in c.pages)
            && (c.lastButton <==> t !in c.pages)
            && (c.firstEllipsis <==> c.firstButton && 2 !in c.pages)
            && (c.lastEllipsis <==> c.lastButton && t - 1 !in c.pages)
  {
    TotalPagesBounds(p);
    var t := TotalPages(p);
    var v := VisiblePages(p);
    WindowWithin(t, p.currentPage, p.maxVisiblePages);
    var last := |v| - 1;
    assert v[last] == v[0] + last;
    assert 1 in v <==> v[0] == 1 by {
      if 1 in v {
        var i :| 0 <= i < |v| && v[i] == 1;
      }
    }
    assert t in v <==> v[last] == t by {
      if t in v {
        var i :| 0 <= i < |v| && v[i] == t;
      }
    }
    assert v[0] > 1 ==> (2 in v <==> v[0] == 2) by {
      if v[0] > 1 && 2 in v {
        var i :| 0 <= i < |v| && v[i] == 2;
      }
    }
    assert v[last] < t ==> (t - 1 in v <==> v[last] == t - 1) by {
      if v[last] < t && t - 1 in v {
        var i :| 0 <= i < |v| && v[i] == t - 1;
      }
      if v[last] == t - 1 {
        assert v[last] in v;
      }
    }
  }
}

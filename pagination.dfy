/** The page selector of the shared `Pagination` component: the window of
    page numbers with ellipses (`getPageNumbers`) and the conditions that
    disable the previous and next buttons.

    `PageNumbers` states the result directly: an optional lead (`1` and an
    ellipsis), the window `start..end`, and an optional trail (an ellipsis
    and the last page). `GetPageNumbers` is the loop of the component, proved
    to build the same list. */
module Pagination {
  import opened JsCore

  datatype PageItem = Page(n: int) | Ellipsis

  /** `half = floor(maxVisible / 2)`; Dafny's `/` is the floor for a positive
      divisor. */
  function Half(maxVisible: int): int {
    maxVisible / 2
  }

  /** The start of the window before it is moved back. */
  function FirstStart(currentPage: int, maxVisible: int): int {
    Max(1, currentPage - Half(maxVisible))
  }

  function WindowEnd(currentPage: int, totalPages: int, maxVisible: int): int {
    Min(totalPages, FirstStart(currentPage, maxVisible) + maxVisible - 1)
  }

  /** The start after a window cut short by the last page is moved back. */
  function WindowStart(currentPage: int, totalPages: int, maxVisible: int): int {
    var start := FirstStart(currentPage, maxVisible);
    var end := WindowEnd(currentPage, totalPages, maxVisible);
    if end - start + 1 < maxVisible then Max(1, end - maxVisible + 1) else start
  }

  /** The pages `a..b`, empty when `a > b`. */
  function Range(a: int, b: int): (r: seq<PageItem>)
    ensures |r| == if a <= b then b - a + 1 else 0
    ensures forall k :: 0 <= k < |r| ==> r[k] == Page(a + k)
    decreases b - a
  {
    if a > b then [] else [Page(a)] + Range(a + 1, b)
  }

  function Lead(start: int): seq<PageItem> {
    if start > 2 then [Page(1), Ellipsis]
    else if start > 1 then [Page(1)]
    else []
  }

  function Trail(end: int, totalPages: int): seq<PageItem> {
    if end < totalPages - 1 then [Ellipsis, Page(totalPages)]
    else if end < totalPages then [Page(totalPages)]
    else []
  }

  /** The list `getPageNumbers` returns. */
  function PageNumbers(currentPage: int, totalPages: int, maxVisible: int): seq<PageItem> {
    var start := WindowStart(currentPage, totalPages, maxVisible);
    var end := WindowEnd(currentPage, totalPages, maxVisible);
    Lead(start) + Range(start, end) + Trail(end, totalPages)
  }

  lemma RangeSnoc(a: int, b: int)
    requires a <= b + 1
    ensures Range(a, b + 1) == Range(a, b) + [Page(b + 1)]
  {
  }

  /** The `for` loop of `getPageNumbers`: pushes the pages `start..end`. */
  method PushWindow(pages: seq<PageItem>, start: int, end: int) returns (r: seq<PageItem>)
    ensures r == pages + Range(start, end)
  {
    r := pages;
    var i := start;
    while i <= end
      invariant start <= i && (i <= end + 1 || i == start)
      invariant r == pages + Range(start, i - 1)
      decreases end - i
    {
      RangeSnoc(start, i - 1);
      r := r + [Page(i)];
      i := i + 1;
    }
    assert Range(start, i - 1) == Range(start, end);
  }

  /** `getPageNumbers`, with its mutable start. */
  method GetPageNumbers(currentPage: int, totalPages: int, maxVisible: int) returns (pages: seq<PageItem>)
    ensures pages == PageNumbers(currentPage, totalPages, maxVisible)
  {
    pages := [];
    var half := maxVisible / 2;
    var start := Max(1, currentPage - half);
    var end := Min(totalPages, start + maxVisible - 1);
    assert start == FirstStart(currentPage, maxVisible) && end == WindowEnd(currentPage, totalPages, maxVisible);
    if end - start + 1 < maxVisible {
      start := Max(1, end - maxVisible + 1);
    }
    assert start == WindowStart(currentPage, totalPages, maxVisible);
    if start > 1 {
      pages := pages + [Page(1)];
      if start > 2 {
        pages := pages + [Ellipsis];
      }
    }
    assert pages == Lead(start);
    pages := PushWindow(pages, start, end);
    ghost var window := pages;
    if end < totalPages {
      if end < totalPages - 1 {
        pages := pages + [Ellipsis];
      }
      pages := pages + [Page(totalPages)];
    }
    assert pages == window + Trail(end, totalPages);
  }

  // ---------------------------------------------------------------------------
  // Properties of the window

  /** With at least one visible slot the window starts at 1 or later, ends at
      the last page or earlier, holds at most `maxVisible` pages, and is not
      empty whenever it starts after page 1. */
  lemma WindowBounds(currentPage: int, totalPages: int, maxVisible: int)
    requires maxVisible >= 1
    ensures var start := WindowStart(currentPage, totalPages, maxVisible);
      var end := WindowEnd(currentPage, totalPages, maxVisible);
      && 1 <= start && end <= totalPages
      && end - start + 1 <= maxVisible
      && (start > 1 ==> start <= end)
      && (end < totalPages ==> start <= end)
  {
  }

  /** Few pages are all shown, in order, without an ellipsis. */
  lemma SmallTotalShowsAll(currentPage: int, totalPages: int, maxVisible: int)
    requires 0 <= totalPages <= maxVisible
    ensures PageNumbers(currentPage, totalPages, maxVisible) == Range(1, totalPages)
    ensures Ellipsis !in PageNumbers(currentPage, totalPages, maxVisible)
  {
    assert WindowEnd(currentPage, totalPages, maxVisible) == totalPages;
    assert WindowStart(currentPage, totalPages, maxVisible) == 1;
    var r := Range(1, totalPages);
    assert Lead(1) + r + Trail(totalPages, totalPages) == r;
    forall k | 0 <= k < |r| ensures r[k] != Ellipsis {
    }
  }

  /** No pages, nothing to show. */
  lemma NoPagesNoItems(currentPage: int, maxVisible: int)
    requires maxVisible >= 1
    ensures PageNumbers(currentPage, 0, maxVisible) == []
  {
    SmallTotalShowsAll(currentPage, 0, maxVisible);
  }

  /** A current page within range lies inside the window, so it is shown. */
  lemma CurrentPageShown(currentPage: int, totalPages: int, maxVisible: int)
    requires 1 <= currentPage <= totalPages && maxVisible >= 1
    ensures Page(currentPage) in PageNumbers(currentPage, totalPages, maxVisible)
  {
    var start := WindowStart(currentPage, totalPages, maxVisible);
    var end := WindowEnd(currentPage, totalPages, maxVisible);
    assert start <= currentPage <= end;
    var w := Range(start, end);
    assert w[currentPage - start] == Page(currentPage);
    var r := Lead(start) + w + Trail(end, totalPages);
    assert r[|Lead(start)| + currentPage - start] == Page(currentPage);
  }

  /** The numbers of a list go up strictly from left to right. */
  predicate Increasing(r: seq<PageItem>) {
    forall i, j :: 0 <= i < j < |r| && r[i].Page? && r[j].Page? ==> r[i].n < r[j].n
  }

  /** Every number is a page of the list. */
  predicate WithinPages(r: seq<PageItem>, totalPages: int) {
    forall k :: 0 <= k < |r| && r[k].Page? ==> 1 <= r[k].n <= totalPages
  }

  predicate AllBelow(r: seq<PageItem>, bound: int) {
    forall k :: 0 <= k < |r| && r[k].Page? ==> r[k].n < bound
  }

  predicate AllAtLeast(r: seq<PageItem>, bound: int) {
    forall k :: 0 <= k < |r| && r[k].Page? ==> r[k].n >= bound
  }

  lemma IncreasingConcat(a: seq<PageItem>, b: seq<PageItem>, bound: int)
    requires Increasing(a) && Increasing(b) && AllBelow(a, bound) && AllAtLeast(b, bound)
    ensures Increasing(a + b)
  {
    forall i, j | 0 <= i < j < |a + b| && (a + b)[i].Page? && (a + b)[j].Page?
      ensures (a + b)[i].n < (a + b)[j].n
    {
      if j < |a| {
        assert (a + b)[i] == a[i] && (a + b)[j] == a[j];
      } else if i >= |a| {
        assert (a + b)[i] == b[i - |a|] && (a + b)[j] == b[j - |a|];
      } else {
        assert (a + b)[i] == a[i] && (a + b)[j] == b[j - |a|];
      }
    }
  }

  lemma WithinConcat(a: seq<PageItem>, b: seq<PageItem>, totalPages: int)
    requires WithinPages(a, totalPages) && WithinPages(b, totalPages)
    ensures WithinPages(a + b, totalPages)
  {
    forall k | 0 <= k < |a + b| && (a + b)[k].Page? ensures 1 <= (a + b)[k].n <= totalPages {
      if k < |a| {
        assert (a + b)[k] == a[k];
      } else {
        assert (a + b)[k] == b[k - |a|];
      }
    }
  }

  /** The numbers shown are pages of the list and strictly increasing, so no
      page is shown twice. */
  lemma PageNumbersIncreasing(currentPage: int, totalPages: int, maxVisible: int)
    requires maxVisible >= 1
    ensures Increasing(PageNumbers(currentPage, totalPages, maxVisible))
    ensures WithinPages(PageNumbers(currentPage, totalPages, maxVisible), totalPages)
  {
    WindowBounds(currentPage, totalPages, maxVisible);
    var start := WindowStart(currentPage, totalPages, maxVisible);
    var end := WindowEnd(currentPage, totalPages, maxVisible);
    var lead, w, trail := Lead(start), Range(start, end), Trail(end, totalPages);
    LeadParts(start, end + 1, totalPages);
    RangeParts(start, end, totalPages);
    TrailParts(end, totalPages);
    IncreasingConcat(lead, w, start);
    AllBelowConcat(lead, w, end + 1);
    IncreasingConcat(lead + w, trail, end + 1);
    WithinConcat(lead, w, totalPages);
    WithinConcat(lead + w, trail, totalPages);
  }

  lemma LeadParts(start: int, bound: int, totalPages: int)
    requires start > 1 ==> start <= bound && start <= totalPages
    ensures var lead := Lead(start);
      Increasing(lead) && AllBelow(lead, start) && AllBelow(lead, bound) && WithinPages(lead, totalPages)
  {
  }

  lemma RangeParts(a: int, b: int, totalPages: int)
    requires 1 <= a && b <= totalPages
    ensures var w := Range(a, b);
      Increasing(w) && AllAtLeast(w, a) && AllBelow(w, b + 1) && WithinPages(w, totalPages)
  {
  }

  lemma TrailParts(end: int, totalPages: int)
    requires end < totalPages ==> end >= 1
    ensures var trail := Trail(end, totalPages);
      Increasing(trail) && AllAtLeast(trail, end + 1) && WithinPages(trail, totalPages)
  {
  }

  lemma AllBelowConcat(a: seq<PageItem>, b: seq<PageItem>, bound: int)
    requires AllBelow(a, bound) && AllBelow(b, bound)
    ensures AllBelow(a + b, bound)
  {
    forall k | 0 <= k < |a + b| && (a + b)[k].Page? ensures (a + b)[k].n < bound {
      if k < |a| {
        assert (a + b)[k] == a[k];
      } else {
        assert (a + b)[k] == b[k - |a|];
      }
    }
  }

  /** The position of each entry of the list in its three parts. */
  lemma PageNumbersAt(currentPage: int, totalPages: int, maxVisible: int, k: int)
    requires 0 <= k < |PageNumbers(currentPage, totalPages, maxVisible)|
    ensures var start := WindowStart(currentPage, totalPages, maxVisible);
      var end := WindowEnd(currentPage, totalPages, maxVisible);
      var lead, w := Lead(start), Range(start, end);
      PageNumbers(currentPage, totalPages, maxVisible)[k] ==
        if k < |lead| then lead[k]
        else if k < |lead| + |w| then Page(start + k - |lead|)
        else Trail(end, totalPages)[k - |lead| - |w|]
  {
  }

  /** The list starts with page 1 and ends with the last page. */
  lemma FirstAndLastPages(currentPage: int, totalPages: int, maxVisible: int)
    requires maxVisible >= 1 && totalPages >= 1
    ensures var r := PageNumbers(currentPage, totalPages, maxVisible);
      |r| >= 1 && r[0] == Page(1) && r[|r| - 1] == Page(totalPages)
  {
    WindowBounds(currentPage, totalPages, maxVisible);
    var start := WindowStart(currentPage, totalPages, maxVisible);
    var end := WindowEnd(currentPage, totalPages, maxVisible);
    var r := PageNumbers(currentPage, totalPages, maxVisible);
    assert end >= 1;
    assert |r| >= 1;
    PageNumbersAt(currentPage, totalPages, maxVisible, 0);
    PageNumbersAt(currentPage, totalPages, maxVisible, |r| - 1);
  }

  /** Neighbouring numbers with no ellipsis between them are consecutive
      pages. */
  predicate Consecutive(r: seq<PageItem>) {
    forall k :: 0 <= k < |r| - 1 && r[k].Page? && r[k + 1].Page? ==> r[k + 1].n == r[k].n + 1
  }

  /** Every ellipsis stands between two numbers and hides at least one page. */
  predicate EllipsesHidePages(r: seq<PageItem>) {
    forall k :: 0 <= k < |r| && r[k] == Ellipsis ==>
      0 < k < |r| - 1 && r[k - 1].Page? && r[k + 1].Page? && r[k + 1].n >= r[k - 1].n + 2
  }

  /** Together with the first and last entries, these say that each page
      from 1 to the last is either shown or hidden by an ellipsis, and that
      an ellipsis is shown exactly where at least one page is hidden: after
      page 1 when the window starts after page 2, before the last page when
      it ends before the last page but one. */
  lemma EllipsesMarkGaps(currentPage: int, totalPages: int, maxVisible: int)
    requires maxVisible >= 1
    ensures Consecutive(PageNumbers(currentPage, totalPages, maxVisible))
    ensures EllipsesHidePages(PageNumbers(currentPage, totalPages, maxVisible))
  {
    var r := PageNumbers(currentPage, totalPages, maxVisible);
    forall k | 0 <= k < |r| - 1 && r[k].Page? && r[k + 1].Page? ensures r[k + 1].n == r[k].n + 1 {
      NeighboursConsecutive(currentPage, totalPages, maxVisible, k);
    }
    forall k | 0 <= k < |r| && r[k] == Ellipsis
      ensures 0 < k < |r| - 1 && r[k - 1].Page? && r[k + 1].Page? && r[k + 1].n >= r[k - 1].n + 2
    {
      EllipsisHidesPage(currentPage, totalPages, maxVisible, k);
    }
  }

  lemma NeighboursConsecutive(currentPage: int, totalPages: int, maxVisible: int, k: int)
    requires maxVisible >= 1
    requires var r := PageNumbers(currentPage, totalPages, maxVisible);
      0 <= k < |r| - 1 && r[k].Page? && r[k + 1].Page?
    ensures var r := PageNumbers(currentPage, totalPages, maxVisible);
      r[k + 1].n == r[k].n + 1
  {
    WindowBounds(currentPage, totalPages, maxVisible);
    PageNumbersAt(currentPage, totalPages, maxVisible, k);
    PageNumbersAt(currentPage, totalPages, maxVisible, k + 1);
  }

  lemma EllipsisHidesPage(currentPage: int, totalPages: int, maxVisible: int, k: int)
    requires maxVisible >= 1
    requires var r := PageNumbers(currentPage, totalPages, maxVisible);
      0 <= k < |r| && r[k] == Ellipsis
    ensures var r := PageNumbers(currentPage, totalPages, maxVisible);
      0 < k < |r| - 1 && r[k - 1].Page? && r[k + 1].Page? && r[k + 1].n >= r[k - 1].n + 2
  {
    WindowBounds(currentPage, totalPages, maxVisible);
    var start := WindowStart(currentPage, totalPages, maxVisible);
    var end := WindowEnd(currentPage, totalPages, maxVisible);
    var lead, w := Lead(start), Range(start, end);
    PageNumbersAt(currentPage, totalPages, maxVisible, k);
    if k < |lead| {
      assert k == 1 && start > 2;
      PageNumbersAt(currentPage, totalPages, maxVisible, 0);
      PageNumbersAt(currentPage, totalPages, maxVisible, 2);
    } else {
      assert k == |lead| + |w| && end < totalPages - 1;
      PageNumbersAt(currentPage, totalPages, maxVisible, k - 1);
      PageNumbersAt(currentPage, totalPages, maxVisible, k + 1);
    }
  }

  // ---------------------------------------------------------------------------
  // The previous and next buttons

  predicate PreviousDisabled(currentPage: int) {
    currentPage == 1
  }

  /** The next button as written: disabled only on the last page. */
  predicate NextDisabledAsWritten(currentPage: int, totalPages: int) {
    currentPage == totalPages
  }

  /** With no pages at all, the first page's next button stays enabled and
      asks for page 2. */
  lemma NextEnabledWithoutPages()
    ensures !NextDisabledAsWritten(1, 0) && !WithinPages([Page(1 + 1)], 0)
  {
    var requested := [Page(1 + 1)];
    assert requested[0].Page? && requested[0].n > 0;
  }

  /** The next button as evidently intended: disabled on the last page and
      whenever there is no later page. */
  predicate NextDisabled(currentPage: int, totalPages: int) {
    currentPage >= totalPages
  }

  /** From a page within range, an enabled button only leads to a page
      within range; the two conditions agree with the written one there, and
      with no pages the intended one disables the button. */
  lemma ButtonsStayInRange(currentPage: int, totalPages: int)
    ensures 1 <= currentPage <= totalPages && !PreviousDisabled(currentPage) ==> 1 <= currentPage - 1 <= totalPages
    ensures !NextDisabled(currentPage, totalPages) ==> currentPage + 1 <= totalPages
    ensures currentPage <= totalPages ==> (NextDisabled(currentPage, totalPages) <==> NextDisabledAsWritten(currentPage, totalPages))
    ensures totalPages <= 0 ==> NextDisabled(1, totalPages)
  {
  }
}

/**
 * The dose-history engine: the module-level state of the page script (the
 * full log, the filtered view and the current page) as one object, with the
 * operations that replace the log, filter it, clear the filter and move
 * between pages. What the last render put on the page is kept in `display`.
 */
module DoseHistory {
  import opened Wrappers
  import opened DoseLog
  import opened LogFilter
  import opened Pagination

  /** What `res.json()` produced for the log request: a JSON array of objects, or any non-array value. */
  datatype Payload = LogArray(entries: seq<LogEntry>) | NotAnArray

  /**
   * The history table and its controls as the last render left them: the rows
   * of the page (none means the empty-state row), the "Page x of y (n records)"
   * figures, and whether the previous and next buttons are disabled.
   */
  datatype Display =
    | NotRendered
    | Shown(rows: seq<LogEntry>, page: int, totalPages: int, records: nat,
            prevDisabled: bool, nextDisabled: bool)

  /** The table for page `page` of `logs` at `size` rows a page. */
  function PageDisplay(logs: seq<LogEntry>, page: int, size: int): (d: Display)
    ensures d.Shown? && d.page == page && d.records == |logs|
    ensures d.totalPages == TotalPages(|logs|, size)
    ensures d.prevDisabled <==> page <= 1
    ensures d.nextDisabled <==> page >= TotalPages(|logs|, size)
  {
    var total := TotalPages(|logs|, size);
    Shown(Page(logs, page, size), page, total, |logs|, page <= 1, page >= total)
  }

  /**
   * The rows of a page in range are the records from `(page - 1) * size` up to
   * `page * size` or the end, at most `size` of them; the empty-state row
   * appears only when there are no records at all.
   */
  lemma PageDisplayRows(logs: seq<LogEntry>, page: int, size: int)
    requires size > 0 && 1 <= page <= TotalPages(|logs|, size)
    ensures (page - 1) * size <= Min(|logs|, page * size)
    ensures PageDisplay(logs, page, size).rows == logs[(page - 1) * size..Min(|logs|, page * size)]
    ensures |PageDisplay(logs, page, size).rows| <= size
    ensures PageDisplay(logs, page, size).rows == [] <==> logs == []
  {
    PageWindow(logs, page, size);
  }

  class Engine {
    /** `allDoseLogs`: every record fetched, replaced wholesale on each fetch. */
    var allLogs: seq<LogEntry>
    /** `filteredDoseLogs`: the records the current filter keeps. */
    var filteredLogs: seq<LogEntry>
    /** `currentPage`, 1-based. */
    var currentPage: int
    /** The table and pagination controls as last rendered. */
    var display: Display
    /** The filter panel the filtered view was computed with. */
    ghost var criteria: FilterCriteria

    /** The filtered view is the full log under the panel it was computed with. */
    ghost predicate Valid()
      reads this
    {
      filteredLogs == Filter(criteria, allLogs)
    }

    /** The state when the script starts: no records and page 1. */
    constructor ()
      ensures Valid()
      ensures allLogs == [] && filteredLogs == [] && currentPage == 1 && display == NotRendered
      ensures criteria == Cleared
    {
      allLogs, filteredLogs, currentPage, display := [], [], 1, NotRendered;
      criteria := Cleared;
    }

    /**
     * `renderCurrentPage`: read the page size, clamp the current page into
     * `1..totalPages` and show that page with its buttons.
     */
    method RenderCurrentPage(rows: Control<Option<int>>)
      requires Valid()
      modifies this`currentPage, this`display
      ensures Valid()
      ensures currentPage == ClampPage(old(currentPage), TotalPages(|filteredLogs|, PageSize(rows)))
      ensures 1 <= currentPage <= TotalPages(|filteredLogs|, PageSize(rows))
      ensures display == PageDisplay(filteredLogs, currentPage, PageSize(rows))
    {
      var size := PageSize(rows);
      var total := TotalPages(|filteredLogs|, size);
      if currentPage > total {
        currentPage := total;
      }
      if currentPage < 1 {
        currentPage := 1;
      }
      var pageLogs := Page(filteredLogs, currentPage, size);
      display := Shown(pageLogs, currentPage, total, |filteredLogs|, currentPage <= 1, currentPage >= total);
    }

    /** `changeRowsPerPage`: back to page 1 at the selector's new size. */
    method ChangeRowsPerPage(rows: Control<Option<int>>)
      requires Valid()
      modifies this`currentPage, this`display
      ensures Valid()
      ensures currentPage == 1
      ensures display == PageDisplay(filteredLogs, 1, PageSize(rows))
    {
      currentPage := 1;
      RenderCurrentPage(rows);
    }

    /** `goToPrevPage`: one page back unless already on the first; on the first nothing changes. */
    method GoToPrevPage(rows: Control<Option<int>>)
      requires Valid()
      modifies this`currentPage, this`display
      ensures Valid()
      ensures old(currentPage) <= 1 ==> currentPage == old(currentPage) && display == old(display)
      ensures old(currentPage) > 1 ==>
                currentPage == ClampPage(old(currentPage) - 1, TotalPages(|filteredLogs|, PageSize(rows))) &&
                display == PageDisplay(filteredLogs, currentPage, PageSize(rows))
      ensures 1 < old(currentPage) <= TotalPages(|filteredLogs|, PageSize(rows)) + 1 ==>
                currentPage == old(currentPage) - 1
    {
      if currentPage > 1 {
        currentPage := currentPage - 1;
        RenderCurrentPage(rows);
      }
    }

    /** `goToNextPage`: one page on unless already on the last; on the last nothing changes. */
    method GoToNextPage(rows: Control<Option<int>>)
      requires Valid()
      modifies this`currentPage, this`display
      ensures Valid()
      ensures old(currentPage) >= TotalPages(|filteredLogs|, PageSize(rows)) ==>
                currentPage == old(currentPage) && display == old(display)
      ensures old(currentPage) < TotalPages(|filteredLogs|, PageSize(rows)) ==>
                currentPage == ClampPage(old(currentPage) + 1, TotalPages(|filteredLogs|, PageSize(rows))) &&
                display == PageDisplay(filteredLogs, currentPage, PageSize(rows))
      ensures 1 <= old(currentPage) < TotalPages(|filteredLogs|, PageSize(rows)) ==>
                currentPage == old(currentPage) + 1
    {
      var size := PageSize(rows);
      var total := TotalPages(|filteredLogs|, size);
      if currentPage < total {
        currentPage := currentPage + 1;
        RenderCurrentPage(rows);
      }
    }

    /**
     * The part of `loadDoseLogs` after the request: an array replaces the
     * log, anything else empties it; the view is the whole log from page 1.
     */
    method LoadDoseLogs(payload: Payload, rows: Control<Option<int>>)
      requires Valid()
      modifies this
      ensures Valid()
      ensures allLogs == (if payload.LogArray? then payload.entries else [])
      ensures filteredLogs == allLogs && currentPage == 1 && criteria == Cleared
      ensures display == PageDisplay(allLogs, 1, PageSize(rows))
      ensures payload.NotAnArray? ==> display.rows == []
    {
      allLogs := if payload.LogArray? then payload.entries else [];
      filteredLogs := allLogs;
      criteria := Cleared;
      FilterCleared(allLogs);
      currentPage := 1;
      RenderCurrentPage(rows);
    }

    /**
     * `applyFilters`: one pass over the full log keeping the records the
     * panel admits, in order; then back to page 1.
     */
    method ApplyFilters(c: FilterCriteria, rows: Control<Option<int>>)
      requires Valid()
      modifies this
      ensures Valid()
      ensures allLogs == old(allLogs)
      ensures filteredLogs == Filter(c, allLogs) && criteria == c
      ensures currentPage == 1
      ensures display == PageDisplay(filteredLogs, 1, PageSize(rows))
    {
      var kept: seq<LogEntry> := [];
      var i := 0;
      while i < |allLogs|
        invariant 0 <= i <= |allLogs|
        invariant kept == Filter(c, allLogs[..i])
      {
        var e := allLogs[i];
        assert allLogs[..i + 1][..i] == allLogs[..i];
        if Keeps(c, e) {
          kept := kept + [e];
        }
        i := i + 1;
      }
      assert allLogs[..|allLogs|] == allLogs;
      filteredLogs := kept;
      criteria := c;
      currentPage := 1;
      RenderCurrentPage(rows);
    }

    /**
     * `clearFilters`: reset the panel (returned as the panel now reads),
     * show the whole log again and go back to page 1.
     */
    method ClearFilters(rows: Control<Option<int>>) returns (panel: FilterCriteria)
      requires Valid()
      modifies this
      ensures Valid()
      ensures panel == Cleared
      ensures allLogs == old(allLogs)
      ensures filteredLogs == allLogs && criteria == Cleared
      ensures currentPage == 1
      ensures display == PageDisplay(allLogs, 1, PageSize(rows))
    {
      panel := Cleared;
      filteredLogs := allLogs;
      criteria := Cleared;
      FilterCleared(allLogs);
      currentPage := 1;
      RenderCurrentPage(rows);
    }
  }

  /** The filtered view of a valid engine is an order-preserving subsequence of its log. */
  lemma FilteredIsSubsequence(e: Engine)
    requires e.Valid()
    ensures IsSubsequence(e.filteredLogs, e.allLogs)
    ensures forall x :: x in e.filteredLogs ==> x in e.allLogs && Keeps(e.criteria, x)
  {
    FilterIsSubsequence(e.criteria, e.allLogs);
    forall x | x in e.filteredLogs ensures x in e.allLogs && Keeps(e.criteria, x) {
      FilterMembership(e.criteria, e.allLogs, x);
    }
  }

  /** Clearing the filter twice leaves the state the first clear left. */
  method ClearFiltersIsIdempotent(e: Engine, rows: Control<Option<int>>)
    requires e.Valid()
    modifies e
  {
    var first := e.ClearFilters(rows);
    var logs, view, page := e.filteredLogs, e.display, e.currentPage;
    var second := e.ClearFilters(rows);
    assert first == second;
    assert e.filteredLogs == logs && e.display == view && e.currentPage == page;
  }

  /** Re-applying the panel in force leaves the filtered view as it is. */
  method ReapplyingFilterChangesNothing(e: Engine, c: FilterCriteria, rows: Control<Option<int>>)
    requires e.Valid() && e.criteria == c
    modifies e
  {
    var logs := e.filteredLogs;
    e.ApplyFilters(c, rows);
    FilterIdempotent(c, e.allLogs);
    assert e.filteredLogs == logs;
  }

  /**
   * 25 records at 10 a page: page 1 shows records 1-10 of 3 pages with only
   * "next" enabled; two steps on reach page 3 with records 21-25 and "next"
   * disabled, where a third step changes nothing.
   */
  method TwentyFiveRecordsScenario(logs: seq<LogEntry>)
    requires |logs| == 25
  {
    var rows := Present(Some(10));
    assert PageSize(rows) == 10 && TotalPages(25, 10) == 3;
    var e := new Engine();
    e.LoadDoseLogs(LogArray(logs), rows);
    assert e.display == Shown(logs[..10], 1, 3, 25, true, false);
    e.GoToNextPage(rows);
    assert e.currentPage == 2;
    e.GoToNextPage(rows);
    assert e.currentPage == 3;
    assert e.display == Shown(logs[20..], 3, 3, 25, false, true);
    e.GoToNextPage(rows);
    assert e.currentPage == 3;
  }

  /** A payload that is not an array leaves an empty log and the empty-state row. */
  method NonArrayPayloadScenario(rows: Control<Option<int>>)
  {
    var e := new Engine();
    e.LoadDoseLogs(NotAnArray, rows);
    assert e.allLogs == [] && e.display.rows == [];
    assert e.display == Shown([], 1, 1, 0, true, true);
  }
}

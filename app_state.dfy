/** The page's state and its event handlers: the chosen file (only whether
    there is one), the result set, and the current page number. Derived
    values (rows, page count, pager labels, the "Showing" line) are
    recomputed from these on every render. */
module AppState {
  import opened Rows
  import opened Pagination
  import opened PageWindow

  datatype Option<T> = None | Some(value: T)

  /** How an upload attempt ends, as far as the page's state is concerned:
      a response whose JSON body has a `data` value or not, or a failure
      (the request failed, the status was not OK, or the body was not JSON). */
  datatype UploadOutcome = Received(data: Option<seq<PairResult>>) | Failed

  /** `result.data || []`. */
  function DataOrEmpty(data: Option<seq<PairResult>>): seq<PairResult> {
    match data
    case Some(pairs) => pairs
    case None => []
  }

  class EmployeePairsPage {
    /** Whether `file` holds a chosen file. */
    var fileSelected: bool
    /** `results`. */
    var results: seq<PairResult>
    /** `currentPage`. */
    var currentPage: int

    /** `totalItems`: the number of rows. */
    function TotalItems(): nat
      reads this
    {
      |AllRows(results)|
    }

    /** `totalPages`. */
    function PageCount(): nat
      reads this
    {
      TotalPages(TotalItems())
    }

    /** The current page is one of the pages, or page 1 when there are none. */
    ghost predicate Valid()
      reads this
    {
      1 <= currentPage <= Max(1, PageCount())
    }

    /** The three `useState` cells at their initial values. */
    constructor ()
      ensures Valid()
      ensures !fileSelected && results == [] && currentPage == 1
    {
      fileSelected := false;
      results := [];
      currentPage := 1;
    }

    /** `handleFileChange`: records whether a file was chosen, clears the
        results and goes back to page 1. */
    method HandleFileChange(selected: bool)
      modifies this
      ensures Valid()
      ensures fileSelected == selected && results == [] && currentPage == 1
    {
      fileSelected := selected;
      results := [];
      currentPage := 1;
    }

    /** `handleUpload`, from the moment its outcome is known: without a
        file, or when the upload fails, nothing changes; otherwise the
        results become `data || []` and the page goes back to 1. */
    method HandleUpload(outcome: UploadOutcome)
      requires Valid()
      modifies this
      ensures Valid()
      ensures fileSelected == old(fileSelected)
      ensures old(fileSelected) && outcome.Received? ==> currentPage == 1
      ensures old(fileSelected) && outcome.Received? && outcome.data.Some? ==>
        results == outcome.data.value
      ensures old(fileSelected) && outcome.Received? && outcome.data.None? ==> results == []
      ensures !old(fileSelected) || outcome.Failed? ==>
        results == old(results) && currentPage == old(currentPage)
    {
      if !fileSelected {
        return;
      }
      match outcome
      case Received(data) =>
        results := DataOrEmpty(data);
        currentPage := 1;
      case Failed =>
    }

    /** `goToPage`: moves to `page` exactly when it is one of the pages;
        any other request is ignored. */
    method GoToPage(page: int)
      requires Valid()
      modifies this
      ensures Valid()
      ensures fileSelected == old(fileSelected) && results == old(results)
      ensures currentPage == if 1 <= page <= old(PageCount()) then page else old(currentPage)
    {
      if page >= 1 && page <= PageCount() {
        currentPage := page;
      }
    }

    /** The "Previous" button: `goToPage(currentPage - 1)`, which does
        nothing on page 1. */
    method Previous()
      requires Valid()
      modifies this
      ensures Valid()
      ensures fileSelected == old(fileSelected) && results == old(results)
      ensures currentPage == if old(currentPage) > 1 then old(currentPage) - 1 else old(currentPage)
    {
      GoToPage(currentPage - 1);
    }

    /** The "Next" button: `goToPage(currentPage + 1)`, which does nothing
        on the last page (or when there are no pages). */
    method Next()
      requires Valid()
      modifies this
      ensures Valid()
      ensures fileSelected == old(fileSelected) && results == old(results)
      ensures currentPage
        == if old(currentPage) < old(PageCount()) then old(currentPage) + 1 else old(currentPage)
    {
      GoToPage(currentPage + 1);
    }

    /** A click on a pager label: a number goes to that page through
        `goToPage`, a "..." does nothing. */
    method ClickLabel(clicked: PageLabel)
      requires Valid()
      modifies this
      ensures Valid()
      ensures fileSelected == old(fileSelected) && results == old(results)
      ensures currentPage
        == if clicked.Num? && 1 <= clicked.page <= old(PageCount()) then clicked.page else old(currentPage)
    {
      if clicked.Num? {
        GoToPage(clicked.page);
      }
    }

    /** What a render computes from the state: the rows of the current
        page, the pager labels, and the three numbers of "Showing
        {first}–{last} of {total} records". When there are rows the
        current page shows between one and ten of them and the "Showing"
        range lies inside `1..total`. */
    method View() returns (rows: seq<DisplayRow>, labels: seq<PageLabel>, first: int, last: int, total: nat)
      requires Valid()
      ensures rows == CurrentRows(Flatten(results), currentPage)
      ensures labels == Window(PageCount(), currentPage)
      ensures total == |Flatten(results)| == RowCount(results)
      ensures |rows| <= ITEMS_PER_PAGE
      ensures rows != [] <==> total > 0
      ensures first == StartIndex(currentPage) + 1 && last == Min(EndIndex(currentPage), total)
      ensures total > 0 ==> 1 <= first <= last <= total && last - first + 1 == |rows|
      ensures total > 0 ==> rows == Flatten(results)[first - 1 .. last]
    {
      var allRows := BuildAllRows(results);
      total := allRows.Length;
      rows := CurrentRows(allRows[..], currentPage);
      labels := GetPageNumbers(TotalPages(total), currentPage);
      first := StartIndex(currentPage) + 1;
      last := Min(EndIndex(currentPage), total);
      CurrentRowsWindow(allRows[..], currentPage);
      if total > 0 {
        ShowingRange(total, currentPage);
      }
    }
  }
}

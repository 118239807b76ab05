/** The paginator: how many pages the rows fill, which rows the current
    page shows, and the numbers of the "Showing X–Y of N records" line.
    Everything here works on any row sequence. */
module Pagination {

  /** `itemsPerPage`. */
  const ITEMS_PER_PAGE: nat := 10

  function Min(x: int, y: int): int { if x <= y then x else y }

  function Max(x: int, y: int): int { if x >= y then x else y }

  /** `Math.ceil(totalItems / itemsPerPage)`, in integer arithmetic. */
  function TotalPages(totalItems: nat): (pages: nat)
    ensures pages * ITEMS_PER_PAGE >= totalItems
    ensures pages > 0 ==> (pages - 1) * ITEMS_PER_PAGE < totalItems
    ensures pages == 0 <==> totalItems == 0
  {
    (totalItems + ITEMS_PER_PAGE - 1) / ITEMS_PER_PAGE
  }

  /** How `Array.prototype.slice` turns an integral index argument into a
      position: negative values count back from the end, and the result is
      clamped to `0..len`. */
  function ClampIndex(rel: int, len: nat): (k: nat)
    ensures k <= len
    ensures 0 <= rel ==> k == Min(rel, len)
  {
    if rel < 0 then Max(len + rel, 0) else Min(rel, len)
  }

  /** `s.slice(start, end)` for integral arguments. */
  function Slice<T>(s: seq<T>, start: int, end: int): (r: seq<T>)
    ensures |r| == Max(0, ClampIndex(end, |s|) - ClampIndex(start, |s|))
    ensures forall k :: 0 <= k < |r| ==> r[k] == s[ClampIndex(start, |s|) + k]
  {
    var from, to := ClampIndex(start, |s|), ClampIndex(end, |s|);
    if from < to then s[from..to] else []
  }

  /** `startIndex`. */
  function StartIndex(currentPage: int): int {
    (currentPage - 1) * ITEMS_PER_PAGE
  }

  /** `endIndex`. */
  function EndIndex(currentPage: int): int {
    StartIndex(currentPage) + ITEMS_PER_PAGE
  }

  /** `currentRows`. */
  function CurrentRows<T>(rows: seq<T>, currentPage: int): seq<T> {
    Slice(rows, StartIndex(currentPage), EndIndex(currentPage))
  }

  /** For a page number of at least 1, the page shows the rows from its
      start index up to the next page's start, cut off at the end of the
      rows: at most `ITEMS_PER_PAGE` of them, and at least one exactly when
      the page is one of the `TotalPages` pages. */
  lemma CurrentRowsWindow<T>(rows: seq<T>, currentPage: int)
    requires currentPage >= 1
    ensures StartIndex(currentPage) >= 0
    ensures CurrentRows(rows, currentPage)
      == rows[Min(StartIndex(currentPage), |rows|)..Min(EndIndex(currentPage), |rows|)]
    ensures |CurrentRows(rows, currentPage)| <= ITEMS_PER_PAGE
    ensures CurrentRows(rows, currentPage) != [] <==> currentPage <= TotalPages(|rows|)
  {
    var n, tp := |rows|, TotalPages(|rows|);
    var start := StartIndex(currentPage);
    if currentPage <= tp {
      assert start <= (tp - 1) * ITEMS_PER_PAGE < n;
    } else {
      assert start >= tp * ITEMS_PER_PAGE >= n;
    }
  }

  /** The rows of pages 1 to `count`, one page after the other. */
  function PagesUpTo<T>(rows: seq<T>, count: nat): seq<T> {
    if count == 0 then [] else PagesUpTo(rows, count - 1) + CurrentRows(rows, count)
  }

  /** The first `count` pages hold the first `count * ITEMS_PER_PAGE` rows
      (or all of them), in order. */
  lemma {:induction false} PagesUpToIsPrefix<T>(rows: seq<T>, count: nat)
    ensures PagesUpTo(rows, count) == rows[..Min(count * ITEMS_PER_PAGE, |rows|)]
  {
    if count > 0 {
      PagesUpToIsPrefix(rows, count - 1);
      CurrentRowsWindow(rows, count);
      var a := Min((count - 1) * ITEMS_PER_PAGE, |rows|);
      var b := Min(count * ITEMS_PER_PAGE, |rows|);
      assert StartIndex(count) == (count - 1) * ITEMS_PER_PAGE;
      assert rows[..a] + rows[a..b] == rows[..b];
    }
  }

  /** Paging through pages 1 to `TotalPages` shows every row exactly once,
      in order. */
  lemma {:induction false} PagesCoverRows<T>(rows: seq<T>)
    ensures PagesUpTo(rows, TotalPages(|rows|)) == rows
  {
    PagesUpToIsPrefix(rows, TotalPages(|rows|));
    assert rows[..|rows|] == rows;
  }

  /** The numbers of "Showing {startIndex + 1}–{min(endIndex, totalItems)}
      of {totalItems}" on a page in range: a non-empty range inside
      `1..totalItems`. */
  lemma ShowingRange(totalItems: nat, currentPage: int)
    requires totalItems > 0
    requires 1 <= currentPage <= Max(1, TotalPages(totalItems))
    ensures 1 <= StartIndex(currentPage) + 1
    ensures StartIndex(currentPage) + 1 <= Min(EndIndex(currentPage), totalItems)
    ensures Min(EndIndex(currentPage), totalItems) <= totalItems
  {
    var tp := TotalPages(totalItems);
    assert StartIndex(currentPage) <= (tp - 1) * ITEMS_PER_PAGE;
  }
}

/** The pager's labels (`getPageNumbers`): every page number when there
    are few pages, otherwise page 1, a window of pages around the current
    one and the last page, with "..." markers between them. A "..." marks
    where the window stops; it does not promise that a page is left out. */
module PageWindow {
  import opened Pagination

  /** A pager label: a page number, or the "..." marker. */
  datatype PageLabel = Num(page: int) | Ellipsis

  /** `maxVisible`. */
  const MAX_VISIBLE: int := 5

  /** The labels `lo`, `lo + 1`, ..., `hi`; none when `hi < lo`. */
  function Range(lo: int, hi: int): (r: seq<PageLabel>)
    decreases hi - lo
    ensures |r| == Max(0, hi - lo + 1)
    ensures forall k :: 0 <= k < |r| ==> r[k] == Num(lo + k)
  {
    if hi < lo then [] else Range(lo, hi - 1) + [Num(hi)]
  }

  /** `start` after `if (currentPage >= totalPages - 2) start = totalPages - 4`. */
  function WindowStart(totalPages: int, currentPage: int): int {
    if currentPage >= totalPages - 2 then totalPages - 4 else Max(2, currentPage - 2)
  }

  /** `end` after `if (currentPage <= 3) end = 5`. */
  function WindowEnd(totalPages: int, currentPage: int): int {
    if currentPage <= 3 then 5 else Min(totalPages - 1, currentPage + 2)
  }

  /** The labels `getPageNumbers` returns, as one expression. */
  function Window(totalPages: nat, currentPage: int): seq<PageLabel> {
    if totalPages <= MAX_VISIBLE then Range(1, totalPages)
    else
      [Num(1)]
      + (if currentPage > 3 then [Ellipsis] else [])
      + Range(WindowStart(totalPages, currentPage), WindowEnd(totalPages, currentPage))
      + (if currentPage < totalPages - 2 then [Ellipsis] else [])
      + (if totalPages > 1 then [Num(totalPages)] else [])
  }

  /** `for (let i = lo; i <= hi; i++) pages.push(i)`. */
  method PushRange(pages: seq<PageLabel>, lo: int, hi: int) returns (pushed: seq<PageLabel>)
    ensures pushed == pages + Range(lo, hi)
  {
    pushed := pages;
    var i := lo;
    while i <= hi
      invariant lo <= i <= Max(lo, hi + 1)
      invariant pushed == pages + Range(lo, i - 1)
    {
      pushed := pushed + [Num(i)];
      i := i + 1;
    }
  }

  /** `getPageNumbers`, step by step: labels are pushed one at a time and
      the two `for` loops push consecutive page numbers. */
  method GetPageNumbers(totalPages: nat, currentPage: int) returns (pages: seq<PageLabel>)
    ensures pages == Window(totalPages, currentPage)
  {
    pages := [];
    if totalPages <= MAX_VISIBLE {
      pages := PushRange(pages, 1, totalPages);
      return;
    }
    pages := pages + [Num(1)];
    if currentPage > 3 {
      pages := pages + [Ellipsis];
    }
    assert pages == [Num(1)] + LeftMarker(currentPage);
    var start := Max(2, currentPage - 2);
    var end := Min(totalPages - 1, currentPage + 2);
    if currentPage <= 3 {
      end := 5;
    }
    if currentPage >= totalPages - 2 {
      start := totalPages - 4;
    }
    assert start == WindowStart(totalPages, currentPage) && end == WindowEnd(totalPages, currentPage);
    pages := PushRange(pages, start, end);
    if currentPage < totalPages - 2 {
      pages := pages + [Ellipsis];
    }
    assert pages == [Num(1)] + LeftMarker(currentPage) + Range(start, end) + RightMarker(totalPages, currentPage);
    if totalPages > 1 {
      pages := pages + [Num(totalPages)];
    }
    LargeWindowJoin(totalPages, currentPage);
  }

  /** A window over more than five pages, whatever the current page, is
      page 1, an optional "...", the middle run, an optional "..." and the
      last page. */
  lemma LargeWindowJoin(totalPages: nat, currentPage: int)
    requires totalPages > MAX_VISIBLE
    ensures Window(totalPages, currentPage)
      == [Num(1)] + LeftMarker(currentPage)
         + Range(WindowStart(totalPages, currentPage), WindowEnd(totalPages, currentPage))
         + RightMarker(totalPages, currentPage) + [Num(totalPages)]
  {
  }

  /** The page numbers among `labels` increase strictly from left to right. */
  ghost predicate NumbersIncrease(labels: seq<PageLabel>) {
    forall i, j :: 0 <= i < j < |labels| && labels[i].Num? && labels[j].Num? ==>
      labels[i].page < labels[j].page
  }

  /** Every page number among `labels` lies in `lo..hi`. */
  ghost predicate NumbersWithin(labels: seq<PageLabel>, lo: int, hi: int) {
    forall i :: 0 <= i < |labels| && labels[i].Num? ==> lo <= labels[i].page <= hi
  }

  /** Joining two label sequences whose numbers increase, every number of
      the first below every number of the second, gives increasing numbers. */
  lemma IncreasingJoin(a: seq<PageLabel>, b: seq<PageLabel>, lo: int, mid: int, hi: int)
    requires NumbersIncrease(a) && NumbersIncrease(b)
    requires lo <= mid + 1 && mid <= hi
    requires NumbersWithin(a, lo, mid) && NumbersWithin(b, mid + 1, hi)
    ensures NumbersIncrease(a + b) && NumbersWithin(a + b, lo, hi)
  {
    var ab := a + b;
    forall i, j | 0 <= i < j < |ab| && ab[i].Num? && ab[j].Num?
      ensures ab[i].page < ab[j].page
    {
      if j < |a| {
        assert ab[i] == a[i] && ab[j] == a[j];
      } else if i < |a| {
        assert ab[i] == a[i] && ab[j] == b[j - |a|];
      } else {
        assert ab[i] == b[i - |a|] && ab[j] == b[j - |a|];
      }
    }
    forall i | 0 <= i < |ab| && ab[i].Num? ensures lo <= ab[i].page <= hi {
      if i < |a| {
        assert ab[i] == a[i];
      } else {
        assert ab[i] == b[i - |a|];
      }
    }
  }

  /** With five pages or fewer the labels are exactly 1, 2, ..., `totalPages`
      (none at all when there are no pages), whatever the current page. */
  lemma SmallWindowListsEveryPage(totalPages: nat, currentPage: int)
    requires totalPages <= MAX_VISIBLE
    ensures |Window(totalPages, currentPage)| == totalPages
    ensures forall k :: 0 <= k < totalPages ==> Window(totalPages, currentPage)[k] == Num(k + 1)
    ensures Ellipsis !in Window(totalPages, currentPage)
  {
  }

  /** With more than five pages and the current page in range, the labels
      open with page 1 and close with the last page; there are 7 of them
      when the current page is within three of either end and 9
      otherwise; at most two are "...". */
  lemma LargeWindowShape(totalPages: nat, currentPage: int)
    requires totalPages > MAX_VISIBLE && 1 <= currentPage <= totalPages
    ensures Window(totalPages, currentPage)[0] == Num(1)
    ensures Window(totalPages, currentPage)[|Window(totalPages, currentPage)| - 1] == Num(totalPages)
    ensures |Window(totalPages, currentPage)|
      == if currentPage <= 3 || currentPage >= totalPages - 2 then 7 else 9
    ensures multiset(Window(totalPages, currentPage))[Ellipsis] <= 2
  {
    var parts := LargeWindowPartsOf(totalPages, currentPage);
    JoinedShape(Window(totalPages, currentPage), parts.0, parts.1, parts.2, totalPages,
                if currentPage <= 3 || currentPage >= totalPages - 2 then 7 else 9);
  }

  /** The two markers and the middle run of a large window, with their sizes. */
  lemma LargeWindowPartsOf(totalPages: nat, currentPage: int)
      returns (parts: (seq<PageLabel>, seq<PageLabel>, seq<PageLabel>))
    requires totalPages > MAX_VISIBLE && 1 <= currentPage <= totalPages
    ensures Window(totalPages, currentPage) == [Num(1)] + parts.0 + parts.1 + parts.2 + [Num(totalPages)]
    ensures parts.0 == [] || parts.0 == [Ellipsis]
    ensures parts.2 == [] || parts.2 == [Ellipsis]
    ensures forall k :: 0 <= k < |parts.1| ==> parts.1[k].Num?
    ensures |parts.0| + |parts.1| + |parts.2| + 2
      == if currentPage <= 3 || currentPage >= totalPages - 2 then 7 else 9
  {
    LargeWindowParts(totalPages, currentPage);
    parts := (LeftMarker(currentPage),
              Range(WindowStart(totalPages, currentPage), WindowEnd(totalPages, currentPage)),
              RightMarker(totalPages, currentPage));
  }

  /** The shape of page 1, at most one marker, a run of numbers, at most
      one marker and the last page, from the lengths of its parts. */
  lemma JoinedShape(w: seq<PageLabel>, left: seq<PageLabel>, mid: seq<PageLabel>, right: seq<PageLabel>,
                    last: int, size: int)
    requires w == [Num(1)] + left + mid + right + [Num(last)]
    requires left == [] || left == [Ellipsis]
    requires right == [] || right == [Ellipsis]
    requires forall k :: 0 <= k < |mid| ==> mid[k].Num?
    requires size == |left| + |mid| + |right| + 2
    ensures w[0] == Num(1) && w[|w| - 1] == Num(last) && |w| == size
    ensures multiset(w)[Ellipsis] <= 2
  {
    assert Ellipsis !in mid;
    assert multiset(w) == multiset([Num(1)]) + multiset(left) + multiset(mid) + multiset(right) + multiset([Num(last)]);
  }

  /** The five parts of a large window. */
  lemma LargeWindowParts(totalPages: nat, currentPage: int)
    requires totalPages > MAX_VISIBLE && 1 <= currentPage <= totalPages
    ensures 2 <= WindowStart(totalPages, currentPage)
    ensures WindowEnd(totalPages, currentPage) <= totalPages - 1
    ensures 1 < currentPage < totalPages ==>
      WindowStart(totalPages, currentPage) <= currentPage <= WindowEnd(totalPages, currentPage)
    ensures Window(totalPages, currentPage)
      == [Num(1)] + LeftMarker(currentPage)
         + Range(WindowStart(totalPages, currentPage), WindowEnd(totalPages, currentPage))
         + RightMarker(totalPages, currentPage) + [Num(totalPages)]
  {
    LargeWindowJoin(totalPages, currentPage);
  }

  function LeftMarker(currentPage: int): seq<PageLabel> {
    if currentPage > 3 then [Ellipsis] else []
  }

  function RightMarker(totalPages: int, currentPage: int): seq<PageLabel> {
    if currentPage < totalPages - 2 then [Ellipsis] else []
  }

  /** With more than five pages and the current page in range, the page
      numbers on the labels increase strictly and stay within
      `1..totalPages`: every numeric label is a page `goToPage` accepts. */
  lemma LargeWindowNumbers(totalPages: nat, currentPage: int)
    requires totalPages > MAX_VISIBLE && 1 <= currentPage <= totalPages
    ensures NumbersIncrease(Window(totalPages, currentPage))
    ensures NumbersWithin(Window(totalPages, currentPage), 1, totalPages)
  {
    LargeWindowParts(totalPages, currentPage);
    var first, left, right, last := [Num(1)], LeftMarker(currentPage), RightMarker(totalPages, currentPage), [Num(totalPages)];
    var mid := Range(WindowStart(totalPages, currentPage), WindowEnd(totalPages, currentPage));
    IncreasingJoin(first, left, 1, 1, 1);
    IncreasingJoin(first + left, mid, 1, 1, totalPages - 1);
    IncreasingJoin(first + left + mid, right, 1, totalPages - 1, totalPages - 1);
    IncreasingJoin(first + left + mid + right, last, 1, totalPages - 1, totalPages);
  }

  /** With more than five pages and the current page in range, the current
      page is among the labels. */
  lemma LargeWindowShowsCurrent(totalPages: nat, currentPage: int)
    requires totalPages > MAX_VISIBLE && 1 <= currentPage <= totalPages
    ensures Num(currentPage) in Window(totalPages, currentPage)
  {
    LargeWindowParts(totalPages, currentPage);
    var w := Window(totalPages, currentPage);
    if currentPage == 1 {
      assert w[0] == Num(1);
    } else if currentPage == totalPages {
      assert w[|w| - 1] == Num(totalPages);
    } else {
      var start := WindowStart(totalPages, currentPage);
      var prefix := [Num(1)] + LeftMarker(currentPage);
      var mid := Range(start, WindowEnd(totalPages, currentPage));
      assert mid[currentPage - start] == Num(currentPage);
      assert w[|prefix| + currentPage - start] == mid[currentPage - start];
    }
  }

  /** The pager of twelve pages, on page 1 and on page 10. */
  lemma TwelvePageExamples()
    ensures Window(12, 1) == [Num(1), Num(2), Num(3), Num(4), Num(5), Ellipsis, Num(12)]
    ensures Window(12, 10) == [Num(1), Ellipsis, Num(8), Num(9), Num(10), Num(11), Num(12)]
  {
    assert Range(2, 5) == [Num(2), Num(3), Num(4), Num(5)];
    assert Range(8, 11) == [Num(8), Num(9), Num(10), Num(11)];
  }

  /** A "..." can stand next to the very page it seems to skip: six pages
      on page 1, and page 4 of twenty, show every page number of their
      range. */
  lemma EllipsisNeedNotSkipExamples()
    ensures Window(6, 1) == [Num(1), Num(2), Num(3), Num(4), Num(5), Ellipsis, Num(6)]
    ensures Window(20, 4)
      == [Num(1), Ellipsis, Num(2), Num(3), Num(4), Num(5), Num(6), Ellipsis, Num(20)]
  {
    assert Range(2, 5) == [Num(2), Num(3), Num(4), Num(5)];
    assert Range(2, 6) == [Num(2), Num(3), Num(4), Num(5), Num(6)];
  }
}

# Employee pairs page: rows, sorting, pagination and pager labels

This project models the logic of the single page of the employee-pairs
front end (`app/src/App.jsx`). The page:

- uploads a file to an analysis service;
- receives a result set: one record per pair of employees, each with the
  list of projects the two shared and the days they worked together on each;
- shows that result set as a table, ten rows per page, with a pager.

The model covers the part of `App()` that turns the result set into table
rows and pager labels, and the state the event handlers change:

- **Rows** (`rows.dfy`): every pair becomes one row per project entry, and
  the rows are flattened in pair order, then project order. The page then
  sorts them with `(a, b) => b.totalDaysForPair - a.totalDaysForPair`. The
  rows have no `totalDaysForPair` property, so every comparison is
  `undefined - undefined`, which is NaN. CompareArrayElements (section
  23.1.3.30.2 of ECMA-262, 2023 edition) reads NaN as +0. The sort is
  stable, so it leaves the flattened order unchanged. The model proves
  exactly that.
- **Sorting** (`sorting.dfy`): the stable sort, as a specification function
  (insertion sort) and as an in-place method on an array. It is proved to
  match that function, to be a permutation, and to be the identity when the
  comparator never asks for a swap.
- **Pagination** (`pagination.dfy`): `totalPages` is the integer ceiling of
  `totalItems / 10`. The current page is `slice(startIndex, endIndex)`, with
  slice's clamping. Pages 1 to `totalPages` put back together give the rows
  exactly. The "Showing X–Y of N" numbers are also covered.
- **Pager labels** (`page_window.dfy`): `getPageNumbers`, as a method with
  the source's pushes and loops, proved equal to a one-expression definition
  whose shape is proved as lemmas.
- **Page state** (`app_state.dfy`): a class with the three state cells and
  the handlers. Choosing a file, uploading with its outcome, `goToPage`, the
  Previous/Next buttons and label clicks all keep the current page within
  `1..max(1, totalPages)`.
- **Intended order** (`intended_order.dfy`): the order the caption
  "(sorted by total days worked together – descending)" promises. Here each
  row carries its pair's total. It is kept apart from the page's actual
  order, and the two are compared on an example (see Findings).

Two places where the page's own text promises more than its code does:

- The caption at `app/src/App.jsx:112` says the rows are sorted by total
  days worked together, descending. The code leaves them in flattened
  order, and so does the model (`Rows.AllRows`); see Findings.
- Despite `const maxVisible = 5` (`app/src/App.jsx:68`), a pager over more
  than five pages shows 6 or 7 page numbers (page 1, a window of 4 or 5
  pages, and the last page). `PageWindow.LargeWindowShape` states the
  code's lengths, 7 or 9 labels.

## Model

| member | source | states |
|---|---|---|
| `Rows.ExpandPair` | app/src/App.jsx:45-50 | one row per project entry of the pair, in entry order, each copying the pair's two employee ids and the entry's project id and day count |
| `Rows.Flatten` | app/src/App.jsx:39-52 | the number of flattened rows is the sum, over all pairs, of their project-list lengths |
| `Rows.FlattenAt` | app/src/App.jsx:39-52 | the j-th project of pair i gives the row at position (rows of the pairs before i) + j, with that pair's ids and that project's fields: pair order first, then project order |
| `Rows.FlattenOrigin` | app/src/App.jsx:39-52 | every flattened row comes from some project entry of some pair, at exactly that position, so no rows are invented |
| `Rows.SourceCompare` | app/src/App.jsx:54 | the page's comparator on its rows is always 0: the property it reads is undefined, the difference is NaN, and CompareArrayElements reads NaN as +0 |
| `Rows.AllRowsIsFlatten` | app/src/App.jsx:45-54 | `allRows` after the sort is identical to the flattened sequence |
| `Rows.BuildAllRows` | app/src/App.jsx:39-54 | builds a fresh array of the flattened rows and sorts it in place; the result equals the sort specification and the flattened sequence |
| `Sorting.SortInPlace` | app/src/App.jsx:54 | the in-place sort leaves the array holding the stable sort of its old contents |
| `Sorting.SortPermutes` | app/src/App.jsx:54 | the sort is a permutation of its input, whatever the comparator |
| `Sorting.SortInOrderIsIdentity` | app/src/App.jsx:54 | when the comparator asks no neighbours to swap, the stable sort returns its input unchanged |
| `Pagination.TotalPages` | app/src/App.jsx:56-57 | `totalPages` is the least page count whose pages hold all items (the ceiling of items/10), and it is 0 exactly when there are no rows |
| `Pagination.ClampIndex` | app/src/App.jsx:60 | slice positions are clamped into `0..length`, and a non-negative index is cut off at the length |
| `Pagination.Slice` | app/src/App.jsx:60 | `slice(start, end)` returns the elements from the clamped start to the clamped end, and none when the end is not after the start |
| `Pagination.CurrentRowsWindow` | app/src/App.jsx:58-60 | for page ≥ 1, `currentRows` is `allRows[start .. min(start+10, totalItems)]`; it has at most 10 rows and is non-empty exactly when the page is at most `totalPages` |
| `Pagination.PagesUpToIsPrefix` | app/src/App.jsx:57-60 | pages 1..k put together are the first min(10k, totalItems) rows in order |
| `Pagination.PagesCoverRows` | app/src/App.jsx:57-60 | pages 1..`totalPages` put together reproduce `allRows` exactly, with no gaps and no duplicates |
| `Pagination.ShowingRange` | app/src/App.jsx:110 | with rows present and the page in range, 1 ≤ startIndex+1 ≤ min(endIndex, totalItems) ≤ totalItems |
| `PageWindow.Range` | app/src/App.jsx:71 | the labels pushed by a `for (i = lo; i <= hi; i++)` loop: hi−lo+1 labels (none if hi < lo), the k-th being page lo+k |
| `PageWindow.PushRange` | app/src/App.jsx:71 | pushing the pages lo..hi one by one onto a list appends exactly `Range(lo, hi)` to it |
| `PageWindow.GetPageNumbers` | app/src/App.jsx:66-92 | the step-by-step pushes and loops of `getPageNumbers` produce exactly the labels `Window` defines, for every page count and current page |
| `PageWindow.SmallWindowListsEveryPage` | app/src/App.jsx:70-73 | with at most 5 pages the labels are exactly 1..totalPages in order, without "..." (empty for 0 pages) |
| `PageWindow.LargeWindowShape` | app/src/App.jsx:75-91 | with more than 5 pages and the current page in range, the labels start with 1 and end with `totalPages`, there are 7 of them when the current page is ≤ 3 or ≥ totalPages−2 and 9 otherwise, and at most two are "..." |
| `PageWindow.LargeWindowNumbers` | app/src/App.jsx:75-91 | with more than 5 pages and the current page in range, the page numbers on the labels strictly increase and lie within 1..totalPages, so every numeric label is a page `goToPage` accepts |
| `PageWindow.LargeWindowShowsCurrent` | app/src/App.jsx:75-91 | with more than 5 pages and the current page in range, the current page is among the labels |
| `PageWindow.TwelvePageExamples` | app/src/App.jsx:75-91 | 12 pages give `[1,2,3,4,5,…,12]` on page 1 and `[1,…,8,9,10,11,12]` on page 10 |
| `PageWindow.EllipsisNeedNotSkipExamples` | app/src/App.jsx:77-87 | "..." does not always skip a page: 6 pages on page 1 give `[1,2,3,4,5,…,6]`, and 20 pages on page 4 give `[1,…,2,3,4,5,6,…,20]` |
| `AppState.EmployeePairsPage.constructor` | app/src/App.jsx:5-8 | the page starts with no file, no results and page 1, which satisfies the page invariant |
| `AppState.EmployeePairsPage.HandleFileChange` | app/src/App.jsx:11-15 | choosing a file records whether one was picked, empties the results and resets to page 1 |
| `AppState.EmployeePairsPage.HandleUpload` | app/src/App.jsx:17-37 | with a file and a received response, the results become the received `data` (empty when missing) and the page resets to 1; without a file or on failure nothing changes; the invariant is kept |
| `AppState.EmployeePairsPage.GoToPage` | app/src/App.jsx:62-64 | the page becomes `p` exactly when 1 ≤ p ≤ totalPages and is otherwise unchanged; the results do not change; the invariant is kept |
| `AppState.EmployeePairsPage.Previous` | app/src/App.jsx:156 | "Previous" moves back one page and does nothing on page 1 |
| `AppState.EmployeePairsPage.Next` | app/src/App.jsx:196 | "Next" moves on one page and does nothing on the last page |
| `AppState.EmployeePairsPage.ClickLabel` | app/src/App.jsx:167 | a numeric label goes to its page through `goToPage`; "..." does nothing |
| `AppState.EmployeePairsPage.View` | app/src/App.jsx:56-110 | a render shows the current slice of the flattened rows and the `Window` labels; it shows at most 10 rows, and at least one exactly when there are rows; when there are rows, `first` is `startIndex + 1` and `last` is `min(endIndex, totalItems)`; when there are rows, 1 ≤ first ≤ last ≤ total and the rows shown are exactly rows first..last of the flattened rows |
| `IntendedOrder.RankPair` | app/src/App.jsx:41-50 | the rows of a pair with the pair's total (the unused `totalDays`) attached to each |
| `IntendedOrder.RankedRowsAreTheRows` | app/src/App.jsx:39-52 | attaching the totals changes neither the rows nor their order |
| `IntendedOrder.IntendedCompare` | app/src/App.jsx:54 | the page's comparator on rows that carry the total puts a row after another exactly when the other's pair total is larger |
| `IntendedOrder.IntendedSortDescending` | app/src/App.jsx:112 | sorting rows that carry their totals orders them by descending pair total |
| `IntendedOrder.IntendedAllRowsSorted` | app/src/App.jsx:112 | the intended rows are a permutation of the ranked rows, in descending pair-total order, and those ranked rows are the page's rows with their totals |
| `IntendedOrder.CaptionClaimFails` | app/src/App.jsx:54 | on a two-pair result set the page lists the pair with 8 days before the pair with 20: its order is not descending by pair total |
| `IntendedOrder.IntendedOrderExample` | app/src/App.jsx:112 | on the same result set the intended order lists the row (3,4,10,20) first, then (1,2,10,5) and (1,2,11,3) |

## Findings

| source | as written | input that shows it | evidently intended | confidence | as-written member | corrected member |
|---|---|---|---|---|---|---|
| app/src/App.jsx:54 | the comparator reads `totalDaysForPair`, a property the rows built at lines 45-50 never have, so every comparison is NaN, read as 0, and the stable sort keeps the flattened order | pairs (1,2) with projects 10: 5 days and 11: 3 days, then (3,4) with project 10: 20 days; the rows of the 8-day pair come before the row of the 20-day pair | rows in descending order of their pair's total, as the caption at line 112 says, with the total of lines 41-44 attached to each row | not executed | `IntendedOrder.CaptionClaimFails` | `IntendedOrder.IntendedAllRowsSorted` |

The page state (`AppState`) keeps the as-written order, because that is what
the page shows. The pagination and pager functions work on any row
sequence, so they apply to the intended order as well.

## Left out

- The network and I/O of `handleUpload` (`FormData`, `fetch`, `response.ok`, `response.json()`, `alert`, `console.error`) are left out. Only their outcome is modelled: a response with or without `data`, or a failure.
- The `File` object is left out. The model only records whether a file was chosen.
- The upload is asynchronous in the source. A file change that happens while an upload is still pending is not modelled. Every event, the upload outcome included, is a synchronous state update.
- React's `useState` batching and re-render scheduling are left out. Derived values are recomputed from the state on every `View`.
- All JSX rendering is left out: styles, the enabled or disabled look of buttons, React keys, and the rule that shows the table only for a non-empty `results` and the pager only for more than one page. The calls these controls make (`goToPage`, label clicks) are modelled.
- Employee and project ids are `int`, and day counts are `int`. The source takes whatever the service sends. Floating-point behaviour of JavaScript numbers (rounding above 2^53, non-integral values) is not modelled.
- `Math.ceil` is modelled as the integer ceiling `(n + 9) / 10`.
- `Sorting.SortInPlace` uses insertion sort. JavaScript engines use other stable algorithms. The model does not prove that all stable sorts agree for a consistent comparator; it takes that as the meaning of the standard's stability requirement.
- `IntendedOrder.IntendedAllRowsSorted`: states descending order and permutation, but not the stability of the intended sort (rows of equal total keep their flattened order). So it does not prove that each pair's rows stay together when two pairs have the same total.
- `AppState.EmployeePairsPage.View`: bounds "Showing first–last" only when there are rows. A non-empty result set whose pairs all have empty project lists gives zero rows, and the page then shows "Showing 1–0 of 0 records".

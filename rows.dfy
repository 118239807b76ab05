/** The row expander of the employee-pairs page: the result set the analysis
    service returns (one record per pair of employees, each with the days
    the pair worked together on each shared project) becomes the flat
    sequence of table rows, one per (pair, project), and is then passed
    through the page's sort. */
module Rows {
  import Sorting

  /** One entry of a pair's `daysWorkedInProjects`. */
  datatype ProjectDays = ProjectDays(projectId: int, daysWorked: int)

  /** One record of the result set. */
  datatype PairResult = PairResult(
    firstEmployeeId: int,
    secondEmployeeId: int,
    daysWorkedInProjects: seq<ProjectDays>)

  /** One table row. It carries exactly these four properties and no
      per-pair total. */
  datatype DisplayRow = DisplayRow(
    firstEmployeeId: int,
    secondEmployeeId: int,
    projectId: int,
    daysWorked: int)

  /** `row` copies the employee ids of `pair` and the project id and day
      count of `proj`. */
  predicate CopiedFrom(row: DisplayRow, pair: PairResult, proj: ProjectDays) {
    row.firstEmployeeId == pair.firstEmployeeId
    && row.secondEmployeeId == pair.secondEmployeeId
    && row.projectId == proj.projectId
    && row.daysWorked == proj.daysWorked
  }

  /** The `daysWorkedInProjects.map(...)` of one pair: one row per project
      entry, in the entries' order. */
  function ExpandPair(pair: PairResult): (rows: seq<DisplayRow>)
    ensures |rows| == |pair.daysWorkedInProjects|
    ensures forall k :: 0 <= k < |rows| ==> CopiedFrom(rows[k], pair, pair.daysWorkedInProjects[k])
  {
    var ps := pair.daysWorkedInProjects;
    seq(|ps|, k requires 0 <= k < |ps| =>
      DisplayRow(pair.firstEmployeeId, pair.secondEmployeeId, ps[k].projectId, ps[k].daysWorked))
  }

  /** The number of project entries over all pairs. */
  function RowCount(pairs: seq<PairResult>): nat {
    if pairs == [] then 0 else |pairs[0].daysWorkedInProjects| + RowCount(pairs[1..])
  }

  /** `results.map(...).flat()`: the rows of every pair, pair after pair. */
  function Flatten(pairs: seq<PairResult>): (rows: seq<DisplayRow>)
    ensures |rows| == RowCount(pairs)
  {
    if pairs == [] then [] else ExpandPair(pairs[0]) + Flatten(pairs[1..])
  }

  /** The rows of pair `i` start after the rows of the pairs before it, and
      its `j`-th project entry gives the `j`-th of them. */
  lemma {:induction false} FlattenAt(pairs: seq<PairResult>, i: nat, j: nat)
    requires i < |pairs| && j < |pairs[i].daysWorkedInProjects|
    ensures RowCount(pairs[..i]) + j < |Flatten(pairs)|
    ensures CopiedFrom(Flatten(pairs)[RowCount(pairs[..i]) + j], pairs[i], pairs[i].daysWorkedInProjects[j])
  {
    if i == 0 {
      assert pairs[..0] == [];
    } else {
      FlattenAt(pairs[1..], i - 1, j);
      assert pairs[..i][1..] == pairs[1..][..i - 1];
    }
  }

  /** Conversely, every row comes from some project entry of some pair, at
      the position `FlattenAt` gives it. */
  lemma {:induction false} FlattenOrigin(pairs: seq<PairResult>, k: nat) returns (i: nat, j: nat)
    requires k < |Flatten(pairs)|
    ensures i < |pairs| && j < |pairs[i].daysWorkedInProjects|
    ensures k == RowCount(pairs[..i]) + j
    ensures CopiedFrom(Flatten(pairs)[k], pairs[i], pairs[i].daysWorkedInProjects[j])
  {
    var first := |pairs[0].daysWorkedInProjects|;
    if k < first {
      i, j := 0, k;
      assert pairs[..0] == [];
    } else {
      var i';
      i', j := FlattenOrigin(pairs[1..], k - first);
      i := i' + 1;
      assert pairs[..i][1..] == pairs[1..][..i'];
    }
  }

  /** `reduce((sum, p) => sum + p.daysWorked, 0)`: the total days of a
      pair. The page computes it and then never uses it. */
  function TotalDays(pair: PairResult): int {
    SumDays(pair.daysWorkedInProjects)
  }

  function SumDays(ps: seq<ProjectDays>): int {
    if ps == [] then 0 else SumDays(ps[..|ps| - 1]) + ps[|ps| - 1].daysWorked
  }

  /** What reading a property yields: `undefined`, or a number. */
  datatype PropertyValue = Undefined | Defined(n: int)

  /** ECMAScript numbers as far as the comparator needs them. */
  datatype JsNumber = Finite(value: int) | NaN

  /** ToNumber: `undefined` becomes NaN. */
  function ToNumber(v: PropertyValue): JsNumber {
    match v
    case Undefined => NaN
    case Defined(n) => Finite(n)
  }

  /** Subtraction: NaN as soon as either operand is NaN. */
  function Minus(x: JsNumber, y: JsNumber): JsNumber {
    if x.NaN? || y.NaN? then NaN else Finite(x.value - y.value)
  }

  /** The step of CompareArrayElements (section 23.1.3.30.2 of ECMA-262,
      2023 edition) that reads the comparator's result: NaN counts as +0. */
  function SortOrder(v: JsNumber): int {
    match v
    case NaN => 0
    case Finite(n) => n
  }

  /** The comparator `(a, b) => b.totalDaysForPair - a.totalDaysForPair`,
      given what the property read yields on each side. */
  function CompareTotals(a: PropertyValue, b: PropertyValue): int {
    SortOrder(Minus(ToNumber(b), ToNumber(a)))
  }

  /** `row.totalDaysForPair` on a row built by `ExpandPair`: no such
      property exists. */
  function TotalDaysForPairOf(row: DisplayRow): PropertyValue {
    Undefined
  }

  /** The page's comparator applied to its rows: every comparison reads
      `undefined` on both sides, so no two rows are ever ordered. */
  function SourceCompare(a: DisplayRow, b: DisplayRow): (r: int)
    ensures r == 0
  {
    CompareTotals(TotalDaysForPairOf(a), TotalDaysForPairOf(b))
  }

  /** `allRows` after `allRows.sort(...)`. */
  function AllRows(pairs: seq<PairResult>): seq<DisplayRow> {
    Sorting.StableSort(Flatten(pairs), SourceCompare)
  }

  /** The sort leaves the flattened rows exactly as they were. */
  lemma AllRowsIsFlatten(pairs: seq<PairResult>)
    ensures AllRows(pairs) == Flatten(pairs)
  {
    Sorting.SortInOrderIsIdentity(Flatten(pairs), SourceCompare);
  }

  /** Builds `allRows` as the page does: flattens the result set into a
      fresh array and sorts it in place with the page's comparator. */
  method BuildAllRows(results: seq<PairResult>) returns (allRows: array<DisplayRow>)
    ensures fresh(allRows)
    ensures allRows[..] == AllRows(results)
    ensures allRows[..] == Flatten(results)
  {
    var flat := Flatten(results);
    allRows := new DisplayRow[|flat|](k requires 0 <= k < |flat| => flat[k]);
    assert allRows[..] == flat;
    Sorting.SortInPlace(allRows, SourceCompare);
    AllRowsIsFlatten(results);
  }
}

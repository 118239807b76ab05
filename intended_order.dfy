/** The order the page's caption "(sorted by total days worked together –
    descending)" describes, next to the order the page actually produces.
    The page computes each pair's total but never attaches it to the rows,
    so its comparator only ever sees `undefined` (see `Rows.AllRows`).
    Here each row carries its pair's total as `totalDaysForPair`, the
    property the comparator reads, and the same stable sort then orders
    the rows by descending pair total. */
module IntendedOrder {
  import opened Rows
  import Sorting

  /** A table row with its pair's total attached. */
  datatype RankedRow = RankedRow(row: DisplayRow, totalDaysForPair: int)

  /** The rows of one pair, each carrying the pair's total. */
  function RankPair(pair: PairResult): (rs: seq<RankedRow>)
    ensures |rs| == |pair.daysWorkedInProjects|
    ensures forall k :: 0 <= k < |rs| ==>
      rs[k].row == ExpandPair(pair)[k] && rs[k].totalDaysForPair == TotalDays(pair)
  {
    var rows := ExpandPair(pair);
    seq(|rows|, k requires 0 <= k < |rows| => RankedRow(rows[k], TotalDays(pair)))
  }

  /** The ranked rows of every pair, pair after pair. */
  function FlattenRanked(pairs: seq<PairResult>): seq<RankedRow> {
    if pairs == [] then [] else RankPair(pairs[0]) + FlattenRanked(pairs[1..])
  }

  /** The table rows of ranked rows, their totals dropped. */
  function RowsOf(rs: seq<RankedRow>): (rows: seq<DisplayRow>)
    ensures |rows| == |rs|
    ensures forall k :: 0 <= k < |rs| ==> rows[k] == rs[k].row
  {
    seq(|rs|, k requires 0 <= k < |rs| => rs[k].row)
  }

  /** Attaching the totals changes neither the rows nor their order. */
  lemma {:induction false} RankedRowsAreTheRows(pairs: seq<PairResult>)
    ensures RowsOf(FlattenRanked(pairs)) == Flatten(pairs)
  {
    if pairs != [] {
      RankedRowsAreTheRows(pairs[1..]);
      var head, tail := RankPair(pairs[0]), FlattenRanked(pairs[1..]);
      assert RowsOf(head + tail) == RowsOf(head) + RowsOf(tail);
      assert RowsOf(head) == ExpandPair(pairs[0]);
    }
  }

  /** The page's comparator on rows that do carry the total: a positive
      result, which puts `a` after `b`, exactly when `b`'s pair has the
      larger total. */
  function IntendedCompare(a: RankedRow, b: RankedRow): (r: int)
    ensures r > 0 <==> a.totalDaysForPair < b.totalDaysForPair
  {
    CompareTotals(Defined(a.totalDaysForPair), Defined(b.totalDaysForPair))
  }

  /** The rows sorted as the caption says. */
  function IntendedAllRows(pairs: seq<PairResult>): seq<RankedRow> {
    Sorting.StableSort(FlattenRanked(pairs), IntendedCompare)
  }

  /** Pair totals never increase from one row to a later one. */
  ghost predicate DescendingByTotal(rs: seq<RankedRow>) {
    forall i, j :: 0 <= i < j < |rs| ==> rs[i].totalDaysForPair >= rs[j].totalDaysForPair
  }

  /** Every element of an insertion is the inserted one or was there before. */
  lemma InsertMembers(sorted: seq<RankedRow>, x: RankedRow, y: RankedRow)
    requires y in Sorting.Insert(sorted, x, IntendedCompare)
    ensures y == x || y in sorted
  {
    Sorting.InsertPermutes(sorted, x, IntendedCompare);
    assert y in multiset(Sorting.Insert(sorted, x, IntendedCompare));
  }

  /** Inserting into rows in descending order keeps them in descending order. */
  lemma {:induction false} InsertKeepsDescending(sorted: seq<RankedRow>, x: RankedRow)
    requires DescendingByTotal(sorted)
    ensures DescendingByTotal(Sorting.Insert(sorted, x, IntendedCompare))
  {
    if sorted != [] {
      var n := |sorted| - 1;
      var front, top := sorted[..n], sorted[n];
      if IntendedCompare(top, x) > 0 {
        InsertKeepsDescending(front, x);
        var ins := Sorting.Insert(front, x, IntendedCompare);
        forall k | 0 <= k < |ins| ensures ins[k].totalDaysForPair >= top.totalDaysForPair {
          InsertMembers(front, x, ins[k]);
        }
        var r := ins + [top];
        forall i, j | 0 <= i < j < |r| ensures r[i].totalDaysForPair >= r[j].totalDaysForPair {
          if j < |ins| {
            assert r[i] == ins[i] && r[j] == ins[j];
          }
        }
      } else {
        var r := sorted + [x];
        forall i, j | 0 <= i < j < |r| ensures r[i].totalDaysForPair >= r[j].totalDaysForPair {
          if j == n + 1 {
            assert r[i] == sorted[i] && r[j] == x;
          } else {
            assert r[i] == sorted[i] && r[j] == sorted[j];
          }
        }
      }
    }
  }

  /** The stable sort with the intended comparator orders any ranked rows
      by descending pair total. */
  lemma {:induction false} IntendedSortDescending(rs: seq<RankedRow>)
    ensures DescendingByTotal(Sorting.StableSort(rs, IntendedCompare))
  {
    if rs != [] {
      var n := |rs| - 1;
      IntendedSortDescending(rs[..n]);
      InsertKeepsDescending(Sorting.StableSort(rs[..n], IntendedCompare), rs[n]);
    }
  }

  /** The intended rows are the page's rows, each with its pair's total,
      rearranged so that pair totals descend. */
  lemma {:induction false} IntendedAllRowsSorted(pairs: seq<PairResult>)
    ensures DescendingByTotal(IntendedAllRows(pairs))
    ensures multiset(IntendedAllRows(pairs)) == multiset(FlattenRanked(pairs))
    ensures RowsOf(FlattenRanked(pairs)) == AllRows(pairs)
  {
    IntendedSortDescending(FlattenRanked(pairs));
    Sorting.SortPermutes(FlattenRanked(pairs), IntendedCompare);
    RankedRowsAreTheRows(pairs);
    AllRowsIsFlatten(pairs);
  }

  /** Two pairs: employees 1 and 2 worked 5 days on project 10 and 3 days
      on project 11; employees 3 and 4 worked 20 days on project 10. */
  function TwoPairs(): seq<PairResult> {
    [ PairResult(1, 2, [ProjectDays(10, 5), ProjectDays(11, 3)]),
      PairResult(3, 4, [ProjectDays(10, 20)]) ]
  }

  /** The ranked rows of `TwoPairs`: the first pair's total is 8, the
      second's 20. */
  lemma TwoPairsRanked()
    ensures FlattenRanked(TwoPairs()) == [
      RankedRow(DisplayRow(1, 2, 10, 5), 8),
      RankedRow(DisplayRow(1, 2, 11, 3), 8),
      RankedRow(DisplayRow(3, 4, 10, 20), 20)]
  {
    var pairs := TwoPairs();
    var p, q := ProjectDays(10, 5), ProjectDays(11, 3);
    assert [p, q][..1] == [p] && [p][..0] == [];
    assert SumDays([p]) == 5;
    assert TotalDays(pairs[0]) == 8;
    var r := ProjectDays(10, 20);
    assert [r][..0] == [];
    assert TotalDays(pairs[1]) == 20;
    assert pairs[1..][1..] == [];
    assert FlattenRanked(pairs) == RankPair(pairs[0]) + RankPair(pairs[1]);
  }

  /** On `TwoPairs` the page lists the rows of the pair with 8 days before
      the row of the pair with 20: the rows, with their pair totals, are
      not in descending order, whatever the caption says. */
  lemma CaptionClaimFails()
    ensures AllRows(TwoPairs())
      == [DisplayRow(1, 2, 10, 5), DisplayRow(1, 2, 11, 3), DisplayRow(3, 4, 10, 20)]
    ensures RowsOf(FlattenRanked(TwoPairs())) == AllRows(TwoPairs())
    ensures !DescendingByTotal(FlattenRanked(TwoPairs()))
  {
    AllRowsIsFlatten(TwoPairs());
    RankedRowsAreTheRows(TwoPairs());
    TwoPairsRanked();
    var ranked := FlattenRanked(TwoPairs());
    assert ranked[0].totalDaysForPair == 8 && ranked[2].totalDaysForPair == 20;
  }

  /** With the totals attached, the same rows come out with the 20-day
      pair first and the other pair's rows after it in their own order. */
  lemma IntendedOrderExample()
    ensures RowsOf(IntendedAllRows(TwoPairs()))
      == [DisplayRow(3, 4, 10, 20), DisplayRow(1, 2, 10, 5), DisplayRow(1, 2, 11, 3)]
  {
    TwoPairsRanked();
    var a := RankedRow(DisplayRow(1, 2, 10, 5), 8);
    var b := RankedRow(DisplayRow(1, 2, 11, 3), 8);
    var c := RankedRow(DisplayRow(3, 4, 10, 20), 20);
    var ranked := [a, b, c];
    assert ranked[..2] == [a, b] && [a, b][..1] == [a] && [a][..0] == [];
    assert Sorting.StableSort([a], IntendedCompare) == [a];
    assert Sorting.StableSort([a, b], IntendedCompare) == [a, b];
    assert Sorting.Insert([a, b], c, IntendedCompare) == [c, a, b] by {
      assert Sorting.Insert([a], c, IntendedCompare) == [c, a];
    }
  }
}

/** The stable comparison sort behind `Array.prototype.sort`.

    The ECMAScript standard (since its 2019 edition) requires the sort to be
    stable: elements the comparator calls equal keep their relative order.
    Given a consistent comparator, every stable sort produces the same
    sequence, so the model uses insertion sort as the reference algorithm.
    A comparator `cmp(x, y)` follows the convention of section 23.1.3.30.2
    of ECMA-262 (2023), CompareArrayElements: a positive result means `x`
    must come after `y`; zero or a negative result leaves them in order. */
module Sorting {

  /** Appends `x` to `sorted` and moves it left past every element that the
      comparator places after it. Ties stop the move, which keeps the sort
      stable. */
  function Insert<T>(sorted: seq<T>, x: T, cmp: (T, T) -> int): (r: seq<T>)
    ensures |r| == |sorted| + 1
  {
    if sorted == [] then [x]
    else
      var n := |sorted| - 1;
      if cmp(sorted[n], x) > 0 then Insert(sorted[..n], x, cmp) + [sorted[n]]
      else sorted + [x]
  }

  /** The sequence a stable sort with comparator `cmp` makes of `s`. */
  function StableSort<T>(s: seq<T>, cmp: (T, T) -> int): (r: seq<T>)
    ensures |r| == |s|
  {
    if s == [] then []
    else
      var n := |s| - 1;
      Insert(StableSort(s[..n], cmp), s[n], cmp)
  }

  /** Insertion adds `x` and loses nothing. */
  lemma {:induction false} InsertPermutes<T>(sorted: seq<T>, x: T, cmp: (T, T) -> int)
    ensures multiset(Insert(sorted, x, cmp)) == multiset(sorted) + multiset{x}
  {
    if sorted != [] {
      var n := |sorted| - 1;
      assert sorted == sorted[..n] + [sorted[n]];
      if cmp(sorted[n], x) > 0 {
        InsertPermutes(sorted[..n], x, cmp);
      }
    }
  }

  /** The sort is a permutation of its input, whatever the comparator. */
  lemma {:induction false} SortPermutes<T>(s: seq<T>, cmp: (T, T) -> int)
    ensures multiset(StableSort(s, cmp)) == multiset(s)
  {
    if s != [] {
      var n := |s| - 1;
      assert s == s[..n] + [s[n]];
      SortPermutes(s[..n], cmp);
      InsertPermutes(StableSort(s[..n], cmp), s[n], cmp);
    }
  }

  /** A sequence whose neighbours the comparator never asks to swap is
      already sorted: the stable sort returns it unchanged. */
  lemma {:induction false} SortInOrderIsIdentity<T>(s: seq<T>, cmp: (T, T) -> int)
    requires forall i :: 0 <= i < |s| - 1 ==> cmp(s[i], s[i + 1]) <= 0
    ensures StableSort(s, cmp) == s
  {
    if s != [] {
      var n := |s| - 1;
      var p := s[..n];
      assert forall i :: 0 <= i < |p| - 1 ==> cmp(p[i], p[i + 1]) <= 0 by {
        forall i | 0 <= i < |p| - 1 ensures cmp(p[i], p[i + 1]) <= 0 {
          assert p[i] == s[i] && p[i + 1] == s[i + 1];
        }
      }
      SortInOrderIsIdentity(p, cmp);
      assert s == p + [s[n]];
      if p != [] {
        assert p[|p| - 1] == s[n - 1];
      }
    }
  }

  /** One round of insertion sort: the element at index `i` moves left
      while the comparator puts its left neighbour after it, so that the
      first `i + 1` elements become the insertion of `a[i]` into the first
      `i`. The elements after `i` stay where they are. */
  method InsertInPlace<T>(a: array<T>, i: nat, cmp: (T, T) -> int)
    requires i < a.Length
    modifies a
    ensures a[..] == Insert(old(a[..i]), old(a[i]), cmp) + old(a[i + 1..])
  {
    ghost var p, rest := a[..i], a[i + 1..];
    var x := a[i];
    var j;
    ghost var front, moved;
    j, front, moved := ShiftGreater(a, i, x, cmp);
    a[j] := x;
    Layout(a[..], front, x, moved, rest);
  }

  /** The inner loop of insertion sort: shifts right, by one place, the
      elements at the end of the prefix `a[..i]` that must come after `x`,
      and returns the index `j` of the hole this leaves. `front` is what
      stays in place and `moved` what was shifted. */
  method ShiftGreater<T>(a: array<T>, i: nat, x: T, cmp: (T, T) -> int)
      returns (j: nat, ghost front: seq<T>, ghost moved: seq<T>)
    requires i < a.Length
    modifies a
    ensures j <= i && |front| == j && |moved| == i - j
    ensures forall k :: 0 <= k < j ==> a[k] == front[k]
    ensures forall k :: j < k <= i ==> a[k] == moved[k - j - 1]
    ensures a[i + 1..] == old(a[i + 1..])
    ensures Insert(old(a[..i]), x, cmp) == front + [x] + moved
  {
    ghost var p := a[..i];
    front, moved := p, [];
    j := i;
    while j > 0 && cmp(a[j - 1], x) > 0
      invariant 0 <= j <= i && |front| == j && |moved| == i - j
      invariant forall k :: 0 <= k < j ==> a[k] == front[k]
      invariant forall k :: j < k <= i ==> a[k] == moved[k - j - 1]
      invariant a[i + 1..] == old(a[i + 1..])
      invariant Insert(p, x, cmp) == Insert(front, x, cmp) + moved
    {
      InsertMovesLeft(front, x, cmp);
      a[j] := a[j - 1];
      moved := [front[j - 1]] + moved;
      front := front[..j - 1];
      j := j - 1;
    }
    InsertStops(front, x, cmp);
  }

  /** One step of insertion: when the last element of `front` must come
      after `x`, `x` moves past it. */
  lemma InsertMovesLeft<T>(front: seq<T>, x: T, cmp: (T, T) -> int)
    requires front != [] && cmp(front[|front| - 1], x) > 0
    ensures Insert(front, x, cmp) == Insert(front[..|front| - 1], x, cmp) + [front[|front| - 1]]
  {
  }

  /** Where the insertion stops, `x` simply follows what is left of it. */
  lemma InsertStops<T>(front: seq<T>, x: T, cmp: (T, T) -> int)
    requires front != [] ==> cmp(front[|front| - 1], x) <= 0
    ensures Insert(front, x, cmp) == front + [x]
  {
  }

  /** Reads the layout the insertion loop leaves behind as one sequence. */
  lemma Layout<T>(arr: seq<T>, front: seq<T>, x: T, moved: seq<T>, rest: seq<T>)
    requires |arr| == |front| + 1 + |moved| + |rest|
    requires forall k :: 0 <= k < |front| ==> arr[k] == front[k]
    requires arr[|front|] == x
    requires forall k :: |front| < k <= |front| + |moved| ==> arr[k] == moved[k - |front| - 1]
    requires forall k :: |front| + |moved| < k < |arr| ==> arr[k] == rest[k - |front| - |moved| - 1]
    ensures arr == front + [x] + moved + rest
  {
    var want := front + [x] + moved + rest;
    forall k | 0 <= k < |arr| ensures arr[k] == want[k] {
      if k < |front| {
      } else if k == |front| {
      } else if k <= |front| + |moved| {
        assert want[k] == moved[k - |front| - 1];
      } else {
        assert want[k] == rest[k - |front| - |moved| - 1];
      }
    }
  }

  /** One round of the outer loop of insertion sort: inserting the first
      unsorted element into the sorted prefix extends the sorted prefix by
      one element. */
  lemma SortStep<T>(s: seq<T>, i: nat, before: seq<T>, after: seq<T>, cmp: (T, T) -> int)
    requires i < |s|
    requires before == StableSort(s[..i], cmp) + s[i..]
    requires after == Insert(before[..i], before[i], cmp) + before[i + 1..]
    ensures after == StableSort(s[..i + 1], cmp) + s[i + 1..]
  {
    var front := StableSort(s[..i], cmp);
    assert s[i..] == [s[i]] + s[i + 1..];
    assert before[..i] == front && before[i] == s[i] && before[i + 1..] == s[i + 1..];
    assert s[..i + 1][..i] == s[..i];
  }

  /** Sorts `a` in place: the array ends up holding the stable sort of what
      it held before. */
  method SortInPlace<T>(a: array<T>, cmp: (T, T) -> int)
    modifies a
    ensures a[..] == StableSort(old(a[..]), cmp)
  {
    ghost var s := a[..];
    var i := 0;
    while i < a.Length
      invariant 0 <= i <= a.Length
      invariant a[..] == StableSort(s[..i], cmp) + s[i..]
    {
      ghost var before := a[..];
      InsertInPlace(a, i, cmp);
      SortStep(s, i, before, a[..], cmp);
      i := i + 1;
    }
    assert s[..a.Length] == s && s[a.Length..] == [];
  }
}

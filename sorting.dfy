/**
 * The ordering step of a refresh: qsort under a comparator that returns a
 * negative, zero or positive int. Only the contract of qsort is relied on:
 * the result is a permutation of the input, ordered by the comparator. An
 * insertion sort serves as the witness that such a result exists.
 */
module Sorting {

  /** A qsort comparator: `c(a, b) <= 0` means `a` may precede `b`. */
  type Cmp<!T> = (T, T) -> int

  /** Any two elements can be ordered one way or the other. */
  ghost predicate Total<T(!new)>(c: Cmp<T>) {
    forall a, b :: c(a, b) <= 0 || c(b, a) <= 0
  }

  /** "May precede" chains. */
  ghost predicate Transitive<T(!new)>(c: Cmp<T>) {
    forall a, b, d :: c(a, b) <= 0 && c(b, d) <= 0 ==> c(a, d) <= 0
  }

  /** What qsort demands of its comparator: a consistent total preorder. */
  ghost predicate TotalPreorder<T(!new)>(c: Cmp<T>) {
    Total(c) && Transitive(c)
  }

  /** Each element may precede the next one. */
  ghost predicate Sorted<T>(s: seq<T>, c: Cmp<T>) {
    forall i :: 0 < i < |s| ==> c(s[i - 1], s[i]) <= 0
  }

  /** Each element may precede every later one. */
  ghost predicate SortedPairwise<T>(s: seq<T>, c: Cmp<T>) {
    forall i, j :: 0 <= i < j < |s| ==> c(s[i], s[j]) <= 0
  }

  /** Places `x` before the first element it may precede. */
  function Insert<T>(x: T, s: seq<T>, c: Cmp<T>): (r: seq<T>)
    ensures |r| == |s| + 1 && multiset(r) == multiset(s) + multiset{x}
  {
    if s == [] || c(x, s[0]) <= 0 then
      [x] + s
    else
      assert s == [s[0]] + s[1..];
      [s[0]] + Insert(x, s[1..], c)
  }

  /** Inserting into a sorted sequence keeps it sorted. */
  lemma {:induction false} InsertSorted<T(!new)>(x: T, s: seq<T>, c: Cmp<T>)
    requires Total(c) && Sorted(s, c)
    ensures Sorted(Insert(x, s, c), c)
    ensures s != [] ==> Insert(x, s, c)[0] == x || Insert(x, s, c)[0] == s[0]
  {
    if s != [] && c(x, s[0]) > 0 {
      var rest := Insert(x, s[1..], c);
      InsertSorted(x, s[1..], c);
      assert c(s[0], x) <= 0;
      assert Insert(x, s, c) == [s[0]] + rest;
    }
  }

  /** A permutation of `s` that is sorted under `c`. */
  function SortBy<T(!new)>(s: seq<T>, c: Cmp<T>): (r: seq<T>)
    requires Total(c)
    ensures |r| == |s| && multiset(r) == multiset(s)
    ensures Sorted(r, c)
  {
    if s == [] then []
    else
      assert s == [s[0]] + s[1..];
      var rest := SortBy(s[1..], c);
      InsertSorted(s[0], rest, c);
      Insert(s[0], rest, c)
  }

  /** Under a transitive comparator, ordering neighbours orders every pair. */
  lemma {:induction false} SortedIsPairwise<T(!new)>(s: seq<T>, c: Cmp<T>)
    requires Transitive(c) && Sorted(s, c)
    ensures SortedPairwise(s, c)
  {
    forall i, j | 0 <= i < j < |s| ensures c(s[i], s[j]) <= 0 {
      OrderedAcross(s, c, i, j);
    }
  }

  lemma {:induction false} OrderedAcross<T(!new)>(s: seq<T>, c: Cmp<T>, i: nat, j: nat)
    requires Transitive(c) && Sorted(s, c) && i < j < |s|
    ensures c(s[i], s[j]) <= 0
    decreases j - i
  {
    if j > i + 1 {
      OrderedAcross(s, c, i, j - 1);
    }
  }
}

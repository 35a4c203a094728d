/** Descending numeric sort, `arr.sort((a, b) => b - a)`, and the sums the evaluator needs. */
module Sorting {

  predicate SortedDesc(s: seq<int>) {
    forall i, j :: 0 <= i < j < |s| ==> s[i] >= s[j]
  }

  /** Inserts `x` into a descending sequence, keeping it descending. */
  function Insert(x: int, s: seq<int>): (r: seq<int>)
    requires SortedDesc(s)
    ensures SortedDesc(r)
    ensures multiset(r) == multiset(s) + multiset{x}
    ensures |r| == |s| + 1
    ensures r[0] == x || (|s| > 0 && r[0] == s[0])
  {
    if |s| == 0 || x >= s[0] then [x] + s
    else
      var tail := Insert(x, s[1..]);
      assert s == [s[0]] + s[1..];
      [s[0]] + tail
  }

  /** Sorts into descending order (the comparator `(a, b) => b - a`). */
  function SortDesc(s: seq<int>): (r: seq<int>)
    ensures SortedDesc(r)
    ensures multiset(r) == multiset(s)
    ensures |r| == |s|
  {
    if |s| == 0 then []
    else
      assert s == [s[0]] + s[1..];
      Insert(s[0], SortDesc(s[1..]))
  }

  function Sum(s: seq<int>): int {
    if |s| == 0 then 0 else s[0] + Sum(s[1..])
  }

  lemma {:induction false} SumInsert(x: int, s: seq<int>)
    requires SortedDesc(s)
    ensures Sum(Insert(x, s)) == x + Sum(s)
  {
    if |s| == 0 || x >= s[0] {
      assert ([x] + s)[1..] == s;
    } else {
      SumInsert(x, s[1..]);
      assert ([s[0]] + Insert(x, s[1..]))[1..] == Insert(x, s[1..]);
    }
  }

  /** Sorting does not change the sum. */
  lemma {:induction false} SumSortDesc(s: seq<int>)
    ensures Sum(SortDesc(s)) == Sum(s)
  {
    if |s| > 0 {
      SumSortDesc(s[1..]);
      SumInsert(s[0], SortDesc(s[1..]));
    }
  }

  /** The head of a descending sequence bounds every element. */
  lemma HeadIsMax(s: seq<int>, x: int)
    requires SortedDesc(s) && x in multiset(s)
    ensures |s| > 0 && x <= s[0]
  {
    assert x in s;
  }

  /** Two descending sequences with the same elements are equal: the sort's result is determined by its input's multiset. */
  lemma {:induction false} SortedUnique(a: seq<int>, b: seq<int>)
    requires SortedDesc(a) && SortedDesc(b)
    requires multiset(a) == multiset(b)
    ensures a == b
  {
    if |a| == 0 {
      assert |b| == |multiset(b)| == 0;
    } else {
      HeadIsMax(b, a[0]);
      HeadIsMax(a, b[0]);
      var a', b' := a[1..], b[1..];
      assert a == [a[0]] + a';
      assert b == [b[0]] + b';
      assert a[0] == b[0];
      assert multiset(a') == multiset(a) - multiset{a[0]};
      assert multiset(b') == multiset(b) - multiset{b[0]};
      assert multiset(a') == multiset(b');
      SortedUnique(a', b');
    }
  }
}

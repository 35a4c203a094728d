/** The descending Fisher-Yates shuffle of `shuffleDeck`, with the random swap index supplied as input.
    In the source the index is `Math.floor(random() * (i + 1))` where `random()` returns
    `s / 0x7fffffff`; that ratio is 1.0 when the generator state `s` equals 0x7fffffff, which
    would give an index of i + 1. The model takes the indices as given and requires 0 <= j <= i. */
module Shuffle {

  /** `[s[i], s[j]] = [s[j], s[i]]`. */
  function Swap<T>(s: seq<T>, i: nat, j: nat): (r: seq<T>)
    requires i < |s| && j < |s|
    ensures |r| == |s|
  {
    s[i := s[j]][j := s[i]]
  }

  /** A swap exchanges positions `i` and `j`, leaves every other position alone and so keeps the
      same cards. */
  lemma SwapExchanges<T>(s: seq<T>, i: nat, j: nat)
    requires i < |s| && j < |s|
    ensures Swap(s, i, j)[i] == s[j] && Swap(s, i, j)[j] == s[i]
    ensures forall k :: 0 <= k < |s| && k != i && k != j ==> Swap(s, i, j)[k] == s[k]
    ensures multiset(Swap(s, i, j)) == multiset(s)
  {
  }

  /** The number of swaps the loop `for (i = n - 1; i > 0; i--)` performs. */
  function Steps(n: nat): nat {
    if n <= 1 then 0 else n - 1
  }

  /** `picks[k]` is the index chosen when the loop variable is `n - 1 - k`; each lies in `[0, i]`. */
  predicate ValidPicks(n: nat, picks: seq<int>) {
    |picks| == Steps(n) && forall k :: 0 <= k < |picks| ==> 0 <= picks[k] <= n - 1 - k
  }

  /** The shuffle as a recursive definition: the swaps for loop values `i, i - 1, ..., 1`. */
  function ShuffleDown<T>(s: seq<T>, i: int, picks: seq<int>): (r: seq<T>)
    requires i < |s|
    requires ValidPicks(|s|, picks)
    ensures |r| == |s|
    decreases i
  {
    if i <= 0 then s
    else ShuffleDown(Swap(s, i, picks[|s| - 1 - i]), i - 1, picks)
  }

  /** The shuffle is a permutation of its input. */
  lemma {:induction false} ShuffleDownPermutes<T>(s: seq<T>, i: int, picks: seq<int>)
    requires i < |s| && ValidPicks(|s|, picks)
    ensures multiset(ShuffleDown(s, i, picks)) == multiset(s)
    decreases i
  {
    if i > 0 {
      var j := picks[|s| - 1 - i];
      SwapExchanges(s, i, j);
      ShuffleDownPermutes(Swap(s, i, j), i - 1, picks);
    }
  }

  /** `shuffleDeck`: a copy of the deck, permuted in place from the last index down to 1. */
  method ShuffleDeck<T>(deck: seq<T>, picks: seq<int>) returns (shuffled: seq<T>)
    requires ValidPicks(|deck|, picks)
    ensures shuffled == ShuffleDown(deck, |deck| - 1, picks)
    ensures |shuffled| == |deck|
    ensures multiset(shuffled) == multiset(deck)
  {
    shuffled := deck;
    var i := |deck| - 1;
    while i > 0
      invariant -1 <= i < |deck|
      invariant |shuffled| == |deck|
      invariant ShuffleDown(shuffled, i, picks) == ShuffleDown(deck, |deck| - 1, picks)
      decreases i
    {
      var j := picks[|deck| - 1 - i];
      shuffled := Swap(shuffled, i, j);
      i := i - 1;
    }
    ShuffleDownPermutes(deck, |deck| - 1, picks);
  }

  ghost predicate Distinct<T>(s: seq<T>) {
    forall a, b :: 0 <= a < b < |s| ==> s[a] != s[b]
  }

  /** A shuffle never duplicates a card: distinct input cards give distinct output cards. */
  lemma {:induction false} ShufflePreservesDistinct<T>(s: seq<T>, i: int, picks: seq<int>)
    requires i < |s| && ValidPicks(|s|, picks)
    requires Distinct(s)
    ensures Distinct(ShuffleDown(s, i, picks))
    decreases i
  {
    if i > 0 {
      var j := picks[|s| - 1 - i];
      var t := Swap(s, i, j);
      SwapExchanges(s, i, j);
      forall a, b | 0 <= a < b < |t|
        ensures t[a] != t[b]
      {
        var a' := if a == i then j else if a == j then i else a;
        var b' := if b == i then j else if b == j then i else b;
        assert t[a] == s[a'] && t[b] == s[b'];
        assert a' != b';
        if a' < b' {} else {}
      }
      ShufflePreservesDistinct(t, i - 1, picks);
      assert ShuffleDown(s, i, picks) == ShuffleDown(t, i - 1, picks);
    }
  }

  /** In a sequence without repeats every entry occurs once. */
  lemma {:induction false} DistinctOnce<T>(s: seq<T>)
    requires Distinct(s)
    ensures forall x :: multiset(s)[x] <= 1
  {
    if |s| > 0 {
      var t := s[1..];
      assert Distinct(t) by {
        forall a, b | 0 <= a < b < |t| ensures t[a] != t[b] {
          assert t[a] == s[a + 1] && t[b] == s[b + 1];
        }
      }
      DistinctOnce(t);
      assert s == [s[0]] + t;
      forall k | 0 <= k < |t| ensures t[k] != s[0] {
        assert t[k] == s[k + 1];
      }
    }
  }
}

/** What the evaluator's pieces compute, stated through the multiplicity `Mult` of each number
    in the hand: the helpers behind the tie-break keys, the shape of `counts`, and the straight. */
module HandFacts {
  import opened Cards
  import opened Sorting
  import opened Hands

  // ---------------------------------------------------------------------------------------
  // Sequence helpers
  // ---------------------------------------------------------------------------------------

  lemma ConsSorted(a: int, t: seq<int>)
    requires SortedDesc(t)
    requires forall k :: 0 <= k < |t| ==> t[k] <= a
    ensures SortedDesc([a] + t)
  {
    var r := [a] + t;
    forall i, j | 0 <= i < j < |r| ensures r[i] >= r[j] {
      if i > 0 { assert r[i] == t[i - 1] && r[j] == t[j - 1]; }
      else { assert r[j] == t[j - 1]; }
    }
  }

  lemma ConsStrict(a: int, t: seq<int>)
    requires StrictDesc(t)
    requires forall k :: 0 <= k < |t| ==> t[k] < a
    ensures StrictDesc([a] + t)
  {
    var r := [a] + t;
    forall i, j | 0 <= i < j < |r| ensures r[i] > r[j] {
      if i > 0 { assert r[i] == t[i - 1] && r[j] == t[j - 1]; }
      else { assert r[j] == t[j - 1]; }
    }
  }

  /** A number found at two positions occurs at least twice. */
  lemma TwoPositions(s: seq<int>, i: int, j: int)
    requires 0 <= i < j < |s| && s[i] == s[j]
    ensures multiset(s)[s[i]] >= 2
  {
    assert s == s[..j] + s[j..];
    assert multiset(s) == multiset(s[..j]) + multiset(s[j..]);
    assert s[i] in s[..j];
    assert s[j] == s[j..][0];
  }

  /** A descending list whose entries each occur once is strictly descending. */
  lemma StrictFromSingles(s: seq<int>)
    requires SortedDesc(s)
    requires forall i :: 0 <= i < |s| ==> multiset(s)[s[i]] == 1
    ensures StrictDesc(s)
  {
    forall i, j | 0 <= i < j < |s| ensures s[i] > s[j] {
      if s[i] == s[j] {
        TwoPositions(s, i, j);
      }
    }
  }

  // ---------------------------------------------------------------------------------------
  // `values.filter(v => v !== x)`
  // ---------------------------------------------------------------------------------------

  /** Filtering removes exactly the copies of `x`: every other number keeps its multiplicity. */
  lemma {:induction false} WithoutFacts(s: seq<int>, x: int)
    ensures multiset(Without(s, x)) == multiset(s)[x := 0]
    ensures |Without(s, x)| == |s| - multiset(s)[x]
  {
    if |s| > 0 {
      WithoutFacts(s[1..], x);
      assert s == [s[0]] + s[1..];
      assert multiset(s) == multiset{s[0]} + multiset(s[1..]);
    }
  }

  /** Filtering keeps a descending list descending. */
  lemma {:induction false} WithoutSorted(s: seq<int>, x: int)
    requires SortedDesc(s)
    ensures SortedDesc(Without(s, x))
  {
    if |s| > 0 {
      var rest := Without(s[1..], x);
      WithoutSorted(s[1..], x);
      if s[0] != x {
        WithoutFacts(s[1..], x);
        TailBelowHead(s);
        forall k | 0 <= k < |rest| ensures rest[k] <= s[0] {
          assert rest[k] in multiset(rest);
        }
        ConsSorted(s[0], rest);
      }
    }
  }

  // ---------------------------------------------------------------------------------------
  // `Object.keys(valueCounts).find(k => valueCounts[k] === c)` and its `filter` form
  // ---------------------------------------------------------------------------------------

  /** When some tally has count `c`, the scan returns the number of such a tally. */
  lemma {:induction false} WithCountFinds(ts: seq<Tally>, c: nat, k: int) returns (i: nat)
    requires 0 <= k < |ts| && ts[k].count == c
    ensures i < |ts| && ts[i].count == c && ts[i].value == WithCount(ts, c)
  {
    var n := |ts|;
    if ts[n - 1].count == c {
      i := n - 1;
    } else {
      var j := WithCountFinds(ts[..n - 1], c, k);
      assert ts[j] == ts[..n - 1][j];
      i := j;
    }
  }

  /** A tally with count `c` has its number in the filtered list. */
  lemma {:induction false} AllWithCountHas(ts: seq<Tally>, c: nat, i: int)
    requires 0 <= i < |ts| && ts[i].count == c
    ensures ts[i].value in AllWithCount(ts, c)
  {
    if i > 0 {
      AllWithCountHas(ts[1..], c, i - 1);
      assert ts[1..][i - 1] == ts[i];
    }
  }

  /** Every number of the filtered list comes from a tally with count `c`. */
  lemma {:induction false} AllWithCountFrom(ts: seq<Tally>, c: nat, v: int) returns (i: nat)
    requires v in AllWithCount(ts, c)
    ensures i < |ts| && ts[i].value == v && ts[i].count == c
  {
    if ts[0].count == c && ts[0].value == v {
      i := 0;
    } else {
      var j := AllWithCountFrom(ts[1..], c, v);
      i := j + 1;
    }
  }

  /** The filtered list has one entry per tally with count `c`. */
  lemma {:induction false} AllWithCountLength(ts: seq<Tally>, c: nat)
    ensures |AllWithCount(ts, c)| == multiset(CountsOf(ts))[c]
  {
    if |ts| > 0 {
      AllWithCountLength(ts[1..], c);
      assert CountsOf(ts) == [ts[0].count] + CountsOf(ts[1..]);
    }
  }

  /** Filtering strictly descending tallies gives strictly descending numbers. */
  lemma {:induction false} AllWithCountStrict(ts: seq<Tally>, c: nat)
    requires StrictDesc(ValuesOf(ts))
    ensures StrictDesc(AllWithCount(ts, c))
  {
    if |ts| > 0 {
      var tail := ts[1..];
      var rest := AllWithCount(tail, c);
      assert StrictDesc(ValuesOf(tail)) by {
        forall i, j | 0 <= i < j < |tail| ensures tail[i].value > tail[j].value {
          assert ValuesOf(ts)[i + 1] > ValuesOf(ts)[j + 1];
        }
      }
      AllWithCountStrict(tail, c);
      if ts[0].count == c {
        forall k | 0 <= k < |rest| ensures rest[k] < ts[0].value {
          var i := AllWithCountFrom(tail, c, rest[k]);
          assert ValuesOf(ts)[0] > ValuesOf(ts)[i + 1];
        }
        ConsStrict(ts[0].value, rest);
      }
    }
  }

  /** `values.find(v => !pairs.includes(v))` succeeds when some number lies outside `pairs`. */
  lemma {:induction false} FirstOutsideFinds(s: seq<int>, pairs: seq<int>, v: int)
    requires v in s && v !in pairs
    ensures FirstOutside(s, pairs) in s && FirstOutside(s, pairs) !in pairs
  {
    if s[0] in pairs {
      assert v in s[1..];
      FirstOutsideFinds(s[1..], pairs, v);
    }
  }

  // ---------------------------------------------------------------------------------------
  // The hand's tallies and `counts`
  // ---------------------------------------------------------------------------------------

  /** Each tally of the hand carries the multiplicity of its number; the tallies are strictly
      descending. */
  lemma HandTallies(cards: seq<Card>)
    ensures StrictDesc(ValuesOf(Tallies(SortedValues(cards))))
    ensures var ts := Tallies(SortedValues(cards));
      forall i :: 0 <= i < |ts| ==> 1 <= ts[i].count == Mult(cards, ts[i].value)
  {
    TalliesDescending(SortedValues(cards));
    TalliesCount(SortedValues(cards));
  }

  /** A number that occurs in the hand has a tally. */
  lemma TallyOf(cards: seq<Card>, v: int) returns (i: nat)
    requires Mult(cards, v) > 0
    ensures var ts := Tallies(SortedValues(cards));
      i < |ts| && ts[i].value == v && ts[i].count == Mult(cards, v)
  {
    var values := SortedValues(cards);
    assert v in multiset(values);
    TalliesCover(values);
    HandTallies(cards);
    var ts := Tallies(values);
    assert v in ValuesOf(ts);
    i :| 0 <= i < |ts| && ValuesOf(ts)[i] == v;
  }

  /** Every entry of `counts` is the count of some tally. */
  lemma CountFromTally(cards: seq<Card>, c: int) returns (i: nat)
    requires c in CountList(SortedValues(cards))
    ensures var ts := Tallies(SortedValues(cards));
      i < |ts| && ts[i].count == c
  {
    var ts := Tallies(SortedValues(cards));
    assert c in multiset(CountsOf(ts));
    assert c in CountsOf(ts);
    i :| i < |ts| && CountsOf(ts)[i] == c;
  }

  /** Every tally's count is an entry of `counts`. */
  lemma TallyInCounts(cards: seq<Card>, i: int)
    requires 0 <= i < |Tallies(SortedValues(cards))|
    ensures Tallies(SortedValues(cards))[i].count in CountList(SortedValues(cards))
  {
    var ts := Tallies(SortedValues(cards));
    assert CountsOf(ts)[i] == ts[i].count;
    assert ts[i].count in multiset(CountsOf(ts));
  }

  /** A number occurring in the hand has its multiplicity listed in `counts`. */
  lemma MultInCounts(cards: seq<Card>, v: int)
    requires Mult(cards, v) > 0
    ensures Mult(cards, v) in CountList(SortedValues(cards))
  {
    var i := TallyOf(cards, v);
    TallyInCounts(cards, i);
  }

  /** For every entry `c` of `counts` there is a number occurring `c` times. */
  lemma CountHasNumber(cards: seq<Card>, c: int) returns (v: int)
    requires c in CountList(SortedValues(cards))
    ensures Mult(cards, v) == c && c >= 1
  {
    var i := CountFromTally(cards, c);
    HandTallies(cards);
    v := Tallies(SortedValues(cards))[i].value;
  }

  lemma CountsPositive(cards: seq<Card>)
    ensures Positive(CountList(SortedValues(cards)))
  {
    var counts := CountList(SortedValues(cards));
    forall k | 0 <= k < |counts| ensures counts[k] >= 1 {
      var v := CountHasNumber(cards, counts[k]);
    }
  }

  /** The multiplicities of a five-card hand, highest first, are one of the seven partitions of 5. */
  lemma HandShape(cards: seq<Card>)
    requires |cards| == 5
    ensures IsPartitionOfFive(CountList(SortedValues(cards)))
  {
    var values := SortedValues(cards);
    var ts := Tallies(values);
    var counts := CountList(values);
    CountsPositive(cards);
    SumSortDesc(CountsOf(ts));
    TalliesSum(values);
    assert Sum(counts) == 5;
    Partitions5(counts);
  }
}

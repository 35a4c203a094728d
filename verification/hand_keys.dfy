/** The tie-break keys of poker-game.jsx's `evaluateHand`, characterised by multiplicities:
    grouped numbers first (larger groups first, higher numbers first), then the single kickers in
    descending order. */
module HandKeys {
  import opened Cards
  import opened Sorting
  import opened Hands
  import opened HandFacts

  /** Two numbers sharing a multiplicity that `counts` lists only once are the same number. */
  lemma MultUnique(cards: seq<Card>, c: int, v: int, w: int)
    requires c >= 1 && Mult(cards, v) == c && Mult(cards, w) == c
    requires multiset(CountList(SortedValues(cards)))[c] == 1
    ensures v == w
  {
    var ts := Tallies(SortedValues(cards));
    var i := TallyOf(cards, v);
    var j := TallyOf(cards, w);
    AllWithCountHas(ts, c, i);
    AllWithCountHas(ts, c, j);
    AllWithCountLength(ts, c);
    var a := AllWithCount(ts, c);
    assert |a| == 1;
    assert a == [a[0]];
  }

  /** The kickers after a group of `x`: descending, `x` gone, every other number kept. */
  lemma KickersOf(cards: seq<Card>, x: int)
    ensures var r := Without(SortedValues(cards), x);
      && SortedDesc(r)
      && |r| == |cards| - Mult(cards, x)
      && x !in r
      && forall v :: v != x ==> multiset(r)[v] == Mult(cards, v)
  {
    var values := SortedValues(cards);
    WithoutFacts(values, x);
    WithoutSorted(values, x);
    assert multiset(Without(values, x))[x] == 0;
  }

  /** The number that `find` picks for a count present in `counts`, and its multiplicity. */
  lemma GroupNumber(cards: seq<Card>, c: int)
    requires c in CountList(SortedValues(cards))
    ensures c >= 1 && Mult(cards, WithCount(Tallies(SortedValues(cards)), c)) == c
  {
    var ts := Tallies(SortedValues(cards));
    var j := CountFromTally(cards, c);
    var i := WithCountFinds(ts, c, j);
    HandTallies(cards);
  }

  /** A kicker's multiplicity is 1 when the group's multiplicity is the only other entry. */
  lemma KickerIsSingle(cards: seq<Card>, x: int, v: int)
    requires |cards| == 5 && v != x && Mult(cards, v) > 0
    requires forall c :: c in CountList(SortedValues(cards)) ==> c == 1 || c == Mult(cards, x)
    requires multiset(CountList(SortedValues(cards)))[Mult(cards, x)] == 1 && Mult(cards, x) > 1
    ensures Mult(cards, v) == 1
  {
    MultInCounts(cards, v);
    if Mult(cards, v) != 1 {
      MultUnique(cards, Mult(cards, x), v, x);
    }
  }

  // Unfolding steps for the *Key lemmas below: each states one branch of `Evaluate` or `KeyFor`
  // as written, so that the lemmas about the keys can name it.

  /** `evaluateHand` on five cards: the ladder's category and the key chosen for it. */
  lemma EvaluateParts(cards: seq<Card>)
    requires |cards| == 5
    ensures Evaluate(cards).rank == Category(cards)
    ensures Evaluate(cards).highCards == KeyFor(SortedValues(cards), Category(cards))
  {
  }

  lemma KeyForQuads(values: seq<int>)
    requires SortedDesc(values)
    ensures var q := WithCount(Tallies(values), 4); KeyFor(values, 8) == [q] + Without(values, q)
  {
  }

  lemma KeyForFullHouse(values: seq<int>)
    requires SortedDesc(values)
    ensures var ts := Tallies(values); KeyFor(values, 7) == [WithCount(ts, 3), WithCount(ts, 2)]
  {
  }

  lemma KeyForTrips(values: seq<int>)
    requires SortedDesc(values)
    ensures var t := WithCount(Tallies(values), 3); KeyFor(values, 4) == [t] + Without(values, t)
  {
  }

  lemma KeyForTwoPair(values: seq<int>)
    requires SortedDesc(values)
    ensures var pairs := SortDesc(AllWithCount(Tallies(values), 2));
      KeyFor(values, 3) == pairs + [FirstOutside(values, pairs)]
  {
  }

  lemma KeyForPair(values: seq<int>)
    requires SortedDesc(values)
    ensures var p := WithCount(Tallies(values), 2); KeyFor(values, 2) == [p] + Without(values, p)
  {
  }

  lemma KeyForPlain(values: seq<int>, rank: int)
    requires SortedDesc(values) && rank !in {8, 7, 4, 3, 2}
    ensures KeyFor(values, rank) == values
  {
  }

  /** On a partition of 5, each grouped category of the ladder fixes the whole pattern. */
  lemma LadderCounts(flush: bool, straight: bool, royal: bool, counts: seq<int>)
    requires IsPartitionOfFive(counts)
    ensures var rank := Ladder(flush, straight, royal, counts);
      && (rank == 8 ==> counts == [4, 1])
      && (rank == 7 ==> counts == [3, 2])
      && (rank == 4 ==> counts == [3, 1, 1])
      && (rank == 3 ==> counts == [2, 2, 1])
      && (rank == 2 ==> counts == [2, 1, 1, 1])
  {
  }

  /** The multiplicity pattern behind each grouped category. */
  lemma CountsOfRank(cards: seq<Card>)
    requires |cards| == 5
    ensures var counts := CountList(SortedValues(cards));
      && (Category(cards) == 8 ==> counts == [4, 1])
      && (Category(cards) == 7 ==> counts == [3, 2])
      && (Category(cards) == 4 ==> counts == [3, 1, 1])
      && (Category(cards) == 3 ==> counts == [2, 2, 1])
      && (Category(cards) == 2 ==> counts == [2, 1, 1, 1])
  {
    var values := SortedValues(cards);
    HandShape(cards);
    LadderCounts(IsFlush(cards), IsStraight(UniqueValues(values)), IsRoyal(values), CountList(values));
  }

  /** When the group's multiplicity is the only entry of `counts` other than 1, the kickers
      after it are single cards, strictly descending. */
  lemma KickersAreSingles(cards: seq<Card>, x: int)
    requires |cards| == 5 && Mult(cards, x) > 1
    requires forall c :: c in CountList(SortedValues(cards)) ==> c == 1 || c == Mult(cards, x)
    requires multiset(CountList(SortedValues(cards)))[Mult(cards, x)] == 1
    ensures var r := Without(SortedValues(cards), x);
      && |r| == 5 - Mult(cards, x) && StrictDesc(r)
      && forall i :: 0 <= i < |r| ==> Mult(cards, r[i]) == 1
  {
    KickersOf(cards, x);
    var r := Without(SortedValues(cards), x);
    forall i | 0 <= i < |r| ensures multiset(r)[r[i]] == 1 == Mult(cards, r[i]) {
      assert r[i] in r;
      KickerIsSingle(cards, x, r[i]);
    }
    StrictFromSingles(r);
  }

  /** The facts about a `counts` pattern with one group of `g` and singles otherwise. */
  lemma OneGroupPattern(counts: seq<int>, g: int)
    requires (g == 3 && counts == [3, 1, 1]) || (g == 2 && counts == [2, 1, 1, 1])
    ensures g in counts && multiset(counts)[g] == 1
    ensures forall c :: c in counts ==> c == 1 || c == g
  {
  }

  /** Four of a kind: the key is the quad's number, then the kicker. */
  lemma QuadsKey(cards: seq<Card>)
    requires |cards| == 5 && Evaluate(cards).rank == 8
    ensures var k := Evaluate(cards).highCards;
      |k| == 2 && Mult(cards, k[0]) == 4 && Mult(cards, k[1]) == 1
  {
    EvaluateParts(cards);
    CountsOfRank(cards);
    QuadsKeyFor(cards);
  }

  lemma QuadsKeyFor(cards: seq<Card>)
    requires |cards| == 5 && CountList(SortedValues(cards)) == [4, 1]
    ensures var k := KeyFor(SortedValues(cards), 8);
      |k| == 2 && Mult(cards, k[0]) == 4 && Mult(cards, k[1]) == 1
  {
    var values := SortedValues(cards);
    KeyForQuads(values);
    assert 4 in CountList(values);
    GroupNumber(cards, 4);
    var q := WithCount(Tallies(values), 4);
    KickersOf(cards, q);
    var r := Without(values, q);
    assert r == [r[0]];
  }

  /** Full house: the key is the trip's number, then the pair's. */
  lemma FullHouseKey(cards: seq<Card>)
    requires |cards| == 5 && Evaluate(cards).rank == 7
    ensures var k := Evaluate(cards).highCards;
      |k| == 2 && Mult(cards, k[0]) == 3 && Mult(cards, k[1]) == 2
  {
    EvaluateParts(cards);
    CountsOfRank(cards);
    FullHouseKeyFor(cards);
  }

  lemma FullHouseKeyFor(cards: seq<Card>)
    requires |cards| == 5 && CountList(SortedValues(cards)) == [3, 2]
    ensures var k := KeyFor(SortedValues(cards), 7);
      |k| == 2 && Mult(cards, k[0]) == 3 && Mult(cards, k[1]) == 2
  {
    var values := SortedValues(cards);
    KeyForFullHouse(values);
    assert 3 in CountList(values) && 2 in CountList(values);
    GroupNumber(cards, 3);
    GroupNumber(cards, 2);
  }

  /** Three of a kind: the trip's number, then the two kickers, highest first. */
  lemma TripsKey(cards: seq<Card>)
    requires |cards| == 5 && Evaluate(cards).rank == 4
    ensures var k := Evaluate(cards).highCards;
      && |k| == 3 && Mult(cards, k[0]) == 3
      && k[1] > k[2] && Mult(cards, k[1]) == 1 && Mult(cards, k[2]) == 1
  {
    EvaluateParts(cards);
    CountsOfRank(cards);
    TripsKeyFor(cards);
  }

  lemma TripsKeyFor(cards: seq<Card>)
    requires |cards| == 5 && CountList(SortedValues(cards)) == [3, 1, 1]
    ensures var k := KeyFor(SortedValues(cards), 4);
      && |k| == 3 && Mult(cards, k[0]) == 3
      && k[1] > k[2] && Mult(cards, k[1]) == 1 && Mult(cards, k[2]) == 1
  {
    var values := SortedValues(cards);
    KeyForTrips(values);
    var t := SoleGroup(cards, 3);
    KickersAreSingles(cards, t);
    TripThenKickers(cards, t, Without(values, t));
  }

  lemma TripThenKickers(cards: seq<Card>, t: int, r: seq<int>)
    requires Mult(cards, t) == 3 && |r| == 2 && StrictDesc(r)
    requires forall i :: 0 <= i < |r| ==> Mult(cards, r[i]) == 1
    ensures var k := [t] + r;
      && |k| == 3 && Mult(cards, k[0]) == 3
      && k[1] > k[2] && Mult(cards, k[1]) == 1 && Mult(cards, k[2]) == 1
  {
    var k := [t] + r;
    assert k[1] == r[0] && k[2] == r[1];
  }

  /** Two pairs: the higher pair, the lower pair, then the kicker. */
  lemma TwoPairKey(cards: seq<Card>)
    requires |cards| == 5 && Evaluate(cards).rank == 3
    ensures var k := Evaluate(cards).highCards;
      && |k| == 3 && k[0] > k[1]
      && Mult(cards, k[0]) == 2 && Mult(cards, k[1]) == 2 && Mult(cards, k[2]) == 1
  {
    EvaluateParts(cards);
    CountsOfRank(cards);
    TwoPairKeyFor(cards);
  }

  lemma TwoPairKeyFor(cards: seq<Card>)
    requires |cards| == 5 && CountList(SortedValues(cards)) == [2, 2, 1]
    ensures var k := KeyFor(SortedValues(cards), 3);
      && |k| == 3 && k[0] > k[1]
      && Mult(cards, k[0]) == 2 && Mult(cards, k[1]) == 2 && Mult(cards, k[2]) == 1
  {
    var values := SortedValues(cards);
    KeyForTwoPair(values);
    var a := TwoPairNumbers(cards);
    TwoPairKicker(cards, a);
    PairsThenKicker(cards, a, FirstOutside(values, a));
  }

  lemma PairsThenKicker(cards: seq<Card>, a: seq<int>, x: int)
    requires |a| == 2 && a[0] > a[1] && Mult(cards, a[0]) == 2 && Mult(cards, a[1]) == 2
    requires Mult(cards, x) == 1
    ensures var k := a + [x];
      && |k| == 3 && k[0] > k[1]
      && Mult(cards, k[0]) == 2 && Mult(cards, k[1]) == 2 && Mult(cards, k[2]) == 1
  {
    var k := a + [x];
    assert k[0] == a[0] && k[1] == a[1] && k[2] == x;
  }

  /** The two numbers that occur twice, highest first; sorting leaves them as they are. */
  lemma TwoPairNumbers(cards: seq<Card>) returns (a: seq<int>)
    requires |cards| == 5 && CountList(SortedValues(cards)) == [2, 2, 1]
    ensures a == AllWithCount(Tallies(SortedValues(cards)), 2) && SortDesc(a) == a
    ensures |a| == 2 && a[0] > a[1] && Mult(cards, a[0]) == 2 && Mult(cards, a[1]) == 2
  {
    var ts := Tallies(SortedValues(cards));
    a := AllWithCount(ts, 2);
    HandTallies(cards);
    AllWithCountLength(ts, 2);
    assert multiset(CountList(SortedValues(cards)))[2] == 2;
    AllWithCountStrict(ts, 2);
    SortedUnique(SortDesc(a), a);
    var i0 := AllWithCountFrom(ts, 2, a[0]);
    var i1 := AllWithCountFrom(ts, 2, a[1]);
  }

  /** `values.find(v => !pairs.includes(v))` picks the single card of a two-pair hand. */
  lemma TwoPairKicker(cards: seq<Card>, a: seq<int>)
    requires |cards| == 5 && a == AllWithCount(Tallies(SortedValues(cards)), 2)
    requires CountList(SortedValues(cards)) == [2, 2, 1]
    ensures Mult(cards, FirstOutside(SortedValues(cards), a)) == 1
  {
    var values := SortedValues(cards);
    var ts := Tallies(values);
    HandTallies(cards);
    var v := CountHasNumber(cards, 1);
    assert v in multiset(values);
    if v in a {
      var i := AllWithCountFrom(ts, 2, v);
    }
    FirstOutsideFinds(values, a, v);
    var w := FirstOutside(values, a);
    assert w in multiset(values);
    MultInCounts(cards, w);
    if Mult(cards, w) == 2 {
      var i := TallyOf(cards, w);
      AllWithCountHas(ts, 2, i);
    }
  }

  /** One pair: the pair's number, then the three kickers, highest first. */
  lemma PairKey(cards: seq<Card>)
    requires |cards| == 5 && Evaluate(cards).rank == 2
    ensures var k := Evaluate(cards).highCards;
      && |k| == 4 && Mult(cards, k[0]) == 2
      && k[1] > k[2] > k[3]
      && Mult(cards, k[1]) == 1 && Mult(cards, k[2]) == 1 && Mult(cards, k[3]) == 1
  {
    EvaluateParts(cards);
    CountsOfRank(cards);
    PairKeyFor(cards);
  }

  lemma PairKeyFor(cards: seq<Card>)
    requires |cards| == 5 && CountList(SortedValues(cards)) == [2, 1, 1, 1]
    ensures var k := KeyFor(SortedValues(cards), 2);
      && |k| == 4 && Mult(cards, k[0]) == 2
      && k[1] > k[2] > k[3]
      && Mult(cards, k[1]) == 1 && Mult(cards, k[2]) == 1 && Mult(cards, k[3]) == 1
  {
    KeyForPair(SortedValues(cards));
    PairAndKickers(cards);
  }

  /** One pair: the pair's number, then three single kickers, strictly descending. */
  lemma PairAndKickers(cards: seq<Card>)
    requires |cards| == 5 && CountList(SortedValues(cards)) == [2, 1, 1, 1]
    ensures var p := WithCount(Tallies(SortedValues(cards)), 2);
      var k := [p] + Without(SortedValues(cards), p);
      && |k| == 4 && Mult(cards, k[0]) == 2 && k[1] > k[2] > k[3]
      && Mult(cards, k[1]) == 1 && Mult(cards, k[2]) == 1 && Mult(cards, k[3]) == 1
  {
    var p := SoleGroup(cards, 2);
    KickersAreSingles(cards, p);
    var r := Without(SortedValues(cards), p);
    GroupThenKickers(cards, p, r);
  }

  /** The number of the hand's one group of `g` (a trip or a pair), with `counts` holding `g` once
      and 1 otherwise. */
  lemma SoleGroup(cards: seq<Card>, g: int) returns (x: int)
    requires |cards| == 5
    requires (g == 3 && CountList(SortedValues(cards)) == [3, 1, 1])
          || (g == 2 && CountList(SortedValues(cards)) == [2, 1, 1, 1])
    ensures x == WithCount(Tallies(SortedValues(cards)), g) && Mult(cards, x) == g
    ensures forall c :: c in CountList(SortedValues(cards)) ==> c == 1 || c == Mult(cards, x)
    ensures multiset(CountList(SortedValues(cards)))[Mult(cards, x)] == 1
  {
    OneGroupPattern(CountList(SortedValues(cards)), g);
    GroupNumber(cards, g);
    x := WithCount(Tallies(SortedValues(cards)), g);
  }

  lemma GroupThenKickers(cards: seq<Card>, p: int, r: seq<int>)
    requires Mult(cards, p) == 2 && |r| == 3 && StrictDesc(r)
    requires forall i :: 0 <= i < |r| ==> Mult(cards, r[i]) == 1
    ensures var k := [p] + r;
      && |k| == 4 && Mult(cards, k[0]) == 2 && k[1] > k[2] > k[3]
      && Mult(cards, k[1]) == 1 && Mult(cards, k[2]) == 1 && Mult(cards, k[3]) == 1
  {
    var k := [p] + r;
    assert k[1] == r[0] && k[2] == r[1] && k[3] == r[2];
  }

  /** High card, straight, flush and the straight flushes: the key is the five numbers, highest
      first. */
  lemma PlainKey(cards: seq<Card>)
    requires |cards| == 5 && Evaluate(cards).rank in {1, 5, 6, 9, 10}
    ensures var k := Evaluate(cards).highCards;
      SortedDesc(k) && forall v :: multiset(k)[v] == Mult(cards, v)
  {
    PlainKeyIsValues(cards);
  }

  lemma PlainKeyIsValues(cards: seq<Card>)
    requires |cards| == 5 && Evaluate(cards).rank in {1, 5, 6, 9, 10}
    ensures Evaluate(cards).highCards == SortedValues(cards)
  {
    EvaluateParts(cards);
    KeyForPlain(SortedValues(cards), Category(cards));
  }
}

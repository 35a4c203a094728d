/** Two places where the evaluator's tie-break keys disagree with the poker order it aims at, each
    with the code as written, a hand pair that exhibits the gap, and the corrected behaviour.

    1. src/App.jsx keys every hand by its five numbers, highest first; between two full houses
       the highest number then decides instead of the trip, so 3-3-3-K-K beats 10-10-10-2-2.
       poker-game.jsx's category-specific key is the correction.
    2. Both copies key a straight by its numbers with the ace read as 14, so the wheel A-5-4-3-2
       beats every straight but the ten-to-ace one, although the ace plays low there. The
       corrected key reads the wheel as 5-4-3-2-1. */
module Findings {
  import opened Cards
  import opened Sorting
  import opened Hands
  import opened HandFacts
  import opened HandKeys
  import opened Compare
  import opened Categories

  const LowFullHouse: seq<Card> :=
    [Card(Hearts, Three), Card(Diamonds, Three), Card(Clubs, Three), Card(Spades, King), Card(Hearts, King)]

  const HighFullHouse: seq<Card> :=
    [Card(Clubs, Ten), Card(Diamonds, Ten), Card(Hearts, Ten), Card(Spades, Two), Card(Hearts, Two)]

  const WheelHand: seq<Card> :=
    [Card(Hearts, Ace), Card(Diamonds, Two), Card(Clubs, Three), Card(Spades, Four), Card(Hearts, Five)]

  const SixHighHand: seq<Card> :=
    [Card(Clubs, Two), Card(Diamonds, Three), Card(Hearts, Four), Card(Spades, Five), Card(Clubs, Six)]

  /** The wheel's key once the ace plays low. */
  const AceLowWheel: seq<int> := [5, 4, 3, 2, 1]

  // ---------------------------------------------------------------------------------------
  // Facts about particular hands, from the general lemmas
  // ---------------------------------------------------------------------------------------

  /** A hand's sorted numbers are any descending list with the same numbers. */
  lemma ValuesFromNumbers(cards: seq<Card>, numbers: seq<int>, sorted: seq<int>)
    requires Numbers(cards) == numbers
    requires SortedDesc(sorted) && multiset(numbers) == multiset(sorted)
    ensures SortedValues(cards) == sorted
  {
    SortedUnique(SortedValues(cards), sorted);
  }

  lemma SortedLiterals()
    ensures SortedDesc([13, 13, 3, 3, 3]) && SortedDesc([10, 10, 10, 2, 2])
  {
  }

  lemma SixHighLiteral()
    ensures StrictDesc([6, 5, 4, 3, 2]) && SortedDesc([6, 5, 4, 3, 2])
  {
    var six := [6, 5, 4, 3, 2];
    assert six[0] > six[1] > six[2] > six[3] > six[4];
  }

  lemma FullHouseMultiset()
    ensures multiset([3, 3, 3, 13, 13]) == multiset([13, 13, 3, 3, 3])
  {
    assert [3, 3, 3, 13, 13] == [3, 3, 3] + [13, 13];
    assert [13, 13, 3, 3, 3] == [13, 13] + [3, 3, 3];
  }

  lemma WheelMultiset()
    ensures multiset([14, 2, 3, 4, 5]) == multiset(Wheel)
  {
  }

  lemma SixHighMultiset()
    ensures multiset([2, 3, 4, 5, 6]) == multiset([6, 5, 4, 3, 2])
  {
  }

  lemma CountLiterals()
    ensures multiset([3, 3, 3, 13, 13])[3] == 3 && multiset([3, 3, 3, 13, 13])[13] == 2
    ensures multiset([10, 10, 10, 2, 2])[10] == 3 && multiset([10, 10, 10, 2, 2])[2] == 2
  {
  }

  /** Three threes and two kings. */
  lemma ThreesFullOfKings(h: seq<Card>)
    requires Numbers(h) == [3, 3, 3, 13, 13]
    ensures SortedValues(h) == [13, 13, 3, 3, 3] && Mult(h, 3) == 3 && Mult(h, 13) == 2
  {
    SortedLiterals();
    FullHouseMultiset();
    CountLiterals();
    ValuesFromNumbers(h, [3, 3, 3, 13, 13], [13, 13, 3, 3, 3]);
  }

  /** Three tens and two twos. */
  lemma TensFullOfTwos(h: seq<Card>)
    requires Numbers(h) == [10, 10, 10, 2, 2]
    ensures SortedValues(h) == [10, 10, 10, 2, 2] && Mult(h, 10) == 3 && Mult(h, 2) == 2
  {
    SortedLiterals();
    CountLiterals();
    ValuesFromNumbers(h, [10, 10, 10, 2, 2], [10, 10, 10, 2, 2]);
  }

  /** The wheel, dealt ace first. */
  lemma WheelNumbers(h: seq<Card>)
    requires Numbers(h) == [14, 2, 3, 4, 5]
    ensures SortedValues(h) == Wheel
  {
    WheelIsStraight();
    WheelMultiset();
    ValuesFromNumbers(h, [14, 2, 3, 4, 5], Wheel);
  }

  /** The six-high straight, dealt lowest first. */
  lemma SixHighNumbers(h: seq<Card>)
    requires Numbers(h) == [2, 3, 4, 5, 6]
    ensures SortedValues(h) == [6, 5, 4, 3, 2] && StrictDesc(SortedValues(h))
  {
    SixHighLiteral();
    SixHighMultiset();
    ValuesFromNumbers(h, [2, 3, 4, 5, 6], [6, 5, 4, 3, 2]);
  }

  /** The numbers of the four example hands. */
  lemma ExampleNumbers()
    ensures Numbers(LowFullHouse) == [3, 3, 3, 13, 13]
    ensures Numbers(HighFullHouse) == [10, 10, 10, 2, 2]
    ensures Numbers(WheelHand) == [14, 2, 3, 4, 5]
    ensures Numbers(SixHighHand) == [2, 3, 4, 5, 6]
  {
  }

  /** Neither straight example is suited. */
  lemma ExamplesUnsuited()
    ensures !IsFlush(WheelHand) && !IsFlush(SixHighHand)
  {
    assert WheelHand[1].suit != WheelHand[0].suit && SixHighHand[1].suit != SixHighHand[0].suit;
  }

  /** src/App.jsx's key is the five numbers, highest first. */
  lemma AppKeyIsValues(cards: seq<Card>)
    requires |cards| == 5
    ensures EvaluateAllValues(cards).highCards == SortedValues(cards)
  {
  }

  /** In src/App.jsx, between equal categories a higher top number wins outright. */
  lemma AppTopNumberDecides(h1: seq<Card>, h2: seq<Card>)
    requires |h1| == 5 && |h2| == 5 && Category(h1) == Category(h2)
    requires SortedValues(h1)[0] > SortedValues(h2)[0]
    ensures CompareHandsApp(h1, h2).winner == 1
  {
    AppKeyIsValues(h1);
    AppKeyIsValues(h2);
    var k1, k2 := SortedValues(h1), SortedValues(h2);
    assert KeyAt(k1, 0) != KeyAt(k2, 0) && RawGreater(k1, k2, 0);
  }

  /** The only partition of 5 holding both a 3 and a 2. */
  lemma TripAndPairPartition(c: seq<int>)
    requires IsPartitionOfFive(c) && 3 in c && 2 in c
    ensures c == [3, 2]
  {
  }

  /** A trip and a pair leave `counts` at [3, 2]. */
  lemma TripAndPairCounts(cards: seq<Card>, t: int, p: int)
    requires |cards| == 5 && Mult(cards, t) == 3 && Mult(cards, p) == 2
    ensures CountList(SortedValues(cards)) == [3, 2]
  {
    MultInCounts(cards, t);
    MultInCounts(cards, p);
    HandShape(cards);
    TripAndPairPartition(CountList(SortedValues(cards)));
  }

  /** A trip and a pair make a full house, whatever the suits. */
  lemma FullHouseCategory(cards: seq<Card>, t: int, p: int)
    requires |cards| == 5 && Mult(cards, t) == 3 && Mult(cards, p) == 2
    ensures CountList(SortedValues(cards)) == [3, 2] && Category(cards) == 7
  {
    var values := SortedValues(cards);
    TripAndPairCounts(cards, t, p);
    CategoryParts(cards);
    assert !IsStraight(UniqueValues(values)) by {
      assert |UniqueValues(values)| == |CountList(values)| == 2;
    }
  }

  /** A full house has one trip number. */
  lemma SoleTrip(cards: seq<Card>, t: int, v: int)
    requires CountList(SortedValues(cards)) == [3, 2]
    requires Mult(cards, t) == 3 && Mult(cards, v) == 3
    ensures v == t
  {
    assert multiset(CountList(SortedValues(cards)))[3] == 1;
    MultUnique(cards, 3, t, v);
  }

  /** The ladder reaches a straight category only through the straight test, and with no
      repeated number every straight lands there. */
  lemma LadderStraight(flush: bool, straight: bool, royal: bool, counts: seq<int>)
    requires |counts| > 0
    ensures Ladder(flush, straight, royal, counts) in {5, 9, 10} ==> straight
    ensures straight && counts[0] == 1 ==>
      Ladder(flush, straight, royal, counts) == (if !flush then 5 else if royal then 10 else 9)
  {
  }

  /** The category through the ladder, with its four inputs named. */
  lemma CategoryParts(cards: seq<Card>)
    requires |cards| == 5
    ensures var values := SortedValues(cards);
      Category(cards) == Ladder(IsFlush(cards), IsStraight(UniqueValues(values)), IsRoyal(values), CountList(values))
  {
  }

  /** On five cards the category is a straight (plain, flush or royal) exactly when the numbers
      form a straight; without a flush it is the plain straight. */
  lemma StraightRankIff(cards: seq<Card>)
    requires |cards| == 5
    ensures Category(cards) in {5, 9, 10} <==> IsStraight(UniqueValues(SortedValues(cards)))
    ensures IsStraight(UniqueValues(SortedValues(cards))) && !IsFlush(cards) ==> Category(cards) == 5
  {
    var values := SortedValues(cards);
    var straight := IsStraight(UniqueValues(values));
    CategoryParts(cards);
    HandShape(cards);
    LadderStraight(IsFlush(cards), straight, IsRoyal(values), CountList(values));
    if straight {
      StraightIff(values);
      DistinctCounts(values);
    }
  }

  /** An unsuited straight is category 5, keyed by its numbers. */
  lemma StraightCategory(cards: seq<Card>)
    requires |cards| == 5 && !IsFlush(cards) && IsStraight(UniqueValues(SortedValues(cards)))
    ensures Category(cards) == 5 && Evaluate(cards).highCards == SortedValues(cards)
  {
    StraightRankIff(cards);
    PlainKeyIsValues(cards);
  }

  // ---------------------------------------------------------------------------------------
  // 1. src/App.jsx's full-house key
  // ---------------------------------------------------------------------------------------

  /** A full house's key starts with its trip number. */
  lemma FullHouseKeyLeads(h: seq<Card>, t: int)
    requires |h| == 5 && Evaluate(h).rank == 7 && Mult(h, t) == 3
    ensures |Evaluate(h).highCards| == 2 && Evaluate(h).highCards[0] == t
  {
    FullHouseKey(h);
    CountsOfRank(h);
    SoleTrip(h, t, Evaluate(h).highCards[0]);
  }

  /** Between equal categories, keys that differ in their first entry are decided there. */
  lemma FirstEntryDecides(e1: Evaluation, e2: Evaluation)
    requires e1.rank == e2.rank && |e1.highCards| > 0 && |e2.highCards| > 0
    requires e1.highCards[0] < e2.highCards[0]
    ensures CompareEvaluations(e1, e2) == 2 && CompareEvaluations(e2, e1) == 1
  {
    assert KeyAt(e1.highCards, 0) < KeyAt(e2.highCards, 0);
  }

  /** With category-specific keys, the higher trip wins between full houses, whatever the pairs. */
  lemma FullHouseTripDecides(h1: seq<Card>, h2: seq<Card>, t1: int, t2: int)
    requires |h1| == 5 && |h2| == 5 && Evaluate(h1).rank == 7 && Evaluate(h2).rank == 7
    requires Mult(h1, t1) == 3 && Mult(h2, t2) == 3 && t1 < t2
    ensures CompareHands(h1, h2).winner == 2 && CompareHands(h2, h1).winner == 1
  {
    FullHouseKeyLeads(h1, t1);
    FullHouseKeyLeads(h2, t2);
    FirstEntryDecides(Evaluate(h1), Evaluate(h2));
  }

  /** Threes full of kings against tens full of twos, whatever the suits: src/App.jsx gives the
      column to the threes, poker-game.jsx to the tens. */
  lemma AppFullHouseByHighestNumber(h1: seq<Card>, h2: seq<Card>)
    requires Numbers(h1) == [3, 3, 3, 13, 13] && Numbers(h2) == [10, 10, 10, 2, 2]
    ensures Evaluate(h1).rank == 7 && Evaluate(h2).rank == 7
    ensures CompareHandsApp(h1, h2).winner == 1
    ensures CompareHands(h1, h2).winner == 2
  {
    ThreesFullOfKings(h1);
    TensFullOfTwos(h2);
    FullHouseCategory(h1, 3, 13);
    FullHouseCategory(h2, 10, 2);
    FullHouseTripDecides(h1, h2, 3, 10);
    AppTopNumberDecides(h1, h2);
  }

  /** The two example full houses. */
  lemma AppFullHouseExample()
    ensures CompareHandsApp(LowFullHouse, HighFullHouse).winner == 1
    ensures CompareHands(LowFullHouse, HighFullHouse).winner == 2
  {
    ExampleNumbers();
    AppFullHouseByHighestNumber(LowFullHouse, HighFullHouse);
  }

  // ---------------------------------------------------------------------------------------
  // 2. The wheel
  // ---------------------------------------------------------------------------------------

  /** A hand whose numbers are the wheel is a straight or a straight flush, never royal. */
  lemma WheelRank(cards: seq<Card>)
    requires |cards| == 5 && SortedValues(cards) == Wheel
    ensures Category(cards) == 5 || Category(cards) == 9
  {
    WheelIsStraight();
    StraightRankIff(cards);
    RoyalIff(cards);
  }

  /** As written, the wheel beats every other straight of its category except the ten-to-ace
      one: its key starts with the ace read as 14. */
  lemma WheelBeatsStraightsAsWritten(h1: seq<Card>, h2: seq<Card>)
    requires |h1| == 5 && |h2| == 5 && SortedValues(h1) == Wheel
    requires Evaluate(h2).rank == Evaluate(h1).rank
    requires SortedValues(h2) != Wheel && SortedValues(h2) != Broadway
    ensures CompareHands(h1, h2).winner == 1 && CompareHands(h2, h1).winner == 2
  {
    WheelRank(h1);
    StraightRankIff(h2);
    PlainKeyIsValues(h1);
    PlainKeyIsValues(h2);
    var v := SortedValues(h2);
    NonWheelStraightHigh(h2);
    ValuesBounded(h2);
    if v[0] == 14 {
      StraightIff(v);
      RunFromAce(v);
    }
    assert KeyAt(Wheel, 0) == 14 > KeyAt(v, 0);
  }

  /** Five distinct numbers from 14 down to 10 are the ten-to-ace straight. */
  lemma RunFromAce(v: seq<int>)
    requires |v| == 5 && StrictDesc(v) && v[0] == 14 && v[0] - v[4] == 4
    ensures v == Broadway
  {
    assert v[0] > v[1] > v[2] > v[3] > v[4];
    assert v == [v[0], v[1], v[2], v[3], v[4]];
  }

  /** `evaluateHand` with the ace playing low in the wheel; every other hand keeps its key. */
  function EvaluateAceLow(cards: seq<Card>): (e: Evaluation)
    ensures e.rank == Evaluate(cards).rank && e.name == Evaluate(cards).name
    ensures |cards| == 5 && SortedValues(cards) == Wheel ==> e.highCards == AceLowWheel
    ensures !(|cards| == 5 && SortedValues(cards) == Wheel) ==> e.highCards == Evaluate(cards).highCards
  {
    var e := Evaluate(cards);
    if |cards| == 5 && SortedValues(cards) == Wheel then e.(highCards := AceLowWheel) else e
  }

  /** `compareHands` over the corrected evaluator. */
  function CompareHandsAceLow(hand1: seq<Card>, hand2: seq<Card>): (c: Comparison)
    ensures c.eval1 == EvaluateAceLow(hand1) && c.eval2 == EvaluateAceLow(hand2)
  {
    var e1 := EvaluateAceLow(hand1);
    var e2 := EvaluateAceLow(hand2);
    Comparison(CompareEvaluations(e1, e2), e1, e2)
  }

  /** The corrected keys of the wheel and of another straight of the same category. */
  lemma AceLowKeys(h1: seq<Card>, h2: seq<Card>)
    requires |h1| == 5 && |h2| == 5 && SortedValues(h1) == Wheel
    requires Evaluate(h2).rank == Evaluate(h1).rank && SortedValues(h2) != Wheel
    ensures EvaluateAceLow(h1).highCards == AceLowWheel
    ensures EvaluateAceLow(h2).highCards == SortedValues(h2) && SortedValues(h2)[0] >= 6
  {
    WheelRank(h1);
    StraightRankIff(h2);
    PlainKeyIsValues(h2);
    NonWheelStraightHigh(h2);
  }

  /** With the ace low, the wheel loses to every other straight of its category, whichever hand is
      listed first. */
  lemma WheelIsLowestStraight(h1: seq<Card>, h2: seq<Card>)
    requires |h1| == 5 && |h2| == 5 && SortedValues(h1) == Wheel
    requires Evaluate(h2).rank == Evaluate(h1).rank && SortedValues(h2) != Wheel
    ensures CompareHandsAceLow(h1, h2).winner == 2 && CompareHandsAceLow(h2, h1).winner == 1
  {
    AceLowKeys(h1, h2);
    var e1, e2 := EvaluateAceLow(h1), EvaluateAceLow(h2);
    assert KeyAt(e1.highCards, 0) == 5 < KeyAt(e2.highCards, 0);
    assert CompareEvaluations(e1, e2) == 2 && CompareEvaluations(e2, e1) == 1;
  }

  /** The wheel against the six-high straight, whatever the suits as long as neither is suited:
      as written the wheel takes the column, with the ace low the six-high straight does. */
  lemma WheelOverSixHigh(h1: seq<Card>, h2: seq<Card>)
    requires Numbers(h1) == [14, 2, 3, 4, 5] && Numbers(h2) == [2, 3, 4, 5, 6]
    requires !IsFlush(h1) && !IsFlush(h2)
    ensures Evaluate(h1).rank == 5 && Evaluate(h2).rank == 5
    ensures CompareHands(h1, h2).winner == 1
    ensures CompareHandsAceLow(h1, h2).winner == 2
    ensures CompareHandsApp(h1, h2).winner == 1
  {
    WheelIsStraight();
    WheelNumbers(h1);
    SixHighNumbers(h2);
    StraightIff(SortedValues(h2));
    StraightCategory(h1);
    StraightCategory(h2);
    WheelBeatsStraightsAsWritten(h1, h2);
    WheelIsLowestStraight(h1, h2);
    AppTopNumberDecides(h1, h2);
  }

  /** The two example straights. */
  lemma WheelExample()
    ensures CompareHands(WheelHand, SixHighHand).winner == 1
    ensures CompareHandsAceLow(WheelHand, SixHighHand).winner == 2
  {
    ExampleNumbers();
    ExamplesUnsuited();
    WheelOverSixHigh(WheelHand, SixHighHand);
  }
}

/** The categories as a player reads them: a straight is five consecutive numbers or the wheel
    A-5-4-3-2, a royal flush is the ten-to-ace straight in one suit. */
module Categories {
  import opened Cards
  import opened Sorting
  import opened Hands
  import opened HandFacts
  import opened Shuffle

  /** The wheel, A-5-4-3-2, with the ace read as 14. */
  const Wheel: seq<int> := [14, 5, 4, 3, 2]

  /** The ten-to-ace straight. */
  const Broadway: seq<int> := [14, 13, 12, 11, 10]

  // ---------------------------------------------------------------------------------------
  // Distinct numbers
  // ---------------------------------------------------------------------------------------

  lemma StrictTail(s: seq<int>)
    requires StrictDesc(s) && |s| > 0
    ensures StrictDesc(s[1..]) && SortedDesc(s[1..])
  {
    var t := s[1..];
    forall i, j | 0 <= i < j < |t| ensures t[i] > t[j] {
      assert t[i] == s[i + 1] && t[j] == s[j + 1];
    }
  }

  /** Distinct numbers, highest first, get one tally each, with count 1. */
  lemma {:induction false} StrictTallies(s: seq<int>)
    requires SortedDesc(s) && StrictDesc(s)
    ensures |Tallies(s)| == |s|
    ensures forall i :: 0 <= i < |s| ==> Tallies(s)[i] == Tally(s[i], 1)
  {
    if |s| > 0 {
      var tail := s[1..];
      StrictTail(s);
      StrictTallies(tail);
      var rest := Tallies(tail);
      if |tail| > 0 {
        assert rest[0].value == s[1] < s[0];
      }
      assert Tallies(s) == [Tally(s[0], 1)] + rest;
    }
  }

  /** A descending list with one tally per entry has distinct entries. */
  lemma {:induction false} FullTalliesStrict(s: seq<int>)
    requires SortedDesc(s) && |Tallies(s)| == |s|
    ensures StrictDesc(s)
  {
    if |s| > 1 {
      var tail := s[1..];
      var rest := Tallies(tail);
      if |rest| > 0 && rest[0].value == s[0] {
        assert false;
      } else {
        assert Tallies(s) == [Tally(s[0], 1)] + rest;
        FullTalliesStrict(tail);
        assert rest[0].value == s[1] < s[0];
        forall k | 0 <= k < |tail| ensures tail[k] < s[0] {
          assert tail[k] <= tail[0];
        }
        ConsStrict(s[0], tail);
        assert s == [s[0]] + tail;
      }
    }
  }

  /** A descending list has one tally per entry exactly when its entries are distinct, and then
      the distinct numbers are the list itself. */
  lemma DistinctTallies(s: seq<int>)
    requires SortedDesc(s)
    ensures |Tallies(s)| == |s| <==> StrictDesc(s)
    ensures StrictDesc(s) ==> UniqueValues(s) == s
  {
    if StrictDesc(s) {
      StrictTallies(s);
    }
    if |Tallies(s)| == |s| {
      FullTalliesStrict(s);
    }
  }

  /** Five distinct numbers give `counts` of five ones. */
  lemma DistinctCounts(values: seq<int>)
    requires SortedDesc(values) && StrictDesc(values) && |values| == 5
    ensures CountList(values) == [1, 1, 1, 1, 1]
  {
    StrictTallies(values);
    var ones := CountsOf(Tallies(values));
    assert |ones| == 5 && forall i :: 0 <= i < 5 ==> ones[i] == 1;
    assert SortedDesc(ones);
    SortedUnique(CountList(values), ones);
    assert ones == [1, 1, 1, 1, 1];
  }

  /** Every number of a hand lies between 2 and 14. */
  lemma ValuesBounded(cards: seq<Card>)
    ensures forall i :: 0 <= i < |SortedValues(cards)| ==> 2 <= SortedValues(cards)[i] <= 14
  {
    var values := SortedValues(cards);
    forall i | 0 <= i < |values| ensures 2 <= values[i] <= 14 {
      assert values[i] in multiset(Numbers(cards));
      var j :| 0 <= j < |cards| && Numbers(cards)[j] == values[i];
    }
  }

  // ---------------------------------------------------------------------------------------
  // Straights
  // ---------------------------------------------------------------------------------------

  /** Five distinct numbers, highest first, that include 14, 5, 4, 3 and 2 are the wheel. */
  lemma WheelOrder(values: seq<int>)
    requires |values| == 5 && StrictDesc(values)
    requires 14 in values && 5 in values && 4 in values && 3 in values && 2 in values
    ensures values == Wheel
  {
    var a :| 0 <= a < 5 && values[a] == 14;
    var b :| 0 <= b < 5 && values[b] == 5;
    var c :| 0 <= c < 5 && values[c] == 4;
    var d :| 0 <= d < 5 && values[d] == 3;
    var e :| 0 <= e < 5 && values[e] == 2;
    assert a < b < c < d < e;
  }

  /** Five numbers, highest first, form a straight exactly when they are distinct and either
      span four or are the wheel. */
  lemma StraightIff(values: seq<int>)
    requires SortedDesc(values) && |values| == 5
    ensures IsStraight(UniqueValues(values)) <==> StrictDesc(values) && (values[0] - values[4] == 4 || values == Wheel)
  {
    DistinctTallies(values);
    if StrictDesc(values) && 14 in values && 5 in values && 4 in values && 3 in values && 2 in values {
      WheelOrder(values);
    }
  }

  /** Among card numbers (at most 14), the royal test holds only for the ten-to-ace straight. */
  lemma RoyalValuesIff(values: seq<int>)
    requires SortedDesc(values) && |values| == 5
    requires forall i :: 0 <= i < 5 ==> values[i] <= 14
    ensures IsRoyal(values) <==> values == Broadway
  {
    StraightIff(values);
    if IsRoyal(values) && values[0] - values[4] == 4 {
      assert values[0] > values[1] > values[2] > values[3] > values[4];
      var i :| 0 <= i < 5 && values[i] == 14;
      assert values[0] == 14;
    }
    if values == Broadway {
      assert StrictDesc(values);
    }
  }

  /** The category is 10 exactly for the ten-to-ace straight in one suit. */
  lemma RoyalIff(cards: seq<Card>)
    requires |cards| == 5
    ensures Category(cards) == 10 <==> IsFlush(cards) && SortedValues(cards) == Broadway
  {
    var values := SortedValues(cards);
    ValuesBounded(cards);
    RoyalValuesIff(values);
    StraightIff(values);
  }

  /** The wheel is a straight, and not a royal one. */
  lemma WheelIsStraight()
    ensures SortedDesc(Wheel) && IsStraight(UniqueValues(Wheel)) && !IsRoyal(Wheel)
  {
    assert StrictDesc(Wheel) && SortedDesc(Wheel) by {
      assert Wheel[0] > Wheel[1] > Wheel[2] > Wheel[3] > Wheel[4];
    }
    StraightIff(Wheel);
    assert 13 !in Wheel;
  }

  /** A suited wheel is a straight flush without a king: it ranks 9, not 10. */
  lemma SuitedWheelIsNine(cards: seq<Card>)
    requires |cards| == 5 && IsFlush(cards) && SortedValues(cards) == Wheel
    ensures Category(cards) == 9
  {
    WheelIsStraight();
  }

  /** Any straight other than the wheel runs from at least six down to four below it. */
  lemma NonWheelStraightHigh(cards: seq<Card>)
    requires |cards| == 5 && IsStraight(UniqueValues(SortedValues(cards))) && SortedValues(cards) != Wheel
    ensures SortedValues(cards)[0] >= 6 && SortedValues(cards)[0] - SortedValues(cards)[4] == 4
  {
    StraightIff(SortedValues(cards));
    ValuesBounded(cards);
  }

  // ---------------------------------------------------------------------------------------
  // From the multiplicity pattern back to the category
  // ---------------------------------------------------------------------------------------

  /** No two positions of the hand hold the same card, as in any hand dealt from one deck. */
  predicate DistinctCards(cards: seq<Card>) {
    forall i, j :: 0 <= i < j < |cards| ==> cards[i] != cards[j]
  }

  /** The ladder read from the other side: fewer than five distinct numbers rule out a straight,
      and each pattern of `counts` then lands on one rung. */
  lemma LadderOfCounts(flush: bool, straight: bool, royal: bool, counts: seq<int>)
    requires |counts| > 0 && (|counts| < 5 ==> !straight)
    ensures var rank := Ladder(flush, straight, royal, counts);
      && (counts == [4, 1] ==> rank == 8)
      && (counts == [3, 2] ==> rank == 7)
      && (counts == [3, 1, 1] && !flush ==> rank == 4)
      && (counts == [2, 2, 1] && !flush ==> rank == 3)
      && (counts == [2, 1, 1, 1] && !flush ==> rank == 2)
      && (counts == [1, 1, 1, 1, 1] && flush && !straight ==> rank == 6)
      && (counts == [1, 1, 1, 1, 1] && !flush && !straight ==> rank == 1)
  {
  }

  /** Each pattern of `counts` fixes the category: the grouped patterns rank 8, 7, 4, 3 and 2 (the
      last three unless the hand is a flush), and five single numbers rank 6 as a flush that is
      not a straight and 1 as neither. */
  lemma RankOfCounts(cards: seq<Card>)
    requires |cards| == 5
    ensures var values := SortedValues(cards);
      var counts := CountList(values);
      var straight := IsStraight(UniqueValues(values));
      && (counts == [4, 1] ==> Category(cards) == 8)
      && (counts == [3, 2] ==> Category(cards) == 7)
      && (counts == [3, 1, 1] && !IsFlush(cards) ==> Category(cards) == 4)
      && (counts == [2, 2, 1] && !IsFlush(cards) ==> Category(cards) == 3)
      && (counts == [2, 1, 1, 1] && !IsFlush(cards) ==> Category(cards) == 2)
      && (counts == [1, 1, 1, 1, 1] && IsFlush(cards) && !straight ==> Category(cards) == 6)
      && (counts == [1, 1, 1, 1, 1] && !IsFlush(cards) && !straight ==> Category(cards) == 1)
  {
    var values := SortedValues(cards);
    HandShape(cards);
    assert |UniqueValues(values)| == |CountList(values)|;
    LadderOfCounts(IsFlush(cards), IsStraight(UniqueValues(values)), IsRoyal(values), CountList(values));
  }

  /** Five different cards of one suit carry five different numbers. */
  lemma FlushNumbersDistinct(cards: seq<Card>)
    requires |cards| == 5 && DistinctCards(cards) && IsFlush(cards)
    ensures StrictDesc(SortedValues(cards))
    ensures CountList(SortedValues(cards)) == [1, 1, 1, 1, 1]
  {
    var ns := Numbers(cards);
    ValueNumbersFollowOrder();
    assert Distinct(ns) by {
      forall a, b | 0 <= a < b < |ns| ensures ns[a] != ns[b] {
        assert cards[a] != cards[b] && cards[a].suit == cards[b].suit;
        assert cards[a].value != cards[b].value;
      }
    }
    DistinctOnce(ns);
    var values := SortedValues(cards);
    forall i | 0 <= i < |values| ensures multiset(values)[values[i]] == 1 {
      assert values[i] in multiset(values);
    }
    StrictFromSingles(values);
    DistinctCounts(values);
  }

  /** For a hand of five different cards each pattern of `counts` decides the category outright:
      a grouped hand cannot be a flush, and a flush that is not a straight ranks 6. */
  lemma RankOfPattern(cards: seq<Card>)
    requires |cards| == 5 && DistinctCards(cards)
    ensures var values := SortedValues(cards);
      var counts := CountList(values);
      && (counts == [4, 1] ==> Category(cards) == 8)
      && (counts == [3, 2] ==> Category(cards) == 7)
      && (counts == [3, 1, 1] ==> Category(cards) == 4)
      && (counts == [2, 2, 1] ==> Category(cards) == 3)
      && (counts == [2, 1, 1, 1] ==> Category(cards) == 2)
      && (IsFlush(cards) && !IsStraight(UniqueValues(values)) ==> Category(cards) == 6)
  {
    if IsFlush(cards) {
      FlushNumbersDistinct(cards);
    }
    RankOfCounts(cards);
  }
}

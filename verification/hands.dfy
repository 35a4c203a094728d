/** The five-card hand evaluator of both game copies: category detection (shared) and the two
    tie-break keys (category-specific in poker-game.jsx, all values in src/App.jsx). */
module Hands {
  import opened Cards
  import opened Sorting

  /** `{ rank, name, highCards }`: the category 1..10 (0 for a hand that is not five cards),
      its display name and the tie-break key. */
  datatype Evaluation = Evaluation(rank: int, name: string, highCards: seq<int>)

  /** One entry of `valueCounts`: a card number and how many cards carry it. */
  datatype Tally = Tally(value: int, count: nat)

  /** `cards.map(c => valueToNumber(c.value))`. */
  function Numbers(cards: seq<Card>): (ns: seq<int>)
    ensures |ns| == |cards|
    ensures forall i :: 0 <= i < |cards| ==> ns[i] == ValueToNumber(cards[i].value)
  {
    if |cards| == 0 then [] else [ValueToNumber(cards[0].value)] + Numbers(cards[1..])
  }

  /** How many cards of the hand carry number `v`. */
  function Mult(cards: seq<Card>, v: int): nat {
    multiset(Numbers(cards))[v]
  }

  predicate StrictDesc(s: seq<int>) {
    forall i, j :: 0 <= i < j < |s| ==> s[i] > s[j]
  }

  function CountsOf(ts: seq<Tally>): (cs: seq<int>)
    ensures |cs| == |ts|
    ensures forall i :: 0 <= i < |ts| ==> cs[i] == ts[i].count
  {
    if |ts| == 0 then [] else [ts[0].count] + CountsOf(ts[1..])
  }

  function ValuesOf(ts: seq<Tally>): (vs: seq<int>)
    ensures |vs| == |ts|
    ensures forall i :: 0 <= i < |ts| ==> vs[i] == ts[i].value
  {
    if |ts| == 0 then [] else [ts[0].value] + ValuesOf(ts[1..])
  }

  /** `valueCounts` of a descending list, as tallies in descending order of number. */
  function Tallies(s: seq<int>): (ts: seq<Tally>)
    requires SortedDesc(s)
    ensures |ts| <= |s|
    ensures |s| > 0 ==> |ts| > 0 && ts[0].value == s[0]
  {
    if |s| == 0 then []
    else
      var rest := Tallies(s[1..]);
      if |rest| > 0 && rest[0].value == s[0] then [Tally(s[0], rest[0].count + 1)] + rest[1..]
      else [Tally(s[0], 1)] + rest
  }

  lemma TailBelowHead(s: seq<int>)
    requires SortedDesc(s) && |s| > 0
    ensures forall v :: v in multiset(s[1..]) ==> v <= s[0]
  {
    forall v | v in multiset(s[1..]) ensures v <= s[0] {
      var k :| 0 <= k < |s[1..]| && s[1..][k] == v;
      assert s[k + 1] == v;
    }
  }

  /** The tallies are in strictly descending order of number, each number taken from the list. */
  lemma {:induction false} TalliesDescending(s: seq<int>)
    requires SortedDesc(s)
    ensures StrictDesc(ValuesOf(Tallies(s)))
    ensures forall v :: v in ValuesOf(Tallies(s)) ==> v in s
  {
    if |s| > 0 {
      var rest := Tallies(s[1..]);
      TalliesDescending(s[1..]);
      var ts := Tallies(s);
      if |rest| > 0 && rest[0].value == s[0] {
        assert ts == [Tally(s[0], rest[0].count + 1)] + rest[1..];
        assert ValuesOf(ts) == ValuesOf(rest);
      } else {
        assert ts == [Tally(s[0], 1)] + rest;
        assert ValuesOf(ts) == [s[0]] + ValuesOf(rest);
        forall v | v in ValuesOf(rest) ensures v < s[0] {
          assert v in s[1..];
          if |s| > 1 { assert rest[0].value == s[1]; }
        }
      }
    }
  }

  ghost predicate CountsMatch(ts: seq<Tally>, s: seq<int>) {
    forall i :: 0 <= i < |ts| ==> 1 <= ts[i].count == multiset(s)[ts[i].value]
  }

  /** Each tally's count is the multiplicity of its number in the list. */
  lemma {:induction false} TalliesCount(s: seq<int>)
    requires SortedDesc(s)
    ensures CountsMatch(Tallies(s), s)
  {
    if |s| > 0 {
      TalliesCount(s[1..]);
      TalliesDescending(s[1..]);
      var rest := Tallies(s[1..]);
      if |rest| > 0 && rest[0].value == s[0] {
        TalliesCountMerged(s, rest);
      } else {
        TalliesCountFresh(s, rest);
      }
    }
  }

  lemma TalliesCountMerged(s: seq<int>, rest: seq<Tally>)
    requires SortedDesc(s) && |s| > 0 && rest == Tallies(s[1..])
    requires CountsMatch(rest, s[1..]) && StrictDesc(ValuesOf(rest))
    requires |rest| > 0 && rest[0].value == s[0]
    ensures CountsMatch(Tallies(s), s)
  {
    var ts := Tallies(s);
    assert ts == [Tally(s[0], rest[0].count + 1)] + rest[1..];
    HeadCount(s);
    forall i | 0 <= i < |ts| ensures 1 <= ts[i].count == multiset(s)[ts[i].value] {
      if i > 0 {
        assert ts[i] == rest[i];
        assert rest[i].value != s[0] by {
          assert ValuesOf(rest)[0] > ValuesOf(rest)[i];
        }
        OtherNumberCount(s, rest[i].value);
      }
    }
  }

  /** The head occurs once more in the list than in its tail. */
  lemma HeadCount(s: seq<int>)
    requires |s| > 0
    ensures multiset(s)[s[0]] == multiset(s[1..])[s[0]] + 1
  {
    assert s == [s[0]] + s[1..];
  }

  lemma TalliesCountFresh(s: seq<int>, rest: seq<Tally>)
    requires SortedDesc(s) && |s| > 0 && rest == Tallies(s[1..])
    requires CountsMatch(rest, s[1..])
    requires !(|rest| > 0 && rest[0].value == s[0])
    ensures CountsMatch(Tallies(s), s)
  {
    var ts := Tallies(s);
    assert ts == [Tally(s[0], 1)] + rest;
    HeadOnce(s);
    forall i | 0 <= i < |ts| ensures 1 <= ts[i].count == multiset(s)[ts[i].value] {
      if i > 0 {
        assert ts[i] == rest[i - 1];
        OtherNumberCount(s, rest[i - 1].value);
      }
    }
  }

  /** A head that differs from the next entry occurs once. */
  lemma HeadOnce(s: seq<int>)
    requires SortedDesc(s) && |s| > 0 && (|s| > 1 ==> s[1] != s[0])
    ensures multiset(s)[s[0]] == 1
  {
    var tail := s[1..];
    assert s == [s[0]] + tail;
  }

  /** A number other than the head occurs as often in the list as in its tail. */
  lemma OtherNumberCount(s: seq<int>, v: int)
    requires |s| > 0 && v != s[0]
    ensures multiset(s)[v] == multiset(s[1..])[v]
  {
    assert s == [s[0]] + s[1..];
  }

  /** Every number of the list has a tally. */
  lemma {:induction false} TalliesCover(s: seq<int>)
    requires SortedDesc(s)
    ensures forall v :: v in s ==> v in ValuesOf(Tallies(s))
  {
    if |s| > 0 {
      var rest := Tallies(s[1..]);
      TalliesCover(s[1..]);
      var ts := Tallies(s);
      if |rest| > 0 && rest[0].value == s[0] {
        assert ts == [Tally(s[0], rest[0].count + 1)] + rest[1..];
        assert ValuesOf(ts) == ValuesOf(rest);
      } else {
        assert ts == [Tally(s[0], 1)] + rest;
        assert ValuesOf(ts) == [s[0]] + ValuesOf(rest);
      }
      forall v | v in s ensures v in ValuesOf(ts) {
        if v != s[0] { assert v in s[1..]; }
      }
    }
  }

  /** The tally counts add up to the length of the list. */
  lemma {:induction false} TalliesSum(s: seq<int>)
    requires SortedDesc(s)
    ensures Sum(CountsOf(Tallies(s))) == |s|
  {
    if |s| > 0 {
      var rest := Tallies(s[1..]);
      TalliesSum(s[1..]);
      var ts := Tallies(s);
      if |rest| > 0 && rest[0].value == s[0] {
        assert CountsOf(ts) == [rest[0].count + 1] + CountsOf(rest)[1..];
        assert CountsOf(rest) == [rest[0].count] + CountsOf(rest)[1..];
      } else {
        assert CountsOf(ts) == [1] + CountsOf(rest);
      }
    }
  }

  /** The multiplicities of a five-card hand, highest first, form a partition of 5. */
  predicate IsPartitionOfFive(c: seq<int>) {
    c == [5] || c == [4, 1] || c == [3, 2] || c == [3, 1, 1] || c == [2, 2, 1] || c == [2, 1, 1, 1] || c == [1, 1, 1, 1, 1]
  }

  lemma {:induction false} SumAtLeastLength(c: seq<int>)
    requires Positive(c)
    ensures Sum(c) >= |c|
  {
    if |c| > 0 {
      SumAtLeastLength(c[1..]);
    }
  }

  lemma Sum1(c: seq<int>) requires |c| == 1 ensures Sum(c) == c[0] { }

  lemma Sum2(c: seq<int>) requires |c| == 2 ensures Sum(c) == c[0] + c[1] {
    Sum1(c[1..]);
  }

  lemma Sum3(c: seq<int>) requires |c| == 3 ensures Sum(c) == c[0] + c[1] + c[2] {
    Sum2(c[1..]);
  }

  lemma Sum4(c: seq<int>) requires |c| == 4 ensures Sum(c) == c[0] + c[1] + c[2] + c[3] {
    Sum3(c[1..]);
  }

  lemma Sum5(c: seq<int>) requires |c| == 5 ensures Sum(c) == c[0] + c[1] + c[2] + c[3] + c[4] {
    Sum4(c[1..]);
  }

  ghost predicate Positive(c: seq<int>) {
    forall i :: 0 <= i < |c| ==> c[i] >= 1
  }

  lemma PartitionOfLength(c: seq<int>)
    requires SortedDesc(c) && Positive(c) && Sum(c) == 5 && 1 <= |c| <= 5
    ensures IsPartitionOfFive(c)
  {
    if |c| == 1 {
      Sum1(c);
      assert c == [5];
    } else if |c| == 2 {
      PartitionOfLengthTwo(c);
    } else if |c| == 3 {
      Sum3(c);
      PartitionOfThree(c, c[0], c[1], c[2]);
    } else if |c| == 4 {
      Sum4(c);
      PartitionOfFour(c, c[0], c[1], c[2], c[3]);
    } else {
      Sum5(c);
      PartitionOfFiveParts(c, c[0], c[1], c[2], c[3], c[4]);
    }
  }

  lemma PartitionOfLengthTwo(c: seq<int>)
    requires SortedDesc(c) && Positive(c) && Sum(c) == 5 && |c| == 2
    ensures c == [4, 1] || c == [3, 2]
  {
    Sum2(c);
    assert c[0] >= c[1] >= 1;
    if c[0] == 4 { assert c == [4, 1]; } else { assert c == [3, 2]; }
  }

  lemma PartitionOfThree(c: seq<int>, a: int, b: int, d: int)
    requires c == [a, b, d] && a >= b >= d >= 1 && a + b + d == 5
    ensures c == [3, 1, 1] || c == [2, 2, 1]
  {
  }

  lemma PartitionOfFour(c: seq<int>, a: int, b: int, d: int, e: int)
    requires c == [a, b, d, e] && a >= b >= d >= e >= 1 && a + b + d + e == 5
    ensures c == [2, 1, 1, 1]
  {
  }

  lemma PartitionOfFiveParts(c: seq<int>, a: int, b: int, d: int, e: int, f: int)
    requires c == [a, b, d, e, f] && a >= 1 && b >= 1 && d >= 1 && e >= 1 && f >= 1
    requires a + b + d + e + f == 5
    ensures c == [1, 1, 1, 1, 1]
  {
  }

  lemma Partitions5(c: seq<int>)
    requires SortedDesc(c) && Positive(c) && Sum(c) == 5
    ensures IsPartitionOfFive(c)
  {
    SumAtLeastLength(c);
    if |c| > 0 {
      PartitionOfLength(c);
    }
  }

  /** `values`: the hand's numbers, highest first. */
  function SortedValues(cards: seq<Card>): (values: seq<int>)
    ensures SortedDesc(values) && |values| == |cards|
    ensures multiset(values) == multiset(Numbers(cards))
  {
    SortDesc(Numbers(cards))
  }

  /** `counts`: the multiplicities of the distinct numbers, highest first. */
  function CountList(values: seq<int>): (counts: seq<int>)
    requires SortedDesc(values)
    ensures |counts| == |Tallies(values)|
    ensures multiset(counts) == multiset(CountsOf(Tallies(values)))
  {
    SortDesc(CountsOf(Tallies(values)))
  }

  /** `uniqueValues`: the distinct numbers, highest first. */
  function UniqueValues(values: seq<int>): seq<int>
    requires SortedDesc(values)
  {
    ValuesOf(Tallies(values))
  }

  /** `suits.every(s => s === suits[0])`. */
  predicate IsFlush(cards: seq<Card>) {
    forall i :: 0 <= i < |cards| ==> cards[i].suit == cards[0].suit
  }

  /** `isStraight`: five distinct numbers spanning four, or exactly the wheel A-5-4-3-2. */
  predicate IsStraight(unique: seq<int>) {
    && |unique| == 5
    && (unique[0] - unique[4] == 4 || (14 in unique && 5 in unique && 4 in unique && 3 in unique && 2 in unique))
  }

  /** `counts[1] === 2`, where reading past the end gives `undefined`. */
  predicate SecondIsTwo(counts: seq<int>) {
    |counts| > 1 && counts[1] == 2
  }

  /** The category ladder shared by both copies of `evaluateHand`, from the hand's features:
      flush, straight, royal (a straight holding an ace and a king) and `counts`. */
  function Ladder(flush: bool, straight: bool, royal: bool, counts: seq<int>): (rank: int)
    requires |counts| > 0
    ensures 1 <= rank <= 10
  {
    if flush && straight && royal then 10
    else if flush && straight then 9
    else if counts[0] == 4 then 8
    else if counts[0] == 3 && SecondIsTwo(counts) then 7
    else if flush then 6
    else if straight then 5
    else if counts[0] == 3 then 4
    else if counts[0] == 2 && SecondIsTwo(counts) then 3
    else if counts[0] == 2 then 2
    else 1
  }

  /** `isRoyal`: a straight whose numbers include 14 and 13. */
  predicate IsRoyal(values: seq<int>)
    requires SortedDesc(values)
  {
    IsStraight(UniqueValues(values)) && 14 in values && 13 in values
  }

  /** The category of a five-card hand. */
  function Category(cards: seq<Card>): (rank: int)
    requires |cards| == 5
    ensures 1 <= rank <= 10
  {
    var values := SortedValues(cards);
    Ladder(IsFlush(cards), IsStraight(UniqueValues(values)), IsRoyal(values), CountList(values))
  }

  function CategoryName(rank: int): string {
    if rank == 10 then "Quinte Flush Royale"
    else if rank == 9 then "Quinte Flush"
    else if rank == 8 then "Carré"
    else if rank == 7 then "Full"
    else if rank == 6 then "Couleur"
    else if rank == 5 then "Suite"
    else if rank == 4 then "Brelan"
    else if rank == 3 then "Double Paire"
    else if rank == 2 then "Paire"
    else if rank == 1 then "Carte Haute"
    else "Incomplet"
  }

  /** `Object.keys(valueCounts).find(k => valueCounts[k] === c)`: keys are visited in ascending
      numeric order, so the scan starts from the last (lowest) tally. 0 stands for the `NaN` the
      source would produce when no tally matches; the key lemmas show that never happens. */
  function WithCount(ts: seq<Tally>, c: nat): int {
    if |ts| == 0 then 0
    else if ts[|ts| - 1].count == c then ts[|ts| - 1].value
    else WithCount(ts[..|ts| - 1], c)
  }

  /** The numbers of the tallies with count `c`. */
  function AllWithCount(ts: seq<Tally>, c: nat): seq<int> {
    if |ts| == 0 then []
    else (if ts[0].count == c then [ts[0].value] else []) + AllWithCount(ts[1..], c)
  }

  /** `values.filter(v => v !== x)`. */
  function Without(s: seq<int>, x: int): seq<int> {
    if |s| == 0 then []
    else (if s[0] == x then [] else [s[0]]) + Without(s[1..], x)
  }

  /** `values.find(v => !pairs.includes(v))`; 0 stands for `undefined` when every number is a pair. */
  function FirstOutside(s: seq<int>, pairs: seq<int>): int {
    if |s| == 0 then 0
    else if s[0] !in pairs then s[0]
    else FirstOutside(s[1..], pairs)
  }

  /** The tie-break key of poker-game.jsx: the quad, trip or pair numbers first, then the kickers. */
  function KeyFor(values: seq<int>, rank: int): seq<int>
    requires SortedDesc(values)
  {
    var ts := Tallies(values);
    if rank == 8 then
      var quad := WithCount(ts, 4);
      [quad] + Without(values, quad)
    else if rank == 7 then
      [WithCount(ts, 3), WithCount(ts, 2)]
    else if rank == 4 then
      var trip := WithCount(ts, 3);
      [trip] + Without(values, trip)
    else if rank == 3 then
      var pairs := SortDesc(AllWithCount(ts, 2));
      pairs + [FirstOutside(values, pairs)]
    else if rank == 2 then
      var pair := WithCount(ts, 2);
      [pair] + Without(values, pair)
    else values
  }

  /** `evaluateHand` of poker-game.jsx. */
  function Evaluate(cards: seq<Card>): (e: Evaluation)
    ensures |cards| != 5 ==> e.rank == 0 && e.highCards == []
    ensures |cards| == 5 ==> 1 <= e.rank <= 10
  {
    if |cards| != 5 then Evaluation(0, CategoryName(0), [])
    else
      var rank := Category(cards);
      Evaluation(rank, CategoryName(rank), KeyFor(SortedValues(cards), rank))
  }

  /** `evaluateHand` of src/App.jsx: the same categories, and the key is always the five numbers
      in descending order. */
  function EvaluateAllValues(cards: seq<Card>): (e: Evaluation)
    ensures e.rank == Evaluate(cards).rank && e.name == Evaluate(cards).name
    ensures |cards| != 5 ==> e.highCards == []
    ensures |cards| == 5 ==> SortedDesc(e.highCards) && multiset(e.highCards) == multiset(Numbers(cards))
  {
    if |cards| != 5 then Evaluation(0, CategoryName(0), [])
    else
      var rank := Category(cards);
      Evaluation(rank, CategoryName(rank), SortedValues(cards))
  }
}

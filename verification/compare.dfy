/** `compareHands` of both copies: the higher category wins, equal categories are decided by the
    first differing tie-break position, and complete equality goes to the first hand. */
module Compare {
  import opened Cards
  import opened Hands

  function Max(a: int, b: int): int {
    if a >= b then a else b
  }

  /** `highCards[i] || 0`: an entry past the end reads as 0. */
  function KeyAt(k: seq<int>, i: int): int {
    if 0 <= i < |k| then k[i] else 0
  }

  /** The tie-break loop of poker-game.jsx from position `i` on. */
  function CompareKeysFrom(k1: seq<int>, k2: seq<int>, i: nat): int
    decreases Max(|k1|, |k2|) - i
  {
    if i >= Max(|k1|, |k2|) then 1
    else if KeyAt(k1, i) != KeyAt(k2, i) then (if KeyAt(k1, i) > KeyAt(k2, i) then 1 else 2)
    else CompareKeysFrom(k1, k2, i + 1)
  }

  /** The winner (1 or 2) between two evaluations, as poker-game.jsx decides it. */
  function CompareEvaluations(e1: Evaluation, e2: Evaluation): int {
    if e1.rank != e2.rank then (if e1.rank > e2.rank then 1 else 2)
    else CompareKeysFrom(e1.highCards, e2.highCards, 0)
  }

  /** `{ winner, eval1, eval2 }`. */
  datatype Comparison = Comparison(winner: int, eval1: Evaluation, eval2: Evaluation)

  /** `compareHands` of poker-game.jsx. */
  function CompareHands(hand1: seq<Card>, hand2: seq<Card>): (c: Comparison)
    ensures c.eval1 == Evaluate(hand1) && c.eval2 == Evaluate(hand2)
  {
    var e1 := Evaluate(hand1);
    var e2 := Evaluate(hand2);
    Comparison(CompareEvaluations(e1, e2), e1, e2)
  }

  /** `eval1.highCards[i] > eval2.highCards[i]` in src/App.jsx: an entry past the end is
      `undefined`, and every comparison with `undefined` is false. */
  predicate RawGreater(k1: seq<int>, k2: seq<int>, i: int) {
    0 <= i < |k1| && 0 <= i < |k2| && k1[i] > k2[i]
  }

  /** The tie-break loop of src/App.jsx: the difference test pads with 0, the winner test does not. */
  function CompareKeysFromApp(k1: seq<int>, k2: seq<int>, i: nat): int
    decreases Max(|k1|, |k2|) - i
  {
    if i >= Max(|k1|, |k2|) then 1
    else if KeyAt(k1, i) != KeyAt(k2, i) then (if RawGreater(k1, k2, i) then 1 else 2)
    else CompareKeysFromApp(k1, k2, i + 1)
  }

  function CompareEvaluationsApp(e1: Evaluation, e2: Evaluation): int {
    if e1.rank != e2.rank then (if e1.rank > e2.rank then 1 else 2)
    else CompareKeysFromApp(e1.highCards, e2.highCards, 0)
  }

  /** `compareHands` of src/App.jsx, over that file's evaluator. */
  function CompareHandsApp(hand1: seq<Card>, hand2: seq<Card>): (c: Comparison)
    ensures c.eval1 == EvaluateAllValues(hand1) && c.eval2 == EvaluateAllValues(hand2)
  {
    var e1 := EvaluateAllValues(hand1);
    var e2 := EvaluateAllValues(hand2);
    Comparison(CompareEvaluationsApp(e1, e2), e1, e2)
  }

  // ---------------------------------------------------------------------------------------
  // The order the comparison decides
  // ---------------------------------------------------------------------------------------

  /** Padded keys agree on every position before `i`. */
  predicate AgreeBefore(k1: seq<int>, k2: seq<int>, i: int) {
    forall j :: 0 <= j < i ==> KeyAt(k1, j) == KeyAt(k2, j)
  }

  /** `k1` is ahead of `k2` at the first position where their padded entries differ. */
  predicate KeyAhead(k1: seq<int>, k2: seq<int>) {
    exists i :: 0 <= i < Max(|k1|, |k2|) && KeyAt(k1, i) > KeyAt(k2, i) && AgreeBefore(k1, k2, i)
  }

  /** The padded keys are equal everywhere. */
  predicate KeysTie(k1: seq<int>, k2: seq<int>) {
    AgreeBefore(k1, k2, Max(|k1|, |k2|))
  }

  /** Strictly better: a higher category, or the same category and a key ahead. */
  predicate Beats(e1: Evaluation, e2: Evaluation) {
    e1.rank > e2.rank || (e1.rank == e2.rank && KeyAhead(e1.highCards, e2.highCards))
  }

  /** Past the common padded length every entry reads as 0. */
  lemma PaddedTail(k1: seq<int>, k2: seq<int>, i: int)
    requires i >= Max(|k1|, |k2|)
    ensures KeyAt(k1, i) == 0 == KeyAt(k2, i)
  {
  }

  /** Keys that agree everywhere are not ahead of each other. */
  lemma TieIsNotAhead(k1: seq<int>, k2: seq<int>)
    requires KeysTie(k1, k2)
    ensures !KeyAhead(k1, k2) && !KeyAhead(k2, k1)
  {
    forall w | 0 <= w < Max(|k1|, |k2|) ensures KeyAt(k1, w) == KeyAt(k2, w) {
    }
  }

  /** At the first differing position the larger entry puts its key ahead, and only that key. */
  lemma FirstDifferenceDecides(k1: seq<int>, k2: seq<int>, i: int)
    requires 0 <= i < Max(|k1|, |k2|) && AgreeBefore(k1, k2, i) && KeyAt(k1, i) > KeyAt(k2, i)
    ensures KeyAhead(k1, k2) && !KeyAhead(k2, k1)
  {
    forall w | 0 <= w < Max(|k2|, |k1|) && AgreeBefore(k2, k1, w)
      ensures KeyAt(k2, w) <= KeyAt(k1, w)
    {
      if w < i {
        assert KeyAt(k1, w) == KeyAt(k2, w);
      }
    }
  }

  /** The loop from position `i` answers 2 exactly when the second key is ahead. */
  lemma {:induction false} CompareKeysFromSpec(k1: seq<int>, k2: seq<int>, i: nat)
    requires AgreeBefore(k1, k2, i)
    ensures CompareKeysFrom(k1, k2, i) == 1 || CompareKeysFrom(k1, k2, i) == 2
    ensures CompareKeysFrom(k1, k2, i) == 2 <==> KeyAhead(k2, k1)
    decreases Max(|k1|, |k2|) - i
  {
    if i >= Max(|k1|, |k2|) {
      TieIsNotAhead(k1, k2);
    } else if KeyAt(k1, i) > KeyAt(k2, i) {
      FirstDifferenceDecides(k1, k2, i);
    } else if KeyAt(k2, i) > KeyAt(k1, i) {
      FirstDifferenceDecides(k2, k1, i);
    } else {
      CompareKeysFromSpec(k1, k2, i + 1);
    }
  }

  /** The comparison crowns the second hand exactly when it strictly beats the first; otherwise
      the first wins (which includes every full tie). */
  lemma CompareEvaluationsSpec(e1: Evaluation, e2: Evaluation)
    ensures CompareEvaluations(e1, e2) == 1 || CompareEvaluations(e1, e2) == 2
    ensures CompareEvaluations(e1, e2) == 2 <==> Beats(e2, e1)
  {
    CompareKeysFromSpec(e1.highCards, e2.highCards, 0);
  }

  /** A higher category wins outright. */
  lemma HigherRankWins(hand1: seq<Card>, hand2: seq<Card>)
    ensures Evaluate(hand1).rank > Evaluate(hand2).rank ==> CompareHands(hand1, hand2).winner == 1
    ensures Evaluate(hand1).rank < Evaluate(hand2).rank ==> CompareHands(hand1, hand2).winner == 2
  {
  }

  /** Equal categories: the first differing padded key position decides, and equal keys give
      winner 1. */
  lemma EqualRankKeyDecides(hand1: seq<Card>, hand2: seq<Card>)
    requires Evaluate(hand1).rank == Evaluate(hand2).rank
    ensures var k1, k2 := Evaluate(hand1).highCards, Evaluate(hand2).highCards;
      && (CompareHands(hand1, hand2).winner == 2 <==> KeyAhead(k2, k1))
      && (KeysTie(k1, k2) ==> CompareHands(hand1, hand2).winner == 1)
  {
    var k1, k2 := Evaluate(hand1).highCards, Evaluate(hand2).highCards;
    CompareKeysFromSpec(k1, k2, 0);
    if KeysTie(k1, k2) {
      TieIsNotAhead(k1, k2);
    }
  }

  /** The winner is always 1 or 2, in both copies. */
  lemma WinnerIsOneOrTwo(hand1: seq<Card>, hand2: seq<Card>)
    ensures CompareHands(hand1, hand2).winner in {1, 2}
    ensures CompareHandsApp(hand1, hand2).winner in {1, 2}
  {
    CompareEvaluationsSpec(Evaluate(hand1), Evaluate(hand2));
    var e1, e2 := EvaluateAllValues(hand1), EvaluateAllValues(hand2);
    CompareKeysFromAppRange(e1.highCards, e2.highCards, 0);
  }

  lemma {:induction false} CompareKeysFromAppRange(k1: seq<int>, k2: seq<int>, i: nat)
    ensures CompareKeysFromApp(k1, k2, i) == 1 || CompareKeysFromApp(k1, k2, i) == 2
    decreases Max(|k1|, |k2|) - i
  {
    if i < Max(|k1|, |k2|) && KeyAt(k1, i) == KeyAt(k2, i) {
      CompareKeysFromAppRange(k1, k2, i + 1);
    }
  }

  // ---------------------------------------------------------------------------------------
  // `Beats` is a strict order, total up to ties
  // ---------------------------------------------------------------------------------------

  lemma KeyAheadAsymmetric(k1: seq<int>, k2: seq<int>)
    ensures !(KeyAhead(k1, k2) && KeyAhead(k2, k1))
  {
    if KeyAhead(k1, k2) {
      var a :| 0 <= a < Max(|k1|, |k2|) && KeyAt(k1, a) > KeyAt(k2, a) && AgreeBefore(k1, k2, a);
      FirstDifferenceDecides(k1, k2, a);
    }
  }

  lemma KeyAheadTransitive(k1: seq<int>, k2: seq<int>, k3: seq<int>)
    requires KeyAhead(k1, k2) && KeyAhead(k2, k3)
    ensures KeyAhead(k1, k3)
  {
    var a :| 0 <= a < Max(|k1|, |k2|) && KeyAt(k1, a) > KeyAt(k2, a) && AgreeBefore(k1, k2, a);
    var b :| 0 <= b < Max(|k2|, |k3|) && KeyAt(k2, b) > KeyAt(k3, b) && AgreeBefore(k2, k3, b);
    var c := if a < b then a else b;
    assert KeyAt(k1, c) > KeyAt(k3, c);
    assert AgreeBefore(k1, k3, c);
    if c >= Max(|k1|, |k3|) {
      PaddedTail(k1, k3, c);
    }
  }

  /** Two keys that do not tie have one ahead of the other. */
  lemma {:induction false} KeyAheadTotalFrom(k1: seq<int>, k2: seq<int>, i: nat)
    requires AgreeBefore(k1, k2, i)
    ensures KeyAhead(k1, k2) || KeyAhead(k2, k1) || KeysTie(k1, k2)
    decreases Max(|k1|, |k2|) - i
  {
    if i < Max(|k1|, |k2|) {
      if KeyAt(k1, i) > KeyAt(k2, i) {
        assert KeyAhead(k1, k2);
      } else if KeyAt(k2, i) > KeyAt(k1, i) {
        assert AgreeBefore(k2, k1, i);
        assert KeyAhead(k2, k1);
      } else {
        KeyAheadTotalFrom(k1, k2, i + 1);
      }
    }
  }

  lemma BeatsIrreflexive(e: Evaluation)
    ensures !Beats(e, e)
  {
    KeyAheadAsymmetric(e.highCards, e.highCards);
  }

  lemma BeatsAsymmetric(e1: Evaluation, e2: Evaluation)
    ensures !(Beats(e1, e2) && Beats(e2, e1))
  {
    KeyAheadAsymmetric(e1.highCards, e2.highCards);
  }

  lemma BeatsTransitive(e1: Evaluation, e2: Evaluation, e3: Evaluation)
    requires Beats(e1, e2) && Beats(e2, e3)
    ensures Beats(e1, e3)
  {
    if e1.rank == e2.rank == e3.rank {
      KeyAheadTransitive(e1.highCards, e2.highCards, e3.highCards);
    }
  }

  /** Any two evaluations are ordered one way or the other unless they tie completely. */
  lemma BeatsTotal(e1: Evaluation, e2: Evaluation)
    ensures Beats(e1, e2) || Beats(e2, e1) || (e1.rank == e2.rank && KeysTie(e1.highCards, e2.highCards))
  {
    KeyAheadTotalFrom(e1.highCards, e2.highCards, 0);
  }

  // ---------------------------------------------------------------------------------------
  // The two copies agree on keys of equal length
  // ---------------------------------------------------------------------------------------

  /** With keys of equal length the unpadded winner test matches the padded one. */
  lemma {:induction false} AppLoopAgrees(k1: seq<int>, k2: seq<int>, i: nat)
    requires |k1| == |k2|
    ensures CompareKeysFromApp(k1, k2, i) == CompareKeysFrom(k1, k2, i)
    decreases Max(|k1|, |k2|) - i
  {
    if i < Max(|k1|, |k2|) && KeyAt(k1, i) == KeyAt(k2, i) {
      AppLoopAgrees(k1, k2, i + 1);
    }
  }

  /** src/App.jsx's comparison is the padded comparison over its own evaluations: equal
      categories always come with keys of equal length there. */
  lemma AppCompareIsPadded(hand1: seq<Card>, hand2: seq<Card>)
    ensures CompareHandsApp(hand1, hand2).winner
         == CompareEvaluations(EvaluateAllValues(hand1), EvaluateAllValues(hand2))
  {
    var e1, e2 := EvaluateAllValues(hand1), EvaluateAllValues(hand2);
    if e1.rank == e2.rank {
      assert |hand1| == 5 <==> |hand2| == 5;
      assert |e1.highCards| == |e2.highCards|;
      AppLoopAgrees(e1.highCards, e2.highCards, 0);
    }
  }

  /** On keys of different length the unpadded winner test can disagree with the padded one. When
      the first key extends the second with a positive entry, the padded test reads that entry
      against 0 and gives the first key the win, while the raw `>` meets `undefined` and gives it
      to the second. */
  lemma AppLoopOnUnequalLengths(k1: seq<int>, k2: seq<int>)
    requires |k2| < |k1| && k1[..|k2|] == k2 && k1[|k2|] > 0
    ensures CompareKeysFromApp(k1, k2, 0) == 2 && CompareKeysFrom(k1, k2, 0) == 1
  {
    AppLoopOnLongerKey(k1, k2, 0);
  }

  lemma {:induction false} AppLoopOnLongerKey(k1: seq<int>, k2: seq<int>, i: nat)
    requires |k2| < |k1| && i <= |k2| && k1[|k2|] > 0
    requires forall j :: i <= j < |k2| ==> k1[j] == k2[j]
    ensures CompareKeysFromApp(k1, k2, i) == 2 && CompareKeysFrom(k1, k2, i) == 1
    decreases |k2| - i
  {
    if i < |k2| {
      AppLoopOnLongerKey(k1, k2, i + 1);
    }
  }

  /** The other way round the two tests agree: a second key that extends the first with a
      positive entry wins under both. */
  lemma AppLoopOnLongerSecond(k1: seq<int>, k2: seq<int>)
    requires |k1| < |k2| && k2[..|k1|] == k1 && k2[|k1|] > 0
    ensures CompareKeysFromApp(k1, k2, 0) == 2 && CompareKeysFrom(k1, k2, 0) == 2
  {
    AppLoopOnLongerSecondFrom(k1, k2, 0);
  }

  lemma {:induction false} AppLoopOnLongerSecondFrom(k1: seq<int>, k2: seq<int>, i: nat)
    requires |k1| < |k2| && i <= |k1| && k2[|k1|] > 0
    requires forall j :: i <= j < |k1| ==> k1[j] == k2[j]
    ensures CompareKeysFromApp(k1, k2, i) == 2 && CompareKeysFrom(k1, k2, i) == 2
    decreases |k1| - i
  {
    if i < |k1| {
      AppLoopOnLongerSecondFrom(k1, k2, i + 1);
    }
  }
}

/** `calculateResults`: the five column duels and the overall winner, in both copies. */
module Scoring {
  import opened Cards
  import opened Hands
  import opened Boards
  import opened Compare

  /** `{ columnResults, p1Wins, p2Wins, overallWinner }`. */
  datatype Results = Results(columnResults: seq<Comparison>, p1Wins: nat, p2Wins: nat, overallWinner: int)

  /** The duel on column `i`: poker-game.jsx's comparison, or src/App.jsx's when `app` holds. */
  function ColumnDuel(b: Board, i: int, app: bool): Comparison
    requires WellShaped(b) && 0 <= i < ColumnCount
  {
    if app then CompareHandsApp(b.p1[i], b.p2[i]) else CompareHands(b.p1[i], b.p2[i])
  }

  /** How many duels player 1 won. */
  function FirstPlayerWins(rs: seq<Comparison>): (n: nat)
    ensures n <= |rs|
  {
    if |rs| == 0 then 0
    else FirstPlayerWins(rs[..|rs| - 1]) + (if rs[|rs| - 1].winner == 1 then 1 else 0)
  }

  /** The five duels, in column order. */
  function Duels(b: Board, app: bool): (ds: seq<Comparison>)
    requires WellShaped(b)
    ensures |ds| == ColumnCount
  {
    seq(ColumnCount, i requires 0 <= i < ColumnCount => ColumnDuel(b, i, app))
  }

  /** The counting loop: every duel not won by player 1 counts for player 2. */
  method CountWins(duels: seq<Comparison>) returns (p1Wins: nat, p2Wins: nat)
    ensures p1Wins == FirstPlayerWins(duels)
    ensures p1Wins + p2Wins == |duels|
  {
    p1Wins, p2Wins := 0, 0;
    for i := 0 to |duels|
      invariant p1Wins == FirstPlayerWins(duels[..i])
      invariant p1Wins + p2Wins == i
    {
      assert duels[..i + 1][..i] == duels[..i];
      if duels[i].winner == 1 {
        p1Wins := p1Wins + 1;
      } else {
        p2Wins := p2Wins + 1;
      }
    }
    assert duels[..|duels|] == duels;
  }

  /** The five duels, player 1's and player 2's tallies, and the overall winner: whoever won the
      majority of the five columns, three or more. */
  method CalculateResults(b: Board, app: bool) returns (r: Results)
    requires WellShaped(b)
    ensures |r.columnResults| == ColumnCount
    ensures forall i :: 0 <= i < ColumnCount ==> r.columnResults[i] == ColumnDuel(b, i, app)
    ensures r.p1Wins == FirstPlayerWins(r.columnResults)
    ensures r.p1Wins + r.p2Wins == ColumnCount
    ensures r.overallWinner == 1 <==> r.p1Wins >= 3
    ensures r.overallWinner == 2 <==> r.p2Wins >= 3
  {
    var duels := Duels(b, app);
    var p1Wins, p2Wins := CountWins(duels);
    assert p1Wins + p2Wins == 5;
    r := Results(duels, p1Wins, p2Wins, if p1Wins > p2Wins then 1 else 2);
  }

  /** With poker-game.jsx's comparison, player 2 takes a column exactly when their hand strictly
      beats player 1's; every tie goes to player 1. */
  lemma ColumnGoesToStrictlyBetter(b: Board, i: int)
    requires WellShaped(b) && 0 <= i < ColumnCount
    ensures ColumnDuel(b, i, false).winner == 2 <==> Beats(Evaluate(b.p2[i]), Evaluate(b.p1[i]))
    ensures ColumnDuel(b, i, false).winner == 1 <==> !Beats(Evaluate(b.p2[i]), Evaluate(b.p1[i]))
  {
    CompareEvaluationsSpec(Evaluate(b.p1[i]), Evaluate(b.p2[i]));
  }

  /** Swapping the boards hands a column to the other player exactly when the hands differ in
      strength; on a full tie both orders crown the board listed first. */
  lemma SwappedDuel(b: Board, i: int)
    requires WellShaped(b) && 0 <= i < ColumnCount
    ensures var e1, e2 := Evaluate(b.p1[i]), Evaluate(b.p2[i]);
      var swapped := Board(b.p2, b.p1);
      (ColumnDuel(b, i, false).winner == 1 && ColumnDuel(swapped, i, false).winner == 1)
        <==> !Beats(e1, e2) && !Beats(e2, e1)
  {
    var e1, e2 := Evaluate(b.p1[i]), Evaluate(b.p2[i]);
    CompareEvaluationsSpec(e1, e2);
    CompareEvaluationsSpec(e2, e1);
  }
}

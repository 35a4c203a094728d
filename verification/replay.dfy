/** `rebuildGameState` of src/App.jsx: the whole online game is the seed and the move log, and
    every client recomputes the boards by dealing from the seeded deck and replaying the log. */
module Replay {
  import opened Wrappers
  import opened Cards
  import opened Boards
  import opened Placement

  /** Why a log cannot be replayed. In the program a column outside 0..4 makes `push` fail on
      `undefined`, and a log longer than the deck pushes `undefined` cards. */
  datatype ReplayError = ColumnOutOfRange(index: nat) | DeckExhausted(index: nat)

  /** What `rebuildGameState` returns. */
  datatype Replayed = Replayed(board: Board, remainingDeck: seq<Card>, nextCard: Option<Card>,
                               nextPlayer: int, moveCount: nat)

  /** The `forEach` over the log: move `k` pushes `deck[k]` onto its column. */
  function ReplayMoves(start: Board, deck: seq<Card>, moves: seq<Move>): (r: Result<Board, ReplayError>)
    requires WellShaped(start)
    ensures r.Success? ==> WellShaped(r.value)
    decreases |moves|
  {
    if |moves| == 0 then Success(start)
    else
      var k := |moves| - 1;
      match ReplayMoves(start, deck, moves[..k])
      case Failure(e) => Failure(e)
      case Success(b) =>
        if !(0 <= moves[k].column < ColumnCount) then Failure(ColumnOutOfRange(k))
        else if k >= |deck| then Failure(DeckExhausted(k))
        else Success(Place(b, moves[k].player, moves[k].column, deck[k]))
  }

  /** `moves.length % 2 === 0 ? 1 : 2`: player 1 moves first and the players alternate. */
  function PlayerToMove(moveCount: nat): int {
    if moveCount % 2 == 0 then 1 else 2
  }

  /** `rebuildGameState(seed, moves)` on the deck the seed shuffles to. */
  function Rebuild(shuffled: seq<Card>, moves: seq<Move>): (r: Result<Replayed, ReplayError>)
    requires |shuffled| >= DealtPrefix
    ensures r.Success? ==> WellShaped(r.value.board)
  {
    var (dealt, deck) := Deal(shuffled);
    match ReplayMoves(dealt, deck, moves)
    case Failure(e) => Failure(e)
    case Success(board) =>
      var n := |moves|;
      var remaining := if n <= |deck| then deck[n..] else [];
      Success(Replayed(board, remaining, Head(remaining), PlayerToMove(n), n))
  }

  /** Every column of the log is on the board. */
  predicate ColumnsValid(moves: seq<Move>) {
    forall k :: 0 <= k < |moves| ==> 0 <= moves[k].column < ColumnCount
  }

  // ---------------------------------------------------------------------------------------
  // When a replay succeeds, and how it fails
  // ---------------------------------------------------------------------------------------

  /** A replay succeeds exactly when every column is valid and the deck has a card for every
      move; otherwise it reports the first move that cannot be replayed, a bad column taking
      precedence over a missing card at the same move. */
  lemma {:induction false} ReplayOutcome(start: Board, deck: seq<Card>, moves: seq<Move>)
    requires WellShaped(start)
    ensures ReplayMoves(start, deck, moves).Success? <==> ColumnsValid(moves) && |moves| <= |deck|
    ensures match ReplayMoves(start, deck, moves)
      case Success(_) => true
      case Failure(ColumnOutOfRange(k)) =>
        k < |moves| && k <= |deck| && ColumnsValid(moves[..k]) && !(0 <= moves[k].column < ColumnCount)
      case Failure(DeckExhausted(k)) =>
        k < |moves| && k == |deck| && ColumnsValid(moves[..k + 1])
    decreases |moves|
  {
    if |moves| > 0 {
      var k := |moves| - 1;
      var prefix := moves[..k];
      ReplayOutcome(start, deck, prefix);
      assert forall j :: 0 <= j < k ==> prefix[j] == moves[j];
      match ReplayMoves(start, deck, prefix) {
        case Failure(ColumnOutOfRange(i)) =>
          assert moves[..i] == prefix[..i];
        case Failure(DeckExhausted(i)) =>
          assert moves[..i + 1] == prefix[..i + 1];
        case Success(b) =>
          assert moves[..k] == prefix;
      }
    }
  }

  /** Replaying a log extended by one move replays the log, then that move. */
  lemma ReplayExtend(start: Board, deck: seq<Card>, moves: seq<Move>, m: Move)
    requires WellShaped(start)
    ensures var k := |moves|;
      ReplayMoves(start, deck, moves + [m]) ==
        match ReplayMoves(start, deck, moves)
        case Failure(e) => Failure(e)
        case Success(b) =>
          if !(0 <= m.column < ColumnCount) then Failure(ColumnOutOfRange(k))
          else if k >= |deck| then Failure(DeckExhausted(k))
          else Success(Place(b, m.player, m.column, deck[k]))
  {
    assert (moves + [m])[..|moves|] == moves;
  }

  // ---------------------------------------------------------------------------------------
  // What a successful replay builds
  // ---------------------------------------------------------------------------------------

  /** Whether a move targets column `c` of the first board (`onFirst`) or of the second. */
  predicate Targets(m: Move, onFirst: bool, c: int) {
    (m.player == 1) == onFirst && m.column == c
  }

  /** The cards that moves `0..|moves|-1` push onto one column, in the order they are pushed:
      move `k` contributes `deck[k]` when it targets the column. */
  function Pushed(deck: seq<Card>, moves: seq<Move>, onFirst: bool, c: int): seq<Card>
    requires |moves| <= |deck|
    decreases |moves|
  {
    if |moves| == 0 then []
    else
      var k := |moves| - 1;
      Pushed(deck, moves[..k], onFirst, c) + (if Targets(moves[k], onFirst, c) then [deck[k]] else [])
  }

  /** Each column ends as it started, followed by the cards the moves aimed at it, in log order. */
  lemma {:induction false} ReplayContents(start: Board, deck: seq<Card>, moves: seq<Move>)
    requires WellShaped(start)
    requires ReplayMoves(start, deck, moves).Success?
    ensures |moves| <= |deck|
    ensures var b := ReplayMoves(start, deck, moves).value;
      forall c :: 0 <= c < ColumnCount ==>
        b.p1[c] == start.p1[c] + Pushed(deck, moves, true, c)
        && b.p2[c] == start.p2[c] + Pushed(deck, moves, false, c)
    decreases |moves|
  {
    ReplayOutcome(start, deck, moves);
    if |moves| > 0 {
      var k := |moves| - 1;
      ReplayContents(start, deck, moves[..k]);
      var b := ReplayMoves(start, deck, moves[..k]).value;
      PlaceEffect(b, moves[k].player, moves[k].column, deck[k]);
    }
  }

  /** A successful replay adds exactly the first `|moves|` cards of the deck to the boards. */
  lemma {:induction false} ReplayCards(start: Board, deck: seq<Card>, moves: seq<Move>)
    requires WellShaped(start)
    requires ReplayMoves(start, deck, moves).Success?
    ensures |moves| <= |deck|
    ensures multiset(BoardCards(ReplayMoves(start, deck, moves).value)) ==
      multiset(BoardCards(start)) + multiset(deck[..|moves|])
    decreases |moves|
  {
    ReplayOutcome(start, deck, moves);
    if |moves| > 0 {
      var k := |moves| - 1;
      ReplayCards(start, deck, moves[..k]);
      var b := ReplayMoves(start, deck, moves[..k]).value;
      assert ReplayMoves(start, deck, moves).value == Place(b, moves[k].player, moves[k].column, deck[k]);
      PlaceAddsCard(b, moves[k].player, moves[k].column, deck[k]);
      TakeOneMore(deck, k);
    }
  }

  lemma TakeOneMore(deck: seq<Card>, k: nat)
    requires k < |deck|
    ensures multiset(deck[..k + 1]) == multiset(deck[..k]) + multiset{deck[k]}
  {
    assert deck[..k + 1] == deck[..k] + [deck[k]];
  }

  lemma TakeAndDrop(deck: seq<Card>, n: nat)
    requires n <= |deck|
    ensures multiset(deck) == multiset(deck[..n]) + multiset(deck[n..])
  {
    assert deck == deck[..n] + deck[n..];
  }

  // ---------------------------------------------------------------------------------------
  // `rebuildGameState`
  // ---------------------------------------------------------------------------------------

  /** The rebuild succeeds exactly when every column is valid and the 41 cards after the deal
      cover the log. */
  lemma RebuildSucceedsIff(shuffled: seq<Card>, moves: seq<Move>)
    requires |shuffled| >= DealtPrefix
    ensures Rebuild(shuffled, moves).Success? <==> ColumnsValid(moves) && |moves| <= |shuffled| - DealtPrefix
  {
    DealLayout(shuffled);
    var (dealt, deck) := Deal(shuffled);
    ReplayOutcome(dealt, deck, moves);
  }

  /** After a successful rebuild, the move count is the log's length, the player to move is
      player 1 after an even number of moves, and the remaining deck and the next card continue
      the shuffled deck right after the cards the log used. */
  lemma RebuildCounters(shuffled: seq<Card>, moves: seq<Move>)
    requires |shuffled| >= DealtPrefix
    requires Rebuild(shuffled, moves).Success?
    ensures var r := Rebuild(shuffled, moves).value;
      && r.moveCount == |moves|
      && r.nextPlayer == PlayerToMove(|moves|)
      && (r.nextPlayer == 1 <==> |moves| % 2 == 0)
      && (r.nextPlayer == 2 <==> |moves| % 2 == 1)
      && r.remainingDeck == shuffled[DealtPrefix + |moves|..]
      && r.nextCard == Head(r.remainingDeck)
  {
    DealLayout(shuffled);
    var (dealt, deck) := Deal(shuffled);
    ReplayOutcome(dealt, deck, moves);
    assert deck[|moves|..] == shuffled[DealtPrefix + |moves|..];
  }

  /** After a successful rebuild, column `c` holds its dealt card followed by the cards the log
      pushed onto it. */
  lemma RebuildContents(shuffled: seq<Card>, moves: seq<Move>)
    requires |shuffled| >= DealtPrefix
    requires Rebuild(shuffled, moves).Success?
    ensures |moves| <= |shuffled| - DealtPrefix
    ensures var b := Rebuild(shuffled, moves).value.board;
      forall c :: 0 <= c < ColumnCount ==>
        b.p1[c] == [shuffled[1 + 2 * c]] + Pushed(shuffled[DealtPrefix..], moves, true, c)
        && b.p2[c] == [shuffled[2 + 2 * c]] + Pushed(shuffled[DealtPrefix..], moves, false, c)
  {
    DealLayout(shuffled);
    var (dealt, deck) := Deal(shuffled);
    ReplayContents(dealt, deck, moves);
  }

  /** The burnt card, the boards and the remaining deck are the shuffled deck: a replay neither
      loses nor duplicates a card. */
  lemma RebuildConserves(shuffled: seq<Card>, moves: seq<Move>)
    requires |shuffled| >= DealtPrefix
    requires Rebuild(shuffled, moves).Success?
    ensures var r := Rebuild(shuffled, moves).value;
      multiset{shuffled[0]} + multiset(BoardCards(r.board)) + multiset(r.remainingDeck) == multiset(shuffled)
  {
    DealConserves(shuffled);
    var (dealt, deck) := Deal(shuffled);
    ReplayCards(dealt, deck, moves);
    RebuildCounters(shuffled, moves);
    TakeAndDrop(deck, |moves|);
  }

  /** The boards hold the ten dealt cards and one card per replayed move. */
  lemma RebuildCardCount(shuffled: seq<Card>, moves: seq<Move>)
    requires |shuffled| >= DealtPrefix
    requires Rebuild(shuffled, moves).Success?
    ensures |BoardCards(Rebuild(shuffled, moves).value.board)| == 10 + |moves|
  {
    var r := Rebuild(shuffled, moves).value;
    RebuildConserves(shuffled, moves);
    RebuildCounters(shuffled, moves);
    assert |multiset{shuffled[0]} + multiset(BoardCards(r.board)) + multiset(r.remainingDeck)| == |shuffled|;
  }

  /** `after` is `before` with move `m` replayed: the card on offer lands on `m`'s column of the
      mover's board, the count advances and the deck loses its first card. */
  predicate Advances(before: Replayed, after: Replayed, m: Move)
    requires WellShaped(before.board) && 0 <= m.column < ColumnCount
  {
    && before.nextCard.Some?
    && after.board == Place(before.board, m.player, m.column, before.nextCard.value)
    && after.moveCount == before.moveCount + 1
    && after.remainingDeck == Rest(before.remainingDeck)
  }

  /** Appending a move to a log that replays moves exactly one card: the boards gain the card the
      old state offered as next card, on the appended move's column, and the counters advance. */
  lemma RebuildExtend(shuffled: seq<Card>, moves: seq<Move>, m: Move)
    requires |shuffled| >= DealtPrefix
    requires Rebuild(shuffled, moves).Success?
    requires 0 <= m.column < ColumnCount && |moves| < |shuffled| - DealtPrefix
    ensures Rebuild(shuffled, moves + [m]).Success?
    ensures Advances(Rebuild(shuffled, moves).value, Rebuild(shuffled, moves + [m]).value, m)
  {
    DealLayout(shuffled);
    var (dealt, deck) := Deal(shuffled);
    ReplayOutcome(dealt, deck, moves);
    ReplayExtend(dealt, deck, moves, m);
    RebuildCounters(shuffled, moves);
    assert deck[|moves| + 1..] == deck[|moves|..][1..];
  }

  // ---------------------------------------------------------------------------------------
  // Local play agrees with the replay of its moves
  // ---------------------------------------------------------------------------------------

  /** One placement in the poker-game.jsx version (`balanced == false`) or the src/App.jsx one. */
  function Step(g: Game, col: int, balanced: bool): (r: Game)
    requires WellShaped(g.board) && 0 <= col < ColumnCount
    ensures WellShaped(r.board)
  {
    if balanced then PlaceCardBalanced(g, col) else PlaceCardLocal(g, col)
  }

  predicate ValidColumns(cols: seq<int>) {
    forall k :: 0 <= k < |cols| ==> 0 <= cols[k] < ColumnCount
  }

  /** The local game after the players click columns `cols` in turn. */
  function PlayLocal(g: Game, cols: seq<int>, balanced: bool): (r: Game)
    requires WellShaped(g.board) && ValidColumns(cols)
    ensures WellShaped(r.board)
    decreases |cols|
  {
    if |cols| == 0 then g
    else
      var k := |cols| - 1;
      Step(PlayLocal(g, cols[..k], balanced), cols[k], balanced)
  }

  /** The log those clicks would write online: move `k` by the player whose turn it is. */
  function MovesOf(cols: seq<int>): (moves: seq<Move>)
    ensures |moves| == |cols|
  {
    seq(|cols|, k requires 0 <= k < |cols| => Move(PlayerToMove(k), cols[k]))
  }

  lemma MovesOfSnoc(cols: seq<int>)
    requires |cols| > 0
    ensures MovesOf(cols) == MovesOf(cols[..|cols| - 1]) + [Move(PlayerToMove(|cols| - 1), cols[|cols| - 1])]
  {
    var k := |cols| - 1;
    var a, b := MovesOf(cols), MovesOf(cols[..k]) + [Move(PlayerToMove(k), cols[k])];
    assert |a| == |b|;
    forall i | 0 <= i < |a| ensures a[i] == b[i] {
      if i < k {
        assert b[i] == MovesOf(cols[..k])[i];
      }
    }
  }

  /** A placement counts at most one card, and a counted one is a committed placement. */
  lemma StepCounts(g: Game, col: int, balanced: bool)
    requires WellShaped(g.board) && 0 <= col < ColumnCount
    ensures var r := Step(g, col, balanced);
      && r.placementCount <= g.placementCount + 1
      && (r.placementCount == g.placementCount + 1 ==>
            g.drawnCard.Some? && g.phase == Placing && r == Commit(g, col))
  {
    if g.drawnCard.Some? && g.phase == Placing {
      CommitEffect(g, col);
    }
  }

  lemma {:induction false} PlayLocalCounts(g: Game, cols: seq<int>, balanced: bool)
    requires WellShaped(g.board) && ValidColumns(cols)
    ensures PlayLocal(g, cols, balanced).placementCount <= g.placementCount + |cols|
    decreases |cols|
  {
    if |cols| > 0 {
      var k := |cols| - 1;
      PlayLocalCounts(g, cols[..k], balanced);
      StepCounts(PlayLocal(g, cols[..k], balanced), cols[k], balanced);
    }
  }

  /** A local game state and a rebuilt one agree on everything a placement reads. */
  predicate Matches(g: Game, r: Replayed) {
    g.board == r.board && g.deck == r.remainingDeck && g.drawnCard == r.nextCard
    && g.currentPlayer == r.nextPlayer && g.placementCount == r.moveCount
  }

  /** A committed placement that keeps the game placing matches the log extended by that move. */
  lemma CommitMatchesExtend(shuffled: seq<Card>, moves: seq<Move>, g: Game, col: int)
    requires |shuffled| >= DealtPrefix && Rebuild(shuffled, moves).Success?
    requires Matches(g, Rebuild(shuffled, moves).value)
    requires g.drawnCard.Some? && 0 <= col < ColumnCount
    requires Commit(g, col).phase == Placing
    ensures Rebuild(shuffled, moves + [Move(g.currentPlayer, col)]).Success?
    ensures Matches(Commit(g, col), Rebuild(shuffled, moves + [Move(g.currentPlayer, col)]).value)
  {
    var m := Move(g.currentPlayer, col);
    RebuildCounters(shuffled, moves);
    RebuildExtend(shuffled, moves, m);
    RebuildCounters(shuffled, moves + [m]);
    var after := Rebuild(shuffled, moves + [m]).value;
    assert after.nextPlayer == Other(g.currentPlayer);
    CommitAdvances(g, Rebuild(shuffled, moves).value, after, col);
  }

  /** The replay advanced by a move holds the boards and count the commit
      produces, whether or not the commit ends the game. */
  lemma CommitSharesBoard(g: Game, before: Replayed, after: Replayed, col: int)
    requires Matches(g, before) && WellShaped(g.board) && g.drawnCard.Some? && 0 <= col < ColumnCount
    requires Advances(before, after, Move(g.currentPlayer, col))
    ensures after.board == Commit(g, col).board && after.moveCount == Commit(g, col).placementCount
  {
  }

  /** A commit that keeps the game in the placing phase matches a replay advanced by its move. */
  lemma CommitAdvances(g: Game, before: Replayed, after: Replayed, col: int)
    requires Matches(g, before) && WellShaped(g.board) && g.drawnCard.Some? && 0 <= col < ColumnCount
    requires Commit(g, col).phase == Placing
    requires Advances(before, after, Move(g.currentPlayer, col))
    requires after.nextPlayer == Other(g.currentPlayer) && after.nextCard == Head(after.remainingDeck)
    ensures Matches(Commit(g, col), after)
  {
    CommitEffect(g, col);
  }

  lemma StartMatchesEmptyLog(shuffled: seq<Card>)
    requires |shuffled| >= DealtPrefix
    ensures Rebuild(shuffled, []).Success? && Matches(StartLocal(shuffled), Rebuild(shuffled, []).value)
  {
    DealLayout(shuffled);
  }

  /** Playing locally, in either version, until every click has placed a card and the game is
      still in its placing phase, leaves exactly the state that rebuilding from the alternating
      log of those clicks produces: same boards, same remaining deck, same next card, same
      player to move and same count. */
  lemma {:induction false} LocalMatchesReplay(shuffled: seq<Card>, cols: seq<int>, balanced: bool)
    requires |shuffled| >= DealtPrefix && ValidColumns(cols)
    requires var g := PlayLocal(StartLocal(shuffled), cols, balanced);
      g.placementCount == |cols| && g.phase == Placing
    ensures Rebuild(shuffled, MovesOf(cols)).Success?
    ensures Matches(PlayLocal(StartLocal(shuffled), cols, balanced), Rebuild(shuffled, MovesOf(cols)).value)
    decreases |cols|
  {
    var g0 := StartLocal(shuffled);
    if |cols| == 0 {
      assert MovesOf(cols) == [];
      StartMatchesEmptyLog(shuffled);
    } else {
      var k := |cols| - 1;
      var gp := PlayLocal(g0, cols[..k], balanced);
      PlayLocalCounts(g0, cols[..k], balanced);
      StepCounts(gp, cols[k], balanced);
      LocalMatchesReplay(shuffled, cols[..k], balanced);
      LocalStepMatches(shuffled, cols, balanced);
    }
  }

  /** Every accepted click, the game-ending fortieth included, leaves the boards and the count
      that rebuilding from the log of those clicks produces; while the game is still placing the
      deck, next card and player to move agree as well. */
  lemma LocalEndMatchesReplay(shuffled: seq<Card>, cols: seq<int>, balanced: bool)
    requires |shuffled| >= DealtPrefix && ValidColumns(cols)
    requires PlayLocal(StartLocal(shuffled), cols, balanced).placementCount == |cols|
    ensures Rebuild(shuffled, MovesOf(cols)).Success?
    ensures var g := PlayLocal(StartLocal(shuffled), cols, balanced);
      var r := Rebuild(shuffled, MovesOf(cols)).value;
      && g.board == r.board && g.placementCount == r.moveCount
      && (g.phase == Placing ==> Matches(g, r))
  {
    var g := PlayLocal(StartLocal(shuffled), cols, balanced);
    if g.phase == Placing {
      LocalMatchesReplay(shuffled, cols, balanced);
    } else {
      var k := |cols| - 1;
      var gp := PlayLocal(StartLocal(shuffled), cols[..k], balanced);
      PlayLocalCounts(StartLocal(shuffled), cols[..k], balanced);
      StepCounts(gp, cols[k], balanced);
      LocalMatchesReplay(shuffled, cols[..k], balanced);
      LocalFinalStep(shuffled, cols, balanced);
    }
  }

  /** The step that ends the game: the replay extended by the last click holds the boards and
      the count of the final commit. */
  lemma LocalFinalStep(shuffled: seq<Card>, cols: seq<int>, balanced: bool)
    requires |shuffled| >= DealtPrefix && ValidColumns(cols) && |cols| > 0
    requires var k := |cols| - 1;
      var gp := PlayLocal(StartLocal(shuffled), cols[..k], balanced);
      && Rebuild(shuffled, MovesOf(cols[..k])).Success?
      && Matches(gp, Rebuild(shuffled, MovesOf(cols[..k])).value)
      && gp.drawnCard.Some? && gp.placementCount == k
      && PlayLocal(StartLocal(shuffled), cols, balanced) == Commit(gp, cols[k])
    ensures Rebuild(shuffled, MovesOf(cols)).Success?
    ensures var g := PlayLocal(StartLocal(shuffled), cols, balanced);
      var r := Rebuild(shuffled, MovesOf(cols)).value;
      g.board == r.board && g.placementCount == r.moveCount
  {
    var k := |cols| - 1;
    var gp := PlayLocal(StartLocal(shuffled), cols[..k], balanced);
    var moves := MovesOf(cols[..k]);
    var m := Move(gp.currentPlayer, cols[k]);
    RebuildCounters(shuffled, moves);
    MovesOfSnoc(cols);
    assert gp.currentPlayer == PlayerToMove(k);
    RebuildExtend(shuffled, moves, m);
    CommitSharesBoard(gp, Rebuild(shuffled, moves).value, Rebuild(shuffled, moves + [m]).value, cols[k]);
  }

  /** The induction step: one more counted placement on a game that matches the replay of the
      shorter log matches the replay of the longer one. */
  lemma LocalStepMatches(shuffled: seq<Card>, cols: seq<int>, balanced: bool)
    requires |shuffled| >= DealtPrefix && ValidColumns(cols) && |cols| > 0
    requires var k := |cols| - 1;
      var gp := PlayLocal(StartLocal(shuffled), cols[..k], balanced);
      && Rebuild(shuffled, MovesOf(cols[..k])).Success?
      && Matches(gp, Rebuild(shuffled, MovesOf(cols[..k])).value)
      && gp.drawnCard.Some? && gp.placementCount == k
      && PlayLocal(StartLocal(shuffled), cols, balanced) == Commit(gp, cols[k])
      && Commit(gp, cols[k]).phase == Placing
    ensures Rebuild(shuffled, MovesOf(cols)).Success?
    ensures Matches(PlayLocal(StartLocal(shuffled), cols, balanced), Rebuild(shuffled, MovesOf(cols)).value)
  {
    var k := |cols| - 1;
    var gp := PlayLocal(StartLocal(shuffled), cols[..k], balanced);
    RebuildCounters(shuffled, MovesOf(cols[..k]));
    MovesOfSnoc(cols);
    assert gp.currentPlayer == PlayerToMove(k);
    CommitMatchesExtend(shuffled, MovesOf(cols[..k]), gp, cols[k]);
  }
}

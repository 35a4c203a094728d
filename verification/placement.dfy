/** Turn-by-turn play on one machine: the column rule, the game state, the deal that starts a
    local game, and a placement in both versions of the program. */
module Placement {
  import opened Wrappers
  import opened Cards
  import opened Boards

  // ---------------------------------------------------------------------------------------
  // The balanced-column rule (`canPlaceOnColumn`)
  // ---------------------------------------------------------------------------------------

  /** `Math.min(...columns.map(col => col.length))`. */
  function MinLength(cols: seq<seq<Card>>): (m: nat)
    requires |cols| > 0
    ensures forall c :: 0 <= c < |cols| ==> m <= |cols[c]|
    ensures exists c :: 0 <= c < |cols| && |cols[c]| == m
  {
    if |cols| == 1 then |cols[0]|
    else
      var rest := MinLength(cols[1..]);
      assert forall c :: 1 <= c < |cols| ==> cols[c] == cols[1..][c - 1];
      if |cols[0]| <= rest then |cols[0]| else rest
  }

  /** A column accepts a card when it is among the shortest and not yet full. */
  predicate CanPlaceOnColumn(cols: seq<seq<Card>>, c: int)
    requires 0 <= c < |cols|
  {
    |cols[c]| == MinLength(cols) && |cols[c]| < ColumnCapacity
  }

  /** The rule says: no column is shorter than this one, and this one has room. */
  lemma CanPlaceIff(cols: seq<seq<Card>>, c: int)
    requires 0 <= c < |cols|
    ensures CanPlaceOnColumn(cols, c) <==>
      (forall d :: 0 <= d < |cols| ==> |cols[c]| <= |cols[d]|) && |cols[c]| < ColumnCapacity
  {
    if (forall d :: 0 <= d < |cols| ==> |cols[c]| <= |cols[d]|) {
      var d :| 0 <= d < |cols| && |cols[d]| == MinLength(cols);
      assert |cols[c]| <= |cols[d]|;
    }
  }

  /** While some column has room, the rule accepts some column: a player is never stuck. */
  lemma SomeColumnLegal(cols: seq<seq<Card>>, d: int) returns (c: int)
    requires 0 <= d < |cols| && |cols[d]| < ColumnCapacity
    ensures 0 <= c < |cols| && CanPlaceOnColumn(cols, c)
  {
    assert MinLength(cols) <= |cols[d]|;
    c :| 0 <= c < |cols| && |cols[c]| == MinLength(cols);
  }

  /** No column is more than one card longer than another. */
  predicate Balanced(cols: seq<seq<Card>>) {
    forall c, d :: 0 <= c < |cols| && 0 <= d < |cols| ==> |cols[c]| <= |cols[d]| + 1
  }

  /** No column holds more than five cards. */
  predicate Bounded(cols: seq<seq<Card>>) {
    forall c :: 0 <= c < |cols| ==> |cols[c]| <= ColumnCapacity
  }

  /** A placement the rule accepts keeps the columns balanced and within five cards. */
  lemma PlacementKeepsBalanced(cols: seq<seq<Card>>, c: int, card: Card)
    requires 0 <= c < |cols| && CanPlaceOnColumn(cols, c)
    requires Balanced(cols) && Bounded(cols)
    ensures Balanced(cols[c := cols[c] + [card]]) && Bounded(cols[c := cols[c] + [card]])
  {
    CanPlaceIff(cols, c);
  }

  // ---------------------------------------------------------------------------------------
  // The game state
  // ---------------------------------------------------------------------------------------

  /** `gameState`. */
  datatype Phase = Waiting | Placing | Revealing | Finished

  /** The state a placement reads and writes: `gameState`, `deck`, `currentPlayer`, `drawnCard`
      (`null` or `undefined` is `None`), `placementCount` and both boards. */
  datatype Game = Game(phase: Phase, deck: seq<Card>, currentPlayer: int, drawnCard: Option<Card>,
                       placementCount: nat, board: Board)

  /** `deck[0]`, which is `undefined` on an empty deck. */
  function Head(deck: seq<Card>): (r: Option<Card>)
    ensures r.Some? <==> |deck| > 0
    ensures r.Some? ==> r.value == deck[0]
  {
    if |deck| == 0 then None else Some(deck[0])
  }

  /** `deck.slice(1)`, which is empty on an empty deck. */
  function Rest(deck: seq<Card>): (r: seq<Card>)
    ensures |deck| > 0 ==> deck == [deck[0]] + r
    ensures |deck| == 0 ==> r == []
  {
    if |deck| == 0 then [] else deck[1..]
  }

  /** `currentPlayer === 1 ? 2 : 1`. */
  function Other(player: int): (r: int)
    ensures r == 1 || r == 2
    ensures r != player
  {
    if player == 1 then 2 else 1
  }

  /** `startLocalGame`: after the burn and the deal, player 1 holds the next card of the deck. */
  function StartLocal(shuffled: seq<Card>): (g: Game)
    requires |shuffled| >= DealtPrefix
    ensures WellShaped(g.board)
  {
    var (board, deck) := Deal(shuffled);
    Game(Placing, deck, 1, Head(deck), 0, board)
  }

  /** The drawn card is the head of the deck while cards are being placed. */
  predicate DrawnIsNext(g: Game) {
    g.phase == Placing ==> g.drawnCard == Head(g.deck)
  }

  /** `every(c => c.length >= 5)` on both boards. */
  predicate AllFull(b: Board) {
    (forall c :: 0 <= c < |b.p1| ==> |b.p1[c]| >= ColumnCapacity)
    && (forall c :: 0 <= c < |b.p2| ==> |b.p2[c]| >= ColumnCapacity)
  }

  /** The part of a placement both versions share once its guard has passed: the drawn card goes
      onto the mover's column; then either every column is full and the game turns to the
      reveal, or the turn passes and the next card of the deck is drawn. */
  function Commit(g: Game, col: int): (r: Game)
    requires g.drawnCard.Some?
    requires 0 <= col < |ColumnsOf(g.board, g.currentPlayer)|
    ensures |r.board.p1| == |g.board.p1| && |r.board.p2| == |g.board.p2|
  {
    var board := Place(g.board, g.currentPlayer, col, g.drawnCard.value);
    var count := g.placementCount + 1;
    if AllFull(board) then
      Game(Revealing, g.deck, g.currentPlayer, None, count, board)
    else
      var deck := Rest(g.deck);
      Game(Placing, deck, Other(g.currentPlayer), Head(deck), count, board)
  }

  /** `placeCardLocal` of poker-game.jsx: a column accepts a card while it has fewer than five. */
  function PlaceCardLocal(g: Game, col: int): (r: Game)
    requires WellShaped(g.board) && 0 <= col < ColumnCount
    ensures WellShaped(r.board)
  {
    if g.drawnCard.None? || g.phase != Placing then g
    else if |ColumnsOf(g.board, g.currentPlayer)[col]| >= ColumnCapacity then g
    else Commit(g, col)
  }

  /** `placeCardLocal` of src/App.jsx: a column accepts a card only under `canPlaceOnColumn`. */
  function PlaceCardBalanced(g: Game, col: int): (r: Game)
    requires WellShaped(g.board) && 0 <= col < ColumnCount
    ensures WellShaped(r.board)
  {
    if g.drawnCard.None? || g.phase != Placing then g
    else if !CanPlaceOnColumn(ColumnsOf(g.board, g.currentPlayer), col) then g
    else Commit(g, col)
  }

  // ---------------------------------------------------------------------------------------
  // What a placement does
  // ---------------------------------------------------------------------------------------

  /** A committed placement puts the drawn card on the mover's column and nowhere else, counts
      one more placement, and either ends the placing phase with every column full, or passes
      the turn to the other player with the deck advanced by one card. */
  lemma CommitEffect(g: Game, col: int)
    requires g.drawnCard.Some? && 0 <= col < |ColumnsOf(g.board, g.currentPlayer)|
    ensures var r := Commit(g, col);
      && ColumnsOf(r.board, g.currentPlayer)[col] == ColumnsOf(g.board, g.currentPlayer)[col] + [g.drawnCard.value]
      && |r.board.p1| == |g.board.p1| && |r.board.p2| == |g.board.p2|
      && (forall c :: 0 <= c < |r.board.p1| && (g.currentPlayer != 1 || c != col) ==> r.board.p1[c] == g.board.p1[c])
      && (forall c :: 0 <= c < |r.board.p2| && (g.currentPlayer == 1 || c != col) ==> r.board.p2[c] == g.board.p2[c])
      && r.placementCount == g.placementCount + 1
      && multiset(BoardCards(r.board)) == multiset(BoardCards(g.board)) + multiset{g.drawnCard.value}
      && (r.phase == Revealing <==> AllFull(r.board))
      && (r.phase == Revealing ==> r.drawnCard.None? && r.deck == g.deck)
      && (r.phase != Revealing ==>
            r.phase == Placing && r.currentPlayer == Other(g.currentPlayer) && r.deck == Rest(g.deck) && DrawnIsNext(r))
  {
    PlaceEffect(g.board, g.currentPlayer, col, g.drawnCard.value);
    PlaceAddsCard(g.board, g.currentPlayer, col, g.drawnCard.value);
  }

  /** While placing, the cards on the boards and in the deck stay the same cards: the drawn
      card moves from the head of the deck to a column. */
  lemma CommitConserves(g: Game, col: int)
    requires g.drawnCard.Some? && 0 <= col < |ColumnsOf(g.board, g.currentPlayer)|
    requires g.phase == Placing && DrawnIsNext(g)
    ensures var r := Commit(g, col);
      r.phase == Placing ==>
        multiset(BoardCards(r.board)) + multiset(r.deck) == multiset(BoardCards(g.board)) + multiset(g.deck)
  {
    CommitEffect(g, col);
    var d := g.deck;
    assert d == [d[0]] + Rest(d);
    assert multiset(d) == multiset{d[0]} + multiset(Rest(d));
  }

  /** The local placement changes nothing exactly when a card is not drawn, the phase is not
      placing, or the chosen column already holds five cards. */
  lemma LocalGuard(g: Game, col: int)
    requires WellShaped(g.board) && 0 <= col < ColumnCount
    ensures PlaceCardLocal(g, col) == g <==>
      g.drawnCard.None? || g.phase != Placing || |ColumnsOf(g.board, g.currentPlayer)[col]| >= ColumnCapacity
  {
    if g.drawnCard.Some? && g.phase == Placing && |ColumnsOf(g.board, g.currentPlayer)[col]| < ColumnCapacity {
      CommitEffect(g, col);
      var r := Commit(g, col);
      assert |ColumnsOf(r.board, g.currentPlayer)[col]| != |ColumnsOf(g.board, g.currentPlayer)[col]|;
    }
  }

  /** The balanced placement changes nothing exactly when a card is not drawn, the phase is not
      placing, or `canPlaceOnColumn` refuses the column. */
  lemma BalancedGuard(g: Game, col: int)
    requires WellShaped(g.board) && 0 <= col < ColumnCount
    ensures PlaceCardBalanced(g, col) == g <==>
      g.drawnCard.None? || g.phase != Placing || !CanPlaceOnColumn(ColumnsOf(g.board, g.currentPlayer), col)
  {
    if g.drawnCard.Some? && g.phase == Placing && CanPlaceOnColumn(ColumnsOf(g.board, g.currentPlayer), col) {
      CommitEffect(g, col);
      var r := Commit(g, col);
      assert |ColumnsOf(r.board, g.currentPlayer)[col]| != |ColumnsOf(g.board, g.currentPlayer)[col]|;
    }
  }

  /** The states a game passes through while cards are placed: five columns a side, none over
      five cards, and the drawn card at the head of the deck. */
  predicate Sound(g: Game) {
    WellShaped(g.board) && Bounded(g.board.p1) && Bounded(g.board.p2) && DrawnIsNext(g)
  }

  /** A local game starts sound, with one dealt card per column. */
  lemma StartLocalSound(shuffled: seq<Card>)
    requires |shuffled| >= DealtPrefix
    ensures var g := StartLocal(shuffled);
      && Sound(g) && g.phase == Placing && g.currentPlayer == 1 && g.placementCount == 0
      && g.deck == shuffled[DealtPrefix..]
      && (forall c :: 0 <= c < ColumnCount ==> |g.board.p1[c]| == 1 && |g.board.p2[c]| == 1)
  {
    DealLayout(shuffled);
  }

  lemma LocalKeepsSound(g: Game, col: int)
    requires Sound(g) && 0 <= col < ColumnCount
    ensures Sound(PlaceCardLocal(g, col))
  {
    if g.drawnCard.Some? && g.phase == Placing && |ColumnsOf(g.board, g.currentPlayer)[col]| < ColumnCapacity {
      CommitEffect(g, col);
    }
  }

  /** Both boards balanced: the invariant the App's column rule adds. */
  predicate BalancedBoards(g: Game) {
    Balanced(g.board.p1) && Balanced(g.board.p2)
  }

  lemma BalancedKeepsSound(g: Game, col: int)
    requires Sound(g) && BalancedBoards(g) && 0 <= col < ColumnCount
    ensures Sound(PlaceCardBalanced(g, col)) && BalancedBoards(PlaceCardBalanced(g, col))
  {
    var cols := ColumnsOf(g.board, g.currentPlayer);
    if g.drawnCard.Some? && g.phase == Placing && CanPlaceOnColumn(cols, col) {
      CommitEffect(g, col);
      PlacementKeepsBalanced(cols, col, g.drawnCard.value);
      var r := Commit(g, col);
      assert ColumnsOf(r.board, g.currentPlayer) == cols[col := cols[col] + [g.drawnCard.value]];
    }
  }

  /** Player 1 then player 2 put their first card on column 0 of a local game. */
  lemma FirstRoundOnColumnZero(shuffled: seq<Card>)
    requires |shuffled| >= DealtPrefix + 3
    ensures var g2 := PlaceCardLocal(PlaceCardLocal(StartLocal(shuffled), 0), 0);
      && WellShaped(g2.board) && g2.phase == Placing && g2.currentPlayer == 1 && g2.drawnCard.Some?
      && |g2.board.p1[0]| == 2 && |g2.board.p1[1]| == 1
  {
    var g0 := StartLocal(shuffled);
    StartLocalSound(shuffled);
    CommitEffect(g0, 0);
    var g1 := Commit(g0, 0);
    assert !AllFull(g1.board) by { assert |g1.board.p1[1]| == 1; }
    assert g1.deck == shuffled[DealtPrefix + 1..];
    CommitEffect(g1, 0);
    var g2 := Commit(g1, 0);
    assert !AllFull(g2.board) by { assert |g2.board.p1[1]| == 1; }
  }

  /** The two versions differ: when both players have put their first card on column 0, the
      local version lets player 1 stack a third card there while column 1 still holds one,
      and the App's rule refuses that placement. */
  lemma LocalAllowsStacking(shuffled: seq<Card>)
    requires |shuffled| >= DealtPrefix + 3
    ensures var g2 := PlaceCardLocal(PlaceCardLocal(StartLocal(shuffled), 0), 0);
      && PlaceCardBalanced(g2, 0) == g2
      && var g3 := PlaceCardLocal(g2, 0);
         |g3.board.p1[0]| == 3 && |g3.board.p1[1]| == 1 && !Balanced(g3.board.p1)
  {
    FirstRoundOnColumnZero(shuffled);
    var g2 := PlaceCardLocal(PlaceCardLocal(StartLocal(shuffled), 0), 0);
    assert !CanPlaceOnColumn(g2.board.p1, 0) by {
      CanPlaceIff(g2.board.p1, 0);
    }
    CommitEffect(g2, 0);
  }
}

/** The two players' boards of five columns, the moves of the log, and the opening deal that
    `startLocalGame`, `initOnlineGame` and `rebuildGameState` share. */
module Boards {
  import opened Cards

  /** `{ player, column }`: the drawn card goes to column `column` of `player`'s board. */
  datatype Move = Move(player: int, column: int)

  /** `player1Columns` and `player2Columns`. */
  datatype Board = Board(p1: seq<seq<Card>>, p2: seq<seq<Card>>)

  /** Columns per player, and cards per full column. */
  const ColumnCount := 5
  const ColumnCapacity := 5
  /** Cards taken from the shuffled deck before the first move: one burnt, ten dealt. */
  const DealtPrefix := 11

  predicate WellShaped(b: Board) {
    |b.p1| == ColumnCount && |b.p2| == ColumnCount
  }

  /** `player === 1 ? p1Cols : p2Cols`: every player other than 1 plays on the second board. */
  function ColumnsOf(b: Board, player: int): seq<seq<Card>> {
    if player == 1 then b.p1 else b.p2
  }

  /** `cols[column].push(card)` on `player`'s board. */
  function Place(b: Board, player: int, column: int, card: Card): (r: Board)
    requires 0 <= column < |ColumnsOf(b, player)|
    ensures |r.p1| == |b.p1| && |r.p2| == |b.p2|
  {
    if player == 1 then Board(b.p1[column := b.p1[column] + [card]], b.p2)
    else Board(b.p1, b.p2[column := b.p2[column] + [card]])
  }

  /** Placing grows the one target column by the card and leaves every other column of both
      boards as it was. */
  lemma PlaceEffect(b: Board, player: int, column: int, card: Card)
    requires 0 <= column < |ColumnsOf(b, player)|
    ensures var r := Place(b, player, column, card);
      && ColumnsOf(r, player)[column] == ColumnsOf(b, player)[column] + [card]
      && (forall c :: 0 <= c < |r.p1| && (player != 1 || c != column) ==> r.p1[c] == b.p1[c])
      && (forall c :: 0 <= c < |r.p2| && (player == 1 || c != column) ==> r.p2[c] == b.p2[c])
  {
  }

  /** The cards of a list of columns, column by column. */
  function Flatten(cols: seq<seq<Card>>): seq<Card> {
    if |cols| == 0 then [] else cols[0] + Flatten(cols[1..])
  }

  /** Every card on both boards. */
  function BoardCards(b: Board): seq<Card> {
    Flatten(b.p1) + Flatten(b.p2)
  }

  /** Appending a card to one column adds exactly that card. */
  lemma {:induction false} FlattenPush(cols: seq<seq<Card>>, c: int, card: Card)
    requires 0 <= c < |cols|
    ensures multiset(Flatten(cols[c := cols[c] + [card]])) == multiset(Flatten(cols)) + multiset{card}
  {
    var cols' := cols[c := cols[c] + [card]];
    if c == 0 {
      assert cols'[1..] == cols[1..];
    } else {
      FlattenPush(cols[1..], c - 1, card);
      assert cols'[1..] == cols[1..][c - 1 := cols[1..][c - 1] + [card]];
    }
  }

  /** Placing adds exactly the placed card to the boards. */
  lemma PlaceAddsCard(b: Board, player: int, column: int, card: Card)
    requires 0 <= column < |ColumnsOf(b, player)|
    ensures multiset(BoardCards(Place(b, player, column, card))) == multiset(BoardCards(b)) + multiset{card}
  {
    if player == 1 {
      FlattenPush(b.p1, column, card);
    } else {
      FlattenPush(b.p2, column, card);
    }
  }

  /** Five empty columns. */
  function EmptyColumns(): seq<seq<Card>> {
    [[], [], [], [], []]
  }

  /** The dealing loop from column `i` on: each round pushes the next card onto player 1's
      column `i`, then the one after onto player 2's column `i`. */
  function DealFrom(deck: seq<Card>, i: nat, b: Board): (r: (Board, seq<Card>))
    requires i <= ColumnCount && WellShaped(b) && |deck| >= 2 * (ColumnCount - i)
    ensures WellShaped(r.0)
    decreases ColumnCount - i
  {
    if i == ColumnCount then (b, deck)
    else DealFrom(deck[2..], i + 1, Board(b.p1[i := b.p1[i] + [deck[0]]], b.p2[i := b.p2[i] + [deck[1]]]))
  }

  /** Burn `shuffled[0]`, then deal: the boards and the rest of the deck. */
  function Deal(shuffled: seq<Card>): (r: (Board, seq<Card>))
    requires |shuffled| >= DealtPrefix
    ensures WellShaped(r.0)
  {
    DealFrom(shuffled[1..], 0, Board(EmptyColumns(), EmptyColumns()))
  }

  lemma {:induction false} DealFromLayout(deck: seq<Card>, i: nat, b: Board)
    requires i <= ColumnCount && WellShaped(b) && |deck| >= 2 * (ColumnCount - i)
    ensures var r := DealFrom(deck, i, b);
      && (forall j :: 0 <= j < i ==> r.0.p1[j] == b.p1[j] && r.0.p2[j] == b.p2[j])
      && (forall j :: i <= j < ColumnCount ==>
            r.0.p1[j] == b.p1[j] + [deck[2 * (j - i)]] && r.0.p2[j] == b.p2[j] + [deck[2 * (j - i) + 1]])
      && r.1 == deck[2 * (ColumnCount - i)..]
    decreases ColumnCount - i
  {
    if i < ColumnCount {
      var b' := Board(b.p1[i := b.p1[i] + [deck[0]]], b.p2[i := b.p2[i] + [deck[1]]]);
      DealFromLayout(deck[2..], i + 1, b');
      assert deck[2..][2 * (ColumnCount - (i + 1))..] == deck[2 * (ColumnCount - i)..];
    }
  }

  /** After the burn, player 1's column `i` holds `shuffled[1 + 2i]`, player 2's holds
      `shuffled[2 + 2i]`, and the deck continues at `shuffled[11]`. */
  lemma DealLayout(shuffled: seq<Card>)
    requires |shuffled| >= DealtPrefix
    ensures var r := Deal(shuffled);
      && (forall i :: 0 <= i < ColumnCount ==> r.0.p1[i] == [shuffled[1 + 2 * i]] && r.0.p2[i] == [shuffled[2 + 2 * i]])
      && r.1 == shuffled[DealtPrefix..]
  {
    DealFromLayout(shuffled[1..], 0, Board(EmptyColumns(), EmptyColumns()));
    assert shuffled[1..][10..] == shuffled[DealtPrefix..];
  }

  /** The dealt cards, board by board. */
  lemma DealtCards(shuffled: seq<Card>)
    requires |shuffled| >= DealtPrefix
    ensures var s := shuffled;
      BoardCards(Deal(s).0) == [s[1], s[3], s[5], s[7], s[9]] + [s[2], s[4], s[6], s[8], s[10]]
  {
    var r := Deal(shuffled);
    DealLayout(shuffled);
    FlattenOfSingletons5(r.0.p1);
    FlattenOfSingletons5(r.0.p2);
  }

  /** Each round of the dealing loop moves two cards from the deck to the boards. */
  lemma {:induction false} DealFromConserves(deck: seq<Card>, i: nat, b: Board)
    requires i <= ColumnCount && WellShaped(b) && |deck| >= 2 * (ColumnCount - i)
    ensures var r := DealFrom(deck, i, b);
      multiset(BoardCards(r.0)) + multiset(r.1) == multiset(BoardCards(b)) + multiset(deck)
    decreases ColumnCount - i
  {
    if i < ColumnCount {
      var b2 := Board(b.p1[i := b.p1[i] + [deck[0]]], b.p2[i := b.p2[i] + [deck[1]]]);
      DealRoundAdds(b, i, deck[0], deck[1]);
      SplitTwo(deck);
      DealFromConserves(deck[2..], i + 1, b2);
    }
  }

  lemma SplitTwo(deck: seq<Card>)
    requires |deck| >= 2
    ensures multiset(deck) == multiset{deck[0]} + multiset{deck[1]} + multiset(deck[2..])
  {
    assert deck == [deck[0], deck[1]] + deck[2..];
  }

  lemma DealRoundAdds(b: Board, i: nat, a: Card, c: Card)
    requires i < ColumnCount && WellShaped(b)
    ensures var b2 := Board(b.p1[i := b.p1[i] + [a]], b.p2[i := b.p2[i] + [c]]);
      multiset(BoardCards(b2)) == multiset(BoardCards(b)) + multiset{a} + multiset{c}
  {
    FlattenPush(b.p1, i, a);
    FlattenPush(b.p2, i, c);
  }

  /** The burnt card, the dealt cards and the rest of the deck are the shuffled deck. */
  lemma DealConserves(shuffled: seq<Card>)
    requires |shuffled| >= DealtPrefix
    ensures var r := Deal(shuffled);
      multiset{shuffled[0]} + multiset(BoardCards(r.0)) + multiset(r.1) == multiset(shuffled)
  {
    var empty := Board(EmptyColumns(), EmptyColumns());
    EmptyBoardHasNoCards();
    var r := DealFrom(shuffled[1..], 0, empty);
    assert Deal(shuffled) == r;
    DealFromConserves(shuffled[1..], 0, empty);
    var burnt, board, rest := multiset{shuffled[0]}, multiset(BoardCards(r.0)), multiset(r.1);
    assert board + rest == multiset(shuffled[1..]);
    assert shuffled == [shuffled[0]] + shuffled[1..];
    assert multiset(shuffled) == burnt + multiset(shuffled[1..]);
  }

  lemma EmptyBoardHasNoCards()
    ensures BoardCards(Board(EmptyColumns(), EmptyColumns())) == []
  {
  }

  lemma FlattenOfSingletons5(cols: seq<seq<Card>>)
    requires |cols| == 5 && forall i :: 0 <= i < 5 ==> |cols[i]| == 1
    ensures Flatten(cols) == [cols[0][0], cols[1][0], cols[2][0], cols[3][0], cols[4][0]]
  {
    assert Flatten(cols[4..]) == cols[4] + Flatten(cols[5..]);
    assert Flatten(cols[3..]) == cols[3] + Flatten(cols[4..]);
    assert Flatten(cols[2..]) == cols[2] + Flatten(cols[3..]);
    assert Flatten(cols[1..]) == cols[1] + Flatten(cols[2..]);
  }
}

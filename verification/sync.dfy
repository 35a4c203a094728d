/** Online play in src/App.jsx: a placement appends one move to the shared log after checking it
    against what the room holds, every client rebuilds from the log, and the game ends after
    forty moves. */
module Sync {
  import opened Wrappers
  import opened Cards
  import opened Boards
  import opened Placement
  import opened Replay
  import opened Shuffle

  /** Why `placeCardOnline` writes nothing. */
  datatype Rejection = NothingDrawn | NotPlacing | NotYourTurn | ColumnRefused | RoomMissing | StaleLog

  /** `newMoves.length >= 40`: the online game ends after this many moves. */
  const MovesPerGame := 40

  /** `placeCardOnline(columnIndex)` by the client of `playerNumber`, given the room's log as the
      server returns it (`None` when the room is gone): the log it writes, or why it writes none. */
  function PlaceCardOnline(g: Game, playerNumber: int, col: int, server: Option<seq<Move>>): (r: Result<seq<Move>, Rejection>)
    requires WellShaped(g.board) && 0 <= col < ColumnCount
  {
    if g.drawnCard.None? then Failure(NothingDrawn)
    else if g.phase != Placing then Failure(NotPlacing)
    else if g.currentPlayer != playerNumber then Failure(NotYourTurn)
    else if !CanPlaceOnColumn(ColumnsOf(g.board, playerNumber), col) then Failure(ColumnRefused)
    else if server.None? then Failure(RoomMissing)
    else if |server.value| != g.placementCount then Failure(StaleLog)
    else Success(server.value + [Move(playerNumber, col)])
  }

  /** A placement is written exactly when a card is drawn, the game is placing, it is this
      client's turn, the column rule accepts the column, and the room's log has as many moves as
      this client has counted; what is written is that log followed by the new move. */
  lemma OnlineAcceptIff(g: Game, playerNumber: int, col: int, server: Option<seq<Move>>)
    requires WellShaped(g.board) && 0 <= col < ColumnCount
    ensures PlaceCardOnline(g, playerNumber, col, server).Success? <==>
      && g.drawnCard.Some? && g.phase == Placing && g.currentPlayer == playerNumber
      && CanPlaceOnColumn(ColumnsOf(g.board, playerNumber), col)
      && server.Some? && |server.value| == g.placementCount
    ensures PlaceCardOnline(g, playerNumber, col, server).Success? ==>
      PlaceCardOnline(g, playerNumber, col, server).value == server.value + [Move(playerNumber, col)]
  {
  }

  /** Once one client's move is in the room, a second client that counted the same number of
      moves is refused: its view is stale. */
  lemma SecondWriterIsStale(g1: Game, p1: int, c1: int, g2: Game, p2: int, c2: int, log: seq<Move>)
    requires WellShaped(g1.board) && 0 <= c1 < ColumnCount
    requires WellShaped(g2.board) && 0 <= c2 < ColumnCount
    requires PlaceCardOnline(g1, p1, c1, Some(log)).Success?
    requires g2.placementCount == g1.placementCount
    ensures PlaceCardOnline(g2, p2, c2, Some(PlaceCardOnline(g1, p1, c1, Some(log)).value)).Failure?
  {
  }

  /** The client's state after it has written `log`: the rebuild, turned to the reveal once the
      log holds forty moves. */
  function OnlineState(shuffled: seq<Card>, log: seq<Move>): (r: Result<Game, ReplayError>)
    requires |shuffled| >= DealtPrefix
  {
    match Rebuild(shuffled, log)
    case Failure(e) => Failure(e)
    case Success(s) =>
      if |log| >= MovesPerGame then Success(Game(Revealing, s.remainingDeck, s.nextPlayer, None, s.moveCount, s.board))
      else Success(Game(Placing, s.remainingDeck, s.nextPlayer, s.nextCard, s.moveCount, s.board))
  }

  // ---------------------------------------------------------------------------------------
  // Legal logs
  // ---------------------------------------------------------------------------------------

  /** A log every move of which passed the client's guards when it was made: the move's player
      was the player to move, a card was drawn, and the column rule accepted the column. */
  predicate LegalLog(shuffled: seq<Card>, log: seq<Move>)
    requires |shuffled| >= DealtPrefix
    decreases |log|
  {
    |log| == 0 ||
    var k := |log| - 1;
    var m := log[k];
    && LegalLog(shuffled, log[..k])
    && Rebuild(shuffled, log[..k]).Success?
    && var s := Rebuild(shuffled, log[..k]).value;
       && m.player == s.nextPlayer && s.nextCard.Some?
       && 0 <= m.column < ColumnCount
       && CanPlaceOnColumn(ColumnsOf(s.board, m.player), m.column)
  }

  /** The number of cards on a list of columns. */
  function Total(cols: seq<seq<Card>>): nat {
    if |cols| == 0 then 0 else |cols[0]| + Total(cols[1..])
  }

  lemma {:induction false} TotalPush(cols: seq<seq<Card>>, c: int, card: Card)
    requires 0 <= c < |cols|
    ensures Total(cols[c := cols[c] + [card]]) == Total(cols) + 1
  {
    if c > 0 {
      TotalPush(cols[1..], c - 1, card);
      assert cols[c := cols[c] + [card]][1..] == cols[1..][c - 1 := cols[1..][c - 1] + [card]];
    } else {
      assert cols[c := cols[c] + [card]][1..] == cols[1..];
    }
  }

  /** Columns of at most five cards hold at most five cards each in total, and hold exactly that
      many exactly when every column is full. */
  lemma {:induction false} TotalOfBounded(cols: seq<seq<Card>>)
    requires Bounded(cols)
    ensures Total(cols) <= ColumnCapacity * |cols|
    ensures Total(cols) == ColumnCapacity * |cols| <==> forall c :: 0 <= c < |cols| ==> |cols[c]| == ColumnCapacity
  {
    if |cols| > 0 {
      assert Bounded(cols[1..]) by {
        forall c | 0 <= c < |cols[1..]| ensures |cols[1..][c]| <= ColumnCapacity {
          assert cols[1..][c] == cols[c + 1];
        }
      }
      TotalOfBounded(cols[1..]);
      if forall c :: 0 <= c < |cols| ==> |cols[c]| == ColumnCapacity {
        assert forall c :: 0 <= c < |cols[1..]| ==> |cols[1..][c]| == ColumnCapacity by {
          forall c | 0 <= c < |cols[1..]| ensures |cols[1..][c]| == ColumnCapacity {
            assert cols[1..][c] == cols[c + 1];
          }
        }
      }
      if Total(cols) == ColumnCapacity * |cols| {
        forall c | 0 <= c < |cols| ensures |cols[c]| == ColumnCapacity {
          if c > 0 {
            assert cols[c] == cols[1..][c - 1];
          }
        }
      }
    }
  }

  /** Five columns of one card each: the deal. */
  lemma TotalOfDeal(cols: seq<seq<Card>>)
    requires |cols| == ColumnCount && forall c :: 0 <= c < |cols| ==> |cols[c]| == 1
    ensures Total(cols) == ColumnCount
  {
    assert Total(cols[4..]) == 1 + Total(cols[5..]);
    assert Total(cols[3..]) == 1 + Total(cols[4..]);
    assert Total(cols[2..]) == 1 + Total(cols[3..]);
    assert Total(cols[1..]) == 1 + Total(cols[2..]);
  }

  /** Moves player 1 has made after `n` moves: half, rounded up, since player 1 moves first. */
  function FirstPlayerMoves(n: nat): nat {
    (n + 1) / 2
  }

  /** What a legal log keeps true: every column within five cards and balanced against its
      neighbours, and each board holding its five dealt cards plus one per move of its player. */
  predicate LegalShape(b: Board, n: nat) {
    && WellShaped(b)
    && Bounded(b.p1) && Bounded(b.p2)
    && Balanced(b.p1) && Balanced(b.p2)
    && Total(b.p1) == ColumnCount + FirstPlayerMoves(n)
    && Total(b.p2) == ColumnCount + n / 2
  }

  lemma LegalShapeOfDeal(shuffled: seq<Card>)
    requires |shuffled| >= DealtPrefix
    ensures Rebuild(shuffled, []).Success? && LegalShape(Rebuild(shuffled, []).value.board, 0)
  {
    DealLayout(shuffled);
    StartMatchesEmptyLog(shuffled);
    var b := Rebuild(shuffled, []).value.board;
    TotalOfDeal(b.p1);
    TotalOfDeal(b.p2);
  }

  /** One legal move keeps the shape, with the mover's board one card larger. */
  lemma LegalShapeStep(b: Board, n: nat, m: Move, card: Card)
    requires LegalShape(b, n) && m.player == PlayerToMove(n)
    requires 0 <= m.column < ColumnCount && CanPlaceOnColumn(ColumnsOf(b, m.player), m.column)
    ensures LegalShape(Place(b, m.player, m.column, card), n + 1)
  {
    var cols := ColumnsOf(b, m.player);
    PlacementKeepsBalanced(cols, m.column, card);
    TotalPush(cols, m.column, card);
  }

  /** The last move of a legal log keeps the legal shape of the boards before it. */
  lemma LegalLastMove(shuffled: seq<Card>, log: seq<Move>)
    requires |shuffled| >= DealtPrefix && |log| > 0 && LegalLog(shuffled, log)
    requires Rebuild(shuffled, log[..|log| - 1]).Success?
    requires LegalShape(Rebuild(shuffled, log[..|log| - 1]).value.board, |log| - 1)
    ensures Rebuild(shuffled, log).Success?
    ensures LegalShape(Rebuild(shuffled, log).value.board, |log|)
  {
    var k := |log| - 1;
    var prefix := log[..k];
    var s := Rebuild(shuffled, prefix).value;
    RebuildCounters(shuffled, prefix);
    RebuildSucceedsIff(shuffled, prefix);
    assert log == prefix + [log[k]];
    RebuildExtend(shuffled, prefix, log[k]);
    LegalShapeStep(s.board, k, log[k], s.nextCard.value);
  }

  /** A legal log replays, and its boards have the legal shape. */
  lemma {:induction false} LegalLogShape(shuffled: seq<Card>, log: seq<Move>)
    requires |shuffled| >= DealtPrefix && LegalLog(shuffled, log)
    ensures Rebuild(shuffled, log).Success?
    ensures LegalShape(Rebuild(shuffled, log).value.board, |log|)
    decreases |log|
  {
    if |log| == 0 {
      LegalShapeOfDeal(shuffled);
    } else {
      LegalLogShape(shuffled, log[..|log| - 1]);
      LegalLastMove(shuffled, log);
    }
  }

  /** The count arithmetic behind the end of the game: with five dealt cards and at most
      twenty-five cards a board, alternate moves stop at forty, where both boards hold
      twenty-five. */
  lemma FortyArithmetic(n: nat, t1: nat, t2: nat)
    requires t1 == ColumnCount + FirstPlayerMoves(n) && t2 == ColumnCount + n / 2
    requires t1 <= ColumnCapacity * ColumnCount && t2 <= ColumnCapacity * ColumnCount
    ensures n <= MovesPerGame
    ensures t1 == ColumnCapacity * ColumnCount && t2 == ColumnCapacity * ColumnCount <==> n == MovesPerGame
  {
  }

  /** Boards of five columns within five cards are all full exactly when each holds twenty-five. */
  lemma FullIffTotals(b: Board)
    requires WellShaped(b) && Bounded(b.p1) && Bounded(b.p2)
    ensures Total(b.p1) <= ColumnCapacity * ColumnCount && Total(b.p2) <= ColumnCapacity * ColumnCount
    ensures AllFull(b) <==> Total(b.p1) == ColumnCapacity * ColumnCount && Total(b.p2) == ColumnCapacity * ColumnCount
  {
    TotalOfBounded(b.p1);
    TotalOfBounded(b.p2);
  }

  /** On a legal log, the forty-move test and the every-column-full test agree: a legal log
      never exceeds forty moves, and its boards are full exactly when it holds forty. */
  lemma FortyMovesIffFull(shuffled: seq<Card>, log: seq<Move>)
    requires |shuffled| >= DealtPrefix && LegalLog(shuffled, log)
    ensures Rebuild(shuffled, log).Success?
    ensures |log| <= MovesPerGame
    ensures AllFull(Rebuild(shuffled, log).value.board) <==> |log| == MovesPerGame
  {
    LegalLogShape(shuffled, log);
    var b := Rebuild(shuffled, log).value.board;
    FullIffTotals(b);
    FortyArithmetic(|log|, Total(b.p1), Total(b.p2));
  }

  // ---------------------------------------------------------------------------------------
  // Online play agrees with local play
  // ---------------------------------------------------------------------------------------

  /** A client in step with the room whose placement is written extends the legal log by its
      move, legally, and the rebuilt boards are the boards the local placement builds. */
  lemma WrittenLogIsLegal(shuffled: seq<Card>, log: seq<Move>, g: Game, col: int)
    requires |shuffled| >= DealtPrefix && LegalLog(shuffled, log)
    requires Rebuild(shuffled, log).Success? && Matches(g, Rebuild(shuffled, log).value)
    requires 0 <= col < ColumnCount
    requires PlaceCardOnline(g, g.currentPlayer, col, Some(log)).Success?
    ensures var written := log + [Move(g.currentPlayer, col)];
      && PlaceCardOnline(g, g.currentPlayer, col, Some(log)).value == written
      && LegalLog(shuffled, written)
      && Rebuild(shuffled, written).Success?
      && Rebuild(shuffled, written).value.board == Commit(g, col).board
      && Rebuild(shuffled, written).value.moveCount == Commit(g, col).placementCount
  {
    var m := Move(g.currentPlayer, col);
    var before := Rebuild(shuffled, log).value;
    RebuildCounters(shuffled, log);
    LegalLogExtends(shuffled, log, m);
    RebuildExtend(shuffled, log, m);
    CommitSharesBoard(g, before, Rebuild(shuffled, log + [m]).value, col);
  }

  /** A legal log followed by a move the guards accept on its rebuild is legal. */
  lemma LegalLogExtends(shuffled: seq<Card>, log: seq<Move>, m: Move)
    requires |shuffled| >= DealtPrefix && LegalLog(shuffled, log) && Rebuild(shuffled, log).Success?
    requires var s := Rebuild(shuffled, log).value;
      && m.player == s.nextPlayer && s.nextCard.Some? && 0 <= m.column < ColumnCount
      && CanPlaceOnColumn(ColumnsOf(s.board, m.player), m.column)
    ensures LegalLog(shuffled, log + [m])
  {
    assert (log + [m])[..|log|] == log;
  }

  /** A client in step with the room (its state is the rebuild of the room's legal log) that
      writes a placement reaches, by rebuilding, the state the local placement reaches: the
      same boards, phase, drawn card and count, and while cards are still being placed the same
      deck and player to move. */
  lemma OnlineMatchesLocal(shuffled: seq<Card>, log: seq<Move>, g: Game, col: int)
    requires |shuffled| >= DealtPrefix && LegalLog(shuffled, log)
    requires Rebuild(shuffled, log).Success? && Matches(g, Rebuild(shuffled, log).value)
    requires 0 <= col < ColumnCount
    requires PlaceCardOnline(g, g.currentPlayer, col, Some(log)).Success?
    ensures var written := PlaceCardOnline(g, g.currentPlayer, col, Some(log)).value;
      && OnlineState(shuffled, written).Success?
      && var online := OnlineState(shuffled, written).value;
         var local := Commit(g, col);
         && online.board == local.board && online.phase == local.phase
         && online.drawnCard == local.drawnCard && online.placementCount == local.placementCount
         && (local.phase == Placing ==> online.deck == local.deck && online.currentPlayer == local.currentPlayer)
  {
    var written := log + [Move(g.currentPlayer, col)];
    WrittenLogIsLegal(shuffled, log, g, col);
    FortyMovesIffFull(shuffled, written);
    if Commit(g, col).phase == Placing {
      CommitMatchesExtend(shuffled, log, g, col);
    }
  }

  /** From the seed to any replayed position, nothing is lost or duplicated: the burnt card, the
      two boards and the remaining deck hold each of the 52 cards exactly once. */
  lemma SeededGameConserves(picks: seq<int>, log: seq<Move>)
    requires ValidPicks(DeckSize, picks)
    requires Rebuild(ShuffleDown(CreateDeck(), DeckSize - 1, picks), log).Success?
    ensures var shuffled := ShuffleDown(CreateDeck(), DeckSize - 1, picks);
      var r := Rebuild(shuffled, log).value;
      forall c: Card :: (multiset{shuffled[0]} + multiset(BoardCards(r.board)) + multiset(r.remainingDeck))[c] == 1
  {
    var shuffled := ShuffleDown(CreateDeck(), DeckSize - 1, picks);
    ShuffleDownPermutes(CreateDeck(), DeckSize - 1, picks);
    RebuildConserves(shuffled, log);
    DeckOnceEach();
  }

  /** The fresh deck holds every card once. */
  lemma DeckOnceEach()
    ensures forall c: Card :: multiset(CreateDeck())[c] == 1
  {
    var deck := CreateDeck();
    assert Distinct(deck) by {
      DeckIsDistinct();
    }
    DistinctOnce(deck);
    forall c: Card ensures multiset(deck)[c] == 1 {
      DeckIsComplete(c);
      assert c in multiset(deck);
    }
  }
}

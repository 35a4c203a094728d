# Duel poker: the game engine

A model of the deterministic engine of a two-player "duel poker" game. Each player builds five
five-card poker hands, one per column, from a shared shuffled deck. Column `i` of player 1 then
duels column `i` of player 2, and whoever wins three or more duels wins the match. The engine
appears twice in the program, once in `poker-game.jsx` and once in `src/App.jsx`. The two copies
are almost identical and are modelled side by side:

- **Cards** (`cards.dfy`, `shuffle.dfy`). `createDeck` builds 52 cards, suit-major. Only
  poker-game.jsx attaches an id `suit-value` to each card; src/App.jsx builds plain
  `{ suit, value }` records, so the model's cards are a suit and a value. `valueToNumber` maps values to numbers, with the ace as 14. `shuffleDeck` is a
  descending Fisher–Yates shuffle; its swap indices are an input here.
- **Hand evaluator** (`sorting.dfy`, `hands.dfy`, `hand_facts.dfy`, `hand_keys.dfy`,
  `categories.dfy`). `evaluateHand` gives a category from 1 (high card) to 10 (royal flush)
  and a tie-break key. Both copies assign the category by the same ladder. `Hands.Evaluate`
  builds poker-game.jsx's category-specific keys. `Hands.EvaluateAllValues` builds
  src/App.jsx's key, which is always the five numbers, highest first.
- **Comparison** (`compare.dfy`). `compareHands` lets the higher category win. Within a
  category, the first differing key position decides. A complete tie goes to the first hand.
  src/App.jsx reads the winner off the raw keys without padding, and this is modelled separately.
- **Placement** (`boards.dfy`, `placement.dfy`).
  - The deal burns one card and gives one card to each column, alternating between the players.
  - poker-game.jsx's `placeCardLocal` accepts any column that is not yet full.
  - src/App.jsx's accepts only a shortest column that is not full (`canPlaceOnColumn`).
  - After a placement the turn passes, or the reveal starts once every column is full.
- **Replay** (`replay.dfy`). `rebuildGameState` (and its twin `initOnlineGame`) recomputes the
  whole game from the shuffled deck and the move log.
- **Online placement** (`sync.dfy`). `placeCardOnline` appends one move to the room's log, but
  only if the log still has as many moves as this client has counted. The game ends at forty
  moves.
- **Scoring** (`scoring.dfy`). `calculateResults` runs the five duels and picks the overall winner.
- **Findings** (`findings.dfy`). This file holds two places where the tie-break keys break the
  poker order they aim at. Each comes with the code as written, a hand pair that exhibits the
  gap, and a corrected version.

Game states are immutable values. Each React handler becomes a pure function from the old
state, and the clicked column, to the new state. A handler that returns early without changing
anything yields its input unchanged.

## Model

| member | source | states |
|---|---|---|
| Cards.ValueNumbersFollowOrder | poker-game.jsx:40-46 | The k-th entry of `VALUES` maps to k + 2, so two values share a number only if they are the same value. |
| Cards.CreateDeck | poker-game.jsx:12-20 | The deck has 52 cards, and position 13·i + j holds the j-th value of the i-th suit. |
| Cards.DeckIsDistinct | poker-game.jsx:12-20 | No card appears twice in the deck. |
| Cards.DeckIsComplete | poker-game.jsx:12-20 | Every suit-value pair appears in the deck. |
| Cards.IdRoundTrip | poker-game.jsx:16 | The id `suit-value` can be parsed back to exactly the card it was built from. |
| Cards.DeckIdsDistinct | poker-game.jsx:16 | The 52 ids are pairwise distinct. |
| Shuffle.SwapExchanges | poker-game.jsx:27 | A swap exchanges positions i and j and leaves every other position alone. |
| Shuffle.ShuffleDeck | poker-game.jsx:22-30 | With every index j in [0, i], the shuffle loop yields a permutation of its input of the same length. |
| Shuffle.ShuffleDownPermutes | src/App.jsx:84-92 | With every index j in [0, i], the seeded shuffle is a permutation of its input. |
| Shuffle.ShufflePreservesDistinct | poker-game.jsx:22-30 | Shuffling a deck of distinct cards gives a deck of distinct cards. |
| Sorting.SortDesc | poker-game.jsx:55 | `sort((a, b) => b - a)` returns the same numbers, highest first. |
| Hands.SortedValues | poker-game.jsx:55 | A hand's sorted numbers are a descending permutation of its card numbers. |
| Hands.TalliesCount | poker-game.jsx:58-59 | Each tally of `valueCounts` counts exactly the occurrences of its number. |
| Hands.TalliesDescending | poker-game.jsx:62 | The distinct numbers are strictly descending, and each occurs in the hand. |
| Hands.TalliesSum | poker-game.jsx:58-61 | The counts add up to the number of cards. |
| HandFacts.HandShape | poker-game.jsx:61 | The counts of a hand form a partition of 5 in descending order. |
| Hands.Evaluate | poker-game.jsx:52-53 | A hand that does not have exactly 5 cards gets rank 0 and an empty key. A 5-card hand gets a rank from 1 to 10. |
| Hands.EvaluateAllValues | src/App.jsx:97-118 | This evaluator gives the same rank and name as the other copy. For 5 cards its key is always the five numbers, highest first. |
| Categories.DistinctTallies | poker-game.jsx:62-66 | `uniqueValues` has five entries exactly when the five numbers are distinct, and then it is the sorted numbers. |
| Categories.StraightIff | poker-game.jsx:66-67 | Five numbers form a straight iff they are distinct and either span four or are exactly 14, 5, 4, 3, 2. |
| Categories.RoyalIff | poker-game.jsx:68-70 | Rank 10 holds exactly for a flush whose numbers are 14, 13, 12, 11, 10. |
| Categories.SuitedWheelIsNine | poker-game.jsx:68-71 | A suited A-5-4-3-2 ranks 9, not 10. |
| Categories.NonWheelStraightHigh | poker-game.jsx:66-67 | Every straight other than the wheel tops out at 6 or higher and spans four. |
| HandKeys.CountsOfRank | poker-game.jsx:72-95 | Ranks 8, 7, 4, 3 and 2 mean count patterns [4,1], [3,2], [3,1,1], [2,2,1] and [2,1,1,1]. |
| Categories.LadderOfCounts | poker-game.jsx:70-96 | With fewer than five distinct numbers there is no straight, and each count pattern then lands on its rung: [4,1] on 8, [3,2] on 7, and [3,1,1], [2,2,1], [2,1,1,1] on 4, 3, 2 unless flush. |
| Categories.RankOfCounts | poker-game.jsx:61-96 | The converse of HandKeys.CountsOfRank: [4,1] ranks 8 and [3,2] ranks 7; [3,1,1], [2,2,1] and [2,1,1,1] rank 4, 3 and 2 when not a flush; five singles rank 6 as a flush that is not a straight and 1 as neither. |
| Categories.FlushNumbersDistinct | poker-game.jsx:55-64 | Five different cards of one suit carry five distinct numbers, so `counts` is five ones. |
| Categories.RankOfPattern | poker-game.jsx:61-96 | For five different cards each count pattern decides the category: [4,1] is 8, [3,2] is 7, [3,1,1] is 4, [2,2,1] is 3, [2,1,1,1] is 2, and a flush that is not a straight is 6. |
| HandKeys.QuadsKey | poker-game.jsx:72-75 | The four-of-a-kind key is the quad's number, then the number that occurs once. |
| HandKeys.FullHouseKey | poker-game.jsx:76-80 | The full-house key is the trip's number, then the pair's. |
| HandKeys.TripsKey | poker-game.jsx:83-86 | The three-of-a-kind key is the trip's number, then the two single numbers, highest first. |
| HandKeys.TwoPairKey | poker-game.jsx:87-91 | The two-pair key is the higher pair, then the lower pair, then the single number. |
| HandKeys.PairKey | poker-game.jsx:92-95 | The one-pair key is the pair's number, then the three single numbers, highest first. |
| HandKeys.PlainKey | poker-game.jsx:70-96 | For high card, straight, flush and both straight flushes, the key is the hand's numbers, highest first, each as often as it occurs. |
| Compare.CompareKeysFromSpec | poker-game.jsx:107-112 | The tie-break loop gives 2 exactly when the second key is ahead at the first differing position, reading missing entries as 0. Otherwise it gives 1. |
| Compare.CompareEvaluationsSpec | poker-game.jsx:99-113 | The comparison gives 1 or 2. It gives 2 exactly when the second evaluation strictly beats the first. |
| Compare.HigherRankWins | poker-game.jsx:103-105 | The higher rank wins outright, whichever hand is listed first. |
| Compare.EqualRankKeyDecides | poker-game.jsx:107-112 | With equal ranks, the second hand wins exactly when its key is ahead. Fully tied keys go to the first hand. |
| Compare.WinnerIsOneOrTwo | src/App.jsx:121-128 | Both copies of `compareHands` name player 1 or player 2. |
| Compare.BeatsTransitive | poker-game.jsx:99-113 | "Beats" is transitive. |
| Compare.BeatsAsymmetric | poker-game.jsx:99-113 | Two evaluations never beat each other. |
| Compare.BeatsTotal | poker-game.jsx:99-113 | Of two evaluations, one beats the other, or they have the same rank and tying keys. |
| Compare.AppCompareIsPadded | src/App.jsx:121-128 | src/App.jsx's comparison, over its own evaluations, agrees with the padded comparison. Equal ranks there always come with keys of equal length. |
| Compare.AppLoopOnUnequalLengths | src/App.jsx:125 | When the first key extends the second with a positive entry, the raw `>` test gives the second key the win that the padded test gives the first. |
| Compare.AppLoopOnLongerSecond | src/App.jsx:125 | When the second key extends the first with a positive entry, both tests give the win to the second key. |
| Boards.PlaceEffect | poker-game.jsx:267-270 | A placement appends the card to the one chosen column of the mover's board, and every other column of both boards is unchanged. |
| Boards.DealLayout | src/App.jsx:230-233 | After the burn, player 1's column i holds shuffled[1+2i], player 2's holds shuffled[2+2i], and the deck continues at shuffled[11]. |
| Boards.DealConserves | src/App.jsx:230-233 | The burnt card, the dealt cards and the rest of the deck make up exactly the shuffled deck. |
| Placement.CanPlaceIff | src/App.jsx:130-133 | A column is accepted iff no column of that player is shorter and it holds fewer than five cards. |
| Placement.SomeColumnLegal | src/App.jsx:130-133 | While some column holds fewer than five cards, some column is accepted. |
| Placement.PlacementKeepsBalanced | src/App.jsx:130-133 | An accepted placement keeps every column within one card of every other and within five cards. |
| Placement.StartLocalSound | poker-game.jsx:232-256 | A new local game is placing, with player 1 to move, count 0, one card per column, and the deck continuing after the deal. |
| Placement.LocalGuard | poker-game.jsx:258-265 | The local placement changes nothing exactly when no card is drawn, the phase is not placing, or the column holds five cards. |
| Placement.BalancedGuard | src/App.jsx:273-278 | src/App.jsx's placement changes nothing exactly when no card is drawn, the phase is not placing, or `canPlaceOnColumn` refuses the column. |
| Placement.CommitEffect | poker-game.jsx:267-289 | A placement adds the drawn card to the chosen column only and counts one more. It then starts the reveal with no card drawn exactly when every column is full. Otherwise it passes the turn and draws the next card of the deck. |
| Placement.CommitConserves | poker-game.jsx:283-289 | While placing, the cards on the boards plus the deck stay the same collection. |
| Placement.LocalKeepsSound | poker-game.jsx:258-290 | The local placement keeps five columns per board, at most five cards per column, and the drawn card at the head of the deck. |
| Placement.BalancedKeepsSound | src/App.jsx:273-297 | src/App.jsx's placement keeps the same invariant, and also keeps both boards balanced. |
| Placement.LocalAllowsStacking | poker-game.jsx:265 | After both players use column 0, poker-game.jsx lets player 1 stack a third card there, which unbalances the board, and src/App.jsx refuses it. |
| Replay.ReplayOutcome | poker-game.jsx:398-407 | Replaying succeeds iff every column is in 0..4 and the deck has a card for every move. Otherwise the error names the first move that cannot be replayed. |
| Replay.ReplayContents | src/App.jsx:234-235 | Each column ends as dealt, followed by deck card k for every move k aimed at it, in log order. |
| Replay.RebuildSucceedsIff | src/App.jsx:229-236 | The rebuild succeeds iff every column is valid and the log has at most as many moves as cards left after the deal. |
| Replay.RebuildCounters | src/App.jsx:236 | After a rebuild, the move count is the log length, and player 1 is next iff the length is even. The remaining deck starts right after the used cards, and the next card is its head. |
| Replay.RebuildContents | src/App.jsx:230-235 | Player 1's column c is shuffled[1+2c] followed by the cards the log pushed onto it, and likewise player 2's column c with shuffled[2+2c]. |
| Replay.RebuildConserves | src/App.jsx:230-236 | The burnt card, both boards and the remaining deck make up exactly the shuffled deck. |
| Sync.DeckOnceEach | src/App.jsx:82 | The fresh deck holds each of the 52 cards exactly once. |
| Sync.SeededGameConserves | src/App.jsx:229-236 | From the seeded shuffle of the fresh deck through any replayed log, the burnt card, both boards and the remaining deck hold each card exactly once. |
| Replay.RebuildCardCount | src/App.jsx:230-236 | The boards hold 10 + (number of moves) cards. |
| Replay.RebuildExtend | src/App.jsx:235-236 | Replaying the log plus one move is replaying the log, then putting the old next card on that move's column. The count then goes up by one and the remaining deck loses its head. |
| Replay.LocalMatchesReplay | poker-game.jsx:385-419 | While every click is accepted and the game is still placing, local play in either copy is in the same state as rebuilding from the alternating log of its clicks: same boards, deck, next card, player to move and count. |
| Replay.LocalEndMatchesReplay | poker-game.jsx:385-419 | Every accepted click, the game-ending fortieth included, leaves the boards and count of the rebuild from its clicks; while placing the whole state agrees. |
| Sync.OnlineAcceptIff | src/App.jsx:355-366 | A placement is written iff a card is drawn, the game is placing, it is this player's turn, `canPlaceOnColumn` accepts the column, and the room's log length equals the local count. What is written is that log plus one move. |
| Sync.SecondWriterIsStale | src/App.jsx:365 | Once one move is appended, a client that counted the same number of moves is refused. |
| Sync.LegalLogShape | src/App.jsx:355-368 | Every log whose moves passed the guards rebuilds to balanced boards with at most five cards per column. Player 1 then has ⌈n/2⌉ placed cards and player 2 ⌊n/2⌋. |
| Sync.FortyMovesIffFull | src/App.jsx:371 | A legal log has at most forty moves, and its boards are all full exactly when it has forty. |
| Sync.WrittenLogIsLegal | src/App.jsx:355-368 | A client in step with the room writes a legal log, and rebuilding it gives the boards and count of the local placement. |
| Sync.OnlineMatchesLocal | src/App.jsx:355-373 | The state a client reaches by writing and rebuilding equals the one the local placement reaches: boards, phase, drawn card and count, plus deck and player to move while placing. |
| Scoring.CountWins | src/App.jsx:249 | Player 1's wins are the duels won by player 1, and the two tallies add up to the number of duels. |
| Scoring.CalculateResults | poker-game.jsx:515-526 | There are five duels, one per column. The tallies add up to five, and the overall winner is player 1 exactly when player 1 won at least three duels. |
| Scoring.ColumnGoesToStrictlyBetter | poker-game.jsx:519-523 | Player 2 takes a column exactly when their hand strictly beats player 1's. |
| Scoring.SwappedDuel | poker-game.jsx:99-113 | Both seatings give a column to the first-listed player exactly when the hands tie. |
| Findings.AppFullHouseByHighestNumber | src/App.jsx:112 | Threes full of kings beat tens full of twos under src/App.jsx's comparison, and lose under poker-game.jsx's. |
| Findings.FullHouseTripDecides | poker-game.jsx:76-80 | With category-specific keys, the higher trip wins between two full houses, whatever the pairs and the seating. |
| Findings.WheelBeatsStraightsAsWritten | poker-game.jsx:66-82 | As written, A-5-4-3-2 beats every other straight of its rank except the ten-to-ace one. |
| Findings.WheelOverSixHigh | src/App.jsx:107-114 | Unsuited, A-5-4-3-2 beats 2-3-4-5-6 as written in both copies (poker-game.jsx's comparison and src/App.jsx's), and loses to it once the ace plays low. |
| Findings.WheelIsLowestStraight | poker-game.jsx:66-82 | With the ace low in the wheel, A-5-4-3-2 loses to every other straight of its rank, whichever hand is listed first. |

## Left out

- The seeded generators are left out: `seedRandom` (poker-game.jsx:32-38) and the inline `random` closure of src/App.jsx's `shuffleDeck` (src/App.jsx:87). Their stream depends on JavaScript double rounding once the product passes 2^53. The swap indices are therefore an input, each in [0, i]. In the source, `s / 0x7fffffff` is 1.0 when `s == 0x7fffffff`, which would give index i + 1.
- `Math.random` shuffles, room codes and `Date.now()` seeds are left out. They are randomness and the clock, and the model works from the shuffled deck they lead to.
- The storage and network layer is left out: `firebaseDB`, `window.storage`, room creation and joining, and polling. The non-atomic get-then-update race is also out. Only the pure length check of `placeCardOnline` is modelled, with the room's log (or its absence) as a parameter.
- poker-game.jsx's `placeCardOnline` (poker-game.jsx:455-509) is left out. It is I/O-bound and has no stale-log guard.
- React state, refs, `isProcessingRef`, the reveal timers, the Card and Column components, CSS and Web Audio are left out.
- The deferred commit of src/App.jsx's `placeCardLocal` is left out. The guard (src/App.jsx:274-278) runs at click time, but the commit runs inside a 150 ms `setTimeout` (src/App.jsx:283-296) with no processing flag. Both callbacks of two clicks inside that window close over the same columns, drawn card, count, player and deck. The second commit overwrites the first, so the first click's placement is undone: the card lands in the second clicked column and one move is counted. The model treats each click as one atomic step and does not model that undone placement.
- Replay.ReplayOutcome: a column outside 0..4 throws in the source, when `push` is called on `undefined`. A log longer than the 41 dealt-out cards pushes `undefined` cards. Both are modelled as errors (`ColumnOutOfRange`, `DeckExhausted`), not as the JavaScript values.
- Placement.PlaceCardLocal, Placement.PlaceCardBalanced, Replay.Step and Sync.PlaceCardOnline: the column index must lie in 0..4. The buttons only offer those five columns (`[0, 1, 2, 3, 4].map` at src/App.jsx:691 and 736, and at poker-game.jsx:1053 and 1145).
- Replay.LocalMatchesReplay: covers only clicks that leave the game placing. After the game-ending fortieth click the local game keeps its deck and player and drops its drawn card, while the rebuild moves past that card. Replay.LocalEndMatchesReplay states that boards and count still agree then.
- Sync.OnlineMatchesLocal: after the fortieth move the deck and player to move are not compared. The source stops reading them once the reveal starts. The local copy keeps its last deck and player, while the rebuild moves past them.
- Compare.WinnerIsOneOrTwo: says nothing about which player wins under src/App.jsx's comparison in general. Compare.AppCompareIsPadded states that.
- Scoring.CalculateResults: uses the comparisons as written. The ordering corrections live in the Findings module only.
- Full houses are ordered as the code orders them: both copies give 10-10-10-3-3 the duel over 2-2-2-5-5. The trip decides in poker-game.jsx:76-80, and the highest number decides in src/App.jsx:112.

## Findings

| source | as written | input that shows it | evidently intended | confidence | as-written member | corrected member |
|---|---|---|---|---|---|---|
| src/App.jsx:112 | The full-house key is all five numbers, highest first, so the highest number decides, not the trip. | 3♥3♦3♣K♠K♥ against 10♣10♦10♥2♠2♥: src/App.jsx gives the duel to the threes. | The trip decides, then the pair, as in poker-game.jsx:76-80. | not executed | Findings.AppFullHouseByHighestNumber | Findings.FullHouseTripDecides |
| poker-game.jsx:81-82 | A straight is keyed by its numbers with the ace as 14, even for the wheel A-5-4-3-2 that line 67 recognises. This holds in both copies, including src/App.jsx:114. | A♥2♦3♣4♠5♥ against 2♣3♦4♥5♠6♣: the wheel takes the duel. | The ace plays low in the wheel, keyed 5-4-3-2-1, so it is the lowest straight. | not executed | Findings.WheelOverSixHigh | Findings.WheelIsLowestStraight |

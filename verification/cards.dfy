/** Cards, their string ids and numeric values, and the canonical 52-card deck. */
module Cards {
  import opened Wrappers

  datatype Suit = Hearts | Diamonds | Clubs | Spades

  datatype Value = Two | Three | Four | Five | Six | Seven | Eight | Nine | Ten | Jack | Queen | King | Ace

  datatype Card = Card(suit: Suit, value: Value)

  /** The order in which `createDeck` walks the suits (`SUITS`) and the values (`VALUES`). */
  const SuitOrder: seq<Suit> := [Hearts, Diamonds, Clubs, Spades]
  const ValueOrder: seq<Value> := [Two, Three, Four, Five, Six, Seven, Eight, Nine, Ten, Jack, Queen, King, Ace]

  const DeckSize := 52

  function SuitName(s: Suit): string {
    match s
    case Hearts => "hearts"
    case Diamonds => "diamonds"
    case Clubs => "clubs"
    case Spades => "spades"
  }

  function Label(v: Value): string {
    match v
    case Two => "2"
    case Three => "3"
    case Four => "4"
    case Five => "5"
    case Six => "6"
    case Seven => "7"
    case Eight => "8"
    case Nine => "9"
    case Ten => "10"
    case Jack => "J"
    case Queen => "Q"
    case King => "K"
    case Ace => "A"
  }

  /** The `id` field poker-game.jsx's `createDeck` attaches to each card (src/App.jsx's cards have none). */
  function Id(c: Card): string {
    SuitName(c.suit) + "-" + Label(c.value)
  }

  /** `valueToNumber`: the face cards and the ace map to 11..14, numerals to their own
      number (the source reads those with `parseInt`). */
  function ValueToNumber(v: Value): (n: int)
    ensures 2 <= n <= 14
  {
    match v
    case Ace => 14
    case King => 13
    case Queen => 12
    case Jack => 11
    case Two => 2
    case Three => 3
    case Four => 4
    case Five => 5
    case Six => 6
    case Seven => 7
    case Eight => 8
    case Nine => 9
    case Ten => 10
  }

  /** Numeric values rise with the deck order, from 2 for the first value to 14 for the ace,
      so two different values never share a number. */
  lemma ValueNumbersFollowOrder()
    ensures forall j :: 0 <= j < |ValueOrder| ==> ValueToNumber(ValueOrder[j]) == j + 2
    ensures forall v, w :: ValueToNumber(v) == ValueToNumber(w) ==> v == w
  {
    forall v, w | ValueToNumber(v) == ValueToNumber(w)
      ensures v == w
    {
      match v
      case Two => {} case Three => {} case Four => {} case Five => {} case Six => {}
      case Seven => {} case Eight => {} case Nine => {} case Ten => {} case Jack => {}
      case Queen => {} case King => {} case Ace => {}
    }
  }

  /** The cards of one suit, in value order (`VALUES.forEach(value => deck.push(...))`). */
  function SuitCards(s: Suit, values: seq<Value>): (row: seq<Card>)
    ensures |row| == |values|
    ensures forall j :: 0 <= j < |values| ==> row[j] == Card(s, values[j])
  {
    if |values| == 0 then [] else [Card(s, values[0])] + SuitCards(s, values[1..])
  }

  function DeckOf(suits: seq<Suit>): seq<Card> {
    if |suits| == 0 then [] else SuitCards(suits[0], ValueOrder) + DeckOf(suits[1..])
  }

  lemma {:induction false} DeckOfLayout(suits: seq<Suit>)
    ensures |DeckOf(suits)| == 13 * |suits|
    ensures forall i, j :: 0 <= i < |suits| && 0 <= j < 13 ==> DeckOf(suits)[13 * i + j] == Card(suits[i], ValueOrder[j])
  {
    if |suits| > 0 {
      DeckOfLayout(suits[1..]);
      var row := SuitCards(suits[0], ValueOrder);
      var rest := DeckOf(suits[1..]);
      assert DeckOf(suits) == row + rest;
      assert |row| == 13;
      forall i, j | 0 <= i < |suits| && 0 <= j < 13
        ensures DeckOf(suits)[13 * i + j] == Card(suits[i], ValueOrder[j])
      {
        if i > 0 {
          assert DeckOf(suits)[13 * i + j] == rest[13 * (i - 1) + j];
          assert suits[1..][i - 1] == suits[i];
        } else {
          assert DeckOf(suits)[j] == row[j];
        }
      }
    }
  }

  /** `createDeck`: 52 cards, suit-major then value, card `13 * i + j` being value `j` of suit `i`. */
  function CreateDeck(): (deck: seq<Card>)
    ensures |deck| == DeckSize
    ensures forall i, j :: 0 <= i < 4 && 0 <= j < 13 ==> deck[13 * i + j] == Card(SuitOrder[i], ValueOrder[j])
  {
    DeckOfLayout(SuitOrder);
    DeckOf(SuitOrder)
  }

  /** Where a card sits in the canonical deck. */
  function SuitIndex(s: Suit): (i: nat)
    ensures i < 4 && SuitOrder[i] == s
  {
    match s
    case Hearts => 0
    case Diamonds => 1
    case Clubs => 2
    case Spades => 3
  }

  /** Every card of the 52 appears in the canonical deck. */
  lemma DeckIsComplete(c: Card)
    ensures c in CreateDeck()
  {
    var deck := CreateDeck();
    ValueNumbersFollowOrder();
    var j := ValueToNumber(c.value) - 2;
    assert ValueOrder[j] == c.value by {
      assert ValueToNumber(ValueOrder[j]) == ValueToNumber(c.value);
    }
    assert deck[13 * SuitIndex(c.suit) + j] == c;
  }

  /** The index of a card in the canonical deck. */
  function Position(c: Card): int {
    13 * SuitIndex(c.suit) + ValueToNumber(c.value) - 2
  }

  lemma PositionAt(i: int, q: int, r: int)
    requires 0 <= q < 4 && 0 <= r < 13 && i == 13 * q + r
    ensures Position(CreateDeck()[i]) == i
  {
    ValueNumbersFollowOrder();
    var deck := CreateDeck();
    assert deck[i] == Card(SuitOrder[q], ValueOrder[r]);
    assert ValueToNumber(ValueOrder[r]) == r + 2;
    assert SuitIndex(SuitOrder[q]) == q by {
      if q == 0 {} else if q == 1 {} else if q == 2 {} else {}
    }
  }

  lemma SplitIndex(i: int) returns (q: int, r: int)
    requires 0 <= i < DeckSize
    ensures 0 <= q < 4 && 0 <= r < 13 && i == 13 * q + r
  {
    q, r := 0, i;
    while r >= 13
      invariant 0 <= r && i == 13 * q + r && 0 <= q
      decreases r
    {
      q, r := q + 1, r - 13;
    }
  }

  /** Each card of the canonical deck sits at its own position. */
  lemma PositionIsIndex(i: int)
    requires 0 <= i < DeckSize
    ensures Position(CreateDeck()[i]) == i
  {
    var q, r := SplitIndex(i);
    PositionAt(i, q, r);
  }

  /** No card appears twice in the canonical deck: each card's position is its index. */
  lemma DeckIsDistinct()
    ensures forall i, j :: 0 <= i < j < DeckSize ==> CreateDeck()[i] != CreateDeck()[j]
  {
    forall i, j | 0 <= i < j < DeckSize
      ensures CreateDeck()[i] != CreateDeck()[j]
    {
      PositionIsIndex(i);
      PositionIsIndex(j);
    }
  }

  function SuitOfInitial(ch: char): Option<Suit> {
    if ch == 'h' then Some(Hearts)
    else if ch == 'd' then Some(Diamonds)
    else if ch == 'c' then Some(Clubs)
    else if ch == 's' then Some(Spades)
    else None
  }

  function ValueOfLabel(l: string): Option<Value> {
    if l == "2" then Some(Two)
    else if l == "3" then Some(Three)
    else if l == "4" then Some(Four)
    else if l == "5" then Some(Five)
    else if l == "6" then Some(Six)
    else if l == "7" then Some(Seven)
    else if l == "8" then Some(Eight)
    else if l == "9" then Some(Nine)
    else if l == "10" then Some(Ten)
    else if l == "J" then Some(Jack)
    else if l == "Q" then Some(Queen)
    else if l == "K" then Some(King)
    else if l == "A" then Some(Ace)
    else None
  }

  /** Reads a card back from its id: the inverse of `Id`. */
  function ParseId(id: string): Option<Card> {
    if |id| == 0 then None
    else match SuitOfInitial(id[0])
      case None => None
      case Some(s) =>
        var n := |SuitName(s)|;
        if |id| <= n || id[..n] != SuitName(s) || id[n] != '-' then None
        else match ValueOfLabel(id[n + 1..])
          case None => None
          case Some(v) => Some(Card(s, v))
  }

  lemma SuitNameRoundTrip(s: Suit)
    ensures |SuitName(s)| > 0 && SuitOfInitial(SuitName(s)[0]) == Some(s)
  {
    match s
    case Hearts =>
    case Diamonds =>
    case Clubs =>
    case Spades =>
  }

  lemma LabelRoundTrip(v: Value)
    ensures ValueOfLabel(Label(v)) == Some(v)
  {
    match v
    case Two => case Three => case Four => case Five => case Six => case Seven =>
    case Eight => case Nine => case Ten => case Jack => case Queen => case King => case Ace =>
  }

  lemma IdRoundTrip(c: Card)
    ensures ParseId(Id(c)) == Some(c)
  {
    SuitNameRoundTrip(c.suit);
    LabelRoundTrip(c.value);
    var id, n := Id(c), |SuitName(c.suit)|;
    assert id[0] == SuitName(c.suit)[0];
    assert id[..n] == SuitName(c.suit);
    assert id[n] == '-';
    assert id[n + 1..] == Label(c.value);
  }

  /** The ids of the canonical deck are pairwise distinct. */
  lemma DeckIdsDistinct()
    ensures forall i, j :: 0 <= i < j < DeckSize ==> Id(CreateDeck()[i]) != Id(CreateDeck()[j])
  {
    var deck := CreateDeck();
    DeckIsDistinct();
    forall i, j | 0 <= i < j < DeckSize
      ensures Id(deck[i]) != Id(deck[j])
    {
      IdRoundTrip(deck[i]);
      IdRoundTrip(deck[j]);
    }
  }
}

/**
 * The cards of the Dog game and the fixed 110-card deck (`GameState.LIST_CARD`).
 */
module DogCards {

  /** The four suits "♠", "♥", "♦", "♣"; jokers carry the empty suit "". */
  datatype Suit = Spades | Hearts | Diamonds | Clubs | NoSuit

  /** The thirteen ranks "2" .. "A" and the joker rank "JKR". */
  datatype Rank = Two | Three | Four | Five | Six | Seven | Eight | Nine | Ten
                | Jack | Queen | King | Ace | Joker

  datatype Card = Card(suit: Suit, rank: Rank)

  /** Suit order used by the deck listing. */
  const Suits: seq<Suit> := [Spades, Hearts, Diamonds, Clubs]

  /** Rank order used by the deck listing (the joker is listed separately). */
  const Ranks: seq<Rank> := [Two, Three, Four, Five, Six, Seven, Eight, Nine, Ten, Jack, Queen, King, Ace]

  const JokerCard: Card := Card(NoSuit, Joker)

  /** A card with one of the four suits and one of the thirteen ordinary ranks. */
  predicate IsSuited(c: Card) {
    c.suit != NoSuit && c.rank != Joker
  }

  /**
   * One half of the deck: rank by rank, each rank in the four suits, then three jokers.
   */
  function DeckHalf(): seq<Card> {
    seq(52, i requires 0 <= i < 52 => Card(Suits[i % 4], Ranks[i / 4])) + [JokerCard, JokerCard, JokerCard]
  }

  /** The whole deck: the listing above, written twice. */
  function ListCard(): (deck: seq<Card>)
    ensures |deck| == 110
  {
    DeckHalf() + DeckHalf()
  }

  function SuitIndex(s: Suit): (k: nat)
    requires s != NoSuit
    ensures k < 4 && Suits[k] == s
  {
    match s
    case Spades => 0
    case Hearts => 1
    case Diamonds => 2
    case Clubs => 3
  }

  function RankIndex(r: Rank): (k: nat)
    requires r != Joker
    ensures k < 13 && Ranks[k] == r
  {
    match r
    case Two => 0
    case Three => 1
    case Four => 2
    case Five => 3
    case Six => 4
    case Seven => 5
    case Eight => 6
    case Nine => 7
    case Ten => 8
    case Jack => 9
    case Queen => 10
    case King => 11
    case Ace => 12
  }

  /** Both lists hold distinct entries, so an entry determines its index. */
  lemma ListsInjective(i: nat, j: nat)
    ensures i < 4 && j < 4 && Suits[i] == Suits[j] ==> i == j
    ensures i < 13 && j < 13 && Ranks[i] == Ranks[j] ==> i == j
  {
  }

  /** A suited card occurs in `DeckHalf` at exactly one index. */
  lemma DeckHalfPlace(c: Card) returns (i: nat)
    requires IsSuited(c)
    ensures i < |DeckHalf()| && DeckHalf()[i] == c
    ensures forall j :: 0 <= j < |DeckHalf()| && j != i ==> DeckHalf()[j] != c
  {
    i := 4 * RankIndex(c.rank) + SuitIndex(c.suit);
    assert i % 4 == SuitIndex(c.suit) && i / 4 == RankIndex(c.rank);
    forall j | 0 <= j < |DeckHalf()| && j != i
      ensures DeckHalf()[j] != c
    {
      if j < 52 {
        if DeckHalf()[j] == c {
          ListsInjective(j % 4, SuitIndex(c.suit));
          ListsInjective(j / 4, RankIndex(c.rank));
          assert false;
        }
      }
    }
  }

  /** An entry that occurs at only one index has multiplicity one. */
  lemma {:induction false} SingleOccurrence<T>(s: seq<T>, i: nat)
    requires i < |s|
    requires forall j :: 0 <= j < |s| && j != i ==> s[j] != s[i]
    ensures multiset(s)[s[i]] == 1
  {
    assert s == s[..i] + [s[i]] + s[i + 1..];
    assert s[i] !in s[..i] by {
      forall k | 0 <= k < i ensures s[..i][k] != s[i] { assert s[..i][k] == s[k]; }
    }
    var rest := s[i + 1..];
    assert s[i] !in rest by {
      forall k | 0 <= k < |rest| ensures rest[k] != s[i] { assert rest[k] == s[i + 1 + k]; }
    }
  }

  /**
   * The deck holds 110 cards: every suited card exactly twice, six jokers,
   * and no other card (in particular no suited joker and no unsuited ordinary card).
   */
  lemma DeckComposition()
    ensures |ListCard()| == 110
    ensures forall c :: IsSuited(c) ==> multiset(ListCard())[c] == 2
    ensures multiset(ListCard())[JokerCard] == 6
    ensures forall c :: c in ListCard() ==> IsSuited(c) || c == JokerCard
  {
    var suited := DeckHalf()[..52];
    assert DeckHalf() == suited + [JokerCard, JokerCard, JokerCard];
    assert forall k :: 0 <= k < 52 ==> suited[k] == Card(Suits[k % 4], Ranks[k / 4]);
    assert JokerCard !in suited;
    assert multiset(DeckHalf())[JokerCard] == 3;
    forall c | IsSuited(c) ensures multiset(ListCard())[c] == 2 {
      var i := DeckHalfPlace(c);
      SingleOccurrence(DeckHalf(), i);
    }
    forall c | c in ListCard() ensures IsSuited(c) || c == JokerCard {
      assert c in DeckHalf();
    }
  }
}

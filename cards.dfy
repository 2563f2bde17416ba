/** The card value type of src/core/card.js: a rank key and a suit symbol,
    both checked against fixed tables, and the numeric value of the rank. */
module Cards {
  import opened Wrappers

  /** `Object.values(Card.SUITS)`, in declaration order. */
  const Suits: string := "cdhs"

  /** `Object.keys(Card.RANKS)`: the digit keys first in ascending order,
      then T, J, Q, K, A in declaration order. */
  const Ranks: string := "23456789TJQKA"

  /** The `Card.RANKS` table, on the one character of a rank key. */
  function RankValue(rank: char): Option<int> {
    match rank
    case '2' => Some(2)
    case '3' => Some(3)
    case '4' => Some(4)
    case '5' => Some(5)
    case '6' => Some(6)
    case '7' => Some(7)
    case '8' => Some(8)
    case '9' => Some(9)
    case 'T' => Some(10)
    case 'J' => Some(11)
    case 'Q' => Some(12)
    case 'K' => Some(13)
    case 'A' => Some(14)
    case _ => None
  }

  /** The table is defined exactly on the rank keys, and maps each key to
      its position in the key order plus 2. */
  lemma RankValueTable(rank: char)
    ensures RankValue(rank).Some? <==> rank in Ranks
    ensures RankValue(rank).Some? ==> 2 <= RankValue(rank).value <= 14 && Ranks[RankValue(rank).value - 2] == rank
  {
  }

  /** The table read at position `i` of the key order gives `i + 2`. */
  lemma RankValueAt(i: nat)
    requires i < |Ranks|
    ensures RankValue(Ranks[i]) == Some(i + 2)
  {
  }

  /** The three fields a JavaScript `Card` object carries. A valid rank key
      or suit symbol is a one-character string; the record keeps that
      character. */
  datatype CardRecord = CardRecord(rank: char, suit: char, value: int)

  /** A suit symbol, tested character by character. */
  predicate IsSuit(suit: char) {
    suit == 'c' || suit == 'd' || suit == 'h' || suit == 's'
  }

  /** The character test agrees with the suit table. */
  lemma SuitTable(suit: char)
    ensures IsSuit(suit) <==> suit in Suits
  {
  }

  ghost predicate WellFormed(c: CardRecord) {
    IsSuit(c.suit) && RankValue(c.rank) == Some(c.value)
  }

  /** Every `Card` object passed the constructor's checks. */
  type Card = c: CardRecord | WellFormed(c) witness CardRecord('2', 'c', 2)

  datatype CardError = InvalidRank(rank: string) | InvalidSuit(suit: string)

  /** The card with a rank key and a suit symbol taken from the tables. */
  function CardOf(rank: char, suit: char): (c: Card)
    requires rank in Ranks && suit in Suits
    ensures c.rank == rank && c.suit == suit
  {
    RankValueTable(rank);
    SuitTable(suit);
    CardRecord(rank, suit, RankValue(rank).value)
  }

  /** `Card.RANKS[rank]` is defined. */
  predicate IsRankKey(rank: string) {
    |rank| == 1 && rank[0] in Ranks
  }

  /** `Object.values(Card.SUITS).includes(suit)` */
  predicate IsSuitSymbol(suit: string) {
    |suit| == 1 && suit[0] in Suits
  }

  /** `new Card(rank, suit)`: the rank is checked first, then the suit. */
  function NewCard(rank: string, suit: string): (r: Result<Card, CardError>)
    ensures r.Success? <==> IsRankKey(rank) && IsSuitSymbol(suit)
    ensures !IsRankKey(rank) ==> r == Failure(InvalidRank(rank))
    ensures IsRankKey(rank) && !IsSuitSymbol(suit) ==> r == Failure(InvalidSuit(suit))
    ensures r.Success? ==> [r.value.rank] == rank && [r.value.suit] == suit
  {
    if !IsRankKey(rank) then Failure(InvalidRank(rank))
    else if !IsSuitSymbol(suit) then Failure(InvalidSuit(suit))
    else Success(CardOf(rank[0], suit[0]))
  }

  /** `toString`: the rank key followed by the suit symbol. */
  function ToString(c: Card): string {
    [c.rank, c.suit]
  }

  /** `equals`: same rank key and same suit symbol. */
  predicate Equals(a: Card, b: Card) {
    a.rank == b.rank && a.suit == b.suit
  }

  /** A card's value is its rank's position in the table plus 2. */
  lemma ValueOfRank(c: Card)
    ensures 2 <= c.value <= 14
    ensures Ranks[c.value - 2] == c.rank
    ensures c.rank == 'T' ==> c.value == 10
    ensures c.rank == 'J' ==> c.value == 11
    ensures c.rank == 'Q' ==> c.value == 12
    ensures c.rank == 'K' ==> c.value == 13
    ensures c.rank == 'A' ==> c.value == 14
  {
    RankValueTable(c.rank);
  }

  /** On cards, `equals` is exactly value equality, so it is reflexive and
      symmetric. */
  lemma EqualsIsIdentity(a: Card, b: Card)
    ensures Equals(a, b) <==> a == b
    ensures Equals(a, a)
    ensures Equals(a, b) == Equals(b, a)
  {
  }

  /** `toString` is injective on cards. */
  lemma ToStringInjective(a: Card, b: Card)
    ensures ToString(a) == ToString(b) <==> a == b
  {
    if ToString(a) == ToString(b) {
      assert a.rank == ToString(a)[0] && a.suit == ToString(a)[1];
    }
  }
}

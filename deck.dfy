/** The deck of src/core/deck.js: an ordered list of cards that is rebuilt,
    shuffled, dealt from the end and filtered by card equality. */
module Decks {
  import opened Wrappers
  import opened Seqs
  import opened Cards

  /** The 13 cards of one suit, ranks 2 .. A. */
  function SuitRow(suit: char): (row: seq<Card>)
    requires suit in Suits
    ensures |row| == 13
    ensures forall r :: 0 <= r < 13 ==> row[r] == CardOf(Ranks[r], suit)
  {
    seq(13, r requires 0 <= r < 13 => CardOf(Ranks[r], suit))
  }

  /** The rows of the first `n` suits, in suit order. */
  function RowsUpTo(n: nat): (d: seq<Card>)
    requires n <= 4
    ensures |d| == 13 * n
  {
    if n == 0 then [] else RowsUpTo(n - 1) + SuitRow(Suits[n - 1])
  }

  /** The order `reset` builds: suit-major (c, d, h, s), ranks 2 .. A. */
  function FullDeck(): seq<Card> {
    RowsUpTo(4)
  }

  /** `cardsToRemove.some(rem => rem.equals(card))` */
  predicate Matches(toRemove: seq<Card>, c: Card) {
    exists i :: 0 <= i < |toRemove| && Equals(toRemove[i], c)
  }

  /** On cards, matching some card of `toRemove` is membership. */
  lemma MatchesIsMembership(toRemove: seq<Card>, c: Card)
    ensures Matches(toRemove, c) <==> c in toRemove
  {
    if c in toRemove {
      var i :| 0 <= i < |toRemove| && toRemove[i] == c;
      assert Equals(toRemove[i], c);
    }
  }

  /** `cards.filter(card => !cardsToRemove.some(rem => rem.equals(card)))` */
  function Without(cards: seq<Card>, toRemove: seq<Card>): seq<Card> {
    if cards == [] then []
    else (if Matches(toRemove, cards[0]) then [] else [cards[0]]) + Without(cards[1..], toRemove)
  }

  /** One pass of the Fisher-Yates loop, from position `i` down to 1: slot
      `i` is exchanged with slot `draws[i]`, where `draws[i]` stands for
      `Math.floor(Math.random() * (i + 1))`. */
  function ShuffleDown(cards: seq<Card>, draws: seq<nat>, i: int): (r: seq<Card>)
    requires i < |cards| && |draws| == |cards|
    requires forall k :: 0 < k < |cards| ==> draws[k] <= k
    ensures |r| == |cards|
    decreases i
  {
    if i <= 0 then cards else ShuffleDown(Swap(cards, i, draws[i]), draws, i - 1)
  }

  /** The shuffle only reorders the deck. */
  lemma {:induction false} ShuffleDownPermutes(cards: seq<Card>, draws: seq<nat>, i: int)
    requires i < |cards| && |draws| == |cards|
    requires forall k :: 0 < k < |cards| ==> draws[k] <= k
    ensures multiset(ShuffleDown(cards, draws, i)) == multiset(cards)
    decreases i
  {
    if i > 0 {
      SwapPermutes(cards, i, draws[i]);
      ShuffleDownPermutes(Swap(cards, i, draws[i]), draws, i - 1);
    }
  }

  datatype DeckError = EmptyDeck

  class Deck {
    var cards: seq<Card>

    /** No card is in the deck twice. */
    ghost predicate Valid()
      reads this
    {
      Distinct(cards)
    }

    constructor ()
      ensures Valid() && cards == FullDeck()
    {
      cards := [];
      new;
      Reset();
    }

    /** Pushes the 52 cards, suit by suit, rank by rank. */
    method Reset()
      modifies this
      ensures Valid() && cards == FullDeck()
    {
      cards := [];
      for s := 0 to |Suits|
        invariant cards == RowsUpTo(s)
      {
        for r := 0 to |Ranks|
          invariant cards == RowsUpTo(s) + SuitRow(Suits[s])[..r]
        {
          ghost var row := SuitRow(Suits[s]);
          assert row[..r + 1] == row[..r] + [row[r]];
          cards := cards + [CardOf(Ranks[r], Suits[s])];
        }
        assert SuitRow(Suits[s])[..13] == SuitRow(Suits[s]);
        assert RowsUpTo(s + 1) == RowsUpTo(s) + SuitRow(Suits[s]);
      }
      FullDeckDistinct();
    }

    /** Fisher-Yates in place, the random draws given as `draws`. */
    method Shuffle(draws: seq<nat>)
      requires Valid()
      requires |draws| == |cards|
      requires forall k :: 0 < k < |cards| ==> draws[k] <= k
      modifies this
      ensures Valid()
      ensures cards == ShuffleDown(old(cards), draws, |old(cards)| - 1)
      ensures multiset(cards) == multiset(old(cards))
    {
      var i := |cards| - 1;
      while i > 0
        invariant i < |cards| && |cards| == |old(cards)|
        invariant ShuffleDown(cards, draws, i) == ShuffleDown(old(cards), draws, |old(cards)| - 1)
      {
        var j := draws[i];
        cards := cards[i := cards[j]][j := cards[i]];
        i := i - 1;
      }
      ShuffleDownPermutes(old(cards), draws, |old(cards)| - 1);
      PermutationDistinct(old(cards), cards);
    }

    /** Pops the last card; an empty deck is an error. */
    method Deal() returns (r: Result<Card, DeckError>)
      requires Valid()
      modifies this
      ensures Valid()
      ensures old(cards) == [] ==> r == Failure(EmptyDeck) && cards == old(cards)
      ensures old(cards) != [] ==> r == Success(old(cards)[|old(cards)| - 1]) && cards == old(cards)[..|old(cards)| - 1]
    {
      if |cards| == 0 {
        return Failure(EmptyDeck);
      }
      r := Success(cards[|cards| - 1]);
      cards := cards[..|cards| - 1];
    }

    /** Keeps exactly the cards that equal no card of `toRemove`. */
    method RemoveCards(toRemove: seq<Card>)
      requires Valid()
      modifies this
      ensures Valid()
      ensures cards == Without(old(cards), toRemove)
    {
      WithoutDistinct(cards, toRemove);
      cards := Without(cards, toRemove);
    }

    method Remaining() returns (n: nat)
      ensures n == |cards|
    {
      n := |cards|;
    }
  }

  /** Two distinct sequences with no common element concatenate to a
      distinct sequence. */
  lemma DistinctConcat(a: seq<Card>, b: seq<Card>)
    requires Distinct(a) && Distinct(b)
    requires forall x :: x in a ==> x !in b
    ensures Distinct(a + b)
  {
    var ab := a + b;
    forall i, j | 0 <= i < j < |ab| ensures ab[i] != ab[j] {
      if i < |a| && j >= |a| {
        assert ab[i] in a && ab[j] == b[j - |a|];
      }
    }
  }

  /** Rank keys are pairwise different, so a suit row is distinct. */
  lemma SuitRowDistinct(suit: char)
    requires suit in Suits
    ensures Distinct(SuitRow(suit))
    ensures forall x :: x in SuitRow(suit) ==> x.suit == suit
  {
    var row := SuitRow(suit);
    forall i, j | 0 <= i < j < 13 ensures row[i] != row[j] {
      RankValueAt(i);
      RankValueAt(j);
    }
  }

  lemma {:induction false} RowsUpToDistinct(n: nat)
    requires n <= 4
    ensures Distinct(RowsUpTo(n))
    ensures forall x :: x in RowsUpTo(n) ==> x.suit in Suits[..n]
  {
    if n > 0 {
      RowsUpToDistinct(n - 1);
      var row := SuitRow(Suits[n - 1]);
      SuitRowDistinct(Suits[n - 1]);
      assert Suits[n - 1] !in Suits[..n - 1];
      DistinctConcat(RowsUpTo(n - 1), row);
      assert Suits[..n] == Suits[..n - 1] + [Suits[n - 1]];
    }
  }

  lemma FullDeckLength()
    ensures |FullDeck()| == 52
  {
    assert |RowsUpTo(4)| == 13 * 4;
  }

  /** The canonical deck holds no card twice. */
  lemma FullDeckDistinct()
    ensures |FullDeck()| == 52
    ensures Distinct(FullDeck())
  {
    RowsUpToDistinct(4);
  }

  /** Every card is in the canonical deck: with `FullDeckDistinct`, there
      are exactly 13 x 4 = 52 valid (rank, suit) pairs. */
  lemma FullDeckComplete(c: Card)
    ensures c in FullDeck()
  {
    var r := c.value - 2;
    RankValueAt(r);
    var i := if c.suit == 'c' then 0 else if c.suit == 'd' then 1 else if c.suit == 'h' then 2 else 3;
    assert Suits[i] == c.suit;
    var row := SuitRow(Suits[i]);
    assert row[r] == c;
    RowsUpToSuffix(i);
  }

  /** The row of suit `i` is part of the canonical deck. */
  lemma RowsUpToSuffix(i: nat)
    requires i < 4
    ensures forall x :: x in SuitRow(Suits[i]) ==> x in FullDeck()
  {
    var d := FullDeck();
    assert d == RowsUpTo(3) + SuitRow(Suits[3]);
    assert RowsUpTo(3) == RowsUpTo(2) + SuitRow(Suits[2]);
    assert RowsUpTo(2) == RowsUpTo(1) + SuitRow(Suits[1]);
    assert RowsUpTo(1) == SuitRow(Suits[0]);
  }

  /** Filtering keeps exactly the cards of `cards` that are not in `toRemove`. */
  lemma {:induction false} WithoutMembers(cards: seq<Card>, toRemove: seq<Card>, c: Card)
    ensures c in Without(cards, toRemove) <==> c in cards && c !in toRemove
  {
    if cards != [] {
      WithoutMembers(cards[1..], toRemove, c);
      assert Matches(toRemove, cards[0]) <==> cards[0] in toRemove;
    }
  }

  lemma WithoutDistinct(cards: seq<Card>, toRemove: seq<Card>)
    requires Distinct(cards)
    ensures Distinct(Without(cards, toRemove))
  {
    if cards != [] {
      WithoutDistinct(cards[1..], toRemove);
      WithoutMembers(cards[1..], toRemove, cards[0]);
    }
  }

  /** Removing cards none of which is in the deck changes nothing. */
  lemma {:induction false} WithoutAbsent(cards: seq<Card>, toRemove: seq<Card>)
    requires forall c :: c in toRemove ==> c !in cards
    ensures Without(cards, toRemove) == cards
  {
    if cards != [] {
      WithoutAbsent(cards[1..], toRemove);
      MatchesIsMembership(toRemove, cards[0]);
      assert cards == [cards[0]] + cards[1..];
    }
  }

  /** `removeCards(R)` twice is `removeCards(R)` once. */
  lemma {:induction false} WithoutIdempotent(cards: seq<Card>, toRemove: seq<Card>)
    ensures Without(Without(cards, toRemove), toRemove) == Without(cards, toRemove)
  {
    if cards != [] {
      WithoutIdempotent(cards[1..], toRemove);
      var rest := Without(cards[1..], toRemove);
      if !Matches(toRemove, cards[0]) {
        var w := [cards[0]] + rest;
        assert Without(cards, toRemove) == w;
        assert w[0] == cards[0] && w[1..] == rest;
        assert Without(w, toRemove) == [cards[0]] + Without(rest, toRemove);
      } else {
        assert Without(cards, toRemove) == rest;
      }
    }
  }

  /** The cards that remain are those not removed, in their original
      relative order: they sit at increasing positions `idx` of `cards`, and
      a position is in `idx` exactly when its card is not removed. */
  lemma {:induction false} WithoutKeepsOrder(cards: seq<Card>, toRemove: seq<Card>) returns (idx: seq<nat>)
    ensures SubseqAt(Without(cards, toRemove), cards, idx)
    ensures forall i :: 0 <= i < |cards| ==> (cards[i] !in toRemove <==> i in idx)
  {
    if cards == [] {
      idx := [];
    } else {
      var rest := Without(cards[1..], toRemove);
      var keep := cards[0] !in toRemove;
      var tail := WithoutKeepsOrder(cards[1..], toRemove);
      MatchesIsMembership(toRemove, cards[0]);
      if keep {
        assert Without(cards, toRemove) == [cards[0]] + rest;
      } else {
        assert Without(cards, toRemove) == rest;
      }
      idx := SubseqCons(rest, cards, tail, keep);
      KeptPositions(cards, toRemove, tail, idx);
    }
  }

  /** The kept positions of `cards` from those of `cards[1..]`, shifted by
      one, and position 0 when the head is kept. */
  lemma KeptPositions(cards: seq<Card>, toRemove: seq<Card>, tail: seq<nat>, idx: seq<nat>)
    requires |cards| > 0
    requires forall i :: 0 <= i < |cards| - 1 ==> (cards[1..][i] !in toRemove <==> i in tail)
    requires 0 in idx <==> cards[0] !in toRemove
    requires forall i :: 0 < i < |cards| ==> (i in idx <==> i - 1 in tail)
    ensures forall i :: 0 <= i < |cards| ==> (cards[i] !in toRemove <==> i in idx)
  {
    forall i | 0 < i < |cards| ensures cards[i] !in toRemove <==> i in idx {
      assert cards[i] == cards[1..][i - 1];
    }
  }

  /** `remaining()` after a rebuild that removes `known`: the deck loses
      each distinct known card once, duplicates included or not. */
  lemma RemainingAfterRemove(known: seq<Card>)
    ensures |Without(FullDeck(), known)| == 52 - |Elems(known)|
  {
    var d := FullDeck();
    FullDeckDistinct();
    WithoutDistinct(d, known);
    var w := Without(d, known);
    DistinctCardinality(w);
    DistinctCardinality(d);
    forall c | c in Elems(known) ensures c in Elems(d) {
      FullDeckComplete(c);
    }
    forall c ensures c in Elems(w) <==> c in Elems(d) - Elems(known) {
      WithoutMembers(d, known, c);
    }
    assert Elems(w) == Elems(d) - Elems(known);
  }
}

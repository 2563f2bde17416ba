/** The position of src/core/game_state.js: the player, CPU and community
    cards, and a deck that every setter rebuilds as the 52 cards minus all
    known cards. */
module GameStates {
  import opened Seqs
  import opened Cards
  import opened Decks

  class GameState {
    const deck: Deck
    var playerHand: seq<Card>
    var cpuHand: seq<Card>
    var communityCards: seq<Card>

    /** `knownCards` of `updateDeck`: player, then community, then the CPU
        hand when it is not empty. */
    function KnownCards(): seq<Card>
      reads this
    {
      playerHand + communityCards + (if |cpuHand| > 0 then cpuHand else [])
    }

    ghost predicate Valid()
      reads this, deck
    {
      deck.Valid()
    }

    /** The deck is the canonical order with every known card filtered out. */
    ghost predicate DeckRebuilt()
      reads this, deck
    {
      deck.cards == Without(FullDeck(), KnownCards())
    }

    constructor ()
      ensures Valid() && fresh(deck)
      ensures deck.cards == FullDeck()
      ensures playerHand == [] && cpuHand == [] && communityCards == []
    {
      deck := new Deck();
      playerHand := [];
      cpuHand := [];
      communityCards := [];
    }

    /** Rebuilds and shuffles the deck and forgets every hand; `draws` are
        the shuffle's random indices. */
    method Reset(draws: seq<nat>)
      requires Valid()
      requires |draws| == 52 && forall k :: 0 < k < 52 ==> draws[k] <= k
      modifies this, deck
      ensures Valid()
      ensures deck.cards == ShuffleDown(FullDeck(), draws, |FullDeck()| - 1)
      ensures multiset(deck.cards) == multiset(FullDeck())
      ensures playerHand == [] && cpuHand == [] && communityCards == []
    {
      deck.Reset();
      ghost var full := deck.cards;
      FullDeckLength();
      deck.Shuffle(draws);
      assert deck.cards == ShuffleDown(full, draws, |full| - 1);
      assert multiset(deck.cards) == multiset(full);
      playerHand := [];
      cpuHand := [];
      communityCards := [];
    }

    method SetPlayerHand(c1: Card, c2: Card)
      requires Valid()
      modifies this, deck
      ensures Valid() && DeckRebuilt()
      ensures playerHand == [c1, c2]
      ensures cpuHand == old(cpuHand) && communityCards == old(communityCards)
    {
      playerHand := [c1, c2];
      UpdateDeck();
    }

    method SetCpuHand(c1: Card, c2: Card)
      requires Valid()
      modifies this, deck
      ensures Valid() && DeckRebuilt()
      ensures cpuHand == [c1, c2]
      ensures playerHand == old(playerHand) && communityCards == old(communityCards)
    {
      cpuHand := [c1, c2];
      UpdateDeck();
    }

    method SetCommunityCards(cards: seq<Card>)
      requires Valid()
      modifies this, deck
      ensures Valid() && DeckRebuilt()
      ensures communityCards == cards
      ensures playerHand == old(playerHand) && cpuHand == old(cpuHand)
    {
      communityCards := cards;
      UpdateDeck();
    }

    method AddCommunityCard(card: Card)
      requires Valid()
      modifies this, deck
      ensures Valid() && DeckRebuilt()
      ensures communityCards == old(communityCards) + [card]
      ensures playerHand == old(playerHand) && cpuHand == old(cpuHand)
      ensures card !in deck.cards
    {
      communityCards := communityCards + [card];
      UpdateDeck();
      WithoutMembers(FullDeck(), KnownCards(), card);
    }

    /** Rebuilds the deck from scratch and removes every known card. */
    method UpdateDeck()
      requires Valid()
      modifies deck
      ensures Valid() && DeckRebuilt()
    {
      var knownCards := playerHand + communityCards;
      if |cpuHand| > 0 {
        knownCards := knownCards + cpuHand;
      }
      assert knownCards == KnownCards();
      deck.Reset();
      deck.RemoveCards(knownCards);
    }

    /** A new position with copies of the three hands and a deck of its own. */
    method Clone() returns (g: GameState)
      requires Valid()
      ensures fresh(g) && fresh(g.deck) && g.Valid() && g.DeckRebuilt()
      ensures g.playerHand == playerHand && g.cpuHand == cpuHand && g.communityCards == communityCards
    {
      g := new GameState();
      g.playerHand := playerHand;
      g.cpuHand := cpuHand;
      g.communityCards := communityCards;
      g.UpdateDeck();
    }
  }

  /** A setter on a clone leaves the original alone: this method may change
      only objects it allocates, so `g` and its deck are unchanged. */
  method SetPlayerHandOnClone(g: GameState, c1: Card, c2: Card) returns (h: GameState)
    requires g.Valid()
    ensures fresh(h) && fresh(h.deck) && h.Valid() && h.DeckRebuilt()
    ensures h.playerHand == [c1, c2]
    ensures h.cpuHand == g.cpuHand && h.communityCards == g.communityCards
  {
    h := g.Clone();
    h.SetPlayerHand(c1, c2);
  }

  /** Two distinct player cards and N distinct community cards that do not
      overlap them leave 50 - N cards in the rebuilt deck. */
  lemma RemainingAfterSetup(c1: Card, c2: Card, community: seq<Card>)
    requires c1 != c2 && c1 !in community && c2 !in community
    requires Distinct(community)
    ensures |Without(FullDeck(), [c1, c2] + community + [])| == 50 - |community|
  {
    var known := [c1, c2] + community + [];
    assert Distinct(known) by {
      forall i, j | 0 <= i < j < |known| ensures known[i] != known[j] {
        if i >= 2 {
          assert known[i] == community[i - 2] && known[j] == community[j - 2];
        } else if j >= 2 {
          assert known[j] in community;
        }
      }
    }
    DistinctCardinality(known);
    RemainingAfterRemove(known);
  }

  /** The turn position A♠ K♠ / J♠ 5♠ 2♦ 9♣ leaves 46 unseen cards. */
  lemma TurnExampleDeck()
    ensures |Without(FullDeck(), [CardOf('A', 's'), CardOf('K', 's')]
      + [CardOf('J', 's'), CardOf('5', 's'), CardOf('2', 'd'), CardOf('9', 'c')] + [])| == 46
  {
    var community := [CardOf('J', 's'), CardOf('5', 's'), CardOf('2', 'd'), CardOf('9', 'c')];
    RemainingAfterSetup(CardOf('A', 's'), CardOf('K', 's'), community);
  }
}

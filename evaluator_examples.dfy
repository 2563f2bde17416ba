/** The hands of test_evaluator.js, and the defect in the wheel repair of
    src/core/hand_evaluator.js shown on concrete cards. */
module EvaluatorExamples {
  import opened Wrappers
  import opened Seqs
  import opened Cards
  import opened HandEvaluator
  import opened HandRanking
  import opened HandComparison

  /** Five or more cards among which five share a suit and form a run are
      ranked at least a straight flush, and a royal flush when the run is
      topped by the ace. */
  lemma ContainsSuitedRun(ranker: Ranker, cards: seq<Card>, five: seq<Card>, idx: seq<nat>, high: int)
    requires |cards| >= 5 && |five| == 5 && SubseqAt(five, cards, idx)
    requires SameSuit(five) && IsRun(multiset(Values(five)), high)
    ensures Evaluate(ranker, cards).Success?
    ensures high == 14 ==> Evaluate(ranker, cards).value.rank == RoyalFlush
    ensures Evaluate(ranker, cards).value.rank >= StraightFlush
  {
    SuitedRunRanked(five, high);
    RankWithCategory(ranker, five);
    EvaluateMaximal(ranker, cards, five, idx);
    EvaluateWellShaped(ranker, cards);
  }

  /** The first five cards are chosen at positions 0 to 4. */
  lemma FirstFive<T>(s: seq<T>)
    requires |s| >= 5
    ensures SubseqAt(s[..5], s, [0, 1, 2, 3, 4])
  {
  }

  function RoyalHand(): seq<Card> {
    [CardRecord('A', 'h', 14), CardRecord('K', 'h', 13), CardRecord('Q', 'h', 12), CardRecord('J', 'h', 11),
     CardRecord('T', 'h', 10), CardRecord('2', 'c', 2), CardRecord('3', 'd', 3)]
  }

  /** The "Royal Flush detection" hand. */
  lemma RoyalFlushDetected(ranker: Ranker, cards: seq<Card>)
    requires cards == RoyalHand()
    ensures Evaluate(ranker, cards).Success? && Evaluate(ranker, cards).value.rank == RoyalFlush
  {
    var five := cards[..5];
    ValuesAt(five);
    assert Values(five) == Run(14) by {
      assert five[0].value == 14 && five[1].value == 13 && five[2].value == 12;
      assert five[3].value == 11 && five[4].value == 10;
    }
    FirstFive(cards);
    ContainsSuitedRun(ranker, cards, five, [0, 1, 2, 3, 4], 14);
  }

  /** A value that no card carries is missing from every choice of five. */
  lemma ValueAbsent(cards: seq<Card>, five: seq<Card>, idx: seq<nat>, v: int)
    requires SubseqAt(five, cards, idx)
    requires forall i :: 0 <= i < |cards| ==> cards[i].value != v
    ensures v !in multiset(Values(five))
  {
    ValuesAt(five);
  }

  /** Without a queen there is no royal flush. */
  lemma NoRoyalWithoutQueen(ranker: Ranker, cards: seq<Card>)
    requires |cards| >= 5 && forall i :: 0 <= i < |cards| ==> cards[i].value != 12
    ensures Evaluate(ranker, cards).Success? && Evaluate(ranker, cards).value.rank != RoyalFlush
  {
    var five, idx := EvaluateAchieved(ranker, cards);
    RankWithCategory(ranker, five);
    Rank5Fits(five);
    ValueAbsent(cards, five, idx, 12);
    assert 12 in multiset(Run(14));
  }

  function StraightFlushHand(): seq<Card> {
    [CardRecord('9', 'h', 9), CardRecord('8', 'h', 8), CardRecord('7', 'h', 7), CardRecord('6', 'h', 6),
     CardRecord('5', 'h', 5), CardRecord('A', 'c', 14), CardRecord('K', 'd', 13)]
  }

  /** Five or more cards without a queen among which five share a suit and
      form a run are a straight flush. */
  lemma SuitedRunWithoutQueen(ranker: Ranker, cards: seq<Card>, five: seq<Card>, idx: seq<nat>, high: int)
    requires |cards| >= 5 && |five| == 5 && SubseqAt(five, cards, idx)
    requires SameSuit(five) && IsRun(multiset(Values(five)), high)
    requires forall i :: 0 <= i < |cards| ==> cards[i].value != 12
    ensures Evaluate(ranker, cards).Success? && Evaluate(ranker, cards).value.rank == StraightFlush
  {
    ContainsSuitedRun(ranker, cards, five, idx, high);
    NoRoyalWithoutQueen(ranker, cards);
    EvaluateWellShaped(ranker, cards);
  }

  /** The "Straight Flush detection" hand opens with the suited run
      9-8-7-6-5 ... */
  lemma StraightFlushHandRun()
    ensures var five := StraightFlushHand()[..5]; SameSuit(five) && Values(five) == Run(9)
  {
    var five := StraightFlushHand()[..5];
    ValuesAt(five);
    assert five[0].value == 9 && five[1].value == 8 && five[2].value == 7;
    assert five[3].value == 6 && five[4].value == 5;
  }

  /** ... and holds no queen. */
  lemma StraightFlushHandNoQueen()
    ensures forall i :: 0 <= i < |StraightFlushHand()| ==> StraightFlushHand()[i].value != 12
  {
  }

  /** The "Straight Flush detection" hand. */
  lemma StraightFlushDetected(ranker: Ranker, cards: seq<Card>)
    requires cards == StraightFlushHand()
    ensures Evaluate(ranker, cards).Success? && Evaluate(ranker, cards).value.rank == StraightFlush
  {
    StraightFlushHandRun();
    StraightFlushHandNoQueen();
    FirstFive(cards);
    SuitedRunWithoutQueen(ranker, cards, cards[..5], [0, 1, 2, 3, 4], 9);
  }

  /** No two cards share a value. */
  ghost predicate NoPairedValues(cards: seq<Card>) {
    forall i, j :: 0 <= i < j < |cards| ==> cards[i].value != cards[j].value
  }

  /** No three cards share a suit. */
  ghost predicate NoThreeSuited(cards: seq<Card>) {
    forall i, j, k :: 0 <= i < j < k < |cards| ==>
      cards[i].suit != cards[j].suit || cards[j].suit != cards[k].suit
  }

  /** Five cards chosen from cards without a repeated value carry each value
      at most once. */
  lemma ChosenValuesSingle(cards: seq<Card>, five: seq<Card>, idx: seq<nat>, x: int)
    requires SubseqAt(five, cards, idx) && NoPairedValues(cards)
    ensures multiset(Values(five))[x] <= 1
  {
    ValuesAt(five);
    forall i, j | 0 <= i < j < |five| ensures Values(five)[i] != Values(five)[j] {
      assert cards[idx[i]].value != cards[idx[j]].value;
    }
    DistinctCount(Values(five), x);
  }

  /** Five cards chosen from cards of which no three share a suit do not
      share a suit. */
  lemma ChosenNotSuited(cards: seq<Card>, five: seq<Card>, idx: seq<nat>)
    requires |five| == 5 && SubseqAt(five, cards, idx) && NoThreeSuited(cards)
    ensures !SameSuit(five)
  {
    assert cards[idx[0]].suit != cards[idx[1]].suit || cards[idx[1]].suit != cards[idx[2]].suit;
  }

  /** Five cards chosen from cards with no repeated value and no three of
      a suit rank no higher than a straight. */
  lemma ChosenAtMostStraight(cards: seq<Card>, five: seq<Card>, idx: seq<nat>)
    requires |five| == 5 && SubseqAt(five, cards, idx)
    requires NoPairedValues(cards) && NoThreeSuited(cards)
    ensures Rank5(five).rank <= Straight
  {
    Rank5Fits(five);
    ChosenNotSuited(cards, five, idx);
    var t := Rank5(five).tieBreakers;
    if |t| > 0 {
      ChosenValuesSingle(cards, five, idx, t[0]);
    }
  }

  /** Five or more cards with no repeated value and no three of a suit,
      among which five form a run, are a straight. */
  lemma OnlyAStraight(ranker: Ranker, cards: seq<Card>, five: seq<Card>, idx: seq<nat>, high: int)
    requires |cards| >= 5 && |five| == 5 && SubseqAt(five, cards, idx)
    requires IsRun(multiset(Values(five)), high)
    requires NoPairedValues(cards) && NoThreeSuited(cards)
    ensures Evaluate(ranker, cards).Success? && Evaluate(ranker, cards).value.rank == Straight
  {
    assert Evaluate(ranker, cards).value.rank >= Straight by {
      ChosenNotSuited(cards, five, idx);
      UnsuitedRunRanked(five, high);
      RankWithCategory(ranker, five);
      EvaluateMaximal(ranker, cards, five, idx);
    }
    var best, bestIdx := EvaluateAchieved(ranker, cards);
    RankWithCategory(ranker, best);
    ChosenAtMostStraight(cards, best, bestIdx);
  }

  function WheelHand(): seq<Card> {
    [CardRecord('A', 'h', 14), CardRecord('2', 'c', 2), CardRecord('3', 'd', 3), CardRecord('4', 's', 4),
     CardRecord('5', 'h', 5), CardRecord('9', 'c', 9), CardRecord('T', 'd', 10)]
  }

  /** The wheel listed from the ace upwards. */
  lemma WheelReordered()
    ensures multiset([14, 2, 3, 4, 5]) == multiset(Wheel)
  {
  }

  /** The "Wheel Straight detection" hand opens with A-2-3-4-5 ... */
  lemma WheelHandRun(cards: seq<Card>)
    requires cards == WheelHand()
    ensures |cards| == 7 && IsRun(multiset(Values(cards[..5])), 5)
  {
    assert Values(cards[..5]) == [14, 2, 3, 4, 5] by {
      var five := cards[..5];
      ValuesAt(five);
      assert five[0].value == 14 && five[1].value == 2 && five[2].value == 3;
      assert five[3].value == 4 && five[4].value == 5;
    }
    WheelReordered();
  }

  /** ... has no repeated value ... */
  lemma WheelHandNoPairs(cards: seq<Card>)
    requires cards == WheelHand()
    ensures NoPairedValues(cards)
  {
  }

  /** ... and no three cards of a suit. */
  lemma WheelHandNoThreeSuited(cards: seq<Card>)
    requires cards == WheelHand()
    ensures NoThreeSuited(cards)
  {
  }

  /** The values of the "Wheel Straight detection" hand: A, 2, 3, 4, 5, 9, T. */
  predicate WheelHandValue(v: int) {
    v == 14 || 2 <= v <= 5 || v == 9 || v == 10
  }

  /** Every card of the "Wheel Straight detection" hand has one of its values. */
  lemma WheelHandValueAt(cards: seq<Card>, k: nat)
    requires cards == WheelHand() && k < |cards|
    ensures WheelHandValue(cards[k].value)
  {
    if k < 4 {
      assert k == 0 || k == 1 || k == 2 || k == 3;
    } else {
      assert k == 4 || k == 5 || k == 6;
    }
  }

  /** Every value among five cards chosen from the "Wheel Straight
      detection" hand is one of A, 2, 3, 4, 5, 9, T. */
  lemma WheelHandValues(cards: seq<Card>, five: seq<Card>, idx: seq<nat>)
    requires cards == WheelHand() && SubseqAt(five, cards, idx)
    ensures forall v :: v in multiset(Values(five)) ==> WheelHandValue(v)
  {
    ValuesAt(five);
    forall v | v in multiset(Values(five)) ensures WheelHandValue(v) {
      var i :| 0 <= i < |five| && Values(five)[i] == v;
      WheelHandValueAt(cards, idx[i]);
    }
  }

  /** No five consecutive values are among A, 2, 3, 4, 5, 9, T: the only
      run there is the wheel. */
  lemma OnlyTheWheel(m: multiset<int>, high: int)
    requires IsRun(m, high)
    requires forall v :: v in m ==> WheelHandValue(v)
    ensures high == 5 && m == multiset(Wheel)
  {
    if m == multiset(Run(high)) {
      assert false;
    }
  }

  /** The "Wheel Straight detection" hand ranks as a straight. */
  lemma WheelHandStraight(ranker: Ranker, cards: seq<Card>)
    requires cards == WheelHand()
    ensures Evaluate(ranker, cards).Success? && Evaluate(ranker, cards).value.rank == Straight
  {
    WheelHandRun(cards);
    WheelHandNoPairs(cards);
    WheelHandNoThreeSuited(cards);
    FirstFive(cards);
    OnlyAStraight(ranker, cards, cards[..5], [0, 1, 2, 3, 4], 5);
  }

  /** A straight chosen from the "Wheel Straight detection" hand is the
      unsuited wheel. */
  lemma WheelChosenStraight(cards: seq<Card>, five: seq<Card>, idx: seq<nat>)
    requires cards == WheelHand() && |five| == 5 && SubseqAt(five, cards, idx)
    requires Rank5(five).rank == Straight
    ensures multiset(Values(five)) == multiset(Wheel) && !SameSuit(five)
  {
    Rank5Fits(five);
    WheelHandValues(cards, five, idx);
    WheelHandNoThreeSuited(cards);
    ChosenNotSuited(cards, five, idx);
    OnlyTheWheel(multiset(Values(five)), Rank5(five).tieBreakers[0]);
  }

  /** The "Wheel Straight detection" hand is a straight. As written its
      tie-breaker is the ace; corrected, it is 5. */
  lemma WheelStraightDetected(ranker: Ranker, cards: seq<Card>)
    requires cards == WheelHand()
    ensures Evaluate(ranker, cards).Success? && Evaluate(ranker, cards).value.rank == Straight
    ensures Evaluate(ranker, cards).value.tieBreakers == if ranker == AsWritten then [14] else [5]
  {
    WheelHandStraight(ranker, cards);
    var best, idx := EvaluateAchieved(ranker, cards);
    RankWithCategory(ranker, best);
    WheelChosenStraight(cards, best, idx);
    WheelAsWritten(best);
  }

  /** As written, a suited wheel outranks every straight flush topped by 6
      to K, because it keeps the ace as its high card; corrected, it ranks
      below all of them. */
  lemma SteelWheelOutranks(wheel: seq<Card>, other: seq<Card>, high: int)
    requires |wheel| == 5 && SameSuit(wheel) && multiset(Values(wheel)) == multiset(Wheel)
    requires |other| == 5 && SameSuit(other) && multiset(Values(other)) == multiset(Run(high))
    requires 6 <= high <= 13
    ensures CompareHands(Rank5AsWritten(wheel), Rank5AsWritten(other)) > 0
    ensures CompareHands(Rank5(wheel), Rank5(other)) < 0
  {
    WheelAsWritten(wheel);
    SuitedRunRanked(other, high);
    RunSorted(other, high);
    AsWrittenDiffersOnlyOnWheel(other);
  }

  function SteelWheel(): seq<Card> {
    [CardRecord('A', 's', 14), CardRecord('2', 's', 2), CardRecord('3', 's', 3),
     CardRecord('4', 's', 4), CardRecord('5', 's', 5)]
  }

  function KingHighStraightFlush(): seq<Card> {
    [CardRecord('K', 'h', 13), CardRecord('Q', 'h', 12), CardRecord('J', 'h', 11),
     CardRecord('T', 'h', 10), CardRecord('9', 'h', 9)]
  }

  lemma SteelWheelValues(wheel: seq<Card>)
    requires wheel == SteelWheel()
    ensures multiset(Values(wheel)) == multiset(Wheel)
  {
    assert Values(wheel) == [14, 2, 3, 4, 5] by {
      ValuesAt(wheel);
    }
    WheelReordered();
  }

  lemma SteelWheelSuited(wheel: seq<Card>)
    requires wheel == SteelWheel()
    ensures SameSuit(wheel)
  {
  }

  lemma KingHighFacts(other: seq<Card>)
    requires other == KingHighStraightFlush()
    ensures SameSuit(other) && Values(other) == Run(13)
  {
    ValuesAt(other);
  }

  /** A-2-3-4-5 of spades against K-Q-J-T-9 of hearts: as written the
      wheel wins, corrected the king-high straight flush wins. */
  lemma SteelWheelBeatsKingHigh(wheel: seq<Card>, other: seq<Card>)
    requires wheel == SteelWheel() && other == KingHighStraightFlush()
    ensures CompareHands(Rank5AsWritten(wheel), Rank5AsWritten(other)) > 0
    ensures CompareHands(Rank5(wheel), Rank5(other)) < 0
  {
    SteelWheelValues(wheel);
    SteelWheelSuited(wheel);
    KingHighFacts(other);
    SteelWheelOutranks(wheel, other, 13);
  }
}

/** What `compareHands` and the best-of-combinations search of
    src/core/hand_evaluator.js promise: a total preorder on well-shaped
    results, and a best hand that is reached by some five cards and beats
    or ties every other choice of five. */
module HandComparison {
  import opened Wrappers
  import opened Seqs
  import opened Cards
  import opened Combinatorics
  import opened HandEvaluator
  import opened HandRanking

  /** How many tie-breakers each category carries. */
  function TieBreakerCount(rank: int): nat {
    if rank == RoyalFlush then 0
    else if rank == StraightFlush || rank == Straight then 1
    else if rank == FourOfAKind || rank == FullHouse then 2
    else if rank == ThreeOfAKind || rank == TwoPair then 3
    else if rank == Pair then 4
    else 5
  }

  /** A category in 1..10 with its number of tie-breakers. */
  ghost predicate WellShaped(h: HandResult) {
    HighCard <= h.rank <= RoyalFlush && |h.tieBreakers| == TieBreakerCount(h.rank)
  }

  /** Every result of the corrected five-card ranker is well shaped. */
  lemma Rank5WellShaped(cards: seq<Card>)
    requires |cards| == 5
    ensures WellShaped(Rank5(cards))
  {
    Rank5Fits(cards);
  }

  /** Every result of `rank5CardHand` as written is well shaped too: off
      the wheel it is the corrected result, and on the wheel a straight or
      straight flush with the single tie-breaker 14. */
  lemma Rank5AsWrittenWellShaped(cards: seq<Card>)
    requires |cards| == 5
    ensures WellShaped(Rank5AsWritten(cards))
  {
    AsWrittenDiffersOnlyOnWheel(cards);
    if Values(SortByValue(cards)) == Wheel {
      SortByValueValues(cards);
      WheelAsWritten(cards);
    } else {
      Rank5WellShaped(cards);
    }
  }

  /** Both rankers put every hand in the same category, and they give the
      same result off the wheel. */
  lemma RankWithCategory(ranker: Ranker, cards: seq<Card>)
    requires |cards| == 5
    ensures RankWith(ranker, cards).rank == Rank5(cards).rank
    ensures Values(SortByValue(cards)) != Wheel ==> RankWith(ranker, cards) == Rank5(cards)
  {
    AsWrittenDiffersOnlyOnWheel(cards);
    if Values(SortByValue(cards)) == Wheel {
      SortByValueValues(cards);
      WheelAsWritten(cards);
    }
  }

  lemma RankWithWellShaped(ranker: Ranker, cards: seq<Card>)
    requires |cards| == 5
    ensures WellShaped(RankWith(ranker, cards))
  {
    if ranker == AsWritten {
      Rank5AsWrittenWellShaped(cards);
    } else {
      Rank5WellShaped(cards);
    }
  }

  lemma {:induction false} TieBreakersSelf(t: seq<int>, i: nat)
    ensures CompareTieBreakers(t, t, i) == 0
    decreases |t| - i
  {
    if i < |t| {
      TieBreakersSelf(t, i + 1);
    }
  }

  /** A result ties with itself. */
  lemma CompareReflexive(h: HandResult)
    ensures CompareHands(h, h) == 0
  {
    TieBreakersSelf(h.tieBreakers, 0);
  }

  lemma {:induction false} TieBreakersAntisymmetric(t1: seq<int>, t2: seq<int>, i: nat)
    ensures CompareTieBreakers(t1, t2, i) == -CompareTieBreakers(t2, t1, i)
    decreases |t1| - i
  {
    if i < |t1| && i < |t2| && t1[i] == t2[i] {
      TieBreakersAntisymmetric(t1, t2, i + 1);
    }
  }

  /** Swapping the arguments negates the comparison. */
  lemma CompareAntisymmetric(h1: HandResult, h2: HandResult)
    ensures CompareHands(h1, h2) == -CompareHands(h2, h1)
  {
    TieBreakersAntisymmetric(h1.tieBreakers, h2.tieBreakers, 0);
  }

  lemma {:induction false} TieBreakersZero(t1: seq<int>, t2: seq<int>, i: nat)
    requires |t1| == |t2| && i <= |t1|
    ensures CompareTieBreakers(t1, t2, i) == 0 <==> t1[i..] == t2[i..]
    decreases |t1| - i
  {
    if i < |t1| {
      TieBreakersZero(t1, t2, i + 1);
      assert t1[i..] == [t1[i]] + t1[i + 1..];
      assert t2[i..] == [t2[i]] + t2[i + 1..];
    }
  }

  /** Two well-shaped results tie exactly when category and tie-breakers
      agree (the label follows from the category). */
  lemma CompareZero(h1: HandResult, h2: HandResult)
    requires WellShaped(h1) && WellShaped(h2)
    ensures CompareHands(h1, h2) == 0 <==> h1.rank == h2.rank && h1.tieBreakers == h2.tieBreakers
  {
    if h1.rank == h2.rank {
      TieBreakersZero(h1.tieBreakers, h2.tieBreakers, 0);
      assert h1.tieBreakers[0..] == h1.tieBreakers;
      assert h2.tieBreakers[0..] == h2.tieBreakers;
    }
  }

  lemma {:induction false} TieBreakersTransitive(a: seq<int>, b: seq<int>, c: seq<int>, i: nat)
    requires |a| == |b| == |c|
    requires CompareTieBreakers(a, b, i) >= 0 && CompareTieBreakers(b, c, i) >= 0
    ensures CompareTieBreakers(a, c, i) >= 0
    ensures CompareTieBreakers(a, b, i) > 0 || CompareTieBreakers(b, c, i) > 0 ==> CompareTieBreakers(a, c, i) > 0
    decreases |a| - i
  {
    if i < |a| && a[i] == b[i] && b[i] == c[i] {
      TieBreakersTransitive(a, b, c, i + 1);
    }
  }

  /** Beating or tying is transitive, and strictly so when either step is
      strict. */
  lemma CompareTransitive(h1: HandResult, h2: HandResult, h3: HandResult)
    requires WellShaped(h1) && WellShaped(h2) && WellShaped(h3)
    requires CompareHands(h1, h2) >= 0 && CompareHands(h2, h3) >= 0
    ensures CompareHands(h1, h3) >= 0
    ensures CompareHands(h1, h2) > 0 || CompareHands(h2, h3) > 0 ==> CompareHands(h1, h3) > 0
  {
    if h1.rank == h2.rank == h3.rank {
      TieBreakersTransitive(h1.tieBreakers, h2.tieBreakers, h3.tieBreakers, 0);
    }
  }

  /** Every listed hand has five cards. */
  ghost predicate AllFive(combos: seq<seq<Card>>) {
    forall i :: 0 <= i < |combos| ==> |combos[i]| == 5
  }

  /** The rankings of the listed combinations, in order. */
  function Ranked(ranker: Ranker, combos: seq<seq<Card>>): seq<HandResult>
    requires AllFive(combos)
  {
    seq(|combos|, i requires 0 <= i < |combos| => RankWith(ranker, combos[i]))
  }

  /** The loop of `findBestHand` run over rankings already computed. */
  function BestResult(rs: seq<HandResult>): Option<HandResult> {
    if rs == [] then None
    else
      var best := BestResult(rs[..|rs| - 1]);
      var result := rs[|rs| - 1];
      if best.None? || CompareHands(result, best.value) > 0 then Some(result) else best
  }

  /** Every listed ranking is well shaped. */
  ghost predicate AllWellShaped(rs: seq<HandResult>) {
    forall i :: 0 <= i < |rs| ==> WellShaped(rs[i])
  }

  /** `BestOf` is the same loop over the rankings of the combinations. */
  lemma {:induction false} BestOfRanked(ranker: Ranker, combos: seq<seq<Card>>)
    requires AllFive(combos)
    ensures BestOf(ranker, combos) == BestResult(Ranked(ranker, combos))
    ensures AllWellShaped(Ranked(ranker, combos))
  {
    var rs := Ranked(ranker, combos);
    forall i | 0 <= i < |rs| ensures WellShaped(rs[i]) {
      RankWithWellShaped(ranker, combos[i]);
    }
    if combos != [] {
      var n := |combos| - 1;
      assert AllFive(combos[..n]);
      BestOfRanked(ranker, combos[..n]);
      assert rs[..n] == Ranked(ranker, combos[..n]);
    }
  }

  /** The kept ranking is well shaped. */
  lemma {:induction false} BestResultWellShaped(rs: seq<HandResult>)
    requires AllWellShaped(rs)
    ensures BestResult(rs).Some? ==> WellShaped(BestResult(rs).value)
  {
    if rs != [] {
      BestResultWellShaped(rs[..|rs| - 1]);
    }
  }

  /** The kept ranking beats or ties every ranking seen. */
  lemma {:induction false} BestResultMaximal(rs: seq<HandResult>, j: nat)
    requires AllWellShaped(rs) && j < |rs|
    ensures BestResult(rs).Some? && CompareHands(BestResult(rs).value, rs[j]) >= 0
    decreases |rs|
  {
    var n := |rs| - 1;
    var best := BestResult(rs[..n]);
    var result := rs[n];
    if j == n {
      if best.None? || CompareHands(result, best.value) > 0 {
        CompareReflexive(result);
      } else {
        CompareAntisymmetric(result, best.value);
      }
    } else {
      assert rs[..n][j] == rs[j];
      BestResultMaximal(rs[..n], j);
      if CompareHands(result, best.value) > 0 {
        BestResultWellShaped(rs[..n]);
        CompareTransitive(result, best.value, rs[j]);
      }
    }
  }

  /** The kept ranking is one of those seen, the first of those that tie
      for best: it strictly beats every ranking listed before it. */
  lemma {:induction false} BestResultWitness(rs: seq<HandResult>) returns (i: nat)
    requires AllWellShaped(rs) && |rs| > 0
    ensures i < |rs| && BestResult(rs) == Some(rs[i])
    ensures forall j :: 0 <= j < i ==> CompareHands(rs[i], rs[j]) > 0
    decreases |rs|
  {
    var n := |rs| - 1;
    var prefix := rs[..n];
    var best := BestResult(prefix);
    var result := rs[n];
    if best.None? || CompareHands(result, best.value) > 0 {
      i := n;
      forall j | 0 <= j < n ensures CompareHands(result, rs[j]) > 0 {
        assert prefix[j] == rs[j];
        BestResultMaximal(prefix, j);
        BestResultWellShaped(prefix);
        CompareTransitive(result, best.value, rs[j]);
      }
    } else {
      i := BestResultWitness(prefix);
      assert prefix[i] == rs[i];
      forall j | 0 <= j < i ensures CompareHands(rs[i], rs[j]) > 0 {
        assert prefix[j] == rs[j];
      }
    }
  }

  /** The loop of `findBestHand` beats or ties every combination it saw. */
  lemma BestOfMaximal(ranker: Ranker, combos: seq<seq<Card>>, j: nat)
    requires AllFive(combos) && j < |combos|
    ensures BestOf(ranker, combos).Some? && CompareHands(BestOf(ranker, combos).value, RankWith(ranker, combos[j])) >= 0
  {
    BestOfRanked(ranker, combos);
    BestResultMaximal(Ranked(ranker, combos), j);
  }

  /** The result the loop keeps is well shaped. */
  lemma BestOfWellShaped(ranker: Ranker, combos: seq<seq<Card>>)
    requires AllFive(combos)
    ensures BestOf(ranker, combos).Some? ==> WellShaped(BestOf(ranker, combos).value)
  {
    BestOfRanked(ranker, combos);
    BestResultWellShaped(Ranked(ranker, combos));
  }

  /** The loop of `findBestHand` keeps the ranking of one of the
      combinations, the first of those that tie for best: it strictly beats
      every combination listed before it. */
  lemma BestOfWitness(ranker: Ranker, combos: seq<seq<Card>>) returns (i: nat)
    requires AllFive(combos) && |combos| > 0
    ensures i < |combos| && BestOf(ranker, combos) == Some(RankWith(ranker, combos[i]))
    ensures forall j :: 0 <= j < i ==> CompareHands(RankWith(ranker, combos[i]), RankWith(ranker, combos[j])) > 0
  {
    BestOfRanked(ranker, combos);
    var rs := Ranked(ranker, combos);
    i := BestResultWitness(rs);
    forall j | 0 <= j < i ensures CompareHands(RankWith(ranker, combos[i]), RankWith(ranker, combos[j])) > 0 {
      assert rs[j] == RankWith(ranker, combos[j]);
    }
  }

  /** `evaluate` on five or more cards ranks some choice of five of them. */
  lemma EvaluateAchieved(ranker: Ranker, cards: seq<Card>) returns (five: seq<Card>, idx: seq<nat>)
    requires |cards| >= 5
    ensures |five| == 5 && SubseqAt(five, cards, idx)
    ensures Evaluate(ranker, cards) == Success(RankWith(ranker, five))
  {
    if |cards| == 5 {
      five := cards;
      idx := [0, 1, 2, 3, 4];
    } else {
      var combos := Combinations(cards, 5);
      FiveCardCombinations(cards);
      CombinationsCount(cards, 5);
      ChooseAtLeastOne(|cards|, 5);
      var i := BestOfWitness(ranker, combos);
      five := combos[i];
      idx := CombinationsSound(cards, 5, five);
    }
  }

  /** `evaluate` on five or more cards beats or ties the ranking of every
      choice of five of them. */
  lemma EvaluateMaximal(ranker: Ranker, cards: seq<Card>, five: seq<Card>, idx: seq<nat>)
    requires |cards| >= 5 && |five| == 5 && SubseqAt(five, cards, idx)
    ensures Evaluate(ranker, cards).Success? && CompareHands(Evaluate(ranker, cards).value, RankWith(ranker, five)) >= 0
  {
    if |cards| == 5 {
      FullSubseq(five, cards, idx);
      CompareReflexive(RankWith(ranker, cards));
    } else {
      var combos := Combinations(cards, 5);
      FiveCardCombinations(cards);
      CombinationsComplete(cards, five, idx);
      var j :| 0 <= j < |combos| && combos[j] == five;
      BestOfMaximal(ranker, combos, j);
    }
  }

  /** `evaluate` on five or more cards yields a well-shaped result. */
  lemma EvaluateWellShaped(ranker: Ranker, cards: seq<Card>)
    requires |cards| >= 5
    ensures Evaluate(ranker, cards).Success? && WellShaped(Evaluate(ranker, cards).value)
  {
    var five, idx := EvaluateAchieved(ranker, cards);
    RankWithWellShaped(ranker, five);
  }
}

/** src/engines/monte_carlo_engine.js: a fixed number of trials, each
    dealing the CPU hand and the missing community cards from a partially
    shuffled copy of the unseen cards, scored like the exact engine. The
    random draws are passed in: trial `i` swaps position `j` with position
    `j + draws[i][j]`. */
module MonteCarloEngines {
  import opened Wrappers
  import opened Seqs
  import opened Cards
  import opened HandEvaluator
  import opened ProbabilityEngines
  import opened GameStates

  /** The offsets of one trial fit a pool of `size` cards: the swap at
      position `j` (of the first `cardsNeeded`) stays in `j .. size - 1`,
      as `j + Math.floor(Math.random() * (size - j))` does. */
  ghost predicate OffsetsFit(offsets: seq<nat>, size: nat, cardsNeeded: int) {
    && |offsets| >= cardsNeeded
    && forall j :: 0 <= j < |offsets| && j < cardsNeeded && j < size ==> j + offsets[j] < size
  }

  /** There is a fitting set of offsets for every trial. */
  ghost predicate DrawsFit(draws: seq<seq<nat>>, simulations: int, size: nat, cardsNeeded: int) {
    && |draws| >= simulations
    && forall i :: 0 <= i < |draws| ==> OffsetsFit(draws[i], size, cardsNeeded)
  }

  /** The first `j` steps of the shuffle loop. */
  function PartialShuffle(deck: seq<Card>, offsets: seq<nat>, j: nat): (r: seq<Card>)
    requires j <= |deck| && j <= |offsets|
    requires forall k :: 0 <= k < j ==> k + offsets[k] < |deck|
    ensures |r| == |deck|
    decreases j
  {
    if j == 0 then deck
    else Swap(PartialShuffle(deck, offsets, j - 1), j - 1, j - 1 + offsets[j - 1])
  }

  /** The partial shuffle only reorders the cards. */
  lemma {:induction false} PartialShufflePermutes(deck: seq<Card>, offsets: seq<nat>, j: nat)
    requires j <= |deck| && j <= |offsets|
    requires forall k :: 0 <= k < j ==> k + offsets[k] < |deck|
    ensures multiset(PartialShuffle(deck, offsets, j)) == multiset(deck)
    decreases j
  {
    if j > 0 {
      PartialShufflePermutes(deck, offsets, j - 1);
      SwapPermutes(PartialShuffle(deck, offsets, j - 1), j - 1, j - 1 + offsets[j - 1]);
    }
  }

  /** One more step of the shuffle loop. */
  lemma PartialShuffleStep(deck: seq<Card>, offsets: seq<nat>, j: nat, before: seq<Card>, after: seq<Card>)
    requires j < |deck| && j < |offsets|
    requires forall k :: 0 <= k <= j ==> k + offsets[k] < |deck|
    requires before == PartialShuffle(deck, offsets, j) && after == Swap(before, j, j + offsets[j])
    ensures after == PartialShuffle(deck, offsets, j + 1)
  {
  }

  /** `Array.prototype.slice(start, end)` for a start within the array: a
      negative end counts from the back, an end past the array is cut to
      its length, and an end not after the start gives the empty array. */
  function Slice<T>(s: seq<T>, start: nat, end: int): (r: seq<T>)
    requires start <= |s|
    ensures |r| <= |s| - start
    ensures forall i :: 0 <= i < |r| ==> r[i] == s[start + i]
  {
    var e := if end < 0 then (if |s| + end > 0 then |s| + end else 0)
             else if end > |s| then |s| else end;
    if e > start then s[start..e] else []
  }

  /** `cardsNeeded` of the trial loop: the CPU hand and the missing board. */
  function CardsNeeded(community: seq<Card>): int {
    2 + (5 - |community|)
  }

  /** The unseen cards are enough for a trial: two CPU cards and every
      missing community card. */
  predicate Enough(available: seq<Card>, community: seq<Card>) {
    |available| >= 2 && |available| >= CardsNeeded(community)
  }

  /** `currentDeck` once the shuffle loop of one trial has run. */
  function Shuffled(available: seq<Card>, community: seq<Card>, offsets: seq<nat>): (r: seq<Card>)
    requires Enough(available, community) && OffsetsFit(offsets, |available|, CardsNeeded(community))
    ensures |r| == |available|
  {
    var n := CardsNeeded(community);
    PartialShuffle(available, offsets, if n > 0 then n else 0)
  }

  /** The scenario of one trial: the first two cards of the shuffled copy
      for the CPU, and `slice(2, 2 + neededCommunity)` for the board. The
      board always completes the community to five cards or more. */
  function Trial(available: seq<Card>, community: seq<Card>, offsets: seq<nat>): (s: Scenario)
    requires Enough(available, community) && OffsetsFit(offsets, |available|, CardsNeeded(community))
    ensures |s.cpuHand| == 2
    ensures 5 - |community| > 0 ==> |s.extraBoard| == 5 - |community|
    ensures |community| + |s.extraBoard| >= 5
  {
    var deck := Shuffled(available, community, offsets);
    Scenario([deck[0], deck[1]], Slice(deck, 2, 2 + (5 - |community|)))
  }

  /** Every trial's offsets fit. */
  ghost predicate TrialsFit(trials: seq<seq<nat>>, size: nat, cardsNeeded: int) {
    forall i :: 0 <= i < |trials| ==> OffsetsFit(trials[i], size, cardsNeeded)
  }

  /** The counters after the trials driven by `trials`, in order. */
  function TallyTrials(res: Results, playerHand: seq<Card>, community: seq<Card>,
                       available: seq<Card>, trials: seq<seq<nat>>): (r: Results)
    requires HasAllRanks(res) && Enough(available, community)
    requires TrialsFit(trials, |available|, CardsNeeded(community))
    ensures HasAllRanks(r) && r.handDistribution.value.Keys == res.handDistribution.value.Keys
    ensures r.totalSimulations == res.totalSimulations
    decreases |trials|
  {
    if trials == [] then res
    else
      var n := |trials| - 1;
      assert TrialsFit(trials[..n], |available|, CardsNeeded(community)) by {
        assert forall i :: 0 <= i < n ==> trials[..n][i] == trials[i];
      }
      var s := Trial(available, community, trials[n]);
      Score(TallyTrials(res, playerHand, community, available, trials[..n]), playerHand, community, s.cpuHand, s.extraBoard)
  }

  lemma TallyTrialsSnoc(res: Results, playerHand: seq<Card>, community: seq<Card>,
                        available: seq<Card>, trials: seq<seq<nat>>, i: nat)
    requires HasAllRanks(res) && Enough(available, community) && i < |trials|
    requires TrialsFit(trials, |available|, CardsNeeded(community))
    ensures TrialsFit(trials[..i], |available|, CardsNeeded(community))
    ensures TrialsFit(trials[..i + 1], |available|, CardsNeeded(community))
    ensures var s := Trial(available, community, trials[i]);
      TallyTrials(res, playerHand, community, available, trials[..i + 1])
        == Score(TallyTrials(res, playerHand, community, available, trials[..i]), playerHand, community, s.cpuHand, s.extraBoard)
  {
    assert forall k :: 0 <= k <= i ==> trials[..i + 1][k] == trials[k];
    assert trials[..i + 1][..i] == trials[..i];
  }

  /** Each trial scores one scenario and keeps the counters balanced. */
  lemma {:induction false} TallyTrialsBalanced(res: Results, playerHand: seq<Card>, community: seq<Card>,
                                               available: seq<Card>, trials: seq<seq<nat>>)
    requires Balanced(res) && Enough(available, community)
    requires TrialsFit(trials, |available|, CardsNeeded(community))
    ensures Balanced(TallyTrials(res, playerHand, community, available, trials))
    ensures Played(TallyTrials(res, playerHand, community, available, trials)) == Played(res) + |trials|
    decreases |trials|
  {
    if trials != [] {
      var n := |trials| - 1;
      TallyTrialsSnoc(res, playerHand, community, available, trials, n);
      assert trials[..n + 1] == trials;
      TallyTrialsBalanced(res, playerHand, community, available, trials[..n]);
      var s := Trial(available, community, trials[n]);
      ScoreBalanced(TallyTrials(res, playerHand, community, available, trials[..n]), playerHand, community, s.cpuHand, s.extraBoard);
    }
  }

  /** The cards of a trial are `2 + neededCommunity` (or more, with a
      negative slice end) distinct cards of the unseen pool: a prefix of a
      permutation of it. */
  lemma TrialCardsDistinct(available: seq<Card>, community: seq<Card>, offsets: seq<nat>)
    requires Distinct(available)
    requires Enough(available, community) && OffsetsFit(offsets, |available|, CardsNeeded(community))
    ensures var s := Trial(available, community, offsets);
      && Distinct(s.cpuHand + s.extraBoard)
      && (forall c :: c in s.cpuHand + s.extraBoard ==> c in available)
  {
    var n := CardsNeeded(community);
    PartialShufflePermutes(available, offsets, if n > 0 then n else 0);
    var deck := Shuffled(available, community, offsets);
    var s := Trial(available, community, offsets);
    var drawn := s.cpuHand + s.extraBoard;
    assert drawn == deck[..|drawn|] by {
      forall i | 0 <= i < |drawn| ensures drawn[i] == deck[i] {
        if i >= 2 {
          assert drawn[i] == s.extraBoard[i - 2];
        }
      }
    }
    PrefixOfPermutation(available, deck, |drawn|);
  }

  /** A prefix of a reordering of a distinct sequence is distinct and
      draws from it. */
  lemma PrefixOfPermutation(available: seq<Card>, deck: seq<Card>, m: nat)
    requires Distinct(available) && multiset(deck) == multiset(available) && m <= |deck|
    ensures Distinct(deck[..m]) && forall c :: c in deck[..m] ==> c in available
  {
    PermutationDistinct(available, deck);
    forall c | c in deck[..m] ensures c in available {
      assert c in multiset(deck);
    }
  }

  /** The trial's counters start from the reset distribution. */
  lemma TallyTrialsPlayed(playerHand: seq<Card>, community: seq<Card>, available: seq<Card>,
                          trials: seq<seq<nat>>, start: Results)
    requires Enough(available, community) && TrialsFit(trials, |available|, CardsNeeded(community))
    requires Balanced(start) && Played(start) == 0
    ensures Balanced(TallyTrials(start, playerHand, community, available, trials))
    ensures Played(TallyTrials(start, playerHand, community, available, trials)) == |trials|
  {
    TallyTrialsBalanced(start, playerHand, community, available, trials);
  }

  /** A run of `simulations` trials scores each once and leaves the
      counters balanced. */
  lemma MonteCarloPlayed(playerHand: seq<Card>, community: seq<Card>, available: seq<Card>,
                         draws: seq<seq<nat>>, simulations: int)
    requires simulations > 0 && Enough(available, community)
    requires DrawsFit(draws, simulations, |available|, CardsNeeded(community))
    ensures TrialsFit(draws[..simulations], |available|, CardsNeeded(community))
    ensures Balanced(TallyTrials(Initial(simulations), playerHand, community, available, draws[..simulations]))
    ensures Played(TallyTrials(Initial(simulations), playerHand, community, available, draws[..simulations])) == simulations
  {
    assert forall i :: 0 <= i < simulations ==> draws[..simulations][i] == draws[i];
    InitialBalanced(simulations);
    TallyTrialsPlayed(playerHand, community, available, draws[..simulations], Initial(simulations));
  }

  /** One entry of the returned distribution: no loss or tie rate. */
  datatype SampleSummary = SampleSummary(name: string, probability: Ratio, winRate: Ratio, causingHands: set<string>)

  /** The object `computeProbabilities` returns. */
  datatype SampleReport = SampleReport(playerWin: Ratio, cpuWin: Ratio, tie: Ratio,
    totalSimulations: int, handDistribution: map<int, SampleSummary>)

  /** A category's share of the trials, over the requested number of
      trials, and the CPU's win rate in it. */
  function SampleSummaryOf(s: RankStats, total: int): SampleSummary {
    SampleSummary(ReadableName(s.name), Ratio(s.count, total), Ratio(s.wins, s.count), s.causingHands)
  }

  /** `computeProbabilities`: every share is over `this.simulations`, not
      over the trials actually counted. */
  function SampleReportOf(res: Results, simulations: int): SampleReport
    requires res.handDistribution.Some?
  {
    var d := res.handDistribution.value;
    SampleReport(Ratio(res.playerWins, simulations), Ratio(res.cpuWins, simulations), Ratio(res.ties, simulations),
      simulations, map r | r in d && d[r].count > 0 :: SampleSummaryOf(d[r], simulations))
  }

  /** The numerators of the category probabilities over categories 1..n. */
  function SampleProbabilitySum(m: map<int, SampleSummary>, n: nat): int {
    if n < HighCard then 0
    else (if n in m then m[n].probability.num else 0) + SampleProbabilitySum(m, n - 1)
  }

  lemma {:induction false} SampleProbabilitySumCounts(res: Results, simulations: int, n: nat)
    requires res.handDistribution.Some?
    ensures SampleProbabilitySum(SampleReportOf(res, simulations).handDistribution, n)
         == Sum(res.handDistribution.value, Count, n)
    decreases n
  {
    if n >= HighCard {
      SampleProbabilitySumCounts(res, simulations, n - 1);
    }
  }

  /** After `simulations` trials on balanced counters: the three outcome
      shares and the category probabilities add up to the number of
      trials, every share is over `simulations`, only categories some
      trial reached appear, and each win rate is over its category's
      count. */
  lemma SampleReportConsistent(res: Results, simulations: int)
    requires Balanced(res) && Played(res) == (if simulations > 0 then simulations else 0)
    ensures var rep := SampleReportOf(res, simulations);
      && rep.totalSimulations == simulations
      && rep.playerWin.num + rep.cpuWin.num + rep.tie.num == Played(res)
      && rep.playerWin.den == rep.cpuWin.den == rep.tie.den == simulations
      && (forall r :: r in rep.handDistribution <==>
            r in res.handDistribution.value && res.handDistribution.value[r].count > 0)
      && SampleProbabilitySum(rep.handDistribution, RoyalFlush) == Played(res)
      && (forall r :: r in rep.handDistribution ==>
            var e := rep.handDistribution[r];
            && e.probability.den == simulations
            && e.winRate.den == e.probability.num > 0
            && e.winRate.num <= e.winRate.den)
  {
    BalancedCounts(res);
    SampleProbabilitySumCounts(res, simulations, RoyalFlush);
  }

  class MonteCarloEngine {
    /** The inherited `ProbabilityEngine` part, holding `this.results`. */
    const base: ProbabilityEngine
    /** The number of trials; it is neither checked nor clamped. */
    const simulations: int

    constructor (simulations: int := 10000)
      ensures fresh(base) && base.results == Zero && this.simulations == simulations
    {
      base := new ProbabilityEngine();
      this.simulations := simulations;
    }

    /** Runs `simulations` trials from fresh counters. When a trial would
        need more cards than are unseen, the source reads past the end of
        `currentDeck` and then fails on the missing card; that failure is
        `NotEnoughCards`, with the counters as reset. */
    method Calculate(gameState: GameState, draws: seq<seq<nat>>) returns (report: Result<SampleReport, EngineError>)
      requires DrawsFit(draws, simulations, |gameState.deck.cards|, CardsNeeded(gameState.communityCards))
      modifies base
      ensures report.Failure? <==>
        simulations > 0 && !Enough(gameState.deck.cards, gameState.communityCards)
      ensures report.Failure? ==> report.error == NotEnoughCards && base.results == Initial(simulations)
      ensures report.Success? ==>
        base.results.handDistribution.Some? && report.value == SampleReportOf(base.results, simulations)
      ensures report.Success? && simulations <= 0 ==> base.results == Initial(simulations)
      ensures report.Success? && simulations > 0 ==>
        && Enough(gameState.deck.cards, gameState.communityCards)
        && TrialsFit(draws[..simulations], |gameState.deck.cards|, CardsNeeded(gameState.communityCards))
        && base.results == TallyTrials(Initial(simulations), gameState.playerHand, gameState.communityCards,
             gameState.deck.cards, draws[..simulations])
    {
      base.ResetStats();
      base.results := base.results.(totalSimulations := simulations);
      var distribution := NewDistribution();
      base.results := base.results.(handDistribution := Some(distribution));

      var availableCards := gameState.deck.cards;
      var playerHand, community := gameState.playerHand, gameState.communityCards;
      var cardsNeeded := CardsNeeded(community);
      if simulations > 0 && (|availableCards| < 2 || |availableCards| < cardsNeeded) {
        return Failure(NotEnoughCards);
      }
      if simulations <= 0 {
        return Success(SampleReportOf(base.results, simulations));
      }
      ghost var start := base.results;
      for i := 0 to simulations
        invariant TrialsFit(draws[..i], |availableCards|, cardsNeeded)
        invariant base.results == TallyTrials(start, playerHand, community, availableCards, draws[..i])
      {
        TallyTrialsSnoc(start, playerHand, community, availableCards, draws, i);
        var cpuHand, extraBoard := Deal(availableCards, community, draws[i]);
        base.EvaluateScenario(playerHand, community, cpuHand, extraBoard, HandString(cpuHand));
      }
      report := Success(SampleReportOf(base.results, simulations));
    }

    /** One trial's deal: a fresh copy of the unseen cards, the first
        `cardsNeeded` positions swapped with later ones, then the CPU hand
        and the extra board read off the front. */
    method Deal(availableCards: seq<Card>, community: seq<Card>, offsets: seq<nat>)
      returns (cpuHand: seq<Card>, extraBoard: seq<Card>)
      requires Enough(availableCards, community) && OffsetsFit(offsets, |availableCards|, CardsNeeded(community))
      ensures Scenario(cpuHand, extraBoard) == Trial(availableCards, community, offsets)
    {
      var neededCommunity := 5 - |community|;
      var cardsNeeded := 2 + neededCommunity;
      var currentDeck := new Card[|availableCards|](k requires 0 <= k < |availableCards| => availableCards[k]);
      var j := 0;
      while j < cardsNeeded
        invariant 0 <= j <= if cardsNeeded > 0 then cardsNeeded else 0
        invariant currentDeck[..] == PartialShuffle(availableCards, offsets, j)
      {
        var r := j + offsets[j];
        ghost var before := currentDeck[..];
        currentDeck[j], currentDeck[r] := currentDeck[r], currentDeck[j];
        ghost var after := currentDeck[..];
        assert after == Swap(before, j, r);
        PartialShuffleStep(availableCards, offsets, j, before, after);
        j := j + 1;
      }
      assert j == if cardsNeeded > 0 then cardsNeeded else 0;
      ghost var deck := currentDeck[..];
      assert deck == Shuffled(availableCards, community, offsets);
      cpuHand := [currentDeck[0], currentDeck[1]];
      extraBoard := Slice(currentDeck[..], 2, 2 + neededCommunity);
    }
  }
}

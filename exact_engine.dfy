/** src/engines/exact_engine.js: every CPU hand of two unseen cards, and for
    each every completion of the board from the cards left, scored once. */
module ExactEngines {
  import opened Wrappers
  import opened Seqs
  import opened Cards
  import opened Decks
  import opened Combinatorics
  import opened HandEvaluator
  import opened ProbabilityEngines
  import opened GameStates

  /** The boards tried for one CPU hand: the combinations of the remaining
      cards when community cards are missing, otherwise the empty board. */
  function BoardsFor(remaining: seq<Card>, needed: int): seq<seq<Card>> {
    if needed > 0 then Combinations(remaining, needed) else [[]]
  }

  /** The boards `calculate` tries for the CPU hand `cpuHand`: those of
      `remainingForBoard`, the unseen cards other than the CPU's. */
  function CpuBoards(available: seq<Card>, community: seq<Card>, cpuHand: seq<Card>): seq<seq<Card>> {
    BoardsFor(Without(available, cpuHand), 5 - |community|)
  }

  /** Each board completes the community to five cards when some are
      missing, and is empty otherwise. */
  lemma BoardsShape(remaining: seq<Card>, needed: int, b: seq<Card>)
    requires b in BoardsFor(remaining, needed)
    ensures |b| == if needed > 0 then needed else 0
  {
    if needed > 0 {
      var _ := CombinationsSound(remaining, needed, b);
    }
  }

  /** Every board completes the community to five cards or more. */
  ghost predicate Completes(community: seq<Card>, boards: seq<seq<Card>>) {
    forall i :: 0 <= i < |boards| ==> |community| + |boards[i]| >= 5
  }

  /** The boards of `calculate` always complete the community: to exactly
      five cards when some are missing, and the empty board leaves five or
      more. */
  lemma BoardsComplete(remaining: seq<Card>, community: seq<Card>)
    ensures Completes(community, BoardsFor(remaining, 5 - |community|))
  {
    var boards := BoardsFor(remaining, 5 - |community|);
    forall i | 0 <= i < |boards| ensures |community| + |boards[i]| >= 5 {
      BoardsShape(remaining, 5 - |community|, boards[i]);
    }
  }

  /** The inner loop of `calculate`: the counters after scoring the CPU
      hand `cpuHand` on each of `boards` in order. */
  function TallyBoards(res: Results, playerHand: seq<Card>, community: seq<Card>,
                       cpuHand: seq<Card>, boards: seq<seq<Card>>): (r: Results)
    requires HasAllRanks(res) && Completes(community, boards)
    ensures HasAllRanks(r) && r.handDistribution.value.Keys == res.handDistribution.value.Keys
    ensures r.totalSimulations == res.totalSimulations
    decreases |boards|
  {
    if boards == [] then res
    else
      var n := |boards| - 1;
      assert Completes(community, boards[..n]) by {
        assert forall i :: 0 <= i < n ==> boards[..n][i] == boards[i];
      }
      Score(TallyBoards(res, playerHand, community, cpuHand, boards[..n]), playerHand, community, cpuHand, boards[n])
  }

  lemma TallyBoardsSnoc(res: Results, playerHand: seq<Card>, community: seq<Card>,
                        cpuHand: seq<Card>, boards: seq<seq<Card>>, b: nat)
    requires HasAllRanks(res) && Completes(community, boards) && b < |boards|
    ensures Completes(community, boards[..b]) && Completes(community, boards[..b + 1])
    ensures TallyBoards(res, playerHand, community, cpuHand, boards[..b + 1])
         == Score(TallyBoards(res, playerHand, community, cpuHand, boards[..b]), playerHand, community, cpuHand, boards[b])
  {
    assert forall i :: 0 <= i <= b ==> boards[..b + 1][i] == boards[i];
    assert boards[..b + 1][..b] == boards[..b];
  }

  /** The outer loop of `calculate`: the counters after scoring each CPU
      hand of `cpus` in order, each on all of its boards. */
  function TallyCpus(res: Results, playerHand: seq<Card>, community: seq<Card>,
                     available: seq<Card>, cpus: seq<seq<Card>>): (r: Results)
    requires HasAllRanks(res)
    ensures HasAllRanks(r) && r.handDistribution.value.Keys == res.handDistribution.value.Keys
    ensures r.totalSimulations == res.totalSimulations
    decreases |cpus|
  {
    if cpus == [] then res
    else
      var n := |cpus| - 1;
      BoardsComplete(Without(available, cpus[n]), community);
      TallyBoards(TallyCpus(res, playerHand, community, available, cpus[..n]), playerHand, community,
        cpus[n], CpuBoards(available, community, cpus[n]))
  }

  lemma TallyCpusSnoc(res: Results, playerHand: seq<Card>, community: seq<Card>,
                      available: seq<Card>, cpus: seq<seq<Card>>, k: nat)
    requires HasAllRanks(res) && k < |cpus|
    ensures Completes(community, CpuBoards(available, community, cpus[k]))
    ensures TallyCpus(res, playerHand, community, available, cpus[..k + 1])
         == TallyBoards(TallyCpus(res, playerHand, community, available, cpus[..k]), playerHand, community,
              cpus[k], CpuBoards(available, community, cpus[k]))
  {
    BoardsComplete(Without(available, cpus[k]), community);
    assert cpus[..k + 1][..k] == cpus[..k];
  }

  /** What `calculate` leaves in the counters for a position: the counters
      after scoring every CPU hand of two unseen cards. */
  function ExactTally(playerHand: seq<Card>, community: seq<Card>, available: seq<Card>): (r: Results)
    ensures HasAllRanks(r) && r.totalSimulations == 0
  {
    TallyCpus(Initial(0), playerHand, community, available, Combinations(available, 2))
  }

  /** The scenarios of one CPU hand, one per board. */
  function WithCpu(cpuHand: seq<Card>, boards: seq<seq<Card>>): (ss: seq<Scenario>)
    ensures |ss| == |boards|
    ensures forall i :: 0 <= i < |boards| ==> ss[i] == Scenario(cpuHand, boards[i])
  {
    seq(|boards|, i requires 0 <= i < |boards| => Scenario(cpuHand, boards[i]))
  }

  /** The scenarios of one CPU hand. */
  function CpuScenarios(available: seq<Card>, needed: int, cpuHand: seq<Card>): seq<Scenario> {
    WithCpu(cpuHand, BoardsFor(Without(available, cpuHand), needed))
  }

  /** The scenarios of the CPU hands `cpus`, in the order `calculate`
      visits them. */
  function ScenariosFor(available: seq<Card>, needed: int, cpus: seq<seq<Card>>): seq<Scenario>
    decreases |cpus|
  {
    if cpus == [] then []
    else ScenariosFor(available, needed, cpus[..|cpus| - 1]) + CpuScenarios(available, needed, cpus[|cpus| - 1])
  }

  /** Every scenario `calculate` scores, in order. */
  function ExactScenarios(available: seq<Card>, needed: int): seq<Scenario> {
    ScenariosFor(available, needed, Combinations(available, 2))
  }

  lemma WithCpuMembers(cpuHand: seq<Card>, boards: seq<seq<Card>>, s: Scenario)
    ensures s in WithCpu(cpuHand, boards) <==> s.cpuHand == cpuHand && s.extraBoard in boards
  {
    if s.cpuHand == cpuHand && s.extraBoard in boards {
      var i :| 0 <= i < |boards| && boards[i] == s.extraBoard;
      assert WithCpu(cpuHand, boards)[i] == s;
    }
  }

  lemma {:induction false} ScenariosForMembers(available: seq<Card>, needed: int, cpus: seq<seq<Card>>, s: Scenario)
    ensures s in ScenariosFor(available, needed, cpus)
       <==> s.cpuHand in cpus && s.extraBoard in BoardsFor(Without(available, s.cpuHand), needed)
    decreases |cpus|
  {
    if cpus != [] {
      var n := |cpus| - 1;
      ScenariosForMembers(available, needed, cpus[..n], s);
      WithCpuMembers(cpus[n], BoardsFor(Without(available, cpus[n]), needed), s);
      assert cpus == cpus[..n] + [cpus[n]];
    }
  }

  /** The scenarios are exactly the pairs of a two-card CPU hand from the
      unseen cards and a board from the cards left. */
  lemma ExactScenariosMembers(available: seq<Card>, needed: int, s: Scenario)
    ensures s in ExactScenarios(available, needed)
       <==> s.cpuHand in Combinations(available, 2) && s.extraBoard in BoardsFor(Without(available, s.cpuHand), needed)
  {
    ScenariosForMembers(available, needed, Combinations(available, 2), s);
  }

  lemma WithCpuDistinct(cpuHand: seq<Card>, boards: seq<seq<Card>>)
    requires Distinct(boards)
    ensures Distinct(WithCpu(cpuHand, boards))
  {
  }

  lemma BoardsDistinct(remaining: seq<Card>, needed: int)
    requires Distinct(remaining)
    ensures Distinct(BoardsFor(remaining, needed))
  {
    if needed > 0 {
      CombinationsDistinct(remaining, needed);
    }
  }

  lemma {:induction false} ScenariosForDistinct(available: seq<Card>, needed: int, cpus: seq<seq<Card>>)
    requires Distinct(available) && Distinct(cpus)
    ensures Distinct(ScenariosFor(available, needed, cpus))
    decreases |cpus|
  {
    if cpus != [] {
      var n := |cpus| - 1;
      var a := ScenariosFor(available, needed, cpus[..n]);
      var b := CpuScenarios(available, needed, cpus[n]);
      ScenariosForDistinct(available, needed, cpus[..n]);
      WithoutDistinct(available, cpus[n]);
      BoardsDistinct(Without(available, cpus[n]), needed);
      WithCpuDistinct(cpus[n], BoardsFor(Without(available, cpus[n]), needed));
      forall i, j | 0 <= i < |a| && 0 <= j < |b| ensures a[i] != b[j] {
        ScenariosForMembers(available, needed, cpus[..n], a[i]);
        assert b[j].cpuHand == cpus[n];
        assert cpus[n] !in cpus[..n];
      }
      var ab := a + b;
      forall i, j | 0 <= i < j < |ab| ensures ab[i] != ab[j] {
        if j < |a| {
          assert ab[i] == a[i] && ab[j] == a[j];
        } else if i >= |a| {
          assert ab[i] == b[i - |a|] && ab[j] == b[j - |a|];
        } else {
          assert ab[i] == a[i] && ab[j] == b[j - |a|];
        }
      }
    }
  }

  /** Over a deck without duplicates no scenario is scored twice. */
  lemma ExactScenariosDistinct(available: seq<Card>, needed: int)
    requires Distinct(available)
    ensures Distinct(ExactScenarios(available, needed))
  {
    CombinationsDistinct(available, 2);
    ScenariosForDistinct(available, needed, Combinations(available, 2));
  }

  /** Scoring keeps the counters balanced: starting from balanced counters
      the boards of one CPU hand score one scenario each. */
  lemma {:induction false} TallyBoardsBalanced(res: Results, playerHand: seq<Card>, community: seq<Card>,
                                               cpuHand: seq<Card>, boards: seq<seq<Card>>)
    requires Balanced(res) && Completes(community, boards)
    ensures Balanced(TallyBoards(res, playerHand, community, cpuHand, boards))
    ensures Played(TallyBoards(res, playerHand, community, cpuHand, boards)) == Played(res) + |boards|
    decreases |boards|
  {
    if boards != [] {
      var n := |boards| - 1;
      TallyBoardsSnoc(res, playerHand, community, cpuHand, boards, n);
      assert boards[..n + 1] == boards;
      TallyBoardsBalanced(res, playerHand, community, cpuHand, boards[..n]);
      ScoreBalanced(TallyBoards(res, playerHand, community, cpuHand, boards[..n]), playerHand, community, cpuHand, boards[n]);
    }
  }

  /** The counters stay balanced and count one scenario per entry of the
      scenario list. */
  lemma {:induction false} TallyCpusBalanced(res: Results, playerHand: seq<Card>, community: seq<Card>,
                                             available: seq<Card>, cpus: seq<seq<Card>>)
    requires Balanced(res)
    ensures Balanced(TallyCpus(res, playerHand, community, available, cpus))
    ensures Played(TallyCpus(res, playerHand, community, available, cpus))
         == Played(res) + |ScenariosFor(available, 5 - |community|, cpus)|
    decreases |cpus|
  {
    if cpus != [] {
      var n := |cpus| - 1;
      TallyCpusSnoc(res, playerHand, community, available, cpus, n);
      assert cpus[..n + 1] == cpus;
      TallyCpusBalanced(res, playerHand, community, available, cpus[..n]);
      TallyBoardsBalanced(TallyCpus(res, playerHand, community, available, cpus[..n]), playerHand, community,
        cpus[n], CpuBoards(available, community, cpus[n]));
    }
  }

  lemma ExactTallyFrom(playerHand: seq<Card>, community: seq<Card>, available: seq<Card>, start: Results)
    requires Balanced(start) && Played(start) == 0
    ensures Balanced(TallyCpus(start, playerHand, community, available, Combinations(available, 2)))
    ensures Played(TallyCpus(start, playerHand, community, available, Combinations(available, 2)))
         == |ExactScenarios(available, 5 - |community|)|
  {
    TallyCpusBalanced(start, playerHand, community, available, Combinations(available, 2));
  }

  lemma ExactTallyIs(playerHand: seq<Card>, community: seq<Card>, available: seq<Card>, start: Results)
    requires start == Initial(0)
    ensures ExactTally(playerHand, community, available) == TallyCpus(start, playerHand, community, available, Combinations(available, 2))
  {
  }

  /** After `calculate` the counters are balanced and have scored each
      scenario of the list once. */
  lemma ExactTallyBalanced(playerHand: seq<Card>, community: seq<Card>, available: seq<Card>)
    ensures Balanced(ExactTally(playerHand, community, available))
    ensures Played(ExactTally(playerHand, community, available)) == |ExactScenarios(available, 5 - |community|)|
  {
    InitialBalanced(0);
    ExactTallyFrom(playerHand, community, available, Initial(0));
  }

  /** Removing the cards of a sub-hand from a distinct deck leaves the
      other cards, so the deck shrinks by the size of the hand. */
  lemma WithoutLength(available: seq<Card>, hand: seq<Card>, idx: seq<nat>)
    requires Distinct(available) && SubseqAt(hand, available, idx)
    ensures |Without(available, hand)| == |available| - |hand|
  {
    var w := Without(available, hand);
    SubseqDistinct(hand, available, idx);
    WithoutDistinct(available, hand);
    DistinctCardinality(available);
    DistinctCardinality(hand);
    DistinctCardinality(w);
    forall c ensures c in Elems(w) <==> c in Elems(available) - Elems(hand) {
      WithoutMembers(available, hand, c);
    }
    assert Elems(w) == Elems(available) - Elems(hand);
    assert Elems(hand) <= Elems(available);
  }

  /** Boards per CPU hand: C(n - 2, missing), or the one given board. */
  function BoardCount(remaining: nat, needed: int): nat {
    if needed > 0 then Choose(remaining, needed) else 1
  }

  lemma MulSucc(n: nat, k: nat)
    ensures n * k + k == (n + 1) * k
  {
  }

  /** A CPU hand of two of `n` distinct unseen cards leaves n - 2 cards to
      complete the board from. */
  lemma CpuScenariosCount(available: seq<Card>, needed: int, cpuHand: seq<Card>)
    requires Distinct(available) && |available| >= 2 && cpuHand in Combinations(available, 2)
    ensures |CpuScenarios(available, needed, cpuHand)| == BoardCount(|available| - 2, needed)
  {
    var idx := CombinationsSound(available, 2, cpuHand);
    WithoutLength(available, cpuHand, idx);
    if needed > 0 {
      CombinationsCount(Without(available, cpuHand), needed);
    }
  }

  /** With `n` distinct unseen cards every CPU hand leaves n - 2 cards, so
      each CPU hand yields C(n - 2, missing) boards. */
  lemma {:induction false} ScenariosForCount(available: seq<Card>, needed: int, cpus: seq<seq<Card>>)
    requires Distinct(available) && |available| >= 2
    requires forall i :: 0 <= i < |cpus| ==> cpus[i] in Combinations(available, 2)
    ensures |ScenariosFor(available, needed, cpus)| == |cpus| * BoardCount(|available| - 2, needed)
    decreases |cpus|
  {
    if cpus != [] {
      var n := |cpus| - 1;
      var k := BoardCount(|available| - 2, needed);
      assert forall i :: 0 <= i < n ==> cpus[..n][i] == cpus[i];
      ScenariosForCount(available, needed, cpus[..n]);
      CpuScenariosCount(available, needed, cpus[n]);
      MulSucc(n, k);
    }
  }

  lemma ExactScenarioCount(available: seq<Card>, needed: int)
    requires Distinct(available) && |available| >= 2
    ensures |ExactScenarios(available, needed)| == Choose(|available|, 2) * BoardCount(|available| - 2, needed)
  {
    var cpus := Combinations(available, 2);
    CombinationsCount(available, 2);
    ScenariosForCount(available, needed, cpus);
  }

  /** On the turn (46 unseen cards, four community cards) `calculate`
      scores C(46, 2) * 44 = 45540 scenarios. */
  lemma TurnScenarioCount(playerHand: seq<Card>, community: seq<Card>, available: seq<Card>)
    requires Distinct(available) && |available| == 46 && |community| == 4
    ensures |ExactScenarios(available, 5 - |community|)| == 45540
    ensures Played(ExactTally(playerHand, community, available)) == 45540
  {
    TurnScenarios(available);
    ExactTallyBalanced(playerHand, community, available);
  }

  lemma TurnScenarios(available: seq<Card>)
    requires Distinct(available) && |available| == 46
    ensures |ExactScenarios(available, 1)| == 45540
  {
    var n := |available|;
    var pairs, boards := Choose(n, 2), BoardCount(n - 2, 1);
    ExactScenarioCount(available, 1);
    ChooseTwo(n);
    ChooseOne(n - 2);
    TurnProduct(pairs, boards, n);
  }

  lemma TurnProduct(pairs: nat, boards: nat, n: nat)
    requires n == 46 && 2 * pairs == n * (n - 1) && boards == n - 2
    ensures pairs * boards == 45540
  {
    assert pairs == 1035;
  }

  /** One entry of the returned distribution. */
  datatype RankSummary = RankSummary(name: string, probability: Ratio,
    winRate: Ratio, lossRate: Ratio, tieRate: Ratio, causingHands: set<string>)

  /** The object `computeProbabilities` returns. */
  datatype ExactReport = ExactReport(playerWin: Ratio, cpuWin: Ratio, tie: Ratio,
    totalScenarios: nat, handDistribution: map<int, RankSummary>)

  /** A category's share of the scenarios and the CPU's outcome rates in it. */
  function Summarize(s: RankStats, total: nat): RankSummary {
    RankSummary(ReadableName(s.name), Ratio(s.count, total),
      Ratio(s.wins, s.count), Ratio(s.losses, s.count), Ratio(s.ties, s.count), s.causingHands)
  }

  /** The entries among the categories `ks` that some scenario reached. */
  function Summaries(d: map<int, RankStats>, ks: set<int>, total: nat): map<int, RankSummary> {
    map r | r in ks && r in d && d[r].count > 0 :: Summarize(d[r], total)
  }

  /** `computeProbabilities`: shares of the scenarios scored so far. */
  function ExactReportOf(res: Results): ExactReport
    requires res.handDistribution.Some?
  {
    var total := Played(res);
    var d := res.handDistribution.value;
    ExactReport(Ratio(res.playerWins, total), Ratio(res.cpuWins, total), Ratio(res.ties, total),
      total, Summaries(d, d.Keys, total))
  }

  /** The numerators of the category probabilities over categories 1..n. */
  function ProbabilitySum(m: map<int, RankSummary>, n: nat): int {
    if n < HighCard then 0
    else (if n in m then m[n].probability.num else 0) + ProbabilitySum(m, n - 1)
  }

  lemma {:induction false} ProbabilitySumCounts(d: map<int, RankStats>, total: nat, n: nat)
    ensures ProbabilitySum(Summaries(d, d.Keys, total), n) == Sum(d, Count, n)
    decreases n
  {
    if n >= HighCard {
      ProbabilitySumCounts(d, total, n - 1);
    }
  }

  /** On balanced counters: the three outcome shares add up to the whole,
      only categories some scenario reached appear, their probabilities
      add up to the whole, and in each the CPU's win, loss and tie rates
      add up to one. */
  lemma ExactReportConsistent(res: Results)
    requires Balanced(res)
    ensures var rep := ExactReportOf(res);
      && rep.totalScenarios == Played(res)
      && rep.playerWin.num + rep.cpuWin.num + rep.tie.num == rep.totalScenarios
      && rep.playerWin.den == rep.cpuWin.den == rep.tie.den == rep.totalScenarios
      && (forall r :: r in rep.handDistribution <==>
            r in res.handDistribution.value && res.handDistribution.value[r].count > 0)
      && ProbabilitySum(rep.handDistribution, RoyalFlush) == rep.totalScenarios
      && (forall r :: r in rep.handDistribution ==>
            var e := rep.handDistribution[r];
            && e.probability.den == rep.totalScenarios
            && e.winRate.den == e.lossRate.den == e.tieRate.den == e.probability.num > 0
            && e.winRate.num + e.lossRate.num + e.tieRate.num == e.winRate.den)
  {
    var d := res.handDistribution.value;
    BalancedCounts(res);
    ProbabilitySumCounts(d, Played(res), RoyalFlush);
  }

  class ExactEngine {
    /** The inherited `ProbabilityEngine` part, holding `this.results`. */
    const base: ProbabilityEngine

    constructor ()
      ensures fresh(base) && base.results == Zero
    {
      base := new ProbabilityEngine();
    }

    /** Scores every scenario from a fresh set of counters and returns the
        report. The engine does not check the number of community cards:
        with five or more it scores each CPU hand once on the given board. */
    method Calculate(gameState: GameState) returns (report: ExactReport)
      modifies base
      ensures base.results == ExactTally(gameState.playerHand, gameState.communityCards, gameState.deck.cards)
      ensures report == ExactReportOf(base.results)
    {
      base.ResetStats();
      var distribution := NewDistribution();
      base.results := base.results.(handDistribution := Some(distribution));

      var availableCards := gameState.deck.cards;
      var playerHand, community := gameState.playerHand, gameState.communityCards;
      var cpuCombos := Combinations(availableCards, 2);

      ghost var start := base.results;
      for k := 0 to |cpuCombos|
        invariant base.results == TallyCpus(start, playerHand, community, availableCards, cpuCombos[..k])
      {
        TallyCpusSnoc(start, playerHand, community, availableCards, cpuCombos, k);
        ScoreCpuHand(playerHand, community, availableCards, cpuCombos[k]);
      }
      assert cpuCombos[..|cpuCombos|] == cpuCombos;
      ExactTallyIs(playerHand, community, availableCards, start);
      report := ExactReportOf(base.results);
    }

    /** The body of the outer loop of `calculate`: the CPU hand `cpuHand`
        on each board completing the community from the other unseen cards,
        or once on the given board when none is missing. */
    method ScoreCpuHand(playerHand: seq<Card>, community: seq<Card>, availableCards: seq<Card>, cpuHand: seq<Card>)
      requires HasAllRanks(base.results)
      modifies base
      ensures Completes(community, CpuBoards(availableCards, community, cpuHand))
      ensures base.results == TallyBoards(old(base.results), playerHand, community, cpuHand,
        CpuBoards(availableCards, community, cpuHand))
    {
      var neededCommunity := 5 - |community|;
      var cpuHandStr := HandString(cpuHand);
      var remainingForBoard := Without(availableCards, cpuHand);
      BoardsComplete(remainingForBoard, community);
      if neededCommunity > 0 {
        var boardCombos := Combinations(remainingForBoard, neededCommunity);
        assert boardCombos == CpuBoards(availableCards, community, cpuHand);
        ScoreBoards(playerHand, community, cpuHand, boardCombos, cpuHandStr);
      } else {
        ghost var before := base.results;
        base.EvaluateScenario(playerHand, community, cpuHand, [], cpuHandStr);
        TallyBoardsSnoc(before, playerHand, community, cpuHand, [[]], 0);
      }
    }

    /** The inner loop of `calculate`: the CPU hand `cpuHand` on every
        board of `boardCombos`. */
    method ScoreBoards(playerHand: seq<Card>, community: seq<Card>,
                       cpuHand: seq<Card>, boardCombos: seq<seq<Card>>, cpuHandStr: string)
      requires HasAllRanks(base.results) && Completes(community, boardCombos)
      requires cpuHandStr == HandString(cpuHand)
      modifies base
      ensures base.results == TallyBoards(old(base.results), playerHand, community, cpuHand, boardCombos)
    {
      ghost var start := base.results;
      for b := 0 to |boardCombos|
        invariant base.results == TallyBoards(start, playerHand, community, cpuHand, boardCombos[..b])
      {
        TallyBoardsSnoc(start, playerHand, community, cpuHand, boardCombos, b);
        base.EvaluateScenario(playerHand, community, cpuHand, boardCombos[b], cpuHandStr);
      }
      assert boardCombos[..|boardCombos|] == boardCombos;
    }
  }
}

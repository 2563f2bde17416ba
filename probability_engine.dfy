/** The counters of src/engines/probability_engine.js and the scoring of one
    scenario that src/engines/exact_engine.js and
    src/engines/monte_carlo_engine.js share word for word
    (`evaluateScenario`, `getReadableName`). */
module ProbabilityEngines {
  import opened Wrappers
  import opened Cards
  import opened HandEvaluator
  import opened HandComparison
  import opened GameStates

  /** A quotient the source computes in floating point, kept exact. */
  datatype Ratio = Ratio(num: int, den: int)

  /** One entry of `results.handDistribution`: the category's key name, how
      often the CPU ended in it, its outcomes from the CPU's side, and the
      CPU hands (as strings) that reached it. */
  datatype RankStats = RankStats(name: string, count: nat, wins: nat, losses: nat, ties: nat, causingHands: set<string>)

  /** `this.results`; `handDistribution` is absent until a subclass's
      `calculate` creates it. */
  datatype Results = Results(
    playerWins: nat, cpuWins: nat, ties: nat, totalSimulations: int,
    handDistribution: Option<map<int, RankStats>>)

  datatype EngineError = NotImplemented | NotEnoughCards

  /** The object the constructor and `resetStats` assign. */
  const Zero: Results := Results(0, 0, 0, 0, None)

  /** The keys of `HandEvaluator.RANKS`. */
  function RankKey(rank: int): string {
    if rank == HighCard then "HIGH_CARD"
    else if rank == Pair then "PAIR"
    else if rank == TwoPair then "TWO_PAIR"
    else if rank == ThreeOfAKind then "THREE_OF_A_KIND"
    else if rank == Straight then "STRAIGHT"
    else if rank == Flush then "FLUSH"
    else if rank == FullHouse then "FULL_HOUSE"
    else if rank == FourOfAKind then "FOUR_OF_A_KIND"
    else if rank == StraightFlush then "STRAIGHT_FLUSH"
    else "ROYAL_FLUSH"
  }

  /** The distribution `calculate` starts from: one empty entry per
      category 1..10. */
  function EmptyDistribution(): (d: map<int, RankStats>)
    ensures forall r :: r in d <==> HighCard <= r <= RoyalFlush
    ensures forall r :: r in d ==> d[r] == RankStats(RankKey(r), 0, 0, 0, 0, {})
  {
    map r | HighCard <= r <= RoyalFlush :: RankStats(RankKey(r), 0, 0, 0, 0, {})
  }

  /** The loop of `calculate` that fills the distribution, one entry per
      entry of `HandEvaluator.RANKS`. */
  method NewDistribution() returns (d: map<int, RankStats>)
    ensures d == EmptyDistribution()
  {
    d := map[];
    for rank := HighCard to RoyalFlush + 1
      invariant d == map r | HighCard <= r < rank :: RankStats(RankKey(r), 0, 0, 0, 0, {})
    {
      d := d[rank := RankStats(RankKey(rank), 0, 0, 0, 0, {})];
    }
  }

  /** The counters once `calculate` has created the distribution. */
  function Initial(totalSimulations: int): Results {
    Results(0, 0, 0, totalSimulations, Some(EmptyDistribution()))
  }

  /** There is an entry for every category. */
  ghost predicate HasAllRanks(res: Results) {
    res.handDistribution.Some? &&
    forall r :: HighCard <= r <= RoyalFlush ==> r in res.handDistribution.value
  }

  /** The scenarios scored so far. */
  function Played(res: Results): nat {
    res.playerWins + res.cpuWins + res.ties
  }

  /** `evaluateScenario` once both final hands are ranked. */
  function Tally(res: Results, player: HandResult, cpu: HandResult, cpuHandStr: string): (r: Results)
    requires res.handDistribution.Some? && cpu.rank in res.handDistribution.value
    ensures r.handDistribution.Some? && r.handDistribution.value.Keys == res.handDistribution.value.Keys
    ensures r.totalSimulations == res.totalSimulations
  {
    var d := res.handDistribution.value;
    var s := d[cpu.rank];
    var c := CompareHands(player, cpu);
    if c > 0 then
      Results(res.playerWins + 1, res.cpuWins, res.ties, res.totalSimulations,
        Some(d[cpu.rank := s.(count := s.count + 1, losses := s.losses + 1, causingHands := s.causingHands + {cpuHandStr})]))
    else if c < 0 then
      Results(res.playerWins, res.cpuWins + 1, res.ties, res.totalSimulations,
        Some(d[cpu.rank := s.(count := s.count + 1, wins := s.wins + 1, causingHands := s.causingHands + {cpuHandStr})]))
    else
      Results(res.playerWins, res.cpuWins, res.ties + 1, res.totalSimulations,
        Some(d[cpu.rank := s.(count := s.count + 1, ties := s.ties + 1, causingHands := s.causingHands + {cpuHandStr})]))
  }

  /** Scoring one scenario: the player's outcome moves exactly one of the
      three global counters, the CPU's category gains one scenario, the
      matching outcome seen from the CPU's side, and the CPU hand's string;
      every other category is untouched. */
  lemma TallyEffect(res: Results, player: HandResult, cpu: HandResult, cpuHandStr: string)
    requires res.handDistribution.Some? && cpu.rank in res.handDistribution.value
    ensures var r := Tally(res, player, cpu, cpuHandStr);
      var c := CompareHands(player, cpu);
      var before := res.handDistribution.value[cpu.rank];
      var after := r.handDistribution.value[cpu.rank];
      && r.playerWins == res.playerWins + (if c > 0 then 1 else 0)
      && r.cpuWins == res.cpuWins + (if c < 0 then 1 else 0)
      && r.ties == res.ties + (if c == 0 then 1 else 0)
      && after.name == before.name
      && after.count == before.count + 1
      && after.losses == before.losses + (if c > 0 then 1 else 0)
      && after.wins == before.wins + (if c < 0 then 1 else 0)
      && after.ties == before.ties + (if c == 0 then 1 else 0)
      && after.causingHands == before.causingHands + {cpuHandStr}
      && forall k :: k in res.handDistribution.value && k != cpu.rank ==>
           r.handDistribution.value[k] == res.handDistribution.value[k]
  {
  }

  /** One of the four counters of a category. */
  datatype Field = Count | Wins | Losses | Ties

  function Get(s: RankStats, f: Field): nat {
    match f
    case Count => s.count
    case Wins => s.wins
    case Losses => s.losses
    case Ties => s.ties
  }

  /** The field `f` summed over categories 1..n. */
  function Sum(d: map<int, RankStats>, f: Field, n: nat): nat {
    if n < HighCard then 0
    else (if n in d then Get(d[n], f) else 0) + Sum(d, f, n - 1)
  }

  /** The counters agree: every category's outcomes add up to its count,
      the player's wins are the CPU's losses summed over categories, the
      CPU's wins its wins and the ties its ties. */
  ghost predicate Balanced(res: Results) {
    && res.handDistribution.Some?
    && var d := res.handDistribution.value;
    && (forall r :: r in d <==> HighCard <= r <= RoyalFlush)
    && (forall r :: r in d ==> d[r].wins + d[r].losses + d[r].ties == d[r].count)
    && Sum(d, Losses, RoyalFlush) == res.playerWins
    && Sum(d, Wins, RoyalFlush) == res.cpuWins
    && Sum(d, Ties, RoyalFlush) == res.ties
  }

  lemma {:induction false} SumUpdate(d: map<int, RankStats>, k: int, s: RankStats, f: Field, n: nat)
    requires k in d
    ensures Sum(d[k := s], f, n) + (if HighCard <= k <= n then Get(d[k], f) else 0)
         == Sum(d, f, n) + (if HighCard <= k <= n then Get(s, f) else 0)
  {
    if n >= HighCard {
      SumUpdate(d, k, s, f, n - 1);
    }
  }

  lemma {:induction false} SumSplit(d: map<int, RankStats>, n: nat)
    requires forall r :: r in d ==> d[r].wins + d[r].losses + d[r].ties == d[r].count
    ensures Sum(d, Count, n) == Sum(d, Wins, n) + Sum(d, Losses, n) + Sum(d, Ties, n)
  {
    if n >= HighCard {
      SumSplit(d, n - 1);
    }
  }

  /** In balanced counters the category counts add up to the scenarios
      scored. */
  lemma BalancedCounts(res: Results)
    requires Balanced(res)
    ensures Sum(res.handDistribution.value, Count, RoyalFlush) == Played(res)
  {
    SumSplit(res.handDistribution.value, RoyalFlush);
  }

  lemma {:induction false} SumZero(f: Field, n: nat)
    ensures Sum(EmptyDistribution(), f, n) == 0
  {
    if n >= HighCard {
      SumZero(f, n - 1);
    }
  }

  /** The counters start balanced, with nothing scored. */
  lemma InitialBalanced(totalSimulations: int)
    ensures Balanced(Initial(totalSimulations)) && Played(Initial(totalSimulations)) == 0
  {
    SumZero(Losses, RoyalFlush);
    SumZero(Wins, RoyalFlush);
    SumZero(Ties, RoyalFlush);
  }

  /** Scoring a scenario keeps the counters balanced and scores one more. */
  lemma TallyBalanced(res: Results, player: HandResult, cpu: HandResult, cpuHandStr: string)
    requires Balanced(res) && HighCard <= cpu.rank <= RoyalFlush
    ensures Balanced(Tally(res, player, cpu, cpuHandStr))
    ensures Played(Tally(res, player, cpu, cpuHandStr)) == Played(res) + 1
  {
    var d := res.handDistribution.value;
    var r := Tally(res, player, cpu, cpuHandStr);
    var s := r.handDistribution.value[cpu.rank];
    TallyEffect(res, player, cpu, cpuHandStr);
    assert r.handDistribution.value == d[cpu.rank := s];
    SumUpdate(d, cpu.rank, s, Losses, RoyalFlush);
    SumUpdate(d, cpu.rank, s, Wins, RoyalFlush);
    SumUpdate(d, cpu.rank, s, Ties, RoyalFlush);
  }

  /** `([...cpuHand]).map(c => c.toString()).join(',')` */
  function HandString(cards: seq<Card>): string {
    Join(seq(|cards|, i requires 0 <= i < |cards| => ToString(cards[i])), ',')
  }

  /** `Array.prototype.join`. */
  function Join(ws: seq<string>, sep: char): string {
    if |ws| == 0 then ""
    else if |ws| == 1 then ws[0]
    else ws[0] + [sep] + Join(ws[1..], sep)
  }

  /** Both final hands have the five cards `evaluate` needs. */
  ghost predicate Evaluable(playerHand: seq<Card>, community: seq<Card>, cpuHand: seq<Card>, extraBoard: seq<Card>) {
    |playerHand| + |community| + |extraBoard| >= 5 && |cpuHand| + |community| + |extraBoard| >= 5
  }

  /** What `evaluateScenario` learns from one scenario: the player's and
      the CPU's ranked final hands, and the CPU hand's string. */
  datatype Outcome = Outcome(player: HandResult, cpu: HandResult, cpuHandStr: string)

  /** Both hands completed with the community cards and the extra board,
      and ranked. The CPU's category is one of the ten. */
  function ScenarioOutcome(playerHand: seq<Card>, community: seq<Card>,
                           cpuHand: seq<Card>, extraBoard: seq<Card>, cpuHandStr: string): (o: Outcome)
    requires Evaluable(playerHand, community, cpuHand, extraBoard)
    ensures HighCard <= o.cpu.rank <= RoyalFlush && o.cpuHandStr == cpuHandStr
  {
    var board := community + extraBoard;
    EvaluateWellShaped(AsWritten, cpuHand + board);
    Outcome(Evaluate(AsWritten, playerHand + board).value, Evaluate(AsWritten, cpuHand + board).value, cpuHandStr)
  }

  /** A scenario, the arguments `evaluateScenario` varies: a CPU hand and
      the cards it adds to the board. */
  datatype Scenario = Scenario(cpuHand: seq<Card>, extraBoard: seq<Card>)

  /** The counters after `evaluateScenario` scores the CPU hand `cpuHand`
      on the extra board `extraBoard`, with the hand's string built by
      `HandString` as both engines do. */
  function Score(res: Results, playerHand: seq<Card>, community: seq<Card>,
                 cpuHand: seq<Card>, extraBoard: seq<Card>): (r: Results)
    requires HasAllRanks(res) && Evaluable(playerHand, community, cpuHand, extraBoard)
    ensures HasAllRanks(r) && r.handDistribution.value.Keys == res.handDistribution.value.Keys
    ensures r.totalSimulations == res.totalSimulations
  {
    var o := ScenarioOutcome(playerHand, community, cpuHand, extraBoard, HandString(cpuHand));
    Tally(res, o.player, o.cpu, o.cpuHandStr)
  }

  /** Scoring a scenario keeps the counters balanced and scores one more. */
  lemma ScoreBalanced(res: Results, playerHand: seq<Card>, community: seq<Card>,
                      cpuHand: seq<Card>, extraBoard: seq<Card>)
    requires Balanced(res) && Evaluable(playerHand, community, cpuHand, extraBoard)
    ensures Balanced(Score(res, playerHand, community, cpuHand, extraBoard))
    ensures Played(Score(res, playerHand, community, cpuHand, extraBoard)) == Played(res) + 1
  {
    var o := ScenarioOutcome(playerHand, community, cpuHand, extraBoard, HandString(cpuHand));
    TallyBalanced(res, o.player, o.cpu, o.cpuHandStr);
  }

  /** The shared counters of the two engines. */
  class ProbabilityEngine {
    var results: Results

    constructor ()
      ensures results == Zero
    {
      results := Zero;
    }

    /** The base `calculate` always throws. */
    method Calculate(gameState: GameState) returns (r: Result<Results, EngineError>)
      ensures r == Failure(NotImplemented)
    {
      r := Failure(NotImplemented);
    }

    /** Replaces the whole results object, dropping any distribution. */
    method ResetStats()
      modifies this
      ensures results == Zero
    {
      results := Zero;
    }

    /** `evaluateScenario`, as both engines define it. */
    method EvaluateScenario(playerHand: seq<Card>, community: seq<Card>,
                            cpuHand: seq<Card>, extraBoard: seq<Card>, cpuHandStr: string)
      requires Evaluable(playerHand, community, cpuHand, extraBoard) && HasAllRanks(results)
      modifies this
      ensures var o := ScenarioOutcome(playerHand, community, cpuHand, extraBoard, cpuHandStr);
        results == Tally(old(results), o.player, o.cpu, cpuHandStr)
    {
      var finalBoard := community + extraBoard;
      var playerResult := Evaluate(AsWritten, playerHand + finalBoard);
      var cpuResult := Evaluate(AsWritten, cpuHand + finalBoard);
      EvaluateWellShaped(AsWritten, cpuHand + finalBoard);
      Record(playerResult.value, cpuResult.value, cpuHandStr);
    }

    /** The counter updates of `evaluateScenario`. */
    method Record(playerResult: HandResult, cpuResult: HandResult, cpuHandStr: string)
      requires HasAllRanks(results) && HighCard <= cpuResult.rank <= RoyalFlush
      modifies this
      ensures results == Tally(old(results), playerResult, cpuResult, cpuHandStr)
    {
      var comparison := CompareHands(playerResult, cpuResult);

      var d := results.handDistribution.value;
      var rankStats := d[cpuResult.rank];
      rankStats := rankStats.(count := rankStats.count + 1);
      rankStats := rankStats.(causingHands := rankStats.causingHands + {cpuHandStr});
      var playerWins, cpuWins, ties := results.playerWins, results.cpuWins, results.ties;
      if comparison > 0 {
        playerWins := playerWins + 1;
        rankStats := rankStats.(losses := rankStats.losses + 1);
      } else if comparison < 0 {
        cpuWins := cpuWins + 1;
        rankStats := rankStats.(wins := rankStats.wins + 1);
      } else {
        ties := ties + 1;
        rankStats := rankStats.(ties := rankStats.ties + 1);
      }
      results := Results(playerWins, cpuWins, ties, results.totalSimulations,
                         Some(d[cpuResult.rank := rankStats]));
    }
  }

  /** `String.prototype.toLowerCase` on ASCII letters. */
  function LowerChar(c: char): char {
    if 'A' <= c <= 'Z' then (c as int + 32) as char else c
  }

  /** `String.prototype.toUpperCase` on ASCII letters. */
  function UpperChar(c: char): char {
    if 'a' <= c <= 'z' then (c as int - 32) as char else c
  }

  function Lower(s: string): (r: string)
    ensures |r| == |s| && forall i :: 0 <= i < |s| ==> r[i] == LowerChar(s[i])
  {
    if s == [] then [] else [LowerChar(s[0])] + Lower(s[1..])
  }

  /** `String.prototype.split` on one character: always at least one piece. */
  function Split(s: string, sep: char): (ws: seq<string>)
    ensures |ws| >= 1
  {
    if s == [] then [""]
    else if s[0] == sep then [""] + Split(s[1..], sep)
    else var r := Split(s[1..], sep); [[s[0]] + r[0]] + r[1..]
  }

  /** `w.charAt(0).toUpperCase() + w.slice(1)` */
  function Capitalize(w: string): string {
    if w == [] then [] else [UpperChar(w[0])] + w[1..]
  }

  function CapitalizeAll(ws: seq<string>): (r: seq<string>)
    ensures |r| == |ws| && forall i :: 0 <= i < |ws| ==> r[i] == Capitalize(ws[i])
  {
    if ws == [] then [] else [Capitalize(ws[0])] + CapitalizeAll(ws[1..])
  }

  /** `getReadableName`: lower-case, split on '_', capitalise each word,
      join with spaces. */
  function ReadableName(constName: string): string {
    Join(CapitalizeAll(Split(Lower(constName), '_')), ' ')
  }

  /** A reference definition, character by character: '_' becomes a space,
      a character at the start of a word is upper-cased, the others are
      kept. */
  function TitleCase(t: string, start: bool): (r: string)
    ensures |r| == |t|
  {
    if t == [] then []
    else if t[0] == '_' then [' '] + TitleCase(t[1..], true)
    else [if start then UpperChar(t[0]) else t[0]] + TitleCase(t[1..], false)
  }

  lemma JoinCons(x: char, w: string, rest: seq<string>, sep: char)
    ensures Join([[x] + w] + rest, sep) == [x] + Join([w] + rest, sep)
  {
    if |rest| > 0 {
      assert ([[x] + w] + rest)[1..] == rest;
      assert ([w] + rest)[1..] == rest;
    }
  }

  lemma {:induction false} SplitTitleCase(t: string)
    ensures Join(CapitalizeAll(Split(t, '_')), ' ') == TitleCase(t, true)
    ensures var ws := Split(t, '_'); Join([ws[0]] + CapitalizeAll(ws[1..]), ' ') == TitleCase(t, false)
  {
    if t != [] {
      var ws := Split(t, '_');
      var r := Split(t[1..], '_');
      SplitTitleCase(t[1..]);
      if t[0] == '_' {
        assert ws == [""] + r;
        assert CapitalizeAll(ws) == [""] + CapitalizeAll(r);
        assert ws[1..] == r;
        assert Join([""] + CapitalizeAll(r), ' ') == [' '] + Join(CapitalizeAll(r), ' ');
      } else {
        assert ws == [[t[0]] + r[0]] + r[1..];
        assert CapitalizeAll(ws) == [[UpperChar(t[0])] + r[0]] + CapitalizeAll(r[1..]);
        JoinCons(UpperChar(t[0]), r[0], CapitalizeAll(r[1..]), ' ');
        assert ws[1..] == r[1..];
        JoinCons(t[0], r[0], CapitalizeAll(r[1..]), ' ');
      }
    }
  }

  /** `getReadableName` agrees with the character-by-character definition
      on the lower-cased name. */
  lemma ReadableNameIsTitleCase(constName: string)
    ensures ReadableName(constName) == TitleCase(Lower(constName), true)
  {
    SplitTitleCase(Lower(constName));
  }

  lemma LowerTwoPair()
    ensures Lower("TWO_PAIR") == "two_pair"
  {
    var l := Lower("TWO_PAIR");
    assert l[0] == 't' && l[1] == 'w' && l[2] == 'o' && l[3] == '_';
    assert l[4] == 'p' && l[5] == 'a' && l[6] == 'i' && l[7] == 'r';
  }

  lemma TitleTwoPair()
    ensures TitleCase("two_pair", true) == "Two Pair"
  {
    assert TitleCase("two_pair", true) == [UpperChar('t')] + TitleCase("wo_pair", false);
    assert TitleCase("wo_pair", false) == "wo Pair";
  }

  /** The example of the category key TWO_PAIR. */
  lemma ReadableTwoPair()
    ensures ReadableName("TWO_PAIR") == "Two Pair"
  {
    ReadableNameIsTitleCase("TWO_PAIR");
    LowerTwoPair();
    TitleTwoPair();
  }
}

# Two-player Texas Hold'em odds calculator, modelled in Dafny

This project models the core of a heads-up Texas Hold'em odds calculator.
The player's two hole cards and zero to five community cards are known. The
calculator estimates how often the player beats, loses to or ties an unknown
CPU hand. It also reports which hand categories the CPU makes and how often
each category wins.

The model covers:

- **Cards and the deck** (`cards.dfy`, `deck.dfy`). A card is a rank key
  `2`–`A` and a suit `c d h s`, with its value 2–14. The deck is rebuilt in
  suit-major order. The Fisher–Yates shuffle takes its random indices as a
  parameter. Dealing pops the last card. Removing known cards filters them
  out by rank and suit.
- **The game state** (`game_state.dfy`). It holds the player's, the CPU's
  and the community cards. Every setter rebuilds the deck and removes the
  known cards. A clone gets a fresh deck.
- **The hand evaluator** (`hand_evaluator.dfy`, `hand_counts.dfy`,
  `hand_ranking.dfy`, `hand_compare.dfy`, `evaluator_examples.dfy`).
  - Five cards are sorted by value (stable, descending) and classified into
    one of ten categories, each with a tie-break list.
  - Six or more cards are ranked as the best of their five-card combinations.
  - Two results compare by category, then by their tie-breakers in order.
  - The straight check for the five-high straight, the "wheel" A-5-4-3-2,
    does not do what it evidently means to do (see "## Findings").
- **The engines** (`probability_engine.dfy`, `exact_engine.dfy`,
  `monte_carlo_engine.dfy`, `combinations.dfy`).
  - The base engine holds the win, loss and tie counters.
  - The exact engine enumerates every CPU hand from the unseen cards, then
    every completion of the board from the rest, and scores each scenario.
  - The Monte Carlo engine runs a fixed number of trials. Each trial
    partially shuffles a copy of the unseen cards, with the random offsets
    passed in.
  - Both engines report their counters as ratios, left as numerator and
    denominator.

What is proved, in outline:

- The deck is a permutation of the 52 distinct cards. It stays distinct
  through shuffling, dealing and removal.
- `getCombinations` returns exactly the order-preserving k-subsequences,
  each once, and C(n, k) of them.
- With the corrected five-card ranking, every category the evaluator
  returns means what its name says. For example, a full house is three cards
  of one value and two of another, with the tie-breakers formed from those
  two values. As written, this holds for every hand except the wheel: the
  wheel is reported with the ace as its straight high card.
- `evaluate` returns the best five-card hand contained in the cards, by
  the ranking `rank5CardHand` gives as written. Evaluation with the
  corrected five-card ranking returns the best hand by that ranking. The
  engines use the evaluator as written, so they count what the program
  counts.
- `compareHands` is reflexive and antisymmetric, and transitive on
  well-formed results.
- The engines' counters stay balanced:
  - per category, wins, losses and ties add up to the count;
  - across categories, they add up to the global counters.
- The exact engine scores every (CPU hand, board) scenario exactly once:
  45540 scenarios at the turn.
- The Monte Carlo engine scores exactly `simulations` trials, each drawn
  from distinct unseen cards.

## Model

| member | source | states |
|---|---|---|
| Cards.RankValueTable | src/core/card.js:10-13 | a rank key is valid exactly when it is one of 2..9, T, J, Q, K, A; its value is its position in that order plus 2, so it lies in 2..14 |
| Cards.SuitTable | src/core/card.js:3-8 | the valid suit symbols are exactly c, d, h and s |
| Cards.NewCard | src/core/card.js:15-22 | construction succeeds exactly when both the rank key and the suit symbol are valid; an invalid rank is reported before the suit is looked at; an invalid suit with a valid rank is reported as such; the card keeps the given rank and suit |
| Cards.ValueOfRank | src/core/card.js:10-21 | every card's value is the table value of its rank: T, J, Q, K, A are 10, 11, 12, 13, 14 |
| Cards.EqualsIsIdentity | src/core/card.js:28-30 | equals (same rank and same suit) holds exactly for identical cards, so it is reflexive and symmetric |
| Cards.ToStringInjective | src/core/card.js:24-26 | two cards print the same rank-suit string exactly when they are the same card |
| Decks.FullDeckDistinct | src/core/deck.js:10-20 | the rebuilt deck has 52 cards, no two equal |
| Decks.FullDeckComplete | src/core/deck.js:10-20 | every valid card is in the rebuilt deck |
| Decks.Deck.constructor | src/core/deck.js:5-8 | a new deck holds the full 52-card deck in build order |
| Decks.Deck.Reset | src/core/deck.js:10-20 | the nested suit and rank loops leave exactly the full deck, suit by suit in the order c, d, h, s and rank by rank in the order 2..A |
| Decks.Deck.Shuffle | src/core/deck.js:22-28 | the downward loop swaps position i with the drawn j <= i; the result is the specification ShuffleDown of the old cards, a permutation of them, and still distinct |
| Decks.ShuffleDownPermutes | src/core/deck.js:24-27 | the Fisher–Yates swaps, for any drawn indices, only reorder the cards |
| Decks.Deck.Deal | src/core/deck.js:30-33 | an empty deck gives the EmptyDeck error and stays unchanged; otherwise the last card is returned and removed, and the rest stays distinct |
| Decks.Deck.RemoveCards | src/core/deck.js:35-40 | the deck becomes the cards that no removed card equals, in their old order, and stays distinct |
| Decks.Deck.Remaining | src/core/deck.js:42-44 | returns the number of cards in the deck |
| Decks.MatchesIsMembership | src/core/deck.js:37-39 | "some removed card equals this card" is membership in the removal list |
| Decks.WithoutMembers | src/core/deck.js:35-40 | a card survives removal exactly when it was in the deck and not in the removal list |
| Decks.WithoutKeepsOrder | src/core/deck.js:35-40 | the survivors are a subsequence of the old deck, at exactly the positions whose card is not removed |
| Decks.WithoutDistinct | src/core/deck.js:35-40 | removal keeps a distinct deck distinct |
| Decks.WithoutAbsent | src/core/deck.js:35-40 | removing cards that are not in the deck changes nothing |
| Decks.WithoutIdempotent | src/core/deck.js:35-40 | removing the same cards twice is the same as removing them once |
| Decks.RemainingAfterRemove | src/core/deck.js:35-44 | removing a list of known cards from the full deck leaves 52 minus the number of distinct known cards |
| GameStates.GameState.constructor | src/core/game_state.js:4-9 | a new state owns a fresh full deck and three empty hands |
| GameStates.GameState.Reset | src/core/game_state.js:11-17 | the deck is rebuilt and shuffled with the drawn indices into a permutation of the full deck, and the three hands are emptied |
| GameStates.GameState.SetPlayerHand | src/core/game_state.js:19-22 | the player's hand becomes the two cards, the other hands are unchanged, and the deck is the full deck minus every known card |
| GameStates.GameState.SetCpuHand | src/core/game_state.js:24-27 | the CPU's hand becomes the two cards, the other hands are unchanged, and the deck is rebuilt without the known cards |
| GameStates.GameState.SetCommunityCards | src/core/game_state.js:29-32 | the community cards are replaced, the hands are unchanged, and the deck is rebuilt without the known cards |
| GameStates.GameState.AddCommunityCard | src/core/game_state.js:34-37 | the card is appended to the community cards, the hands are unchanged, the deck is rebuilt, and the new card is no longer in it |
| GameStates.GameState.UpdateDeck | src/core/game_state.js:39-49 | the deck becomes the full deck without the player's, community and CPU cards |
| GameStates.GameState.Clone | src/core/game_state.js:51-59 | the clone is a new state with a new deck, equal hands, and the deck rebuilt from those hands |
| GameStates.SetPlayerHandOnClone | src/core/game_state.js:19-22 | setting the player's hand on a clone changes only the clone |
| GameStates.RemainingAfterSetup | src/core/game_state.js:39-49 | with two distinct hole cards and distinct community cards, the rebuilt deck holds 50 minus the number of community cards |
| GameStates.TurnExampleDeck | test_engines.js:11-18 | with As Ks in hand and Js 5s 2d 9c on the board, 46 cards remain |
| Combinatorics.CombinationsCount | src/core/hand_evaluator.js:42-52 | getCombinations over an array of n elements returns C(n, k) combinations |
| Combinatorics.CombinationsSound | src/core/hand_evaluator.js:42-52 | every combination has k cards and is a subsequence of arr |
| Combinatorics.CombinationsComplete | src/core/hand_evaluator.js:42-52 | every subsequence of arr is among the combinations of its length |
| Combinatorics.CombinationsDistinct | src/engines/exact_engine.js:113-123 | from distinct cards, no combination is listed twice |
| Combinatorics.ChooseTwo | src/engines/exact_engine.js:32 | there are n(n-1)/2 two-card CPU hands among n cards |
| HandEvaluator.SortByValueSorted | src/core/hand_evaluator.js:68 | the stable descending sort leaves the cards in descending value order |
| HandEvaluator.SortByValuePermutes | src/core/hand_evaluator.js:68 | the sort only reorders the cards |
| HandEvaluator.SortedValuesDescending | src/core/hand_evaluator.js:68 | the values of sorted cards are descending |
| HandEvaluator.StraightLoop | src/core/hand_evaluator.js:73-89 | the straight loop reports a straight exactly when the sorted values are five consecutive values or A-5-4-3-2 |
| HandEvaluator.Rank5CardHand | src/core/hand_evaluator.js:66-156 | the imperative rank5CardHand, including the counts loop, computes the as-written classification Rank5AsWritten |
| HandEvaluator.Evaluate | src/core/hand_evaluator.js:18-27 | for either five-card ranker, evaluation fails exactly when there are fewer than five cards; `evaluate` as written is Evaluate(AsWritten, _) |
| HandEvaluator.FindBestHand | src/core/hand_evaluator.js:29-40 | the loop ranks each combination with rank5CardHand as written and keeps the first strictly better result; it returns a hand whenever there are five or more cards, none for fewer, and exactly what evaluate as written returns for six or more |
| HandRanking.Rank5Fits | src/core/hand_evaluator.js:104-155 | with the corrected ranker, every five-card result fits its category: royal and straight flushes are suited runs; quads, full house, trips, two pair and pair have exactly those value multiplicities, with the tie-breakers the grouped values in order and the kickers descending; a flush is suited with all five values descending; a straight is a run with its high card; a high card has no repeated value, no run and no flush |
| HandRanking.ClassifyFits | src/core/hand_evaluator.js:104-155 | given the corrected straight high card, the classification of any five descending values fits the category it returns |
| HandRanking.UpperClassifyFits | src/core/hand_evaluator.js:104-127 | given the corrected straight high card, straight flushes, royal flushes, quads and full houses fit their category |
| HandRanking.StraightClassifyFits | src/core/hand_evaluator.js:104-107 | given the corrected straight high card, a straight (or a straight flush, or a royal flush) is a run of five values ending at its reported high card |
| HandRanking.LowerClassifyFits | src/core/hand_evaluator.js:129-155 | given the corrected straight high card, flushes, straights, trips, two pair, pairs and high cards fit their category |
| HandRanking.QuadsBranch | src/core/hand_evaluator.js:117-121 | with a value occurring four times, the tie-breakers are that value and then the single kicker |
| HandRanking.FullHouseBranch | src/core/hand_evaluator.js:123-127 | with counts three and two, the tie-breakers are the three-card value and then the pair value |
| HandRanking.TripsBranch | src/core/hand_evaluator.js:137-141 | with a value occurring three times and no pair, the tie-breakers are that value and then the two kickers descending |
| HandRanking.TwoPairBranch | src/core/hand_evaluator.js:143-147 | with two pairs, the tie-breakers are the higher pair value, the lower pair value and the kicker |
| HandRanking.PairBranch | src/core/hand_evaluator.js:149-153 | with one pair, the tie-breakers are the pair value and then the three kickers descending |
| HandRanking.HighCardBranch | src/core/hand_evaluator.js:155 | when no other category applies, no value repeats |
| HandRanking.StraightBranch | src/core/hand_evaluator.js:93-107 | with the corrected straight high card, a straight's values, as a multiset, are the run ending at its high card; only the run ending at the ace has the ace as its high card |
| HandRanking.SuitedRunRanked | src/core/hand_evaluator.js:104-106 | with the corrected ranker, five suited cards forming a run are a royal flush when the run ends at the ace, otherwise a straight flush with its high card |
| HandRanking.UnsuitedRunRanked | src/core/hand_evaluator.js:133-134 | with the corrected ranker, an unsuited run is a straight whose tie-breaker is its high card |
| HandRanking.AsWrittenDiffersOnlyOnWheel | src/core/hand_evaluator.js:93-101 | the wheel repair never fires, because every wheel is already flagged as a straight; the as-written and the corrected classification agree on every hand except the wheel |
| HandRanking.WheelAsWritten | src/core/hand_evaluator.js:93-101 | as written, a wheel straight or straight flush reports an ace-high tie-breaker [14]; corrected, it reports [5] |
| HandRanking.Rank5AsWrittenFits | src/core/hand_evaluator.js:66-156 | as written, a five-card result fits its category exactly when the hand is not a wheel |
| HandRanking.WheelAsWrittenMisfits | src/core/hand_evaluator.js:93-107 | as written, a wheel is a run topped by 5, yet its result does not fit its category |
| HandComparison.CompareReflexive | src/core/hand_evaluator.js:54-64 | every result ties with itself |
| HandComparison.CompareAntisymmetric | src/core/hand_evaluator.js:54-64 | swapping the arguments negates the comparison |
| HandComparison.CompareZero | src/core/hand_evaluator.js:54-64 | two well-formed results tie exactly when category and tie-breakers are equal |
| HandComparison.CompareTransitive | src/core/hand_evaluator.js:54-64 | on well-formed results "at least as good" is transitive, and strict with one strict step |
| HandComparison.Rank5WellShaped | src/core/hand_evaluator.js:104-155 | with the corrected ranker, each category has its fixed number of tie-breakers |
| HandComparison.Rank5AsWrittenWellShaped | src/core/hand_evaluator.js:66-156 | with rank5CardHand as written, each category has its fixed number of tie-breakers |
| HandComparison.RankWithCategory | src/core/hand_evaluator.js:93-107 | both rankers put every hand in the same category, and they give the same result on every hand except the wheel |
| HandComparison.RankWithWellShaped | src/core/hand_evaluator.js:66-156 | for either ranker, each category has its fixed number of tie-breakers |
| HandComparison.BestOfMaximal | src/core/hand_evaluator.js:29-40 | for either ranker, the kept result is at least as good as every combination's result |
| HandComparison.BestOfWitness | src/core/hand_evaluator.js:29-40 | for either ranker, the kept result is some combination's result, and that combination is strictly better than all earlier ones |
| HandComparison.EvaluateAchieved | src/core/hand_evaluator.js:18-40 | for either ranker, with five or more cards, the result is the rank of five cards chosen from the input |
| HandComparison.EvaluateMaximal | src/core/hand_evaluator.js:18-40 | for either ranker, with five or more cards, the result is at least as good as the rank of any five of them |
| HandComparison.EvaluateWellShaped | src/core/hand_evaluator.js:18-40 | for either ranker, with five or more cards, the result is well-formed |
| EvaluatorExamples.RoyalFlushDetected | test_evaluator.js:15-20 | for either ranker, Ah Kh Qh Jh Th 2c 3d is a royal flush |
| EvaluatorExamples.StraightFlushDetected | test_evaluator.js:23-28 | for either ranker, 9h 8h 7h 6h 5h Ac Kd is a straight flush |
| EvaluatorExamples.WheelStraightDetected | test_evaluator.js:55-60 | for either ranker, Ah 2c 3d 4s 5h 9c Td is a straight; as written its tie-breakers are [14], corrected they are [5] |
| EvaluatorExamples.SteelWheelOutranks | src/core/hand_evaluator.js:93-107 | as written, a suited wheel beats every straight flush topped by 6 to K, because it keeps the ace as its high card; corrected, it loses to each of them |
| EvaluatorExamples.SteelWheelBeatsKingHigh | src/core/hand_evaluator.js:93-107 | as written, As 2s 3s 4s 5s beats Kh Qh Jh Th 9h; corrected, it loses |
| ProbabilityEngines.ProbabilityEngine.constructor | src/engines/probability_engine.js:2-9 | the counters start at zero, with no distribution |
| ProbabilityEngines.ProbabilityEngine.Calculate | src/engines/probability_engine.js:11-13 | the base calculate always fails as not implemented |
| ProbabilityEngines.ProbabilityEngine.ResetStats | src/engines/probability_engine.js:15-22 | the whole results object is replaced by zero counters, which drops any distribution |
| ProbabilityEngines.ProbabilityEngine.EvaluateScenario | src/engines/exact_engine.js:55-79 | both final hands are evaluated as written on the community cards plus the extra board, and the outcome is tallied under the CPU's category |
| ProbabilityEngines.NewDistribution | src/engines/exact_engine.js:13-25 | the fresh distribution has one zeroed entry, named by its RANKS key, for each of the ten categories |
| ProbabilityEngines.TallyEffect | src/engines/monte_carlo_engine.js:53-76 | scoring adds one to the CPU category's count and records the CPU hand string; a player win adds a CPU loss there, a CPU win adds a CPU win there, a tie adds a tie there; nothing else changes |
| ProbabilityEngines.InitialBalanced | src/engines/monte_carlo_engine.js:12-25 | the freshly initialised counters are balanced and have nothing scored |
| ProbabilityEngines.TallyBalanced | src/engines/monte_carlo_engine.js:62-75 | scoring keeps the counters balanced and adds exactly one scored scenario |
| ProbabilityEngines.ScoreBalanced | src/engines/exact_engine.js:55-79 | scoring a scenario end to end keeps the counters balanced and adds one scenario |
| ProbabilityEngines.BalancedCounts | src/engines/exact_engine.js:81-106 | in balanced counters the category counts add up to the scenarios scored |
| ProbabilityEngines.ReadableNameIsTitleCase | src/engines/exact_engine.js:108-111 | getReadableName is lower-casing, then '_' to space with each word's first letter upper-cased |
| ProbabilityEngines.ReadableTwoPair | src/engines/exact_engine.js:108-111 | the category key TWO_PAIR reads "Two Pair" |
| ExactEngines.BoardsComplete | src/engines/exact_engine.js:38-45 | every enumerated extra board completes the community cards to at least five |
| ExactEngines.ExactScenariosMembers | src/engines/exact_engine.js:32-46 | a scenario is enumerated exactly when its CPU hand is a two-card combination of the unseen cards and its board is a combination of the right size from the rest |
| ExactEngines.ExactScenariosDistinct | src/engines/exact_engine.js:32-46 | from distinct unseen cards no scenario is enumerated twice |
| ExactEngines.ExactScenarioCount | src/engines/exact_engine.js:32-46 | the scenarios number C(n, 2) times C(n-2, needed), with a single empty board when nothing is needed |
| ExactEngines.ExactTallyBalanced | src/engines/exact_engine.js:9-49 | after enumeration the counters are balanced and have scored exactly the enumerated scenarios |
| ExactEngines.TurnScenarioCount | test_engines.js:11-26 | at the turn, with 46 unseen cards, exactly 45540 scenarios are scored |
| ExactEngines.ExactReportConsistent | src/engines/exact_engine.js:81-106 | the report's three outcome shares add up to the total; every share is over the total; only categories some scenario reached are listed; their probabilities add up to the total; each category's win, loss and tie rates are over its count and add up to it |
| ExactEngines.ExactEngine.constructor | src/engines/exact_engine.js:5-7 | a new engine has zero counters |
| ExactEngines.ExactEngine.Calculate | src/engines/exact_engine.js:9-49 | the counters end as the exact tally over all scenarios from the state's unseen cards, and the report is computed from them |
| ExactEngines.ExactEngine.ScoreCpuHand | src/engines/exact_engine.js:35-45 | for one CPU hand, every board from the cards outside that hand is scored in order |
| ExactEngines.ExactEngine.ScoreBoards | src/engines/exact_engine.js:39-42 | the loop over the board combinations scores each in order |
| Decks.SuitRowDistinct | src/core/deck.js:16-18 | one suit's row has thirteen distinct cards of that suit |
| MonteCarloEngines.PartialShufflePermutes | src/engines/monte_carlo_engine.js:38-41 | the partial shuffle of one trial only reorders the unseen cards |
| MonteCarloEngines.PartialShuffleStep | src/engines/monte_carlo_engine.js:38-41 | one swap of the loop extends the partial shuffle by one position |
| MonteCarloEngines.Slice | src/engines/monte_carlo_engine.js:45 | slice returns consecutive elements from the start position, never more than remain |
| MonteCarloEngines.Trial | src/engines/monte_carlo_engine.js:43-45 | a trial deals two CPU cards and exactly the missing community cards, so the board reaches five |
| MonteCarloEngines.TrialCardsDistinct | src/engines/monte_carlo_engine.js:35-45 | a trial's CPU hand and extra board are distinct cards taken from the unseen cards |
| MonteCarloEngines.TallyTrialsBalanced | src/engines/monte_carlo_engine.js:30-48 | the trials keep the counters balanced and score one scenario each |
| MonteCarloEngines.MonteCarloPlayed | src/engines/monte_carlo_engine.js:10-48 | from fresh counters, `simulations` trials score exactly `simulations` scenarios and leave the counters balanced |
| MonteCarloEngines.SampleReportConsistent | src/engines/monte_carlo_engine.js:78-100 | every share is over the requested number of trials; the outcome shares and the category probabilities add up to the trials scored; only categories some trial reached are listed; each win rate is over its category's count and at most 1 |
| MonteCarloEngines.MonteCarloEngine.constructor | src/engines/monte_carlo_engine.js:5-8 | a new engine has zero counters and the given number of trials, 10000 by default |
| MonteCarloEngines.MonteCarloEngine.Calculate | src/engines/monte_carlo_engine.js:10-51 | fails exactly when trials are requested but fewer unseen cards remain than a trial deals; otherwise the counters are the tally of the first `simulations` trials, or the fresh counters when none are requested, and the report is computed from them |
| MonteCarloEngines.MonteCarloEngine.Deal | src/engines/monte_carlo_engine.js:35-45 | the array-based shuffle and dealing of one trial produce exactly the specified trial scenario |

## Left out

- Cards.NewCard: the source's `!Card.RANKS[rank]` also looks up names
  inherited from `Object.prototype`. So rank keys such as `toString`,
  `constructor`, `valueOf`, `hasOwnProperty` and `__proto__` pass the test there
  and give a card whose value is a function or an object. The model rejects
  them as `InvalidRank`. The suit test does not have this problem, because it
  searches the list of suit values.
- The engines rank hands with the evaluator as written, wheel bug included,
  so ExactEngines.ExactEngine.Calculate,
  MonteCarloEngines.MonteCarloEngine.Calculate and
  ProbabilityEngines.ProbabilityEngine.EvaluateScenario count what the
  program counts. The corrected evaluator, Evaluate(Corrected, _), is not
  run by any engine.

- Randomness: `Math.random` in `Deck.shuffle` and in the Monte Carlo trial
  loop is replaced by index sequences passed in by the caller. The
  preconditions on those indices are the ranges that `Math.floor(Math.random() * m)`
  can produce.
- Floating point: every division in `computeProbabilities` is kept as an
  unevaluated `Ratio`. With zero scenarios JavaScript gives NaN; the model
  gives a ratio with a zero denominator.
- HandEvaluator.CompareTieBreakers: when one tie-break list is shorter, the
  source compares a number with `undefined` and gets NaN. The model returns 0
  there. Every caller only tests `> 0` and `< 0`, and NaN fails both, so
  callers see no difference.
- Object and Set order: `handDistribution` is a map keyed by category, and
  `causingHands` is a set of strings. Iteration order and the ordering of
  `Array.from` are not modelled.
- Object identity: `includes` in the exact engine compares card objects by
  identity. The model compares cards by value. The unseen cards are
  distinct, so the two agree there.
- `ExactEngine.getHandName` and the `handNames` array it builds are never
  used, so they are not modelled. Nor are `src/ui/app.js`, `debug_distribution.js`
  and the console output of the test scripts.
- `toLowerCase` and `toUpperCase` are modelled on ASCII letters only; the
  category keys are ASCII.
- ProbabilityEngines.ProbabilityEngine.EvaluateScenario takes the player's hand and the
  community cards instead of the whole game state, because it reads nothing
  else from the state.
- MonteCarloEngines.MonteCarloEngine.Calculate: when trials are requested but fewer unseen cards
  remain than a trial deals, the source fills the hand with `undefined`.
  `evaluate` then throws a TypeError. The model returns the error
  `NotEnoughCards` instead, and the counters stay freshly initialised.
- GameStates.GameState.SetCommunityCards: the source stores the caller's
  array itself. A later `addCommunityCard` pushes onto it, so the caller's
  array changes too. The model stores an immutable sequence, so that
  aliasing is not captured.
- The exact engine's counters are specified as a nested fold: over the CPU
  hands, then over the boards of each. A flat fold over the scenario list
  is not used. The enumeration lemmas are stated about that list.
- ProbabilityEngines.ProbabilityEngine.Record,
  ExactEngines.ExactEngine.ScoreCpuHand, ExactEngines.ExactEngine.ScoreBoards
  and MonteCarloEngines.MonteCarloEngine.Deal are the bodies of the source
  loops, split out as methods. They do not exist as separate functions in the
  source.
- `getCombinations` exists twice in the source: in the evaluator
  (lines 42-52) and in the exact engine (lines 113-123). `getReadableName`
  exists once in each engine. `evaluateScenario` also exists once in each
  engine. Each is modelled once.
- Errors thrown by ill-typed arguments (`equals` on a non-card, a missing
  rank in `counts`) cannot occur in the typed model.

## Findings

| source | as written | input that shows it | evidently intended | confidence | as-written member | corrected member |
|---|---|---|---|---|---|---|
| src/core/hand_evaluator.js:93-101 | the straight loop already sets `isStraight` for A-5-4-3-2, so the repair that would set the high card to 5 is guarded by `!isStraight` and never runs; the wheel keeps 14 as its straight high card | the straight flush As 2s 3s 4s 5s against Kh Qh Jh Th 9h: compareHands gives [14] against [13] and the wheel wins | the wheel is the lowest straight, with high card 5 | high; not executed | HandEvaluator.Rank5AsWritten, HandRanking.WheelAsWritten, HandRanking.WheelAsWrittenMisfits, EvaluatorExamples.SteelWheelBeatsKingHigh, HandEvaluator.FindBestHand | HandEvaluator.Rank5, HandRanking.Rank5Fits, HandComparison.Rank5WellShaped |

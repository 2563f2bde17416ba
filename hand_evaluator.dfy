/** The hand evaluator of src/core/hand_evaluator.js: five cards are
    classified into one of ten categories with a tie-break list; six or more
    cards are evaluated as the best of their five-card combinations. */
module HandEvaluator {
  import opened Wrappers
  import opened Seqs
  import opened Cards
  import opened Combinatorics

  /** `HandEvaluator.RANKS` */
  const HighCard: int := 1
  const Pair: int := 2
  const TwoPair: int := 3
  const ThreeOfAKind: int := 4
  const Straight: int := 5
  const Flush: int := 6
  const FullHouse: int := 7
  const FourOfAKind: int := 8
  const StraightFlush: int := 9
  const RoyalFlush: int := 10

  /** The record `rank5CardHand` returns: category, label, tie-breakers. */
  datatype HandResult = HandResult(rank: int, name: string, tieBreakers: seq<int>)

  datatype EvalError = InsufficientCards

  /** `cards.map(c => c.value)` */
  function Values(cards: seq<Card>): (vs: seq<int>)
    ensures |vs| == |cards|
  {
    if cards == [] then [] else [cards[0].value] + Values(cards[1..])
  }

  /** Position `i` of `Values(cards)` is the value of card `i`. */
  lemma {:induction false} ValuesAt(cards: seq<Card>)
    ensures forall i :: 0 <= i < |cards| ==> Values(cards)[i] == cards[i].value
  {
    if cards != [] {
      ValuesAt(cards[1..]);
    }
  }

  ghost predicate Descending(s: seq<int>) {
    forall i, j :: 0 <= i < j < |s| ==> s[i] >= s[j]
  }

  ghost predicate StrictlyDescending(s: seq<int>) {
    forall i, j :: 0 <= i < j < |s| ==> s[i] > s[j]
  }

  /** Inserts `c` before the first card whose value is not larger, so that
      cards of equal value keep their relative order. */
  function InsertByValue(c: Card, s: seq<Card>): (r: seq<Card>)
    ensures |r| == |s| + 1
    ensures multiset(r) == multiset(s) + multiset{c}
  {
    if s == [] || s[0].value <= c.value then [c] + s
    else
      assert s == [s[0]] + s[1..];
      [s[0]] + InsertByValue(c, s[1..])
  }

  /** Cards in order of non-increasing value. */
  ghost predicate SortedByValue(s: seq<Card>) {
    forall i, j :: 0 <= i < j < |s| ==> s[i].value >= s[j].value
  }

  lemma {:induction false} InsertByValueSorted(c: Card, s: seq<Card>)
    requires SortedByValue(s)
    ensures SortedByValue(InsertByValue(c, s))
  {
    if !(s == [] || s[0].value <= c.value) {
      var t := InsertByValue(c, s[1..]);
      InsertByValueSorted(c, s[1..]);
      forall j | 0 <= j < |t| ensures s[0].value >= t[j].value {
        assert t[j] in multiset(t);
        assert t[j] == c || t[j] in multiset(s[1..]);
      }
    }
  }

  lemma {:induction false} InsertByValueValues(c: Card, s: seq<Card>)
    ensures multiset(Values(InsertByValue(c, s))) == multiset(Values(s)) + multiset{c.value}
  {
    if s == [] || s[0].value <= c.value {
      assert ([c] + s)[1..] == s;
    } else {
      InsertByValueValues(c, s[1..]);
      assert ([s[0]] + InsertByValue(c, s[1..]))[1..] == InsertByValue(c, s[1..]);
    }
  }

  /** `[...cards].sort((a, b) => b.value - a.value)`: a stable sort by
      descending value. */
  function SortByValue(cards: seq<Card>): (r: seq<Card>)
    ensures |r| == |cards|
  {
    if cards == [] then [] else InsertByValue(cards[0], SortByValue(cards[1..]))
  }

  /** Sorting orders the cards by value. */
  lemma {:induction false} SortByValueSorted(cards: seq<Card>)
    ensures SortedByValue(SortByValue(cards))
  {
    if cards != [] {
      SortByValueSorted(cards[1..]);
      InsertByValueSorted(cards[0], SortByValue(cards[1..]));
    }
  }

  /** Sorting keeps every card with its multiplicity. */
  lemma {:induction false} SortByValuePermutes(cards: seq<Card>)
    ensures multiset(SortByValue(cards)) == multiset(cards)
  {
    if cards != [] {
      SortByValuePermutes(cards[1..]);
      assert cards == [cards[0]] + cards[1..];
    }
  }

  /** Sorting keeps every value with its multiplicity. */
  lemma {:induction false} SortByValueValues(cards: seq<Card>)
    ensures multiset(Values(SortByValue(cards))) == multiset(Values(cards))
  {
    if cards != [] {
      SortByValueValues(cards[1..]);
      InsertByValueValues(cards[0], SortByValue(cards[1..]));
    }
  }

  lemma SortedValuesDescending(s: seq<Card>)
    requires SortedByValue(s)
    ensures Descending(Values(s))
  {
    ValuesAt(s);
  }

  /** `sorted.every(c => c.suit === sorted[0].suit)` */
  predicate SameSuit(cards: seq<Card>) {
    forall i :: 0 <= i < |cards| ==> cards[i].suit == cards[0].suit
  }

  /** Five values, each one less than the one before. */
  predicate Consecutive(vs: seq<int>)
    requires |vs| == 5
  {
    forall i :: 0 <= i < 4 ==> vs[i] - vs[i + 1] == 1
  }

  /** The wheel A-5-4-3-2, as descending values. */
  const Wheel: seq<int> := [14, 5, 4, 3, 2]

  /** What the `isStraight` loop computes on descending values: its first
      failing step is accepted only when it is the A-to-5 step of a wheel. */
  predicate StraightFlag(vs: seq<int>)
    requires |vs| == 5
  {
    Consecutive(vs) || vs == Wheel
  }

  /** The straight's high card once the wheel repair applies: 5 for the
      wheel, the top value otherwise. */
  function StraightHigh(vs: seq<int>): int
    requires |vs| == 5
  {
    if vs == Wheel then 5 else vs[0]
  }

  /** The `counts` dictionary after counting the values of `vs` in order. */
  function CountsOf(vs: seq<int>): map<int, nat> {
    if vs == [] then map[]
    else
      var m := CountsOf(vs[..|vs| - 1]);
      var v := vs[|vs| - 1];
      m[v := (if v in m then m[v] else 0) + 1]
  }

  lemma CountsOfSnoc(vs: seq<int>)
    requires vs != []
    ensures CountsOf(vs) == CountsOf(vs[..|vs| - 1])[vs[|vs| - 1] :=
      (if vs[|vs| - 1] in CountsOf(vs[..|vs| - 1]) then CountsOf(vs[..|vs| - 1])[vs[|vs| - 1]] else 0) + 1]
  {
  }

  /** The distinct values of a descending list, still descending: the keys
      of `counts`, sorted with `(a, b) => b - a`. */
  function Dedup(vs: seq<int>): seq<int> {
    if |vs| <= 1 then vs
    else if vs[0] == vs[1] then Dedup(vs[1..])
    else [vs[0]] + Dedup(vs[1..])
  }

  /** `uniqueRanks.find(r => counts[r] === k)`; 0 stands for `undefined`. */
  function FirstWithCount(us: seq<int>, counts: map<int, nat>, k: nat): int {
    if us == [] then 0
    else if us[0] in counts && counts[us[0]] == k then us[0]
    else FirstWithCount(us[1..], counts, k)
  }

  /** `uniqueRanks.filter(r => counts[r] === k)` */
  function WithCount(us: seq<int>, counts: map<int, nat>, k: nat): seq<int> {
    if us == [] then []
    else (if us[0] in counts && counts[us[0]] == k then [us[0]] else []) + WithCount(us[1..], counts, k)
  }

  /** `uniqueRanks.filter(r => r !== t)` */
  function Except(us: seq<int>, t: int): seq<int> {
    if us == [] then []
    else (if us[0] != t then [us[0]] else []) + Except(us[1..], t)
  }

  /** `countValues.includes(k)` */
  predicate Includes(counts: map<int, nat>, k: nat) {
    exists r :: r in counts && counts[r] == k
  }

  /** `countValues.filter(x => x === k).length` */
  function KeysWithCount(counts: map<int, nat>, k: nat): nat {
    |set v | v in counts && counts[v] == k|
  }

  /** Lines 104-155 of `rank5CardHand`, given the descending values, the
      two flags, the straight's high card, the counts and the unique ranks. */
  function Classify(vs: seq<int>, isFlush: bool, isStraight: bool, high: int,
                    counts: map<int, nat>, uniqueRanks: seq<int>): HandResult
    requires |vs| == 5
  {
    if isStraight && isFlush then
      if high == 14 && vs[1] == 13 then HandResult(RoyalFlush, "Royal Flush", [])
      else HandResult(StraightFlush, "Straight Flush", [high])
    else if Includes(counts, 4) then
      HandResult(FourOfAKind, "Four of a Kind",
                 [FirstWithCount(uniqueRanks, counts, 4), FirstWithCount(uniqueRanks, counts, 1)])
    else if Includes(counts, 3) && Includes(counts, 2) then
      HandResult(FullHouse, "Full House",
                 [FirstWithCount(uniqueRanks, counts, 3), FirstWithCount(uniqueRanks, counts, 2)])
    else if isFlush then
      HandResult(Flush, "Flush", vs)
    else if isStraight then
      HandResult(Straight, "Straight", [high])
    else if Includes(counts, 3) then
      var trip := FirstWithCount(uniqueRanks, counts, 3);
      HandResult(ThreeOfAKind, "Three of a Kind", [trip] + Except(uniqueRanks, trip))
    else if KeysWithCount(counts, 2) == 2 then
      HandResult(TwoPair, "Two Pair",
                 WithCount(uniqueRanks, counts, 2) + [FirstWithCount(uniqueRanks, counts, 1)])
    else if Includes(counts, 2) then
      var pair := FirstWithCount(uniqueRanks, counts, 2);
      HandResult(Pair, "Pair", [pair] + Except(uniqueRanks, pair))
    else
      HandResult(HighCard, "High Card", vs)
  }

  /** `rank5CardHand` exactly as written: the wheel repair of lines 94-101
      is guarded by `!isStraight`, which the wheel has already made true. */
  function Rank5AsWritten(cards: seq<Card>): HandResult
    requires |cards| == 5
  {
    var sorted := SortByValue(cards);
    var vs := Values(sorted);
    var isStraight := StraightFlag(vs);
    var repair := !isStraight && vs[0] == 14 && vs == Wheel;
    Classify(vs, SameSuit(sorted), isStraight || repair, if repair then 5 else vs[0],
             CountsOf(vs), Dedup(vs))
  }

  /** `rank5CardHand` with the wheel repair made reachable: a wheel's
      straight high card is 5. */
  function Rank5(cards: seq<Card>): HandResult
    requires |cards| == 5
  {
    var sorted := SortByValue(cards);
    var vs := Values(sorted);
    Classify(vs, SameSuit(sorted), StraightFlag(vs), StraightHigh(vs), CountsOf(vs), Dedup(vs))
  }

  /** The `isStraight` loop of `rank5CardHand` (lines 73-89) over the
      sorted cards. */
  method StraightLoop(sorted: seq<Card>) returns (isStraight: bool)
    requires |sorted| == 5
    ensures isStraight == StraightFlag(Values(sorted))
  {
    ghost var vs := Values(sorted);
    ValuesAt(sorted);
    isStraight := true;
    var i := 0;
    while i < 4
      invariant 0 <= i <= 4 && isStraight
      invariant forall k :: 0 <= k < i ==> vs[k] - vs[k + 1] == 1
    {
      if sorted[i].value - sorted[i + 1].value != 1 {
        if i == 0 && sorted[0].value == 14 && sorted[1].value == 5 {
          var isLowStraight := sorted[1].value == 5 && sorted[2].value == 4
                               && sorted[3].value == 3 && sorted[4].value == 2;
          if isLowStraight {
            isStraight := true;
            assert vs == Wheel;
            break;
          }
        }
        isStraight := false;
        assert !Consecutive(vs) && vs != Wheel;
        break;
      }
      i := i + 1;
    }
  }

  /** `rank5CardHand`, imperatively: the sort, the straight loop, the wheel
      repair as written, the `counts` loop and the classification. */
  method Rank5CardHand(cards: seq<Card>) returns (r: HandResult)
    requires |cards| == 5
    ensures r == Rank5AsWritten(cards)
  {
    var sorted := SortByValue(cards);
    var vs := Values(sorted);
    ValuesAt(sorted);
    var isFlush := SameSuit(sorted);
    var isStraight := StraightLoop(sorted);

    var straightHighCard := sorted[0].value;
    if !isStraight && sorted[0].value == 14 {
      if vs == Wheel {
        isStraight := true;
        straightHighCard := 5;
      }
    }

    var counts: map<int, nat> := map[];
    for k := 0 to 5
      invariant counts == CountsOf(vs[..k])
    {
      var v := sorted[k].value;
      CountsOfSnoc(vs[..k + 1]);
      assert vs[..k + 1][..k] == vs[..k];
      counts := counts[v := (if v in counts then counts[v] else 0) + 1];
    }
    assert vs[..5] == vs;

    r := Classify(vs, isFlush, isStraight, straightHighCard, counts, Dedup(vs));
  }

  /** `compareHands`: the category difference, else the first differing
      tie-breaker difference, else 0. */
  function CompareHands(h1: HandResult, h2: HandResult): int {
    if h1.rank != h2.rank then h1.rank - h2.rank
    else CompareTieBreakers(h1.tieBreakers, h2.tieBreakers, 0)
  }

  /** The tie-breaker loop from index `i`. Past the end of `t2` the source
      computes `t1[i] - undefined`, which is NaN; every caller only asks
      whether the result is positive or negative, so NaN acts as 0. */
  function CompareTieBreakers(t1: seq<int>, t2: seq<int>, i: nat): int
    decreases |t1| - i
  {
    if i >= |t1| then 0
    else if i >= |t2| then 0
    else if t1[i] != t2[i] then t1[i] - t2[i]
    else CompareTieBreakers(t1, t2, i + 1)
  }

  /** Which five-card ranker the evaluator runs: `rank5CardHand` as
      written, or with its wheel repair made reachable. */
  datatype Ranker = AsWritten | Corrected

  function RankWith(ranker: Ranker, cards: seq<Card>): HandResult
    requires |cards| == 5
  {
    match ranker
    case AsWritten => Rank5AsWritten(cards)
    case Corrected => Rank5(cards)
  }

  /** The `bestHand` that the loop of `findBestHand` holds after the given
      combinations: the first one wins ties. */
  function BestOf(ranker: Ranker, combos: seq<seq<Card>>): Option<HandResult>
    requires forall i :: 0 <= i < |combos| ==> |combos[i]| == 5
  {
    if combos == [] then None
    else
      var best := BestOf(ranker, combos[..|combos| - 1]);
      var result := RankWith(ranker, combos[|combos| - 1]);
      if best.None? || CompareHands(result, best.value) > 0 then Some(result) else best
  }

  /** Every combination of five cards has five cards. */
  lemma FiveCardCombinations(cards: seq<Card>)
    ensures forall i :: 0 <= i < |Combinations(cards, 5)| ==> |Combinations(cards, 5)[i]| == 5
  {
    forall i | 0 <= i < |Combinations(cards, 5)| ensures |Combinations(cards, 5)[i]| == 5 {
      var idx := CombinationsSound(cards, 5, Combinations(cards, 5)[i]);
    }
  }

  /** `evaluate`: fewer than five cards is an error, five are ranked
      directly, more are ranked as the best five-card combination. The
      source's `evaluate` is `Evaluate(AsWritten, _)`. */
  function Evaluate(ranker: Ranker, cards: seq<Card>): (r: Result<HandResult, EvalError>)
    ensures r.Failure? <==> |cards| < 5
  {
    if |cards| < 5 then Failure(InsufficientCards)
    else if |cards| > 5 then
      FiveCardCombinations(cards);
      var best := BestOf(ranker, Combinations(cards, 5));
      if best.Some? then Success(best.value)
      else
        CombinationsCount(cards, 5);
        ChooseAtLeastOne(|cards|, 5);
        assert false;
        Failure(InsufficientCards)
    else Success(RankWith(ranker, cards))
  }

  /** C(n, k) >= 1 whenever 0 <= k <= n. */
  lemma {:induction false} ChooseAtLeastOne(n: nat, k: int)
    requires 0 <= k <= n
    ensures Choose(n, k) >= 1
  {
    if k > 0 {
      ChooseAtLeastOne(n - 1, k - 1);
    }
  }

  /** `findBestHand`, imperatively: rank every combination with
      `rank5CardHand` as written and keep the first strictly better result. */
  method FindBestHand(cards: seq<Card>) returns (best: Option<HandResult>)
    ensures |cards| >= 5 ==> best.Some?
    ensures |cards| > 5 ==> Evaluate(AsWritten, cards) == Success(best.value)
    ensures |cards| < 5 ==> best.None?
  {
    var combos := Combinations(cards, 5);
    FiveCardCombinations(cards);
    best := None;
    for i := 0 to |combos|
      invariant best == BestOf(AsWritten, combos[..i])
    {
      assert combos[..i + 1][..i] == combos[..i];
      var result := Rank5CardHand(combos[i]);
      if best.None? || CompareHands(result, best.value) > 0 {
        best := Some(result);
      }
    }
    assert combos[..|combos|] == combos;
    CombinationsCount(cards, 5);
    if |cards| >= 5 {
      ChooseAtLeastOne(|cards|, 5);
    } else {
      ChooseZero(|cards|, 5);
    }
  }

  /** C(n, k) = 0 when k > n. */
  lemma {:induction false} ChooseZero(n: nat, k: int)
    requires k > n
    ensures Choose(n, k) == 0
  {
    if n > 0 {
      ChooseZero(n - 1, k - 1);
      ChooseZero(n - 1, k);
    }
  }
}

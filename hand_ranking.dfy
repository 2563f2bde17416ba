/** What the category and the tie-breakers of a five-card hand mean, stated
    on the multiset of its values and on whether its suits agree, and the
    proof that the wheel-corrected ranker meets it, and that the ranker as
    written meets it on every hand but the wheel. */
module HandRanking {
  import opened Seqs
  import opened Cards
  import opened HandEvaluator
  import opened HandCounts

  /** The five values from `high` down. */
  function Run(high: int): (r: seq<int>)
    ensures |r| == 5 && Descending(r) && Consecutive(r) && r[0] == high && r[1] == high - 1
    ensures forall i, j :: 0 <= i < j < 5 ==> r[i] != r[j]
  {
    [high, high - 1, high - 2, high - 3, high - 4]
  }

  /** The wheel is descending and has no repeated value. */
  lemma WheelFacts()
    ensures Descending(Wheel) && forall i, j :: 0 <= i < j < 5 ==> Wheel[i] != Wheel[j]
  {
  }

  /** Five values forming a run topped by `high`; the wheel is the run
      topped by 5. */
  ghost predicate IsRun(m: multiset<int>, high: int) {
    m == multiset(Run(high)) || (high == 5 && m == multiset(Wheel))
  }

  /** The meaning of each category and its tie-breakers for a hand with
      values `m` whose cards share a suit exactly when `flush`. */
  ghost predicate FitsValues(h: HandResult, m: multiset<int>, flush: bool) {
    var t := h.tieBreakers;
    if h.rank == RoyalFlush then
      flush && t == [] && m == multiset(Run(14))
    else if h.rank == StraightFlush then
      flush && |t| == 1 && t[0] < 14 && IsRun(m, t[0])
    else if h.rank == FourOfAKind then
      |t| == 2 && m[t[0]] == 4 && m[t[1]] == 1
    else if h.rank == FullHouse then
      |t| == 2 && m[t[0]] == 3 && m[t[1]] == 2
    else if h.rank == Flush then
      flush && |t| == 5 && Descending(t) && multiset(t) == m && !StraightFlag(t)
    else if h.rank == Straight then
      !flush && |t| == 1 && IsRun(m, t[0])
    else if h.rank == ThreeOfAKind then
      |t| == 3 && m[t[0]] == 3 && t[1] > t[2] && m[t[1]] == 1 && m[t[2]] == 1
    else if h.rank == TwoPair then
      |t| == 3 && t[0] > t[1] && m[t[0]] == 2 && m[t[1]] == 2 && m[t[2]] == 1
    else if h.rank == Pair then
      && |t| == 4 && m[t[0]] == 2 && t[1] > t[2] > t[3]
      && m[t[1]] == 1 && m[t[2]] == 1 && m[t[3]] == 1
    else
      && h.rank == HighCard && !flush && |t| == 5 && Descending(t) && multiset(t) == m
      && !StraightFlag(t) && (forall i :: 0 <= i < 5 ==> m[t[i]] != 2 && m[t[i]] != 3 && m[t[i]] != 4)
  }

  /** `FitsValues` for five cards. */
  ghost predicate Fits(h: HandResult, cards: seq<Card>) {
    FitsValues(h, multiset(Values(cards)), SameSuit(cards))
  }

  /** Whether all suits agree does not depend on the order of the cards. */
  lemma SameSuitPermutation(s: seq<Card>, t: seq<Card>)
    requires multiset(s) == multiset(t) && |s| > 0
    ensures SameSuit(s) <==> SameSuit(t)
  {
    assert t[0] in multiset(s) && s[0] in multiset(t);
    if SameSuit(s) {
      forall i | 0 <= i < |t| ensures t[i].suit == t[0].suit {
        assert t[i] in multiset(s);
      }
    }
    if SameSuit(t) {
      forall i | 0 <= i < |s| ensures s[i].suit == s[0].suit {
        assert s[i] in multiset(t);
      }
    }
  }

  /** Descending values that pass the straight test form a run topped by
      `StraightHigh`; they reach 14 and 13 only as the royal run. */
  lemma StraightBranch(vs: seq<int>)
    requires |vs| == 5 && StraightFlag(vs) && forall x :: x in vs ==> x <= 14
    ensures IsRun(multiset(vs), StraightHigh(vs))
    ensures StraightHigh(vs) == 14 && vs[1] == 13 ==> multiset(vs) == multiset(Run(14))
    ensures !(StraightHigh(vs) == 14 && vs[1] == 13) ==> StraightHigh(vs) < 14
  {
    if vs != Wheel {
      ConsecutiveRun(vs);
      assert vs[0] in vs;
    }
  }

  /** Consecutive values are the run below their top value. */
  lemma ConsecutiveRun(vs: seq<int>)
    requires |vs| == 5 && Consecutive(vs)
    ensures vs == Run(vs[0])
  {
    var h := vs[0];
    assert vs[1] == h - 1 && vs[2] == h - 2 && vs[3] == h - 3 && vs[4] == h - 4;
  }

  /** The values of a hand are at most 14. */
  lemma ValuesAtMostAce(cards: seq<Card>)
    ensures forall x :: x in Values(cards) ==> 2 <= x <= 14
  {
    ValuesAt(cards);
    forall x | x in Values(cards) ensures 2 <= x <= 14 {
      var i :| 0 <= i < |cards| && Values(cards)[i] == x;
      ValueOfRank(cards[i]);
    }
  }

  lemma QuadsBranch(vs: seq<int>)
    requires |vs| == 5 && Descending(vs) && Includes(CountsOf(vs), 4)
    ensures var us := Dedup(vs); var m := CountsOf(vs);
      multiset(vs)[FirstWithCount(us, m, 4)] == 4 && multiset(vs)[FirstWithCount(us, m, 1)] == 1
  {
    var us := Dedup(vs);
    var m := CountsOf(vs);
    var M := multiset(vs);
    CountsOfSpec(vs);
    DedupSpec(vs);
    HasCount(vs, 4);
    var q :| q in vs && M[q] == 4;
    FirstWithCountFound(us, m, 4, q);
    var y := OtherValue(vs, q, q);
    TwoCountsAtMostLength(vs, q, y);
    FirstWithCountFound(us, m, 1, y);
  }

  lemma FullHouseBranch(vs: seq<int>)
    requires |vs| == 5 && Descending(vs) && Includes(CountsOf(vs), 3) && Includes(CountsOf(vs), 2)
    ensures var us := Dedup(vs); var m := CountsOf(vs);
      multiset(vs)[FirstWithCount(us, m, 3)] == 3 && multiset(vs)[FirstWithCount(us, m, 2)] == 2
  {
    var us := Dedup(vs);
    var m := CountsOf(vs);
    var M := multiset(vs);
    CountsOfSpec(vs);
    DedupSpec(vs);
    HasCount(vs, 3);
    HasCount(vs, 2);
    var t :| t in vs && M[t] == 3;
    var p :| p in vs && M[p] == 2;
    FirstWithCountFound(us, m, 3, t);
    FirstWithCountFound(us, m, 2, p);
  }

  /** With a value of count 3 and none of count 2 or 4, every other value
      occurs once. */
  lemma TripsOthersSingle(vs: seq<int>, t: int)
    requires |vs| == 5 && t in vs && multiset(vs)[t] == 3
    requires !Includes(CountsOf(vs), 2) && !Includes(CountsOf(vs), 4)
    ensures forall y :: y in vs && y != t ==> multiset(vs)[y] == 1
  {
    HasCount(vs, 2);
    forall y | y in vs && y != t ensures multiset(vs)[y] == 1 {
      TwoCountsAtMostLength(vs, t, y);
    }
  }

  lemma TripsBranch(vs: seq<int>)
    requires |vs| == 5 && Descending(vs) && Includes(CountsOf(vs), 3)
    requires !Includes(CountsOf(vs), 2) && !Includes(CountsOf(vs), 4)
    ensures var us := Dedup(vs); var m := CountsOf(vs);
      var t := [FirstWithCount(us, m, 3)] + Except(us, FirstWithCount(us, m, 3));
      var M := multiset(vs);
      |t| == 3 && M[t[0]] == 3 && t[1] > t[2] && M[t[1]] == 1 && M[t[2]] == 1
  {
    var us := Dedup(vs);
    var m := CountsOf(vs);
    var M := multiset(vs);
    CountsOfSpec(vs);
    DedupSpec(vs);
    HasCount(vs, 3);
    var x :| x in vs && M[x] == 3;
    FirstWithCountFound(us, m, 3, x);
    var trip := FirstWithCount(us, m, 3);
    TripsOthersSingle(vs, trip);
    Kickers(vs, trip);
    var rest := Except(us, trip);
    assert rest[0] in rest && rest[1] in rest;
  }

  /** Once the value `t` is set aside, the other values, each occurring
      once, are the kickers in descending order. */
  lemma Kickers(vs: seq<int>, t: int)
    requires |vs| == 5 && Descending(vs) && t in vs
    requires forall y :: y in vs && y != t ==> multiset(vs)[y] == 1
    ensures var rest := Except(Dedup(vs), t);
      && |rest| == 5 - multiset(vs)[t]
      && StrictlyDescending(rest)
      && forall y :: y in rest ==> multiset(vs)[y] == 1
  {
    var us := Dedup(vs);
    DedupSpec(vs);
    ElemsWhenOthersSingle(vs, t);
    DedupLength(vs);
    StrictlyDescendingDistinct(us);
    DistinctCount(us, t);
    ExceptSpec(us, t);
    ExceptDescending(us, t);
  }

  /** The ranks of count `k`, listed in descending order, are as many as
      `countValues.filter(x => x === k)` says. */
  lemma RanksWithCount(vs: seq<int>, k: nat)
    requires Descending(vs)
    ensures var w := WithCount(Dedup(vs), CountsOf(vs), k);
      && StrictlyDescending(w)
      && |w| == KeysWithCount(CountsOf(vs), k)
      && forall x :: x in w <==> x in vs && multiset(vs)[x] == k
  {
    var us := Dedup(vs);
    var m := CountsOf(vs);
    CountsOfSpec(vs);
    DedupSpec(vs);
    KeysWithCountSpec(vs, k);
    var w := WithCount(us, m, k);
    WithCountSpec(us, m, k);
    WithCountDescending(us, m, k);
    StrictlyDescendingDistinct(w);
    DistinctCardinality(w);
    var ranks := set x | x in vs && multiset(vs)[x] == k;
    forall x ensures x in Elems(w) <==> x in ranks {
    }
    assert Elems(w) == ranks;
  }

  lemma TwoPairBranch(vs: seq<int>)
    requires |vs| == 5 && Descending(vs) && KeysWithCount(CountsOf(vs), 2) == 2
    ensures var us := Dedup(vs); var m := CountsOf(vs);
      var t := WithCount(us, m, 2) + [FirstWithCount(us, m, 1)];
      var M := multiset(vs);
      |t| == 3 && t[0] > t[1] && M[t[0]] == 2 && M[t[1]] == 2 && M[t[2]] == 1
  {
    var us := Dedup(vs);
    var m := CountsOf(vs);
    var M := multiset(vs);
    RanksWithCount(vs, 2);
    var w := WithCount(us, m, 2);
    assert w[0] in w && w[1] in w;
    var y := OtherValue(vs, w[0], w[1]);
    ThreeCountsAtMostLength(vs, w[0], w[1], y);
    CountsOfSpec(vs);
    DedupSpec(vs);
    FirstWithCountFound(us, m, 1, y);
  }

  lemma PairOthersSingle(vs: seq<int>, p: int)
    requires |vs| == 5 && Descending(vs) && p in vs && multiset(vs)[p] == 2
    requires KeysWithCount(CountsOf(vs), 2) != 2
    requires !Includes(CountsOf(vs), 3) && !Includes(CountsOf(vs), 4)
    ensures forall y :: y in vs && y != p ==> multiset(vs)[y] == 1
  {
    var M := multiset(vs);
    HasCount(vs, 3);
    HasCount(vs, 4);
    RanksWithCount(vs, 2);
    var w := WithCount(Dedup(vs), CountsOf(vs), 2);
    forall y | y in vs && y != p ensures M[y] == 1 {
      TwoCountsAtMostLength(vs, p, y);
      if M[y] == 2 {
        var i :| 0 <= i < |w| && w[i] == p;
        var j :| 0 <= j < |w| && w[j] == y;
        assert |w| >= 3;
        var z := if w[0] != p && w[0] != y then w[0] else if w[1] != p && w[1] != y then w[1] else w[2];
        assert z in w;
        ThreeCountsAtMostLength(vs, p, y, z);
        assert false;
      }
    }
  }

  lemma PairBranch(vs: seq<int>)
    requires |vs| == 5 && Descending(vs) && Includes(CountsOf(vs), 2)
    requires KeysWithCount(CountsOf(vs), 2) != 2
    requires !Includes(CountsOf(vs), 3) && !Includes(CountsOf(vs), 4)
    ensures var us := Dedup(vs); var m := CountsOf(vs);
      var t := [FirstWithCount(us, m, 2)] + Except(us, FirstWithCount(us, m, 2));
      var M := multiset(vs);
      && |t| == 4 && M[t[0]] == 2 && t[1] > t[2] > t[3]
      && M[t[1]] == 1 && M[t[2]] == 1 && M[t[3]] == 1
  {
    var us := Dedup(vs);
    var m := CountsOf(vs);
    var M := multiset(vs);
    CountsOfSpec(vs);
    DedupSpec(vs);
    HasCount(vs, 2);
    var x :| x in vs && M[x] == 2;
    FirstWithCountFound(us, m, 2, x);
    var pair := FirstWithCount(us, m, 2);
    PairOthersSingle(vs, pair);
    Kickers(vs, pair);
    var rest := Except(us, pair);
    assert rest[0] in rest && rest[1] in rest && rest[2] in rest;
  }

  lemma HighCardBranch(vs: seq<int>)
    requires |vs| == 5
    requires !Includes(CountsOf(vs), 2) && !Includes(CountsOf(vs), 3) && !Includes(CountsOf(vs), 4)
    ensures forall i :: 0 <= i < 5 ==> multiset(vs)[vs[i]] != 2 && multiset(vs)[vs[i]] != 3 && multiset(vs)[vs[i]] != 4
  {
    HasCount(vs, 2);
    HasCount(vs, 3);
    HasCount(vs, 4);
    assert forall x :: x in vs ==> multiset(vs)[x] != 2 && multiset(vs)[x] != 3 && multiset(vs)[x] != 4;
    forall i | 0 <= i < 5
      ensures multiset(vs)[vs[i]] != 2 && multiset(vs)[vs[i]] != 3 && multiset(vs)[vs[i]] != 4
    {
      assert vs[i] in vs;
    }
  }

  /** The classification of descending values meets `FitsValues`. */
  lemma ClassifyFits(vs: seq<int>, flush: bool)
    requires |vs| == 5 && Descending(vs) && forall x :: x in vs ==> x <= 14
    ensures FitsValues(Classify(vs, flush, StraightFlag(vs), StraightHigh(vs), CountsOf(vs), Dedup(vs)),
                       multiset(vs), flush)
  {
    var m := CountsOf(vs);
    if flush || StraightFlag(vs) || Includes(m, 4) || (Includes(m, 3) && Includes(m, 2)) {
      UpperClassifyFits(vs, flush);
    } else {
      LowerClassifyFits(vs, flush);
    }
  }

  /** The categories from royal flush down to straight. */
  lemma UpperClassifyFits(vs: seq<int>, flush: bool)
    requires |vs| == 5 && Descending(vs) && forall x :: x in vs ==> x <= 14
    requires flush || StraightFlag(vs) || Includes(CountsOf(vs), 4)
          || (Includes(CountsOf(vs), 3) && Includes(CountsOf(vs), 2))
    ensures FitsValues(Classify(vs, flush, StraightFlag(vs), StraightHigh(vs), CountsOf(vs), Dedup(vs)),
                       multiset(vs), flush)
  {
    if StraightFlag(vs) {
      StraightClassifyFits(vs, flush);
    } else {
      var m := CountsOf(vs);
      if Includes(m, 4) {
        QuadsBranch(vs);
      } else if Includes(m, 3) && Includes(m, 2) {
        FullHouseBranch(vs);
      }
    }
  }

  /** A straight, suited or not. */
  lemma StraightClassifyFits(vs: seq<int>, flush: bool)
    requires |vs| == 5 && Descending(vs) && forall x :: x in vs ==> x <= 14
    requires StraightFlag(vs)
    ensures FitsValues(Classify(vs, flush, StraightFlag(vs), StraightHigh(vs), CountsOf(vs), Dedup(vs)),
                       multiset(vs), flush)
  {
    var high := StraightHigh(vs);
    StraightBranch(vs);
    RunNoRepeats(vs, high);
    ClassifyRun(vs, flush, high);
    RunResultFits(multiset(vs), flush, high, high == 14 && vs[1] == 13);
  }

  /** Without three or four of a value, a straight is classified by its
      suit and its high card alone. */
  lemma ClassifyRun(vs: seq<int>, flush: bool, high: int)
    requires |vs| == 5 && !Includes(CountsOf(vs), 4) && !Includes(CountsOf(vs), 3)
    ensures Classify(vs, flush, true, high, CountsOf(vs), Dedup(vs)) ==
      if !flush then HandResult(Straight, "Straight", [high])
      else if high == 14 && vs[1] == 13 then HandResult(RoyalFlush, "Royal Flush", [])
      else HandResult(StraightFlush, "Straight Flush", [high])
  {
  }

  /** The three results a straight can get meet `FitsValues`. */
  lemma RunResultFits(m: multiset<int>, flush: bool, high: int, royal: bool)
    requires IsRun(m, high)
    requires royal ==> m == multiset(Run(14))
    requires !royal ==> high < 14
    ensures FitsValues(if !flush then HandResult(Straight, "Straight", [high])
                       else if royal then HandResult(RoyalFlush, "Royal Flush", [])
                       else HandResult(StraightFlush, "Straight Flush", [high]), m, flush)
  {
  }

  /** A run has no value three or four times. */
  lemma RunNoRepeats(vs: seq<int>, high: int)
    requires IsRun(multiset(vs), high)
    ensures !Includes(CountsOf(vs), 4) && !Includes(CountsOf(vs), 3)
  {
    HasCount(vs, 4);
    HasCount(vs, 3);
    var r := if multiset(vs) == multiset(Run(high)) then Run(high) else Wheel;
    WheelFacts();
    assert Distinct(r);
    forall x ensures multiset(vs)[x] <= 1 {
      DistinctCount(r, x);
    }
  }

  /** The categories from three of a kind down to high card. */
  lemma LowerClassifyFits(vs: seq<int>, flush: bool)
    requires |vs| == 5 && Descending(vs)
    requires !flush && !StraightFlag(vs) && !Includes(CountsOf(vs), 4)
          && !(Includes(CountsOf(vs), 3) && Includes(CountsOf(vs), 2))
    ensures FitsValues(Classify(vs, flush, StraightFlag(vs), StraightHigh(vs), CountsOf(vs), Dedup(vs)),
                       multiset(vs), flush)
  {
    var m := CountsOf(vs);
    if Includes(m, 3) {
      TripsBranch(vs);
    } else if KeysWithCount(m, 2) == 2 {
      TwoPairBranch(vs);
    } else if Includes(m, 2) {
      PairBranch(vs);
    } else {
      HighCardBranch(vs);
    }
  }

  /** Every five-card hand gets a category and tie-breakers that mean what
      their names say. */
  lemma Rank5Fits(cards: seq<Card>)
    requires |cards| == 5
    ensures Fits(Rank5(cards), cards)
  {
    var sorted := SortByValue(cards);
    SortByValueSorted(cards);
    SortByValuePermutes(cards);
    SortByValueValues(cards);
    SortedValuesDescending(sorted);
    SameSuitPermutation(sorted, cards);
    ValuesAtMostAce(sorted);
    ClassifyFits(Values(sorted), SameSuit(sorted));
  }

  /** Two descending lists with the same elements are equal. */
  lemma {:induction false} DescendingUnique(a: seq<int>, b: seq<int>)
    requires Descending(a) && Descending(b) && multiset(a) == multiset(b)
    ensures a == b
  {
    assert |a| == |multiset(a)| == |multiset(b)| == |b|;
    if a != [] {
      DescendingHeads(a, b);
      MultisetTail(a);
      MultisetTail(b);
      DescendingTail(a);
      DescendingTail(b);
      DescendingUnique(a[1..], b[1..]);
      assert a == [a[0]] + a[1..] && b == [b[0]] + b[1..];
    }
  }

  /** Both heads are the largest element. */
  lemma DescendingHeads(a: seq<int>, b: seq<int>)
    requires Descending(a) && Descending(b) && multiset(a) == multiset(b) && a != [] && b != []
    ensures a[0] == b[0]
  {
    assert a[0] in multiset(b) && b[0] in multiset(a);
    var i :| 0 <= i < |b| && b[i] == a[0];
    var j :| 0 <= j < |a| && a[j] == b[0];
    assert a[0] >= a[j] && b[0] >= b[i];
  }

  lemma MultisetTail(a: seq<int>)
    requires a != []
    ensures multiset(a[1..]) == multiset(a) - multiset{a[0]}
  {
    assert a == [a[0]] + a[1..];
  }

  lemma DescendingTail(a: seq<int>)
    requires Descending(a) && a != []
    ensures Descending(a[1..])
  {
    forall i, j | 0 <= i < j < |a| - 1 ensures a[1..][i] >= a[1..][j] {
      assert a[1..][i] == a[i + 1] && a[1..][j] == a[j + 1];
    }
  }

  /** The sorted values of a hand whose values are `multiset(vs)`, for a
      descending `vs`, are `vs`. */
  lemma SortedValuesAre(cards: seq<Card>, vs: seq<int>)
    requires Descending(vs) && multiset(Values(cards)) == multiset(vs)
    ensures Values(SortByValue(cards)) == vs
  {
    SortByValueSorted(cards);
    SortByValueValues(cards);
    SortedValuesDescending(SortByValue(cards));
    DescendingUnique(Values(SortByValue(cards)), vs);
  }

  /** Five values without repetition. */
  lemma RunCounts(vs: seq<int>)
    requires |vs| == 5 && forall i, j :: 0 <= i < j < 5 ==> vs[i] != vs[j]
    ensures !Includes(CountsOf(vs), 4) && !Includes(CountsOf(vs), 3) && !Includes(CountsOf(vs), 2)
  {
    HasCount(vs, 4);
    HasCount(vs, 3);
    HasCount(vs, 2);
    forall x | x in vs ensures multiset(vs)[x] == 1 {
      DistinctCount(vs, x);
    }
  }

  /** How a straight without repeated values is classified. */
  lemma ClassifyStraight(vs: seq<int>, flush: bool, high: int)
    requires |vs| == 5 && forall i, j :: 0 <= i < j < 5 ==> vs[i] != vs[j]
    ensures Classify(vs, flush, true, high, CountsOf(vs), Dedup(vs)) ==
      if !flush then HandResult(Straight, "Straight", [high])
      else if high == 14 && vs[1] == 13 then HandResult(RoyalFlush, "Royal Flush", [])
      else HandResult(StraightFlush, "Straight Flush", [high])
  {
    RunCounts(vs);
  }

  /** The sorted values of a run are the run itself, or the wheel. */
  lemma RunSorted(cards: seq<Card>, high: int)
    requires IsRun(multiset(Values(cards)), high)
    ensures var vs := Values(SortByValue(cards));
      vs == Run(high) || (high == 5 && vs == Wheel)
  {
    if multiset(Values(cards)) == multiset(Run(high)) {
      SortedValuesAre(cards, Run(high));
    } else {
      WheelFacts();
      SortedValuesAre(cards, Wheel);
    }
  }

  /** What a run topped by `high` is ranked as, suited or not. */
  function RunResult(high: int, flush: bool): HandResult {
    if !flush then HandResult(Straight, "Straight", [high])
    else if high == 14 then HandResult(RoyalFlush, "Royal Flush", [])
    else HandResult(StraightFlush, "Straight Flush", [high])
  }

  /** The classification of a run topped by `high`. */
  lemma RunClassified(vs: seq<int>, high: int, flush: bool)
    requires vs == Run(high) || (high == 5 && vs == Wheel)
    ensures Classify(vs, flush, StraightFlag(vs), StraightHigh(vs), CountsOf(vs), Dedup(vs)) == RunResult(high, flush)
  {
    if vs == Run(high) {
      assert vs[0] - vs[1] == 1;
      assert vs != Wheel;
    } else {
      WheelFacts();
    }
    ClassifyStraight(vs, flush, high);
  }

  /** A hand whose sorted values are a run is ranked by `RunResult`. */
  lemma SortedRunRanked(cards: seq<Card>, high: int)
    requires |cards| == 5
    requires var vs := Values(SortByValue(cards)); vs == Run(high) || (high == 5 && vs == Wheel)
    ensures Rank5(cards) == RunResult(high, SameSuit(SortByValue(cards)))
  {
    var sorted := SortByValue(cards);
    RunClassified(Values(sorted), high, SameSuit(sorted));
  }

  /** Sorting does not change whether a hand is suited. */
  lemma SortedSameSuit(cards: seq<Card>)
    ensures SameSuit(SortByValue(cards)) == SameSuit(cards)
  {
    if cards != [] {
      SortByValuePermutes(cards);
      SameSuitPermutation(SortByValue(cards), cards);
    }
  }

  /** Five suited cards whose values form a run are a royal flush when the
      run is topped by the ace, and a straight flush topped by `high`
      otherwise. */
  lemma SuitedRunRanked(cards: seq<Card>, high: int)
    requires |cards| == 5 && SameSuit(cards) && IsRun(multiset(Values(cards)), high)
    ensures Rank5(cards).rank == (if high == 14 then RoyalFlush else StraightFlush)
    ensures Rank5(cards).tieBreakers == (if high == 14 then [] else [high])
  {
    RunSorted(cards, high);
    SortedSameSuit(cards);
    SortedRunRanked(cards, high);
  }

  /** Five unsuited cards whose values form a run are a straight topped by
      `high`. */
  lemma UnsuitedRunRanked(cards: seq<Card>, high: int)
    requires |cards| == 5 && !SameSuit(cards) && IsRun(multiset(Values(cards)), high)
    ensures Rank5(cards) == HandResult(Straight, "Straight", [high])
  {
    RunSorted(cards, high);
    SortedSameSuit(cards);
    SortedRunRanked(cards, high);
  }

  /** The wheel repair of `rank5CardHand` never fires, because the
      straight loop has already accepted the wheel; so the hand it builds
      as written differs from the corrected one only on the wheel. */
  lemma AsWrittenDiffersOnlyOnWheel(cards: seq<Card>)
    requires |cards| == 5
    ensures var vs := Values(SortByValue(cards)); StraightFlag(vs) || vs != Wheel
    ensures Values(SortByValue(cards)) != Wheel ==> Rank5AsWritten(cards) == Rank5(cards)
  {
  }

  /** As written, a wheel is ranked as a straight (or straight flush) whose
      high card is the ace; corrected, its high card is 5. */
  lemma WheelAsWritten(cards: seq<Card>)
    requires |cards| == 5 && multiset(Values(cards)) == multiset(Wheel)
    ensures Rank5AsWritten(cards) ==
      if SameSuit(cards) then HandResult(StraightFlush, "Straight Flush", [14])
      else HandResult(Straight, "Straight", [14])
    ensures Rank5(cards) ==
      if SameSuit(cards) then HandResult(StraightFlush, "Straight Flush", [5])
      else HandResult(Straight, "Straight", [5])
  {
    WheelFacts();
    SortedValuesAre(cards, Wheel);
    var sorted := SortByValue(cards);
    SortByValuePermutes(cards);
    SameSuitPermutation(sorted, cards);
    var vs := Values(sorted);
    AsWrittenDiffersOnlyOnWheel(cards);
    ClassifyStraight(vs, SameSuit(sorted), 14);
    ClassifyStraight(vs, SameSuit(sorted), 5);
  }

  /** As written, a wheel does not mean what its category says: it is a
      run topped by 5, yet it is reported with the ace as its high card. */
  lemma WheelAsWrittenMisfits(cards: seq<Card>)
    requires |cards| == 5 && multiset(Values(cards)) == multiset(Wheel)
    ensures IsRun(multiset(Values(cards)), 5) && !Fits(Rank5AsWritten(cards), cards)
  {
    WheelAsWritten(cards);
    AceHighMisfitsWheel(Rank5AsWritten(cards), SameSuit(cards));
  }

  /** A straight or straight flush reported with the ace as its high card
      does not fit the values of the wheel. */
  lemma AceHighMisfitsWheel(h: HandResult, flush: bool)
    requires (h.rank == Straight || h.rank == StraightFlush) && h.tieBreakers == [14]
    ensures !FitsValues(h, multiset(Wheel), flush)
  {
    var r := Run(14);
    assert r[1] == 13 && 13 in multiset(r);
    assert 13 !in multiset(Wheel);
  }

  /** As written, every category means what its name says exactly on the
      hands that are not a wheel. */
  lemma Rank5AsWrittenFits(cards: seq<Card>)
    requires |cards| == 5
    ensures Fits(Rank5AsWritten(cards), cards) <==> multiset(Values(cards)) != multiset(Wheel)
  {
    if multiset(Values(cards)) == multiset(Wheel) {
      WheelAsWrittenMisfits(cards);
    } else {
      SortByValueValues(cards);
      AsWrittenDiffersOnlyOnWheel(cards);
      Rank5Fits(cards);
    }
  }
}

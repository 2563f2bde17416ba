/** `getCombinations(arr, k)` of src/core/hand_evaluator.js (an identical
    copy sits in src/engines/exact_engine.js): the k-element combinations of
    a list, those with the first element listed before those without it. */
module Combinatorics {
  import opened Seqs

  /** The binomial coefficient, by Pascal's rule. */
  function Choose(n: nat, k: int): nat {
    if k < 0 then 0
    else if k == 0 then 1
    else if n == 0 then 0
    else Choose(n - 1, k - 1) + Choose(n - 1, k)
  }

  /** `xss.map(c => [x, ...c])` */
  function Prepend<T>(x: T, xss: seq<seq<T>>): (r: seq<seq<T>>)
    ensures |r| == |xss|
    ensures forall i :: 0 <= i < |xss| ==> r[i] == [x] + xss[i]
  {
    seq(|xss|, i requires 0 <= i < |xss| => [x] + xss[i])
  }

  function Combinations<T>(arr: seq<T>, k: int): seq<seq<T>>
    decreases |arr|
  {
    if k == 0 then [[]]
    else if |arr| == 0 then []
    else Prepend(arr[0], Combinations(arr[1..], k - 1)) + Combinations(arr[1..], k)
  }

  /** There are exactly C(|arr|, k) combinations. */
  lemma {:induction false} CombinationsCount<T>(arr: seq<T>, k: int)
    ensures |Combinations(arr, k)| == Choose(|arr|, k)
    decreases |arr|
  {
    if k != 0 && |arr| != 0 {
      CombinationsCount(arr[1..], k - 1);
      CombinationsCount(arr[1..], k);
    } else if k != 0 {
      assert k < 0 || Choose(0, k) == 0;
    }
  }

  /** Every combination is an order-preserving subsequence of `arr` of
      length `k`. */
  lemma {:induction false} CombinationsSound<T>(arr: seq<T>, k: int, x: seq<T>) returns (idx: seq<nat>)
    requires x in Combinations(arr, k)
    ensures |x| == k && SubseqAt(x, arr, idx)
    decreases |arr|
  {
    if k == 0 {
      idx := [];
    } else {
      var rest := Combinations(arr[1..], k);
      var with := Prepend(arr[0], Combinations(arr[1..], k - 1));
      if x in with {
        var i :| 0 <= i < |with| && with[i] == x;
        var y := Combinations(arr[1..], k - 1)[i];
        var tail := CombinationsSound(arr[1..], k - 1, y);
        idx := SubseqCons(y, arr, tail, true);
      } else {
        assert x in rest;
        var tail := CombinationsSound(arr[1..], k, x);
        idx := SubseqCons(x, arr, tail, false);
      }
    }
  }

  /** Every order-preserving subsequence of `arr` is one of its combinations. */
  lemma {:induction false} CombinationsComplete<T>(arr: seq<T>, x: seq<T>, idx: seq<nat>)
    requires SubseqAt(x, arr, idx)
    ensures x in Combinations(arr, |x|)
    decreases |arr|
  {
    if |x| > 0 {
      assert idx[0] < |arr|;
      if idx[0] == 0 {
        var tail := seq(|x| - 1, i requires 0 <= i < |x| - 1 => idx[i + 1] - 1);
        forall i | 0 <= i < |tail| ensures tail[i] < |arr| - 1 && x[1..][i] == arr[1..][tail[i]] {
          assert idx[0] < idx[i + 1];
        }
        CombinationsComplete(arr[1..], x[1..], tail);
        var c := Combinations(arr[1..], |x| - 1);
        var j :| 0 <= j < |c| && c[j] == x[1..];
        assert Prepend(arr[0], c)[j] == x;
      } else {
        var tail := seq(|x|, i requires 0 <= i < |x| => idx[i] - 1);
        forall i | 0 <= i < |tail| ensures tail[i] < |arr| - 1 && x[i] == arr[1..][tail[i]] {
          if i > 0 {
            assert idx[0] < idx[i];
          }
        }
        CombinationsComplete(arr[1..], x, tail);
      }
    }
  }

  /** Over a list without duplicates, no combination is listed twice. */
  lemma {:induction false} CombinationsDistinct<T>(arr: seq<T>, k: int)
    requires Distinct(arr)
    ensures Distinct(Combinations(arr, k))
    decreases |arr|
  {
    if k != 0 && |arr| != 0 {
      var a := Combinations(arr[1..], k - 1);
      var b := Combinations(arr[1..], k);
      CombinationsDistinct(arr[1..], k - 1);
      CombinationsDistinct(arr[1..], k);
      var pa := Prepend(arr[0], a);
      var ab := pa + b;
      forall i, j | 0 <= i < j < |ab| ensures ab[i] != ab[j] {
        if j < |pa| {
          assert ab[i][1..] == a[i] && ab[j][1..] == a[j];
        } else if i < |pa| {
          var y := b[j - |pa|];
          var idx := CombinationsSound(arr[1..], k, y);
          assert ab[i][0] == arr[0];
          assert y[0] == arr[1..][idx[0]];
        }
      }
    }
  }

  /** C(n, 1) = n. */
  lemma {:induction false} ChooseOne(n: nat)
    ensures Choose(n, 1) == n
  {
    if n > 0 {
      ChooseOne(n - 1);
    }
  }

  /** C(n, 2) = n(n-1)/2. */
  lemma {:induction false} ChooseTwo(n: nat)
    ensures 2 * Choose(n, 2) == n * (n - 1)
  {
    if n > 0 {
      ChooseTwo(n - 1);
      ChooseOne(n - 1);
    }
  }
}

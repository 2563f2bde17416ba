/** Sequence vocabulary shared by the deck, the evaluator and the engines. */
module Seqs {

  /** No element occurs twice. */
  ghost predicate Distinct<T>(s: seq<T>) {
    forall i, j :: 0 <= i < j < |s| ==> s[i] != s[j]
  }

  /** The set of elements of a sequence. */
  ghost function Elems<T>(s: seq<T>): set<T> {
    set x | x in s
  }

  /** `x` is the subsequence of `s` at the strictly increasing positions `idx`. */
  ghost predicate SubseqAt<T>(x: seq<T>, s: seq<T>, idx: seq<nat>) {
    && |idx| == |x|
    && (forall i :: 0 <= i < |idx| ==> idx[i] < |s| && x[i] == s[idx[i]])
    && (forall i, j :: 0 <= i < j < |idx| ==> idx[i] < idx[j])
  }

  /** Exchanges the elements at positions `i` and `j`. */
  function Swap<T>(s: seq<T>, i: nat, j: nat): (r: seq<T>)
    requires i < |s| && j < |s|
    ensures |r| == |s| && r[i] == s[j] && r[j] == s[i]
    ensures forall k :: 0 <= k < |s| && k != i && k != j ==> r[k] == s[k]
  {
    s[i := s[j]][j := s[i]]
  }

  /** An exchange only reorders the elements. */
  lemma SwapPermutes<T>(s: seq<T>, i: nat, j: nat)
    requires i < |s| && j < |s|
    ensures multiset(Swap(s, i, j)) == multiset(s)
  {
  }

  /** A distinct sequence has as many elements as its set. */
  lemma {:induction false} DistinctCardinality<T>(s: seq<T>)
    requires Distinct(s)
    ensures |Elems(s)| == |s|
  {
    if s != [] {
      DistinctCardinality(s[1..]);
      assert Elems(s) == Elems(s[1..]) + {s[0]};
      assert s[0] !in Elems(s[1..]);
    }
  }

  /** Reordering a distinct sequence keeps it distinct. */
  lemma PermutationDistinct<T>(s: seq<T>, t: seq<T>)
    requires Distinct(s) && multiset(s) == multiset(t)
    ensures Distinct(t)
  {
    forall i, j | 0 <= i < j < |t| ensures t[i] != t[j] {
      if t[i] == t[j] {
        assert multiset(t)[t[i]] >= 2 by {
          var u := t[i];
          assert t == t[..i] + [u] + t[i + 1..j] + [u] + t[j + 1..];
          assert multiset(t) == multiset(t[..i]) + multiset{u} + multiset(t[i + 1..j]) + multiset{u} + multiset(t[j + 1..]);
        }
        DistinctCount(s, t[i]);
      }
    }
  }

  /** In a distinct sequence every element occurs once. */
  lemma {:induction false} DistinctCount<T>(s: seq<T>, x: T)
    requires Distinct(s)
    ensures multiset(s)[x] <= 1
  {
    if s != [] {
      assert s == [s[0]] + s[1..];
      DistinctCount(s[1..], x);
      if x == s[0] {
        assert multiset(s[1..])[x] == 0;
      }
    }
  }

  /** Extends a subsequence of `s[1..]` to one of `s`, with or without
      the head of `s` in front. */
  lemma SubseqCons<T>(x: seq<T>, s: seq<T>, tail: seq<nat>, keep: bool) returns (idx: seq<nat>)
    requires |s| > 0 && SubseqAt(x, s[1..], tail)
    ensures SubseqAt(if keep then [s[0]] + x else x, s, idx)
    ensures 0 in idx <==> keep
    ensures forall i :: 0 < i < |s| ==> (i in idx <==> i - 1 in tail)
  {
    var shifted := SubseqShift(x, s, tail);
    if keep {
      idx := [0] + shifted;
      SubseqPrepend(x, s, shifted);
      forall i | 0 < i < |s| ensures i in idx <==> i in shifted {
      }
    } else {
      idx := shifted;
    }
  }

  /** The positions of a subsequence of `s[1..]`, read in `s`. */
  lemma SubseqShift<T>(x: seq<T>, s: seq<T>, tail: seq<nat>) returns (shifted: seq<nat>)
    requires |s| > 0 && SubseqAt(x, s[1..], tail)
    ensures SubseqAt(x, s, shifted)
    ensures forall k :: 0 <= k < |shifted| ==> shifted[k] > 0
    ensures forall i :: 0 < i < |s| ==> (i in shifted <==> i - 1 in tail)
  {
    shifted := seq(|tail|, k requires 0 <= k < |tail| => tail[k] + 1);
    forall k | 0 <= k < |shifted| ensures shifted[k] < |s| && x[k] == s[shifted[k]] {
      assert x[k] == s[1..][tail[k]];
    }
    forall i | 0 < i < |s| ensures i in shifted <==> i - 1 in tail {
      if i - 1 in tail {
        var k :| 0 <= k < |tail| && tail[k] == i - 1;
        assert shifted[k] == i;
      }
    }
  }

  /** Position 0 in front of positions that avoid it. */
  lemma SubseqPrepend<T>(x: seq<T>, s: seq<T>, shifted: seq<nat>)
    requires |s| > 0 && SubseqAt(x, s, shifted)
    requires forall k :: 0 <= k < |shifted| ==> shifted[k] > 0
    ensures SubseqAt([s[0]] + x, s, [0] + shifted)
  {
    var idx, y := [0] + shifted, [s[0]] + x;
    forall k | 0 < k < |idx| ensures idx[k] < |s| && y[k] == s[idx[k]] {
      assert idx[k] == shifted[k - 1] && y[k] == x[k - 1];
    }
    forall i, j | 0 <= i < j < |idx| ensures idx[i] < idx[j] {
      assert idx[j] == shifted[j - 1];
      if i > 0 {
        assert idx[i] == shifted[i - 1];
      }
    }
  }

  /** The `i`-th chosen position is at least `i`. */
  lemma {:induction false} IdxLower<T>(x: seq<T>, s: seq<T>, idx: seq<nat>, i: nat)
    requires SubseqAt(x, s, idx) && i < |idx|
    ensures idx[i] >= i
  {
    if i > 0 {
      IdxLower(x, s, idx, i - 1);
    }
  }

  /** The `i`-th chosen position leaves room for the positions after it. */
  lemma {:induction false} IdxUpper<T>(x: seq<T>, s: seq<T>, idx: seq<nat>, i: nat)
    requires SubseqAt(x, s, idx) && i < |idx|
    ensures idx[i] <= |s| - |idx| + i
    decreases |idx| - i
  {
    if i + 1 < |idx| {
      IdxUpper(x, s, idx, i + 1);
    }
  }

  /** A subsequence as long as the whole sequence is the sequence itself. */
  lemma FullSubseq<T>(x: seq<T>, s: seq<T>, idx: seq<nat>)
    requires SubseqAt(x, s, idx) && |x| == |s|
    ensures x == s
  {
    forall i | 0 <= i < |x| ensures x[i] == s[i] {
      IdxLower(x, s, idx, i);
      IdxUpper(x, s, idx, i);
    }
  }

  /** A subsequence of a distinct sequence is distinct. */
  lemma SubseqDistinct<T>(x: seq<T>, s: seq<T>, idx: seq<nat>)
    requires SubseqAt(x, s, idx) && Distinct(s)
    ensures Distinct(x) && forall i :: 0 <= i < |x| ==> x[i] in s
  {
  }
}

/** Facts about the value counts, the unique ranks and the filters that
    `rank5CardHand` builds from the sorted values of a hand. */
module HandCounts {
  import opened Seqs
  import opened HandEvaluator

  /** `multiset(s)[x]` never exceeds the length of `s`. */
  lemma {:induction false} CountAtMostLength(s: seq<int>, x: int)
    ensures multiset(s)[x] <= |s|
  {
    if s != [] {
      assert s == [s[0]] + s[1..];
      CountAtMostLength(s[1..], x);
    }
  }

  /** A value that occurs at two positions occurs at least twice. */
  lemma TwoPositions<T>(s: seq<T>, i: nat, j: nat)
    requires i < j < |s| && s[i] == s[j]
    ensures multiset(s)[s[i]] >= 2
  {
    var u := s[i];
    assert s == s[..i] + [u] + s[i + 1..j] + [u] + s[j + 1..];
    assert multiset(s) == multiset(s[..i]) + multiset{u} + multiset(s[i + 1..j]) + multiset{u} + multiset(s[j + 1..]);
  }

  /** A sequence in which nothing occurs twice is distinct. */
  lemma CountsAtMostOneDistinct<T>(s: seq<T>)
    requires forall x :: multiset(s)[x] <= 1
    ensures Distinct(s)
  {
    forall i, j | 0 <= i < j < |s| ensures s[i] != s[j] {
      if s[i] == s[j] {
        TwoPositions(s, i, j);
      }
    }
  }

  /** The counts dictionary has a key for each value, holding its
      multiplicity. */
  lemma {:induction false} CountsOfSpec(vs: seq<int>)
    ensures forall x :: x in CountsOf(vs) <==> x in vs
    ensures forall x :: x in CountsOf(vs) ==> CountsOf(vs)[x] == multiset(vs)[x]
  {
    if vs != [] {
      var init := vs[..|vs| - 1];
      CountsOfSpec(init);
      assert vs == init + [vs[|vs| - 1]];
      assert multiset(vs) == multiset(init) + multiset{vs[|vs| - 1]};
      forall x ensures x in vs <==> x in init || x == vs[|vs| - 1] {
        assert x in multiset(vs) <==> x in multiset(init) || x == vs[|vs| - 1];
      }
    }
  }

  /** `countValues.includes(k)`: some value occurs exactly `k` times. */
  lemma HasCount(vs: seq<int>, k: nat)
    ensures Includes(CountsOf(vs), k) <==> exists x :: x in vs && multiset(vs)[x] == k
  {
    CountsOfSpec(vs);
  }

  /** `countValues.filter(x => x === k).length` counts the values that
      occur exactly `k` times. */
  lemma KeysWithCountSpec(vs: seq<int>, k: nat)
    ensures KeysWithCount(CountsOf(vs), k) == |set x | x in vs && multiset(vs)[x] == k|
  {
    CountsOfSpec(vs);
    var m := CountsOf(vs);
    var a := set v | v in m && m[v] == k;
    var b := set x | x in vs && multiset(vs)[x] == k;
    forall x ensures x in a <==> x in b {
      if x in vs {
        assert x in m;
      }
    }
    assert a == b;
  }

  /** The unique ranks are strictly descending and are exactly the values. */
  lemma {:induction false} DedupSpec(vs: seq<int>)
    requires Descending(vs)
    ensures StrictlyDescending(Dedup(vs))
    ensures forall x :: x in Dedup(vs) <==> x in vs
    ensures |vs| > 0 ==> |Dedup(vs)| > 0 && Dedup(vs)[0] == vs[0]
  {
    if |vs| > 1 {
      DedupSpec(vs[1..]);
      assert vs == [vs[0]] + vs[1..];
      forall x | x in Dedup(vs[1..]) ensures x <= vs[0] {
        assert x in vs[1..];
      }
      if vs[0] != vs[1] {
        forall x | x in Dedup(vs[1..]) ensures x < vs[0] {
          assert x in vs[1..];
          var i :| 0 <= i < |vs[1..]| && vs[1..][i] == x;
          assert vs[1] >= vs[i + 1];
        }
      }
    }
  }

  /** A strictly descending list is distinct. */
  lemma StrictlyDescendingDistinct(s: seq<int>)
    requires StrictlyDescending(s)
    ensures Distinct(s)
  {
  }

  /** `Except(s, t)` drops every `t` and keeps the rest. */
  lemma {:induction false} ExceptMultiset(s: seq<int>, t: int)
    ensures multiset(Except(s, t)) == multiset(s)[t := 0]
  {
    if s != [] {
      ExceptMultiset(s[1..], t);
      assert s == [s[0]] + s[1..];
      assert multiset(s) == multiset{s[0]} + multiset(s[1..]);
    }
  }

  lemma ExceptSpec(s: seq<int>, t: int)
    ensures multiset(Except(s, t)) == multiset(s)[t := 0]
    ensures |Except(s, t)| == |s| - multiset(s)[t]
    ensures forall x :: x in Except(s, t) <==> x in s && x != t
  {
    ExceptMultiset(s, t);
    var e := Except(s, t);
    ExceptLength(s, t);
    forall x ensures x in e <==> x in s && x != t {
      assert x in e <==> x in multiset(e);
      assert x in s <==> x in multiset(s);
    }
  }

  lemma {:induction false} ExceptLength(s: seq<int>, t: int)
    ensures |Except(s, t)| == |s| - multiset(s)[t]
  {
    if s != [] {
      ExceptLength(s[1..], t);
      assert s == [s[0]] + s[1..];
      assert multiset(s) == multiset{s[0]} + multiset(s[1..]);
    }
  }

  lemma {:induction false} ExceptDescending(s: seq<int>, t: int)
    requires StrictlyDescending(s)
    ensures StrictlyDescending(Except(s, t))
  {
    if s != [] {
      ExceptDescending(s[1..], t);
      ExceptSpec(s[1..], t);
      var e1 := Except(s[1..], t);
      forall x | x in e1 ensures x < s[0] {
        var i :| 0 <= i < |s[1..]| && s[1..][i] == x;
        assert s[0] > s[i + 1];
      }
      if s[0] != t {
        assert Except(s, t) == [s[0]] + e1;
        forall i, j | 0 <= i < j < |Except(s, t)| ensures Except(s, t)[i] > Except(s, t)[j] {
          if i == 0 {
            assert Except(s, t)[j] == e1[j - 1];
            assert e1[j - 1] in e1;
          } else {
            assert Except(s, t)[i] == e1[i - 1] && Except(s, t)[j] == e1[j - 1];
          }
        }
      } else {
        assert Except(s, t) == e1;
      }
    }
  }

  /** `WithCount(us, m, k)` keeps, in order, the ranks of count `k`. */
  lemma {:induction false} WithCountSpec(us: seq<int>, m: map<int, nat>, k: nat)
    ensures forall x :: x in WithCount(us, m, k) <==> x in us && x in m && m[x] == k
  {
    if us != [] {
      WithCountSpec(us[1..], m, k);
      forall x ensures x in us <==> x == us[0] || x in us[1..] {
        assert us == [us[0]] + us[1..];
      }
    }
  }

  lemma {:induction false} WithCountDescending(us: seq<int>, m: map<int, nat>, k: nat)
    requires StrictlyDescending(us)
    ensures StrictlyDescending(WithCount(us, m, k))
  {
    if us != [] {
      WithCountDescending(us[1..], m, k);
      WithCountSpec(us[1..], m, k);
      var w1 := WithCount(us[1..], m, k);
      var w := WithCount(us, m, k);
      forall x | x in w1 ensures x < us[0] {
        var i :| 0 <= i < |us[1..]| && us[1..][i] == x;
        assert us[0] > us[i + 1];
      }
      if us[0] in m && m[us[0]] == k {
        assert w == [us[0]] + w1;
        forall i, j | 0 <= i < j < |w| ensures w[i] > w[j] {
          if i == 0 {
            assert w[j] == w1[j - 1];
            assert w1[j - 1] in w1;
          } else {
            assert w[i] == w1[i - 1] && w[j] == w1[j - 1];
          }
        }
      } else {
        assert w == w1;
      }
    }
  }

  /** `find` returns a rank of count `k` whenever there is one. */
  lemma {:induction false} FirstWithCountFound(us: seq<int>, m: map<int, nat>, k: nat, x: int)
    requires x in us && x in m && m[x] == k
    ensures FirstWithCount(us, m, k) in us
    ensures FirstWithCount(us, m, k) in m && m[FirstWithCount(us, m, k)] == k
  {
    if !(us[0] in m && m[us[0]] == k) {
      assert x in us[1..] by {
        assert us == [us[0]] + us[1..];
      }
      FirstWithCountFound(us[1..], m, k, x);
    }
  }

  /** The elements of a sequence, counted once each, when every value but
      `t` occurs once. */
  lemma ElemsWhenOthersSingle(vs: seq<int>, t: int)
    requires t in vs
    requires forall y :: y in vs && y != t ==> multiset(vs)[y] == 1
    ensures |Elems(vs)| == |vs| - multiset(vs)[t] + 1
  {
    var e := Except(vs, t);
    ExceptSpec(vs, t);
    forall x ensures multiset(e)[x] <= 1 {
      if x in vs && x != t {
      } else {
        assert x !in e;
      }
    }
    CountsAtMostOneDistinct(e);
    DistinctCardinality(e);
    forall x ensures x in Elems(vs) <==> x in Elems(e) + {t} {
    }
    assert Elems(vs) == Elems(e) + {t};
    assert t !in Elems(e);
  }

  /** The unique ranks of `vs` are as many as its elements. */
  lemma DedupLength(vs: seq<int>)
    requires Descending(vs)
    ensures |Dedup(vs)| == |Elems(vs)|
  {
    DedupSpec(vs);
    StrictlyDescendingDistinct(Dedup(vs));
    DistinctCardinality(Dedup(vs));
    assert Elems(Dedup(vs)) == Elems(vs);
  }

  /** Two distinct values together occur at most `|s|` times. */
  lemma TwoCountsAtMostLength(s: seq<int>, x: int, y: int)
    requires x != y
    ensures multiset(s)[x] + multiset(s)[y] <= |s|
  {
    ExceptSpec(s, x);
    CountAtMostLength(Except(s, x), y);
  }

  /** Three distinct values together occur at most `|s|` times. */
  lemma ThreeCountsAtMostLength(s: seq<int>, x: int, y: int, z: int)
    requires x != y && y != z && x != z
    ensures multiset(s)[x] + multiset(s)[y] + multiset(s)[z] <= |s|
  {
    ExceptSpec(s, x);
    TwoCountsAtMostLength(Except(s, x), y, z);
  }

  /** A value other than `x` and `y` when those two occur fewer than `|s|`
      times together. */
  lemma OtherValue(s: seq<int>, x: int, y: int) returns (z: int)
    requires multiset(s)[x] + (if y != x then multiset(s)[y] else 0) < |s|
    ensures z in s && z != x && z != y
  {
    ExceptSpec(s, x);
    var e := Except(s, x);
    ExceptSpec(e, y);
    var f := Except(e, y);
    if y != x {
      assert multiset(e)[y] == multiset(s)[y];
    } else {
      assert multiset(e)[y] == 0;
    }
    assert |f| > 0;
    z := f[0];
    assert z in e;
  }
}

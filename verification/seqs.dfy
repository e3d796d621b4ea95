/**
 * Sequence helpers shared by the whole model: sums, integer ranges,
 * repetition, concatenation of blocks, and the fact that a sum does not
 * depend on the order of its terms.
 */
module Seqs {

  /** Sum of an integer sequence (Python's `sum` over a list of ints). */
  function Sum(s: seq<int>): int
  {
    if |s| == 0 then 0 else Sum(s[..|s| - 1]) + s[|s| - 1]
  }

  /** Sum of a real sequence (Python's `sum` over a list of floats, read exactly). */
  function SumReal(s: seq<real>): real
  {
    if s == [] then 0.0 else SumReal(s[..|s| - 1]) + s[|s| - 1]
  }

  /** Sum of `f` over the elements of `s`. */
  function SumOf<T>(s: seq<T>, f: T -> int): int
  {
    if s == [] then 0 else f(s[0]) + SumOf(s[1..], f)
  }

  /** `range(lo, hi)` as a sequence. */
  function Range(lo: int, hi: int): (r: seq<int>)
    ensures |r| == if lo <= hi then hi - lo else 0
    ensures forall i :: 0 <= i < |r| ==> r[i] == lo + i
    decreases hi - lo
  {
    if lo >= hi then [] else [lo] + Range(lo + 1, hi)
  }

  /** `[x] * n`. */
  function Repeat<T>(x: T, n: nat): (r: seq<T>)
    ensures |r| == n
    ensures forall i :: 0 <= i < n ==> r[i] == x
  {
    seq(n, _ => x)
  }

  /** Concatenation of a sequence of blocks. */
  function Concat<T>(ss: seq<seq<T>>): seq<T>
  {
    if |ss| == 0 then [] else Concat(ss[..|ss| - 1]) + ss[|ss| - 1]
  }

  /** No value occurs twice. */
  predicate Distinct<T(==)>(s: seq<T>)
  {
    forall i, j :: 0 <= i < j < |s| ==> s[i] != s[j]
  }

  /**
   * What `random.sample(range(lo, hi), hi - lo)` returns: every value of
   * lo..hi-1 exactly once, in some order (as many values as the range
   * holds, all in the range, none twice).
   */
  predicate PermutationOfRange(s: seq<int>, lo: int, hi: int)
  {
    && |s| == hi - lo
    && (forall i :: 0 <= i < |s| ==> lo <= s[i] < hi)
    && Distinct(s)
  }

  predicate AllPositive(s: seq<int>)
  {
    forall i :: 0 <= i < |s| ==> s[i] > 0
  }

  predicate AllNonNegative(s: seq<int>)
  {
    forall i :: 0 <= i < |s| ==> s[i] >= 0
  }

  /** A slice of a prefix is the same slice of the whole. */
  lemma SliceOfPrefix<T>(s: seq<T>, n: nat, a: nat, b: nat)
    requires a <= b <= n <= |s|
    ensures s[..n][a..b] == s[a..b]
  {
  }

  lemma {:induction false} SumAppend(a: seq<int>, b: seq<int>)
    ensures Sum(a + b) == Sum(a) + Sum(b)
    decreases |b|
  {
    if |b| == 0 {
      assert a + b == a;
    } else {
      var n := |b| - 1;
      assert (a + b)[..|a| + n] == a + b[..n];
      SumAppend(a, b[..n]);
    }
  }

  lemma SumSnoc(s: seq<int>, x: int)
    ensures Sum(s + [x]) == Sum(s) + x
  {
    assert (s + [x])[..|s|] == s;
  }

  lemma SumPrefixStep(s: seq<int>, k: nat)
    requires k < |s|
    ensures Sum(s[..k + 1]) == Sum(s[..k]) + s[k]
  {
    assert s[..k + 1][..k] == s[..k];
  }

  lemma {:induction false} SumNonNegative(s: seq<int>)
    requires AllNonNegative(s)
    ensures Sum(s) >= 0
  {
    if |s| > 0 {
      SumNonNegative(s[..|s| - 1]);
    }
  }

  lemma {:induction false} SumPrefixLe(s: seq<int>, k: nat)
    requires AllNonNegative(s) && k <= |s|
    ensures AllNonNegative(s[..k]) && Sum(s[..k]) <= Sum(s)
  {
    assert s == s[..k] + s[k..];
    SumAppend(s[..k], s[k..]);
    SumNonNegative(s[k..]);
  }

  /** Prefix sums of non-negative terms grow with the prefix. */
  lemma SumPrefixMono(s: seq<int>, a: nat, b: nat)
    requires AllNonNegative(s) && a <= b <= |s|
    ensures Sum(s[..a]) <= Sum(s[..b])
  {
    SumPrefixLe(s, b);
    assert s[..b][..a] == s[..a];
    SumPrefixLe(s[..b], a);
  }

  lemma {:induction false} SumRepeat(x: int, n: nat)
    ensures Sum(Repeat(x, n)) == n * x
  {
    if n > 0 {
      assert Repeat(x, n)[..n - 1] == Repeat(x, n - 1);
      SumRepeat(x, n - 1);
    }
  }

  lemma {:induction false} SumUpdate(s: seq<int>, k: nat, d: int)
    requires k < |s|
    ensures Sum(s[k := s[k] + d]) == Sum(s) + d
  {
    var n := |s| - 1;
    if k == n {
      assert s[k := s[k] + d][..n] == s[..n];
    } else {
      assert s[k := s[k] + d][..n] == s[..n][k := s[k] + d];
      SumUpdate(s[..n], k, d);
    }
  }

  lemma {:induction false} SumRealAppend(a: seq<real>, b: seq<real>)
    ensures SumReal(a + b) == SumReal(a) + SumReal(b)
    decreases |b|
  {
    if b == [] {
      assert a + b == a;
    } else {
      var n := |b| - 1;
      assert (a + b)[..|a| + n] == a + b[..n];
      SumRealAppend(a, b[..n]);
    }
  }

  lemma {:induction false} SumOfAppend<T>(a: seq<T>, b: seq<T>, f: T -> int)
    ensures SumOf(a + b, f) == SumOf(a, f) + SumOf(b, f)
  {
    if a == [] {
      assert a + b == b;
    } else {
      assert (a + b)[1..] == a[1..] + b;
      SumOfAppend(a[1..], b, f);
    }
  }

  /** A sum over a rearrangement of the same elements is the same sum. */
  lemma {:induction false} SumOfPermutation<T>(a: seq<T>, b: seq<T>, f: T -> int)
    requires multiset(a) == multiset(b)
    ensures SumOf(a, f) == SumOf(b, f)
    decreases |a|
  {
    if a == [] {
      assert |b| == |multiset(b)| == 0;
    } else {
      assert a[0] in multiset(b);
      var k :| 0 <= k < |b| && b[k] == a[0];
      RemoveMatching(a, b, k);
      SumOfPermutation(a[1..], b[..k] + b[k + 1..], f);
      SumOfRemove(b, k, f);
      assert SumOf(a, f) == f(a[0]) + SumOf(a[1..], f);
    }
  }

  /** Taking the first element of `a` out of `a`, and a matching element out of `b`, leaves equal multisets. */
  lemma RemoveMatching<T>(a: seq<T>, b: seq<T>, k: nat)
    requires multiset(a) == multiset(b) && |a| > 0 && k < |b| && b[k] == a[0]
    ensures multiset(a[1..]) == multiset(b[..k] + b[k + 1..])
  {
    var rest := b[..k] + b[k + 1..];
    assert multiset(b) == multiset(rest) + multiset{b[k]} by {
      assert b == b[..k] + [b[k]] + b[k + 1..];
    }
    assert multiset(a) == multiset(a[1..]) + multiset{a[0]} by {
      assert a == [a[0]] + a[1..];
    }
    forall x ensures multiset(a[1..])[x] == multiset(rest)[x] {
      assert multiset(a)[x] == multiset(b)[x];
    }
  }

  /** The sum over `b` is the term of `b[k]` plus the sum over the rest. */
  lemma SumOfRemove<T>(b: seq<T>, k: nat, f: T -> int)
    requires k < |b|
    ensures SumOf(b, f) == f(b[k]) + SumOf(b[..k] + b[k + 1..], f)
  {
    var pre, x, post := b[..k], b[k], b[k + 1..];
    assert pre + [x] == b[..k + 1];
    assert b[..k + 1] + post == b;
    SumOfAppend(pre + [x], post, f);
    SumOfAppend(pre, [x], f);
    SumOfAppend(pre, post, f);
    assert [x][1..] == [];
    assert SumOf([x], f) == f(x);
  }

  lemma {:induction false} ConcatAppend<T>(a: seq<seq<T>>, b: seq<seq<T>>)
    ensures Concat(a + b) == Concat(a) + Concat(b)
    decreases |b|
  {
    if |b| == 0 {
      assert a + b == a;
    } else {
      var n := |b| - 1;
      assert (a + b)[..|a| + n] == a + b[..n];
      ConcatAppend(a, b[..n]);
    }
  }

  lemma ConcatSnoc<T>(a: seq<seq<T>>, x: seq<T>)
    ensures Concat(a + [x]) == Concat(a) + x
  {
    assert (a + [x])[..|a|] == a;
  }

  /** Element `k` of block `j` sits in the concatenation after the blocks before `j`. */
  lemma ConcatAt<T>(ss: seq<seq<T>>, j: nat, k: nat)
    requires j < |ss| && k < |ss[j]|
    ensures |Concat(ss[..j])| + k < |Concat(ss)|
    ensures Concat(ss)[|Concat(ss[..j])| + k] == ss[j][k]
  {
    assert ss[..j + 1] + ss[j + 1..] == ss;
    ConcatAppend(ss[..j + 1], ss[j + 1..]);
    assert ss[..j + 1][..j] == ss[..j];
  }

  /** `range(lo, hi)` itself is a permutation of lo..hi-1. */
  lemma RangeIsPermutation(lo: int, hi: int)
    requires lo <= hi
    ensures PermutationOfRange(Range(lo, hi), lo, hi)
  {
  }

  lemma {:induction false} RangeSplit(lo: int, mid: int, hi: int)
    requires lo <= mid <= hi
    ensures Range(lo, mid) + Range(mid, hi) == Range(lo, hi)
  {
  }

  /** A sequence with the same elements as a range is a permutation of the range. */
  lemma {:induction false} PermutationOfRangeIsDistinct(s: seq<int>, lo: int, hi: int)
    requires multiset(s) == multiset(Range(lo, hi))
    ensures lo <= hi ==> PermutationOfRange(s, lo, hi)
    ensures Distinct(s)
    ensures |s| == |Range(lo, hi)|
    ensures forall i :: 0 <= i < |s| ==> lo <= s[i] < hi
  {
    assert |s| == |multiset(s)| == |multiset(Range(lo, hi))| == |Range(lo, hi)|;
    forall i | 0 <= i < |s| ensures lo <= s[i] < hi {
      assert s[i] in multiset(s);
      assert s[i] in Range(lo, hi);
    }
    forall i, j | 0 <= i < j < |s| ensures s[i] != s[j] {
      if s[i] == s[j] {
        RepeatCounted(s, i, j);
        RangeCountAtMostOne(lo, hi, s[i]);
        assert false;
      }
    }
  }

  /** A value at two positions is counted at least twice. */
  lemma RepeatCounted(s: seq<int>, i: int, j: int)
    requires 0 <= i < j < |s| && s[i] == s[j]
    ensures multiset(s)[s[i]] >= 2
  {
    var x := s[i];
    assert s == s[..i] + [x] + s[i + 1..j] + [x] + s[j + 1..];
    assert multiset(s) == multiset(s[..i]) + multiset{x} + multiset(s[i + 1..j]) + multiset{x} + multiset(s[j + 1..]);
  }

  lemma {:induction false} RangeCountAtMostOne(lo: int, hi: int, x: int)
    ensures multiset(Range(lo, hi))[x] <= 1
    decreases hi - lo
  {
    if lo < hi {
      assert Range(lo, hi) == [lo] + Range(lo + 1, hi);
      RangeCountAtMostOne(lo + 1, hi, x);
      if x == lo {
        assert x !in Range(lo + 1, hi);
      }
    }
  }

  /** A sequence without repeats holds each value at most once. */
  lemma {:induction false} DistinctCountAtMostOne<T>(s: seq<T>, x: T)
    requires Distinct(s)
    ensures multiset(s)[x] <= 1
  {
    if s != [] {
      var n := |s| - 1;
      assert s == s[..n] + [s[n]];
      DistinctCountAtMostOne(s[..n], x);
      if x == s[n] {
        assert x !in s[..n];
      }
    }
  }

  /** A sequence with the same elements as one without repeats has no repeats. */
  lemma SameElementsDistinct<T>(a: seq<T>, b: seq<T>)
    requires multiset(a) == multiset(b) && Distinct(b)
    ensures Distinct(a)
  {
    forall i, j | 0 <= i < j < |a| ensures a[i] != a[j] {
      if a[i] == a[j] {
        var x := a[i];
        assert a == a[..i] + [a[i]] + a[i + 1..j] + [a[j]] + a[j + 1..];
        assert multiset(a)[x] >= 2;
        DistinctCountAtMostOne(b, x);
        assert false;
      }
    }
  }
}

/**
 * The synthetic task-set generator of
 * this_paper/generate_data_for_Jiang_synthetic.py: period sampling on a
 * granularity grid, largest-remainder rounding, the partition of a chain's
 * budget into positive execution times, the job-count acceptance loop and
 * the writer of one task set.
 *
 * The random draws are inputs: the value `math.exp(r)` of each period draw,
 * the chain utilisations `drs(NC, U)` and the proportions `drs(C, E - C)`.
 * Floats are read as exact reals.
 */
module JiangSynthetic {
  import opened Seqs
  import opened Text
  import opened ChainFile
  import Numeric

  // ----- sample_period_log_uniform -----

  /**
   * `math.floor(x / T_g) * T_g` for the drawn value x = `math.exp(r)`: the
   * largest multiple of the granularity that does not exceed x.
   */
  function SnapDown(x: real, granularity: int): (t: int)
    requires granularity > 0
    ensures t % granularity == 0
    ensures t as real <= x < (t + granularity) as real
  {
    var k := Numeric.Floor(x / granularity as real);
    Numeric.MultipleMod(granularity, k);
    ScaleFloor(x, granularity as real, k);
    k * granularity
  }

  lemma ScaleFloor(x: real, g: real, k: int)
    requires g > 0.0 && k as real <= x / g < (k + 1) as real
    ensures k as real * g <= x < (k + 1) as real * g
  {
    assert x == (x / g) * g;
  }

  // ----- round_and_scale -----

  predicate NonNegativeReals(s: seq<real>)
  {
    forall i :: 0 <= i < |s| ==> s[i] >= 0.0
  }

  /** `[v / total * target for v in values]`. */
  function Scaled(values: seq<real>, target: int): (r: seq<real>)
    requires SumReal(values) != 0.0
    ensures |r| == |values|
  {
    seq(|values|, i requires 0 <= i < |values| => values[i] / SumReal(values) * target as real)
  }

  /** `[int(x) for x in scaled]`. */
  function Truncated(scaled: seq<real>): (r: seq<int>)
    ensures |r| == |scaled|
  {
    seq(|scaled|, i requires 0 <= i < |scaled| => Numeric.Trunc(scaled[i]))
  }

  /** `[x - int(x) for x in scaled]`. */
  function Fractions(scaled: seq<real>): (r: seq<real>)
    ensures |r| == |scaled|
  {
    seq(|scaled|, i requires 0 <= i < |scaled| => scaled[i] - Numeric.Trunc(scaled[i]) as real)
  }

  /** The fraction of index i (indices are always in range where it is used). */
  function Key(fractions: seq<real>, i: int): real
  {
    if 0 <= i < |fractions| then fractions[i] else 0.0
  }

  /** Insert index x after every index of `sorted` whose fraction is not smaller (keeps ties in order). */
  function InsertByFraction(sorted: seq<int>, x: int, fractions: seq<real>): (r: seq<int>)
    ensures |r| == |sorted| + 1
    ensures multiset(r) == multiset(sorted) + multiset{x}
  {
    if sorted == [] || Key(fractions, sorted[|sorted| - 1]) >= Key(fractions, x) then sorted + [x]
    else
      var n := |sorted| - 1;
      assert sorted == sorted[..n] + [sorted[n]];
      InsertByFraction(sorted[..n], x, fractions) + [sorted[n]]
  }

  /** A stable sort of indices by fraction, largest first (insertion of each index in turn). */
  function ByFraction(indices: seq<int>, fractions: seq<real>): (r: seq<int>)
    ensures |r| == |indices|
    ensures multiset(r) == multiset(indices)
  {
    if indices == [] then []
    else
      var n := |indices| - 1;
      assert indices == indices[..n] + [indices[n]];
      InsertByFraction(ByFraction(indices[..n], fractions), indices[n], fractions)
  }

  /** `sorted(range(len(values)), key=lambda i: fractions[i], reverse=True)`. */
  function Order(fractions: seq<real>): (r: seq<int>)
    ensures |r| == |fractions|
  {
    ByFraction(Range(0, |fractions|), fractions)
  }

  predicate Descending(order: seq<int>, fractions: seq<real>)
  {
    forall i, j :: 0 <= i < j < |order| ==> Key(fractions, order[i]) >= Key(fractions, order[j])
  }

  /** Every index of `InsertByFraction(sorted, x)` has a fraction at least `bound` when all inserted ones do. */
  lemma InsertAbove(sorted: seq<int>, x: int, fractions: seq<real>, bound: real)
    requires forall i :: 0 <= i < |sorted| ==> Key(fractions, sorted[i]) >= bound
    requires Key(fractions, x) >= bound
    ensures forall i :: 0 <= i < |sorted| + 1 ==> Key(fractions, InsertByFraction(sorted, x, fractions)[i]) >= bound
  {
    var r := InsertByFraction(sorted, x, fractions);
    forall i | 0 <= i < |r| ensures Key(fractions, r[i]) >= bound {
      assert r[i] in multiset(r);
      if r[i] != x {
        assert r[i] in multiset(sorted);
        var m :| 0 <= m < |sorted| && sorted[m] == r[i];
      }
    }
  }

  lemma {:induction false} InsertDescending(sorted: seq<int>, x: int, fractions: seq<real>)
    requires Descending(sorted, fractions)
    ensures Descending(InsertByFraction(sorted, x, fractions), fractions)
    decreases |sorted|
  {
    if sorted != [] && Key(fractions, sorted[|sorted| - 1]) < Key(fractions, x) {
      var n := |sorted| - 1;
      InsertDescending(sorted[..n], x, fractions);
      InsertAbove(sorted[..n], x, fractions, Key(fractions, sorted[n]));
    }
  }

  /** The order puts larger fractions first. */
  lemma {:induction false} ByFractionDescending(indices: seq<int>, fractions: seq<real>)
    ensures Descending(ByFraction(indices, fractions), fractions)
  {
    if indices != [] {
      var n := |indices| - 1;
      ByFractionDescending(indices[..n], fractions);
      InsertDescending(ByFraction(indices[..n], fractions), indices[n], fractions);
    }
  }

  /** The order lists every index once, largest fraction first. */
  lemma OrderIsPermutation(fractions: seq<real>)
    ensures PermutationOfRange(Order(fractions), 0, |fractions|)
    ensures Descending(Order(fractions), fractions)
    ensures forall j :: 0 <= j < |fractions| ==> j in Order(fractions)
  {
    var order := Order(fractions);
    PermutationOfRangeIsDistinct(order, 0, |fractions|);
    ByFractionDescending(Range(0, |fractions|), fractions);
    forall j | 0 <= j < |fractions| ensures j in order {
      assert Range(0, |fractions|)[j] == j;
      assert j in multiset(Range(0, |fractions|));
    }
  }

  /** `ints` with one added at every index in `chosen`. */
  function Bumped(ints: seq<int>, chosen: seq<int>): (r: seq<int>)
    ensures |r| == |ints|
  {
    seq(|ints|, j requires 0 <= j < |ints| => ints[j] + if j in chosen then 1 else 0)
  }

  lemma BumpedAt(ints: seq<int>, chosen: seq<int>, j: nat)
    requires j < |ints|
    ensures j in chosen ==> Bumped(ints, chosen)[j] == ints[j] + 1
    ensures j !in chosen ==> Bumped(ints, chosen)[j] == ints[j]
  {
  }

  lemma BumpStep(ints: seq<int>, order: seq<int>, i: nat)
    requires i < |order| && 0 <= order[i] < |ints| && order[i] !in order[..i]
    ensures Bumped(ints, order[..i + 1]) == Bumped(ints, order[..i])[order[i] := Bumped(ints, order[..i])[order[i]] + 1]
    ensures Sum(Bumped(ints, order[..i + 1])) == Sum(Bumped(ints, order[..i])) + 1
  {
    assert order[..i + 1] == order[..i] + [order[i]];
    var x := order[i];
    SumUpdate(Bumped(ints, order[..i]), x, 1);
  }

  /** Adding one at k distinct indices adds k to the sum. */
  lemma {:induction false} BumpedSum(ints: seq<int>, order: seq<int>, k: nat)
    requires k <= |order| && Distinct(order) && forall i :: 0 <= i < |order| ==> 0 <= order[i] < |ints|
    ensures Sum(Bumped(ints, order[..k])) == Sum(ints) + k
  {
    if k == 0 {
      assert Bumped(ints, order[..0]) == ints;
    } else {
      BumpedSum(ints, order, k - 1);
      BumpStep(ints, order, k - 1);
    }
  }

  lemma {:induction false} ScaledSum(values: seq<real>, total: real, target: real)
    requires total != 0.0
    ensures SumReal(seq(|values|, i requires 0 <= i < |values| => values[i] / total * target)) == SumReal(values) / total * target
  {
    if values != [] {
      var n := |values| - 1;
      var s := seq(|values|, i requires 0 <= i < |values| => values[i] / total * target);
      var t := seq(n, i requires 0 <= i < n => values[..n][i] / total * target);
      assert s[..n] == t by {
        forall i | 0 <= i < n ensures s[..n][i] == t[i] {
        }
      }
      ScaledSum(values[..n], total, target);
      assert SumReal(s) == SumReal(t) + s[n];
      assert SumReal(values) == SumReal(values[..n]) + values[n];
      ScaleDistributes(SumReal(values[..n]), values[n], total, target);
    }
  }

  lemma ScaleDistributes(a: real, v: real, total: real, target: real)
    requires total != 0.0
    ensures a / total * target + v / total * target == (a + v) / total * target
  {
  }

  /** The scaled values sum to the target. */
  lemma ScaledToTarget(values: seq<real>, target: int)
    requires SumReal(values) != 0.0
    ensures SumReal(Scaled(values, target)) == target as real
  {
    ScaledSum(values, SumReal(values), target as real);
  }

  /** Each scaled value splits into its truncation and its fraction; the fractions sum to less than one per value. */
  lemma {:induction false} SplitSum(scaled: seq<real>)
    requires NonNegativeReals(scaled)
    ensures Sum(Truncated(scaled)) as real + SumReal(Fractions(scaled)) == SumReal(scaled)
    ensures 0.0 <= SumReal(Fractions(scaled)) && (scaled != [] ==> SumReal(Fractions(scaled)) < |scaled| as real)
  {
    if scaled != [] {
      var n := |scaled| - 1;
      assert Truncated(scaled)[..n] == Truncated(scaled[..n]);
      assert Fractions(scaled)[..n] == Fractions(scaled[..n]);
      SplitSum(scaled[..n]);
    }
  }

  lemma NonNegativeScale(v: real, total: real, target: real)
    requires v >= 0.0 && total > 0.0 && target >= 0.0
    ensures v / total * target >= 0.0
  {
  }

  lemma {:induction false} SumRealNonNegative(s: seq<real>)
    requires NonNegativeReals(s)
    ensures SumReal(s) >= 0.0
  {
    if s != [] {
      SumRealNonNegative(s[..|s| - 1]);
    }
  }

  /** Non-negative reals that sum to the target. */
  predicate ScaledTo(scaled: seq<real>, target: int)
  {
    NonNegativeReals(scaled) && SumReal(scaled) == target as real
  }

  /** Scaling non-negative values with a non-zero sum to a target gives non-negative reals summing to it. */
  lemma ScaledIsScaledTo(values: seq<real>, target: int)
    requires NonNegativeReals(values) && target >= 0 && SumReal(values) != 0.0
    ensures ScaledTo(Scaled(values, target), target)
  {
    var total := SumReal(values);
    SumRealNonNegative(values);
    var scaled := Scaled(values, target);
    forall i | 0 <= i < |values| ensures scaled[i] >= 0.0 {
      NonNegativeScale(values[i], total, target as real);
    }
    ScaledToTarget(values, target);
  }

  /**
   * `target - sum(ints)`: the units still to hand out after truncating,
   * never negative and less than the number of values (none when there are
   * no values).
   */
  function Remainder(scaled: seq<real>, target: int): (k: int)
    requires ScaledTo(scaled, target)
    ensures 0 <= k <= |scaled| && (scaled != [] ==> k < |scaled|)
  {
    SplitSum(scaled);
    target - Sum(Truncated(scaled))
  }

  /**
   * The rounding step of `round_and_scale` on the scaled values: every
   * value truncated, plus one at the first `remainder` indices of the order
   * by fraction.
   */
  function Rounded(scaled: seq<real>, target: int): (r: seq<int>)
    requires ScaledTo(scaled, target)
    ensures |r| == |scaled|
  {
    Bumped(Truncated(scaled), Order(Fractions(scaled))[..Remainder(scaled, target)])
  }

  /** `round_and_scale(values, target)`: all zeros when the values sum to zero, otherwise the scaled values rounded. */
  function RoundAndScale(values: seq<real>, target: int): (r: seq<int>)
    requires NonNegativeReals(values) && target >= 0
    ensures |r| == |values|
  {
    if SumReal(values) == 0.0 then Repeat<int>(0, |values|)
    else
      ScaledIsScaledTo(values, target);
      Rounded(Scaled(values, target), target)
  }

  /** The rounding loop of `round_and_scale`. */
  method RoundAndScaleLoop(values: seq<real>, target: int) returns (ints: seq<int>)
    requires NonNegativeReals(values) && target >= 0
    ensures ints == RoundAndScale(values, target)
  {
    var total := SumReal(values);
    if total == 0.0 {
      return Repeat<int>(0, |values|);
    }
    var scaled := Scaled(values, target);
    ScaledIsScaledTo(values, target);
    ints := Truncated(scaled);
    ghost var truncated := ints;
    var remainder := target - Sum(ints);
    var fractions := Fractions(scaled);
    var indices := Order(fractions);
    assert remainder == Remainder(scaled, target);
    OrderIsPermutation(fractions);
    var i := 0;
    while i < remainder
      invariant 0 <= i <= remainder
      invariant ints == Bumped(truncated, indices[..i])
    {
      BumpStep(truncated, indices, i);
      ints := ints[indices[i] := ints[indices[i]] + 1];
      i := i + 1;
    }
  }

  /** The pieces Rounded is made of, with what the proofs need about them. */
  lemma RoundedShape(scaled: seq<real>, target: int) returns (ints: seq<int>, order: seq<int>, k: int)
    requires ScaledTo(scaled, target)
    ensures ints == Truncated(scaled) && order == Order(Fractions(scaled))
    ensures k == target - Sum(ints) && k == Remainder(scaled, target)
    ensures Rounded(scaled, target) == Bumped(ints, order[..k])
    ensures PermutationOfRange(order, 0, |scaled|)
    ensures forall j :: 0 <= j < |scaled| ==> j in order
    ensures Descending(order, Fractions(scaled))
  {
    ints := Truncated(scaled);
    OrderIsPermutation(Fractions(scaled));
    order := Order(Fractions(scaled));
    k := Remainder(scaled, target);
  }

  /** The rounded values sum exactly to the target. */
  lemma RoundedSums(scaled: seq<real>, target: int)
    requires ScaledTo(scaled, target)
    ensures Sum(Rounded(scaled, target)) == target
  {
    var ints, order, k := RoundedShape(scaled, target);
    BumpedSum(ints, order, k);
  }

  /**
   * Each rounded value is its scaled value truncated, or one more: it lies
   * within one of the scaled value and is never negative.
   */
  lemma RoundedWithinOne(scaled: seq<real>, target: int, j: nat)
    requires ScaledTo(scaled, target) && j < |scaled|
    ensures Rounded(scaled, target)[j] == Numeric.Trunc(scaled[j]) || Rounded(scaled, target)[j] == Numeric.Trunc(scaled[j]) + 1
    ensures Rounded(scaled, target)[j] as real - 1.0 <= scaled[j] < Rounded(scaled, target)[j] as real + 1.0
    ensures Rounded(scaled, target)[j] >= 0
  {
    var ints, order, k := RoundedShape(scaled, target);
    BumpedAt(ints, order[..k], j);
  }

  lemma RoundedNonNegative(scaled: seq<real>, target: int)
    requires ScaledTo(scaled, target)
    ensures forall j :: 0 <= j < |scaled| ==> Rounded(scaled, target)[j] >= 0
  {
    forall j | 0 <= j < |scaled| ensures Rounded(scaled, target)[j] >= 0 {
      RoundedWithinOne(scaled, target, j);
    }
  }

  /**
   * The extra units go to the largest fractions: an index that got one has
   * a fraction at least as large as any index that did not.
   */
  lemma RoundedLargestFractions(scaled: seq<real>, target: int, a: nat, b: nat)
    requires ScaledTo(scaled, target) && a < |scaled| && b < |scaled|
    requires Rounded(scaled, target)[a] > Numeric.Trunc(scaled[a])
    requires Rounded(scaled, target)[b] == Numeric.Trunc(scaled[b])
    ensures Fractions(scaled)[a] >= Fractions(scaled)[b]
  {
    var ints, order, k := RoundedShape(scaled, target);
    var fractions := Fractions(scaled);
    BumpedAt(ints, order[..k], a);
    BumpedAt(ints, order[..k], b);
    var p :| 0 <= p < k && order[p] == a;
    assert b in order;
    var q :| 0 <= q < |order| && order[q] == b;
    assert q >= k;
    assert Key(fractions, order[p]) >= Key(fractions, order[q]);
  }

  /** `round_and_scale` hands out exactly the target when the values do not sum to zero. */
  lemma RoundAndScaleSums(values: seq<real>, target: int)
    requires NonNegativeReals(values) && target >= 0 && SumReal(values) != 0.0
    ensures ScaledTo(Scaled(values, target), target)
    ensures RoundAndScale(values, target) == Rounded(Scaled(values, target), target)
    ensures Sum(RoundAndScale(values, target)) == target
  {
    ScaledIsScaledTo(values, target);
    RoundedSums(Scaled(values, target), target);
  }

  /** When the values sum to zero, `round_and_scale` returns zeros. */
  lemma RoundAndScaleOfZero(values: seq<real>, target: int)
    requires NonNegativeReals(values) && target >= 0 && SumReal(values) == 0.0
    ensures RoundAndScale(values, target) == Repeat<int>(0, |values|)
    ensures Sum(RoundAndScale(values, target)) == 0
  {
    SumRepeat(0, |values|);
  }

  // ----- partition_integer_min1 -----

  /** The budget actually partitioned: E raised to C. */
  function RaisedBudget(e: int, c: int): int
  {
    if e < c then c else e
  }

  /**
   * What the proportions `drs(C, E - C)` are required to satisfy here: C
   * non-negative reals whose sum is positive whenever E - C is (drs returns
   * values summing to E - C; only their proportions are used).
   */
  predicate Proportions(raw: seq<real>, c: int, remainder: int)
  {
    |raw| == c && NonNegativeReals(raw) && (remainder > 0 ==> SumReal(raw) > 0.0)
  }

  /** `[p + 1 for p in parts]`. */
  function PlusOne(s: seq<int>): (r: seq<int>)
    ensures |r| == |s|
  {
    seq(|s|, i requires 0 <= i < |s| => s[i] + 1)
  }

  lemma {:induction false} SumPlusOne(s: seq<int>)
    ensures Sum(PlusOne(s)) == Sum(s) + |s|
  {
    if s != [] {
      var n := |s| - 1;
      assert PlusOne(s)[..n] == PlusOne(s[..n]);
      SumPlusOne(s[..n]);
    }
  }

  /** `partition_integer_min1(E, C)` with the draw of `drs` given. */
  function PartitionMin1(e: int, c: int, raw: seq<real>): (parts: seq<int>)
    requires c >= 1 && Proportions(raw, c, RaisedBudget(e, c) - c)
    ensures |parts| == c
  {
    OnePlusShares(c, raw, RaisedBudget(e, c) - c)
  }

  /** One unit per part, and the remainder handed out by `round_and_scale`. */
  function OnePlusShares(c: int, raw: seq<real>, remainder: int): (parts: seq<int>)
    requires c >= 1 && remainder >= 0 && Proportions(raw, c, remainder)
    ensures |parts| == c
  {
    if remainder == 0 then Repeat<int>(1, c)
    else PlusOne(RoundAndScale(raw, remainder))
  }

  /**
   * The partition has C parts, every part at least 1, summing to E raised
   * to C; when E is at most C every part is 1.
   */
  lemma PartitionMin1Parts(e: int, c: int, raw: seq<real>)
    requires c >= 1 && Proportions(raw, c, RaisedBudget(e, c) - c)
    ensures forall i :: 0 <= i < c ==> PartitionMin1(e, c, raw)[i] >= 1
    ensures Sum(PartitionMin1(e, c, raw)) == RaisedBudget(e, c)
    ensures e <= c ==> PartitionMin1(e, c, raw) == Repeat<int>(1, c)
  {
    if RaisedBudget(e, c) == c {
      assert PartitionMin1(e, c, raw) == Repeat<int>(1, c);
      SumRepeat(1, c);
    } else {
      PartsOfRemainder(e, c, raw);
    }
  }

  lemma PartsOfRemainder(e: int, c: int, raw: seq<real>)
    requires c >= 1 && Proportions(raw, c, RaisedBudget(e, c) - c) && e > c
    ensures forall i :: 0 <= i < c ==> PartitionMin1(e, c, raw)[i] >= 1
    ensures Sum(PartitionMin1(e, c, raw)) == e
  {
    var remainder := e - c;
    var parts := RoundAndScale(raw, remainder);
    PartitionOfRemainder(e, c, raw, remainder, parts);
    RoundAndScaleSums(raw, remainder);
    RoundedNonNegative(Scaled(raw, remainder), remainder);
    SumPlusOne(parts);
  }

  /** `partition_integer_min1(E, C)` as the script runs it, with the rounding loop. */
  method PartitionIntegerMin1(e: int, c: int, raw: seq<real>) returns (parts: seq<int>)
    requires c >= 1 && Proportions(raw, c, RaisedBudget(e, c) - c)
    ensures parts == PartitionMin1(e, c, raw)
  {
    var budget := e;
    if budget < c {
      budget := c;
    }
    var remainder := budget - c;
    if remainder == 0 {
      parts := Repeat<int>(1, c);
      PartitionOfRemainder(e, c, raw, remainder, parts);
      return;
    }
    var rounded := RoundAndScaleLoop(raw, remainder);
    parts := PlusOne(rounded);
    PartitionOfRemainder(e, c, raw, remainder, rounded);
  }

  /** The partition once the remainder is known: all ones, or one plus the rounded share of each part. */
  lemma PartitionOfRemainder(e: int, c: int, raw: seq<real>, remainder: int, rounded: seq<int>)
    requires c >= 1 && Proportions(raw, c, RaisedBudget(e, c) - c)
    requires remainder == RaisedBudget(e, c) - c
    requires remainder == 0 ==> rounded == Repeat<int>(1, c)
    requires remainder != 0 ==> rounded == RoundAndScale(raw, remainder)
    ensures remainder == 0 ==> PartitionMin1(e, c, raw) == rounded
    ensures remainder != 0 ==> PartitionMin1(e, c, raw) == PlusOne(rounded)
  {
    assert PartitionMin1(e, c, raw) == OnePlusShares(c, raw, remainder);
    if remainder == 0 {
      assert OnePlusShares(c, raw, remainder) == Repeat<int>(1, c);
    } else {
      assert OnePlusShares(c, raw, remainder) == PlusOne(RoundAndScale(raw, remainder));
    }
  }

  // ----- generate_task_set: periods and the job-count acceptance loop -----

  /** The arguments of `sample_period_log_uniform(10000, 100000, 5000)`. */
  const MinPeriod: int := 10000
  const MaxPeriod: int := 100000
  const Granularity: int := 5000

  /** Every period contributes `hyperperiod // t * 10` jobs; the total must lie in [1000, 5000]. */
  const JobsPerRelease: int := 10
  const MinJobs: int := 1000
  const MaxJobs: int := 5000

  /** A value `math.exp(r)` for r drawn uniformly from [log(T_min), log(T_max + T_g)]. */
  predicate InSampleRange(x: real)
  {
    MinPeriod as real <= x <= (MaxPeriod + Granularity) as real
  }

  /** `sample_period_log_uniform(10000, 100000, 5000)` given the drawn `math.exp(r)`. */
  function SamplePeriod(x: real): (t: int)
    requires InSampleRange(x)
    ensures t > 0
  {
    SnapDown(x, Granularity)
  }

  /**
   * A sampled period is a multiple of the granularity between T_min and
   * T_max whenever the draw stays below T_max + T_g.
   */
  lemma SampledPeriodInRange(x: real)
    requires MinPeriod as real <= x < (MaxPeriod + Granularity) as real
    ensures SamplePeriod(x) % Granularity == 0
    ensures MinPeriod <= SamplePeriod(x) <= MaxPeriod
  {
    var t := SamplePeriod(x);
    var q := t / Granularity;
    assert t == Granularity * q;
  }

  /** `[sample_period_log_uniform(10000, 100000, 5000) for i in range(NC)]` for one attempt's draws. */
  function Periods(attempt: seq<real>): (r: seq<int>)
    requires forall i :: 0 <= i < |attempt| ==> InSampleRange(attempt[i])
    ensures |r| == |attempt| && AllPositive(r)
  {
    seq(|attempt|, i requires 0 <= i < |attempt| => SamplePeriod(attempt[i]))
  }

  /** The releases of each period in one hyperperiod, times ten. */
  function Releases(hyperperiod: int, periods: seq<int>): (r: seq<int>)
    requires AllPositive(periods)
    ensures |r| == |periods|
  {
    seq(|periods|, i requires 0 <= i < |periods| => hyperperiod / periods[i] * JobsPerRelease)
  }

  /**
   * `sum([hyperperiod // t * 10 for t in periods])` with `hyperperiod =
   * math.lcm(*periods)`; with no periods `math.lcm()` is 1 and the sum is 0.
   */
  function JobCount(periods: seq<int>): int
    requires AllPositive(periods)
  {
    if periods == [] then 0 else Sum(Releases(Numeric.LcmOf(periods), periods))
  }

  /** The acceptance test of the `while` loop: a job count in [1000, 5000]. */
  predicate Accepted(periods: seq<int>)
    requires AllPositive(periods)
  {
    MinJobs <= JobCount(periods) <= MaxJobs
  }

  lemma {:induction false} ReleasesSum(h: int, periods: seq<int>)
    requires AllPositive(periods) && h > 0 && forall i :: 0 <= i < |periods| ==> h % periods[i] == 0
    ensures Sum(Releases(h, periods)) % JobsPerRelease == 0
    ensures Sum(Releases(h, periods)) >= JobsPerRelease * |periods|
  {
    if periods != [] {
      var n := |periods| - 1;
      assert Releases(h, periods)[..n] == Releases(h, periods[..n]);
      ReleasesSum(h, periods[..n]);
      var q := h / periods[n];
      PositiveQuotient(h, periods[n]);
      assert Releases(h, periods)[n] == q * JobsPerRelease;
      Numeric.MultipleMod(JobsPerRelease, q);
      Numeric.DividesLinear(JobsPerRelease, q * JobsPerRelease, Sum(Releases(h, periods[..n])), 1);
    }
  }

  /**
   * Every period divides the hyperperiod, so each chain releases a whole
   * number (at least one) of jobs per hyperperiod: the job count is a
   * multiple of ten and at least ten per chain, and an accepted set has
   * between 1 and 500 chains.
   */
  lemma JobCountOfHyperperiod(periods: seq<int>)
    requires AllPositive(periods)
    ensures JobCount(periods) % JobsPerRelease == 0
    ensures JobCount(periods) >= JobsPerRelease * |periods|
    ensures periods != [] ==> forall i :: 0 <= i < |periods| ==> Numeric.LcmOf(periods) / periods[i] * periods[i] == Numeric.LcmOf(periods)
    ensures Accepted(periods) ==> 1 <= |periods| <= MaxJobs / JobsPerRelease
  {
    if periods != [] {
      var h := Numeric.LcmOf(periods);
      Numeric.LcmOfIsLeastCommonMultiple(periods);
      ReleasesSum(h, periods);
      forall i | 0 <= i < |periods| ensures h / periods[i] * periods[i] == h {
        ExactDivision(h, periods[i]);
      }
    }
  }

  lemma PositiveQuotient(h: int, t: int)
    requires h > 0 && t > 0 && h % t == 0
    ensures h / t >= 1
  {
    var q := h / t;
    assert h == t * q;
  }

  lemma ExactDivision(h: int, t: int)
    requires t > 0 && h % t == 0
    ensures h / t * t == h
  {
  }

  /** All draws of all attempts come from the sampling range. */
  predicate Sampled(attempts: seq<seq<real>>)
  {
    forall a, i :: 0 <= a < |attempts| && 0 <= i < |attempts[a]| ==> InSampleRange(attempts[a][i])
  }

  /** The periods the `while` loop settles on: those of the first accepted attempt, if any is. */
  function FirstAccepted(attempts: seq<seq<real>>): Option<seq<int>>
    requires Sampled(attempts)
  {
    if attempts == [] then None
    else if Accepted(Periods(attempts[0])) then Some(Periods(attempts[0]))
    else FirstAccepted(attempts[1..])
  }

  /**
   * The loop ends on the first accepted attempt, and keeps going (here: runs
   * out of attempts) exactly when none is accepted.
   */
  lemma {:induction false} FirstAcceptedIsFirst(attempts: seq<seq<real>>)
    requires Sampled(attempts)
    ensures FirstAccepted(attempts) == None <==> forall a :: 0 <= a < |attempts| ==> !Accepted(Periods(attempts[a]))
    ensures forall a ::
      (0 <= a < |attempts| && Accepted(Periods(attempts[a])) && forall b :: 0 <= b < a ==> !Accepted(Periods(attempts[b]))) ==>
      FirstAccepted(attempts) == Some(Periods(attempts[a]))
  {
    if attempts != [] {
      var rest := attempts[1..];
      FirstAcceptedIsFirst(rest);
      assert forall a :: 1 <= a < |attempts| ==> attempts[a] == rest[a - 1];
      if !Accepted(Periods(attempts[0])) {
        forall a | 0 <= a < |attempts| && Accepted(Periods(attempts[a])) &&
          (forall b :: 0 <= b < a ==> !Accepted(Periods(attempts[b])))
          ensures FirstAccepted(attempts) == Some(Periods(attempts[a]))
        {
          assert a >= 1;
          forall b | 0 <= b < a - 1 ensures !Accepted(Periods(rest[b])) {
            assert rest[b] == attempts[b + 1];
          }
        }
      }
    }
  }

  /** The `while nrof_jobs < 1000 or nrof_jobs > 5000` loop over the given attempts. */
  method ChoosePeriods(attempts: seq<seq<real>>) returns (periods: Option<seq<int>>)
    requires Sampled(attempts)
    ensures periods == FirstAccepted(attempts)
  {
    var i := 0;
    while i < |attempts|
      invariant 0 <= i <= |attempts|
      invariant FirstAccepted(attempts) == FirstAccepted(attempts[i..])
    {
      assert attempts[i..][1..] == attempts[i + 1..];
      var candidate := Periods(attempts[i]);
      var jobs := JobCount(candidate);
      if MinJobs <= jobs <= MaxJobs {
        return Some(candidate);
      }
      i := i + 1;
    }
    return None;
  }

  // ----- generate_task_set: budgets, partitions and the written rows -----

  /** `int(round(period * u))`, raised to C. */
  function ChainBudget(period: int, u: real, c: int): int
  {
    RaisedBudget(Numeric.RoundHalfEven(period as real * u), c)
  }

  /** A `drs(C, E - C)` draw for every chain: C non-negative reals with a positive sum. */
  predicate Draws(raws: seq<seq<real>>, c: int)
  {
    forall k :: 0 <= k < |raws| ==> |raws[k]| == c && NonNegativeReals(raws[k]) && SumReal(raws[k]) > 0.0
  }

  /** The chains of the task set: chain k has period periods[k] and the partition of its budget. */
  function TaskSetChains(periods: seq<int>, utils: seq<real>, c: int, raws: seq<seq<real>>): (cs: seq<Chain>)
    requires c >= 1 && |utils| == |periods| == |raws| && Draws(raws, c)
    ensures |cs| == |periods|
  {
    seq(|periods|, k requires 0 <= k < |periods| => Chain(periods[k], PartitionMin1(ChainBudget(periods[k], utils[k], c), c, raws[k])))
  }

  /**
   * Every chain has the chosen period and C callbacks, each with execution
   * time at least 1; together they use the chain's budget: `round(period *
   * u)`, or C when that is smaller.
   */
  lemma TaskSetChainsShape(periods: seq<int>, utils: seq<real>, c: int, raws: seq<seq<real>>, k: nat)
    requires c >= 1 && |utils| == |periods| == |raws| && Draws(raws, c) && k < |periods|
    ensures TaskSetChains(periods, utils, c, raws)[k].period == periods[k]
    ensures |TaskSetChains(periods, utils, c, raws)[k].execs| == c
    ensures forall j :: 0 <= j < c ==> TaskSetChains(periods, utils, c, raws)[k].execs[j] >= 1
    ensures Sum(TaskSetChains(periods, utils, c, raws)[k].execs) == ChainBudget(periods[k], utils[k], c) >= c
    ensures ChainBudget(periods[k], utils[k], c) > c ==>
      periods[k] as real * utils[k] - 0.5 <= Sum(TaskSetChains(periods, utils, c, raws)[k].execs) as real <= periods[k] as real * utils[k] + 0.5
  {
    PartitionMin1Parts(ChainBudget(periods[k], utils[k], c), c, raws[k]);
  }

  lemma TaskSetUniform(periods: seq<int>, utils: seq<real>, c: int, raws: seq<seq<real>>)
    requires c >= 1 && |utils| == |periods| == |raws| && Draws(raws, c)
    ensures forall k :: 0 <= k < |periods| ==> |TaskSetChains(periods, utils, c, raws)[k].execs| == c
  {
  }

  /** Every chain of the task set has C callbacks. */
  lemma TaskSetLengths(periods: seq<int>, utils: seq<real>, c: int, raws: seq<seq<real>>)
    requires c >= 1 && |utils| == |periods| == |raws| && Draws(raws, c)
    ensures Lengths(TaskSetChains(periods, utils, c, raws)) == Repeat<int>(c, |periods|)
    ensures forall k :: 0 <= k < |periods| ==> |TaskSetChains(periods, utils, c, raws)[k].execs| == c
  {
    var cs := TaskSetChains(periods, utils, c, raws);
    assert forall k :: 0 <= k < |periods| ==> |cs[k].execs| == c;
    assert Lengths(cs) == Repeat<int>(c, |periods|);
  }

  /** The rows of one chain, with task ids from firstId: the inner loop of `generate_task_set`. */
  method EmitChain(period: int, execs: seq<int>, chainId: int, firstId: int) returns (lines: seq<string>, nextId: int)
    ensures lines == Render(ChainRows(period, execs, chainId, firstId))
    ensures nextId == firstId + |execs|
  {
    lines := [];
    nextId := firstId;
    for j := 0 to |execs|
      invariant nextId == firstId + j
      invariant lines == Render(ChainRows(period, execs[..j], chainId, firstId))
    {
      assert ChainRows(period, execs[..j + 1], chainId, firstId) == ChainRows(period, execs[..j], chainId, firstId) + [TaskRow(period, execs[j], period, nextId, chainId)];
      RenderAppend(ChainRows(period, execs[..j], chainId, firstId), [TaskRow(period, execs[j], period, nextId, chainId)]);
      lines := lines + [RowText(TaskRow(period, execs[j], period, nextId, chainId))];
      nextId := nextId + 1;
    }
    assert execs[..|execs|] == execs;
  }

  /**
   * `generate_task_set(U, NC, C)` followed by the newline `generate_file`
   * appends, as lines: None when no attempt of the acceptance loop
   * succeeds, otherwise the rows of the chains built on the first accepted
   * periods and a closing "-".
   */
  method GenerateTaskSet(utils: seq<real>, c: int, attempts: seq<seq<real>>, raws: seq<seq<real>>) returns (lines: Option<seq<string>>)
    requires c >= 1 && |utils| == |raws| && Draws(raws, c) && Sampled(attempts)
    requires forall a :: 0 <= a < |attempts| ==> |attempts[a]| == |utils|
    ensures FirstAccepted(attempts) == None ==> lines == None
    ensures FirstAccepted(attempts) != None ==>
      (|FirstAccepted(attempts).value| == |utils| &&
       lines == Some(FileLines([TaskSetChains(FirstAccepted(attempts).value, utils, c, raws)])))
  {
    var chosen := ChoosePeriods(attempts);
    if chosen == None {
      return None;
    }
    FirstAcceptedLength(attempts, |utils|);
    var output := TaskSetRows(chosen.value, utils, c, raws);
    OneSetLines(TaskSetChains(chosen.value, utils, c, raws));
    lines := Some(output + [RowText(EndRow)]);
  }

  /** The chain execution times of `generate_task_set`: the budget, raised to C, partitioned. */
  method ChainExecs(period: int, u: real, c: int, raw: seq<real>) returns (execs: seq<int>)
    requires c >= 1 && |raw| == c && NonNegativeReals(raw) && SumReal(raw) > 0.0
    ensures execs == PartitionMin1(ChainBudget(period, u, c), c, raw)
  {
    var budget := Numeric.RoundHalfEven(period as real * u);
    if budget < c {
      budget := c;
    }
    execs := PartitionIntegerMin1(budget, c, raw);
  }

  /** The `for chain_index in range(NC)` loop: the rows of every chain, task ids running on from 1. */
  method TaskSetRows(periods: seq<int>, utils: seq<real>, c: int, raws: seq<seq<real>>) returns (output: seq<string>)
    requires c >= 1 && |utils| == |periods| == |raws| && Draws(raws, c)
    ensures output == Render(ChainsRows(TaskSetChains(periods, utils, c, raws)))
  {
    ghost var cs := TaskSetChains(periods, utils, c, raws);
    output := [];
    var taskId := 1;
    for k := 0 to |periods|
      invariant output == Render(ChainsRows(cs[..k]))
      invariant taskId == TaskCount(cs[..k]) + 1
    {
      var period := periods[k];
      var execs := ChainExecs(period, utils[k], c, raws[k]);
      assert cs[k] == Chain(period, execs);
      var chainLines;
      chainLines, taskId := EmitChain(period, execs, k + 1, taskId);
      RowsStep(cs, k);
      output := output + chainLines;
    }
    assert cs[..|periods|] == cs;
  }

  lemma RowsStep(cs: seq<Chain>, k: nat)
    requires k < |cs|
    ensures Render(ChainsRows(cs[..k + 1])) == Render(ChainsRows(cs[..k])) + Render(ChainRows(cs[k].period, cs[k].execs, k + 1, TaskCount(cs[..k]) + 1))
    ensures TaskCount(cs[..k + 1]) == TaskCount(cs[..k]) + |cs[k].execs|
  {
    ChainsRowsSnoc(cs, k);
    TaskCountSnoc(cs, k);
    RenderAppend(ChainsRows(cs[..k]), ChainRows(cs[k].period, cs[k].execs, k + 1, TaskCount(cs[..k]) + 1));
  }

  lemma OneSetLines(cs: seq<Chain>)
    ensures FileLines([cs]) == Render(ChainsRows(cs)) + [RowText(EndRow)]
  {
    RenderAppend(ChainsRows(cs), [EndRow]);
    assert [cs][..0] == [];
    assert FileRows([cs]) == ChainsRows(cs) + [EndRow];
  }

  lemma {:induction false} FirstAcceptedLength(attempts: seq<seq<real>>, n: nat)
    requires Sampled(attempts) && forall a :: 0 <= a < |attempts| ==> |attempts[a]| == n
    ensures FirstAccepted(attempts) != None ==> |FirstAccepted(attempts).value| == n
  {
    if attempts != [] && !Accepted(Periods(attempts[0])) {
      FirstAcceptedLength(attempts[1..], n);
    }
  }

  /**
   * Reading a generated task set back with the variable-length reader gives
   * one task set: the flat list of every chain's period followed by its
   * execution times, and C callbacks for each of the NC chains.
   */
  lemma GeneratedTaskSetReads(periods: seq<int>, utils: seq<real>, c: int, raws: seq<seq<real>>)
    requires c >= 1 && |utils| == |periods| == |raws| && Draws(raws, c) && |periods| >= 1
    ensures ParseOdd(FileLines([TaskSetChains(periods, utils, c, raws)])) ==
      Success([TaskSet(Flatten(TaskSetChains(periods, utils, c, raws)), Repeat<int>(c, |periods|))])
  {
    var cs := TaskSetChains(periods, utils, c, raws);
    TaskSetLengths(periods, utils, c, raws);
    ReadWritten([cs]);
    assert Expected([cs]) == [TaskSet(Flatten(cs), Lengths(cs))];
  }

  /**
   * The written rows of a task set with C callbacks per chain: C * NC rows,
   * and row k * C + j is callback j of chain k, with task id k * C + j + 1,
   * chain id k + 1 and the chain's period as period and deadline.
   */
  lemma GeneratedRows(periods: seq<int>, utils: seq<real>, c: int, raws: seq<seq<real>>, k: nat, j: nat)
    requires c >= 1 && |utils| == |periods| == |raws| && Draws(raws, c) && k < |periods| && j < c
    ensures var cs := TaskSetChains(periods, utils, c, raws);
      |ChainsRows(cs)| == |periods| * c && |cs[k].execs| == c && 0 <= k * c + j < |periods| * c &&
      ChainsRows(cs)[k * c + j] == TaskRow(periods[k], cs[k].execs[j], periods[k], k * c + j + 1, k + 1)
  {
    var cs := TaskSetChains(periods, utils, c, raws);
    TaskSetUniform(periods, utils, c, raws);
    assert cs[k].period == periods[k];
    UniformRows(cs, c, k, j);
    assert |cs| * c == |periods| * c;
  }

  lemma UniformRows(cs: seq<Chain>, c: int, k: nat, j: nat)
    requires forall m :: 0 <= m < |cs| ==> |cs[m].execs| == c
    requires k < |cs| && 0 <= j < c
    ensures |ChainsRows(cs)| == |cs| * c && 0 <= k * c + j < |cs| * c
    ensures ChainsRows(cs)[k * c + j] == TaskRow(cs[k].period, cs[k].execs[j], cs[k].period, k * c + j + 1, k + 1)
  {
    UniformTaskCount(cs, c, k);
    UniformTaskCount(cs, c, |cs|);
    assert cs[..|cs|] == cs;
    ChainsRowsAt(cs, k, j);
    var row := TaskCount(cs[..k]) + j;
    assert row == k * c + j && row < |ChainsRows(cs)| == |cs| * c;
    assert ChainsRows(cs)[row] == TaskRow(cs[k].period, cs[k].execs[j], cs[k].period, row + 1, k + 1);
  }

  /** With C callbacks per chain, the first k chains hold k * C tasks. */
  lemma {:induction false} UniformTaskCount(cs: seq<Chain>, c: int, k: nat)
    requires k <= |cs| && forall m :: 0 <= m < |cs| ==> |cs[m].execs| == c
    ensures TaskCount(cs[..k]) == k * c
  {
    if k > 0 {
      UniformTaskCount(cs, c, k - 1);
      TaskCountSnoc(cs, k - 1);
    }
  }
}

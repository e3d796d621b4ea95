/**
 * The synthetic task-set generator of synthetic_tasks.py: period snapping
 * to a 10 ms grid, the float-to-nanosecond conversion, the chain builder,
 * the job-count acceptance window and the CSV generator built on the
 * fixed-length job expander.
 *
 * The random draws are inputs: the uniform draw of `period_distribution`,
 * the chain utilisations `drs(k, U)`, the execution-time shares
 * `drs(L, total_exec)` of each chain and the two `random_permutation`
 * results of each task set. Floats are read as exact reals.
 */
module SyntheticTasks {
  import opened Seqs
  import opened Text
  import opened ChainFile
  import ChainLayout
  import Numeric
  import JobRows
  import Expanders

  // ----- snap_period -----

  const NsPerMs: int := 1_000_000
  const LowestMs: int := 50
  const HighestMs: int := 200
  const StepMs: int := 10

  /** `list(range(50, 201, 10))`: 50, 60, .., 200 ms. */
  function AllowedMs(): (r: seq<int>)
    ensures |r| == 16 && forall i :: 0 <= i < 16 ==> r[i] == LowestMs + StepMs * i
  {
    seq(16, i requires 0 <= i < 16 => LowestMs + StepMs * i)
  }

  /** `abs(v - x)`. */
  function Distance(v: int, x: real): real
  {
    if v as real >= x then v as real - x else x - v as real
  }

  /** `max(50, min(period_ms, 200))`. */
  function Clip(ms: real): (r: real)
    ensures LowestMs as real <= r <= HighestMs as real
    ensures LowestMs as real <= ms <= HighestMs as real ==> r == ms
  {
    var upper := if ms <= HighestMs as real then ms else HighestMs as real;
    if LowestMs as real < upper then upper else LowestMs as real
  }

  /** `min(s, key=lambda v: abs(v - x))`: the first value at the smallest distance from x. */
  function NearestFirst(s: seq<int>, x: real): (r: int)
    requires |s| > 0
    ensures r in s
  {
    if |s| == 1 then s[0]
    else
      var best := NearestFirst(s[..|s| - 1], x);
      if Distance(s[|s| - 1], x) < Distance(best, x) then s[|s| - 1] else best
  }

  /** No value of s is nearer to x than the one chosen. */
  lemma {:induction false} NearestFirstIsNearest(s: seq<int>, x: real)
    requires |s| > 0
    ensures forall i :: 0 <= i < |s| ==> Distance(NearestFirst(s, x), x) <= Distance(s[i], x)
  {
    if |s| > 1 {
      var init := s[..|s| - 1];
      NearestFirstIsNearest(init, x);
      assert forall i :: 0 <= i < |init| ==> s[i] == init[i];
    }
  }

  predicate Increasing(s: seq<int>)
  {
    forall i, j :: 0 <= i < j < |s| ==> s[i] < s[j]
  }

  /** In an increasing list a tie goes to the smaller value, since `min` keeps the first minimum. */
  lemma {:induction false} NearestFirstPrefersSmaller(s: seq<int>, x: real)
    requires |s| > 0 && Increasing(s)
    ensures forall i :: 0 <= i < |s| && Distance(s[i], x) == Distance(NearestFirst(s, x), x) ==> NearestFirst(s, x) <= s[i]
  {
    if |s| > 1 {
      var n := |s| - 1;
      var init := s[..n];
      NearestFirstPrefersSmaller(init, x);
      NearestFirstIsNearest(init, x);
      var best := NearestFirst(init, x);
      assert forall i :: 0 <= i < n ==> s[i] == init[i];
      var j :| 0 <= j < n && init[j] == best;
      assert best < s[n];
    }
  }

  /** Some allowed value lies within half a step of any x in [50, 200]. */
  lemma GridCoversRange(x: real)
    requires LowestMs as real <= x <= HighestMs as real
    ensures Distance(NearestFirst(AllowedMs(), x), x) <= (StepMs / 2) as real
  {
    var allowed := AllowedMs();
    var i := ((x - LowestMs as real) / StepMs as real + 0.5).Floor;
    if i > 15 {
      i := 15;
    }
    assert 0 <= i <= 15;
    assert Distance(allowed[i], x) <= (StepMs / 2) as real;
    NearestFirstIsNearest(allowed, x);
  }

  lemma AllowedIncreasing()
    ensures Increasing(AllowedMs())
  {
  }

  /** `snap_period(period_ns)`. */
  function SnapPeriod(periodNs: int): (r: int)
  {
    NearestFirst(AllowedMs(), Clip(periodNs as real / NsPerMs as real)) * NsPerMs
  }

  /**
   * The snapped period is a whole number of milliseconds from 50, 60, ..,
   * 200; none of those is nearer to the clipped period, a tie goes to the
   * smaller one, and it lies within 5 ms of the clipped period.
   */
  lemma SnapPeriodIsNearestAllowed(periodNs: int)
    ensures var ms := Clip(periodNs as real / NsPerMs as real); var r := SnapPeriod(periodNs);
      && r % NsPerMs == 0 && r / NsPerMs in AllowedMs()
      && LowestMs * NsPerMs <= r <= HighestMs * NsPerMs
      && (forall v :: v in AllowedMs() ==> Distance(r / NsPerMs, ms) <= Distance(v, ms))
      && (forall v :: v in AllowedMs() && Distance(v, ms) == Distance(r / NsPerMs, ms) ==> r / NsPerMs <= v)
      && Distance(r / NsPerMs, ms) <= (StepMs / 2) as real
  {
    var ms := Clip(periodNs as real / NsPerMs as real);
    var allowed := AllowedMs();
    var v := NearestFirst(allowed, ms);
    Numeric.MultipleMod(NsPerMs, v);
    NearestFirstIsNearest(allowed, ms);
    AllowedIncreasing();
    NearestFirstPrefersSmaller(allowed, ms);
    GridCoversRange(ms);
  }

  // ----- float_list_to_ns -----

  /** `[int(round(x)) for x in values]`. */
  function RoundAll(values: seq<real>): (r: seq<int>)
    ensures |r| == |values|
  {
    seq(|values|, i requires 0 <= i < |values| => Numeric.RoundHalfEven(values[i]))
  }

  /** `[v * scale for v in values]`. */
  function ScaleAll(values: seq<real>, scale: real): (r: seq<real>)
    ensures |r| == |values|
  {
    seq(|values|, i requires 0 <= i < |values| => values[i] * scale)
  }

  /** `ints[0] += target - sum(ints)`: the first entry absorbs the rounding discrepancy. */
  function AbsorbDiscrepancy(ints: seq<int>, target: int): (r: seq<int>)
    requires |ints| >= 1
    ensures |r| == |ints|
  {
    ints[0 := ints[0] + (target - Sum(ints))]
  }

  /** After absorbing the discrepancy the entries sum to the target; every entry but the first is unchanged. */
  lemma AbsorbDiscrepancyHitsTarget(ints: seq<int>, target: int)
    requires |ints| >= 1
    ensures Sum(AbsorbDiscrepancy(ints, target)) == target
    ensures forall i :: 1 <= i < |ints| ==> AbsorbDiscrepancy(ints, target)[i] == ints[i]
  {
    SumUpdate(ints, 0, target - Sum(ints));
  }

  /** The default `scale=1e9` of `float_list_to_ns`. */
  const SecondsToNs: real := 1_000_000_000.0

  /** `round(sum(values) * scale)`: the total the nanosecond values must reach. */
  function ScaledTotal(values: seq<real>, scale: real): int
  {
    Numeric.RoundHalfEven(SumReal(values) * scale)
  }

  /** `float_list_to_ns(values, scale)`; None where `ns_values[0]` fails on an empty list. */
  function FloatListToNs(values: seq<real>, scale: real): (r: Option<seq<int>>)
    ensures r == None <==> values == []
    ensures r != None ==> |r.value| == |values|
  {
    if values == [] then None
    else Some(AbsorbDiscrepancy(RoundAll(ScaleAll(values, scale)), ScaledTotal(values, scale)))
  }

  /**
   * The nanosecond values sum to the rounded scaled sum, and every value
   * but the first is its own scaled value rounded.
   */
  lemma FloatListToNsSums(values: seq<real>, scale: real, ns: seq<int>)
    requires FloatListToNs(values, scale) == Some(ns)
    ensures Sum(ns) == ScaledTotal(values, scale)
    ensures |ns| == |values| && ns[1..] == RoundAll(ScaleAll(values, scale))[1..]
  {
    var ints := RoundAll(ScaleAll(values, scale));
    var target := ScaledTotal(values, scale);
    assert ns == AbsorbDiscrepancy(ints, target);
    AbsorbDiscrepancyHitsTarget(ints, target);
    assert ns[1..] == ints[1..];
  }

  // ----- generate_task_set -----

  /**
   * The draws for one chain: the uniform value behind `period_distribution()`
   * and the shares `drs(n=L, sumu=total_exec)`, one per task (L is their
   * number).
   */
  datatype ChainDraw = ChainDraw(period: real, shares: seq<real>)

  /** `snap_period(period_distribution())`. */
  function ChainPeriod(d: ChainDraw): int
  {
    SnapPeriod(Numeric.RoundHalfEven(d.period))
  }

  /** `int(round(chain_utils[i] * T))`: the chain's total execution time. */
  function ChainBudget(u: real, period: int): int
  {
    Numeric.RoundHalfEven(u * period as real)
  }

  /** One chain: its snapped period and the rounded shares, the first absorbing the discrepancy. */
  function ChainOf(u: real, d: ChainDraw): Chain
    requires |d.shares| >= 1
  {
    var t := ChainPeriod(d);
    Chain(t, AbsorbDiscrepancy(RoundAll(d.shares), ChainBudget(u, t)))
  }

  predicate ValidDraws(utils: seq<real>, draws: seq<ChainDraw>)
  {
    |utils| == |draws| && forall k :: 0 <= k < |draws| ==> |draws[k].shares| >= 1
  }

  /** The chains of a generated task set. */
  function SetChains(utils: seq<real>, draws: seq<ChainDraw>): (cs: seq<Chain>)
    requires ValidDraws(utils, draws)
    ensures |cs| == |utils|
  {
    seq(|utils|, k requires 0 <= k < |utils| => ChainOf(utils[k], draws[k]))
  }

  /**
   * Chain k has the snapped period of its draw and one task per share, and
   * its execution times sum exactly to `round(u_k * T)`.
   */
  lemma SetChainsBudgets(utils: seq<real>, draws: seq<ChainDraw>, k: nat)
    requires ValidDraws(utils, draws) && k < |utils|
    ensures var c := SetChains(utils, draws)[k];
      && c.period == ChainPeriod(draws[k])
      && |c.execs| == |draws[k].shares|
      && Sum(c.execs) == ChainBudget(utils[k], c.period)
      && forall j :: 1 <= j < |c.execs| ==> c.execs[j] == Numeric.RoundHalfEven(draws[k].shares[j])
  {
    AbsorbDiscrepancyHitsTarget(RoundAll(draws[k].shares), ChainBudget(utils[k], ChainPeriod(draws[k])));
  }

  /** `generate_task_set(U, k, (L, L))`: the flat list `[T, e1, .., eL]` of every chain, in order. */
  method GenerateTaskSet(utils: seq<real>, draws: seq<ChainDraw>) returns (taskSet: seq<int>)
    requires ValidDraws(utils, draws)
    ensures taskSet == Flatten(SetChains(utils, draws))
  {
    ghost var cs := SetChains(utils, draws);
    taskSet := [];
    for i := 0 to |utils|
      invariant taskSet == Flatten(cs[..i])
    {
      var t := ChainPeriod(draws[i]);
      var totalExec := ChainBudget(utils[i], t);
      var taskExecs := RoundAll(draws[i].shares);
      ghost var rounded := taskExecs;
      var discrepancy := totalExec - Sum(taskExecs);
      taskExecs := taskExecs[0 := taskExecs[0] + discrepancy];
      var chain := [t] + taskExecs;
      GeneratedChain(utils, draws, i, rounded, discrepancy, chain);
      assert cs[..i + 1] == cs[..i] + [cs[i]];
      FlattenSnoc(cs[..i], cs[i]);
      taskSet := taskSet + chain;
    }
    assert cs[..|utils|] == cs;
  }

  /** The list one iteration appends is chain i of the task set, flattened. */
  lemma GeneratedChain(utils: seq<real>, draws: seq<ChainDraw>, i: nat, rounded: seq<int>, discrepancy: int, chain: seq<int>)
    requires ValidDraws(utils, draws) && i < |utils|
    requires rounded == RoundAll(draws[i].shares)
    requires discrepancy == ChainBudget(utils[i], ChainPeriod(draws[i])) - Sum(rounded)
    requires chain == [ChainPeriod(draws[i])] + rounded[0 := rounded[0] + discrepancy]
    ensures chain == [SetChains(utils, draws)[i].period] + SetChains(utils, draws)[i].execs
  {
    assert rounded[0 := rounded[0] + discrepancy] == AbsorbDiscrepancy(rounded, ChainBudget(utils[i], ChainPeriod(draws[i])));
  }

  /** Every chain of the draws has b callbacks. */
  predicate UniformDraws(utils: seq<real>, draws: seq<ChainDraw>, b: int)
  {
    |utils| == |draws| && forall k :: 0 <= k < |draws| ==> |draws[k].shares| == b
  }

  lemma ChainPeriodPositive(d: ChainDraw)
    ensures ChainPeriod(d) >= LowestMs * NsPerMs
  {
    SnapPeriodIsNearestAllowed(Numeric.RoundHalfEven(d.period));
  }

  /**
   * With b callbacks per chain the generated list has b + 1 entries per
   * chain, and the strided entries `task_set[0::b+1]` read back are exactly
   * the chain periods, all positive.
   */
  lemma GeneratedPeriods(utils: seq<real>, draws: seq<ChainDraw>, b: nat)
    requires b >= 1 && UniformDraws(utils, draws, b)
    ensures |Flatten(SetChains(utils, draws))| == |utils| * (b + 1)
    ensures ChainLayout.FixedPeriods(Flatten(SetChains(utils, draws)), b) == ChainLayout.Periods(SetChains(utils, draws))
    ensures AllPositive(ChainLayout.FixedPeriods(Flatten(SetChains(utils, draws)), b))
  {
    var cs := SetChains(utils, draws);
    var n := |utils|;
    var flat := Flatten(cs);
    assert Lengths(cs) == Repeat<int>(b, n);
    ChainsOfFlatten(cs);
    SumRepeat(b, n);
    assert |flat| == n * (b + 1);
    ChainLayout.FixedPeriodsAreChainPeriods(flat, n, b);
    forall k | 0 <= k < n
      ensures cs[k].period > 0
    {
      ChainPeriodPositive(draws[k]);
    }
  }

  // ----- generate_n_task_sets -----

  /** `nrof_jobs_interval = (500, 1000)`. */
  const MinJobs: int := 500
  const MaxJobs: int := 1000

  /** `sum([(hyperperiod // period) * chain_length for period in periods])`. */
  function JobCount(periods: seq<int>, chainLength: int): int
    requires |periods| > 0 && AllPositive(periods)
  {
    var h := Numeric.LcmOf(periods);
    Sum(seq(|periods|, i requires 0 <= i < |periods| => h / periods[i] * chainLength))
  }

  /**
   * The `while` condition of `generate_n_task_sets`, negated: the strided
   * periods have a hyperperiod (`lcm([])` fails) and the job count lies in
   * [500, 1000].
   */
  predicate InWindow(flat: seq<int>, b: nat)
  {
    var periods := ChainLayout.FixedPeriods(flat, b);
    |periods| > 0 && AllPositive(periods) && MinJobs <= JobCount(periods, b) <= MaxJobs
  }

  /** The draws behind one call of `generate_task_set(U, nrof_chains, (L, L))`. */
  datatype SetDraw = SetDraw(utils: seq<real>, chains: seq<ChainDraw>)

  predicate Shaped(d: SetDraw, b: nat)
  {
    UniformDraws(d.utils, d.chains, b) && b >= 1
  }

  predicate AllShaped(tries: seq<SetDraw>, b: nat)
  {
    forall t :: 0 <= t < |tries| ==> Shaped(tries[t], b)
  }

  /** The task set one attempt generates. */
  function Candidate(d: SetDraw): seq<int>
    requires ValidDraws(d.utils, d.chains)
  {
    Flatten(SetChains(d.utils, d.chains))
  }

  /**
   * The task set kept for one set: the first attempt in the window; None
   * when none of the attempts is (the source then keeps drawing).
   */
  function FirstInWindow(tries: seq<SetDraw>, b: nat): Option<seq<int>>
    requires AllShaped(tries, b)
  {
    if tries == [] then None
    else if InWindow(Candidate(tries[0]), b) then Some(Candidate(tries[0]))
    else FirstInWindow(tries[1..], b)
  }

  /**
   * The loop ends on the first attempt in the window, and keeps going (here:
   * runs out of attempts) exactly when no attempt is in the window.
   */
  lemma {:induction false} FirstInWindowIsFirst(tries: seq<SetDraw>, b: nat)
    requires AllShaped(tries, b)
    ensures FirstInWindow(tries, b) == None <==> forall t :: 0 <= t < |tries| ==> !InWindow(Candidate(tries[t]), b)
    ensures forall t ::
      (0 <= t < |tries| && InWindow(Candidate(tries[t]), b) && forall u :: 0 <= u < t ==> !InWindow(Candidate(tries[u]), b)) ==>
      FirstInWindow(tries, b) == Some(Candidate(tries[t]))
  {
    NoneInWindow(tries, b);
    forall t | 0 <= t < |tries| && InWindow(Candidate(tries[t]), b) && forall u :: 0 <= u < t ==> !InWindow(Candidate(tries[u]), b)
      ensures FirstInWindow(tries, b) == Some(Candidate(tries[t]))
    {
      FirstInWindowAt(tries, b, t);
    }
  }

  lemma {:induction false} NoneInWindow(tries: seq<SetDraw>, b: nat)
    requires AllShaped(tries, b)
    ensures FirstInWindow(tries, b) == None <==> forall t :: 0 <= t < |tries| ==> !InWindow(Candidate(tries[t]), b)
  {
    if tries != [] {
      var rest := tries[1..];
      NoneInWindow(rest, b);
      assert forall t :: 1 <= t < |tries| ==> tries[t] == rest[t - 1];
    }
  }

  lemma {:induction false} FirstInWindowAt(tries: seq<SetDraw>, b: nat, t: nat)
    requires AllShaped(tries, b) && t < |tries| && InWindow(Candidate(tries[t]), b)
    requires forall u :: 0 <= u < t ==> !InWindow(Candidate(tries[u]), b)
    ensures FirstInWindow(tries, b) == Some(Candidate(tries[t]))
  {
    if t > 0 {
      var rest := tries[1..];
      assert !InWindow(Candidate(tries[0]), b);
      assert rest[t - 1] == tries[t];
      forall u | 0 <= u < t - 1 ensures !InWindow(Candidate(rest[u]), b) {
        assert rest[u] == tries[u + 1];
      }
      FirstInWindowAt(rest, b, t - 1);
    }
  }

  /** A kept task set is in the window and has b + 1 entries for each of its chains. */
  lemma {:induction false} FirstInWindowShape(tries: seq<SetDraw>, nrofChains: nat, b: nat)
    requires AllShaped(tries, b) && forall t :: 0 <= t < |tries| ==> |tries[t].utils| == nrofChains
    ensures FirstInWindow(tries, b) != None ==>
      InWindow(FirstInWindow(tries, b).value, b) && |FirstInWindow(tries, b).value| == nrofChains * (b + 1)
  {
    if tries != [] {
      if InWindow(Candidate(tries[0]), b) {
        GeneratedPeriods(tries[0].utils, tries[0].chains, b);
      } else {
        FirstInWindowShape(tries[1..], nrofChains, b);
      }
    }
  }

  /** The job count of one candidate: the strided periods, `lcm(periods)` and the sum. */
  method CountJobs(flat: seq<int>, b: nat) returns (inWindow: bool)
    requires |ChainLayout.FixedPeriods(flat, b)| > 0 && AllPositive(ChainLayout.FixedPeriods(flat, b))
    ensures inWindow == InWindow(flat, b)
  {
    var periods := ChainLayout.FixedPeriods(flat, b);
    var hyperperiod := Numeric.Hyperperiod(periods);
    var nrofJobs := Sum(seq(|periods|, i requires 0 <= i < |periods| => hyperperiod / periods[i] * b));
    inWindow := !(nrofJobs < MinJobs || nrofJobs > MaxJobs);
  }

  /** The body of `for s in range(nrof_sets)`: draw until the job count lies in the window. */
  method DrawInWindow(tries: seq<SetDraw>, b: nat) returns (taskSet: Option<seq<int>>)
    requires AllShaped(tries, b) && forall t :: 0 <= t < |tries| ==> |tries[t].utils| >= 1
    ensures taskSet == FirstInWindow(tries, b)
  {
    var i := 0;
    while i < |tries|
      invariant 0 <= i <= |tries|
      invariant FirstInWindow(tries, b) == FirstInWindow(tries[i..], b)
    {
      assert tries[i..][1..] == tries[i + 1..];
      var candidate := GenerateTaskSet(tries[i].utils, tries[i].chains);
      GeneratedPeriods(tries[i].utils, tries[i].chains, b);
      var inWindow := CountJobs(candidate, b);
      if inWindow {
        return Some(candidate);
      }
      i := i + 1;
    }
    return None;
  }

  /** Whether every set finds an attempt in the window. */
  predicate AllSettle(attempts: seq<seq<SetDraw>>, b: nat)
    requires forall s :: 0 <= s < |attempts| ==> AllShaped(attempts[s], b)
  {
    forall s :: 0 <= s < |attempts| ==> FirstInWindow(attempts[s], b) != None
  }

  /** The kept task set of every set. */
  function Settled(attempts: seq<seq<SetDraw>>, b: nat): (r: seq<seq<int>>)
    requires forall s :: 0 <= s < |attempts| ==> AllShaped(attempts[s], b)
    requires AllSettle(attempts, b)
    ensures |r| == |attempts|
  {
    seq(|attempts|, s requires 0 <= s < |attempts| => FirstInWindow(attempts[s], b).value)
  }

  /** The attempt lists of `nrof_sets` sets, each attempt drawn with the given chain count and length. */
  predicate SetAttempts(attempts: seq<seq<SetDraw>>, nrofChains: nat, b: nat)
  {
    forall s :: 0 <= s < |attempts| ==>
      AllShaped(attempts[s], b) && forall t :: 0 <= t < |attempts[s]| ==> |attempts[s][t].utils| == nrofChains
  }

  /**
   * `generate_n_task_sets(nrof_sets, U, nrof_chains, L)`: the first attempt
   * in the window of every set, or None when some set has none.
   */
  method GenerateNTaskSets(attempts: seq<seq<SetDraw>>, nrofChains: nat, b: nat) returns (taskSets: Option<seq<seq<int>>>)
    requires nrofChains >= 1 && SetAttempts(attempts, nrofChains, b)
    ensures taskSets == None <==> !AllSettle(attempts, b)
    ensures taskSets != None ==> taskSets.value == Settled(attempts, b)
  {
    var sets: seq<seq<int>> := [];
    for s := 0 to |attempts|
      invariant |sets| == s
      invariant forall r :: 0 <= r < s ==> FirstInWindow(attempts[r], b) == Some(sets[r])
    {
      var taskSet := DrawInWindow(attempts[s], b);
      if taskSet == None {
        return None;
      }
      sets := sets + [taskSet.value];
    }
    taskSets := Some(sets);
  }

  /**
   * Every kept task set lies in the window and is a well-formed fixed-length
   * input: `nrof_chains` chains of `L` callbacks with positive periods, so
   * that with any two priority permutations it can be expanded into jobs.
   */
  lemma SettledAreFixedInputs(attempts: seq<seq<SetDraw>>, nrofChains: nat, b: nat, s: nat, timers: seq<int>, subs: seq<int>)
    requires nrofChains >= 1 && SetAttempts(attempts, nrofChains, b) && AllSettle(attempts, b) && s < |attempts|
    requires PermutationOfRange(timers, 1, nrofChains + 1)
    requires PermutationOfRange(subs, nrofChains + 1, nrofChains * b + 1)
    ensures InWindow(Settled(attempts, b)[s], b)
    ensures Expanders.FixedInput(Settled(attempts, b)[s], nrofChains, b, timers, subs)
  {
    FirstInWindowShape(attempts[s], nrofChains, b);
  }

  // ----- generate_csv_n_task_sets -----

  /** `os.path.join(path, f"task_set_{idx}.csv")`. */
  function JobsName(path: string, idx: nat): string
  {
    PathJoin(path, "task_set_" + NatToString(idx) + ".csv")
  }

  /** `os.path.join(path, f"pred_{idx}.csv")`. */
  function PredName(path: string, idx: nat): string
  {
    PathJoin(path, "pred_" + NatToString(idx) + ".csv")
  }

  lemma PathJoinCancels(path: string, x: string, y: string)
    requires x != [] && y != [] && x[0] != '/' && y[0] != '/'
    requires PathJoin(path, x) == PathJoin(path, y)
    ensures x == y
  {
    var p := if path == [] || path[|path| - 1] == '/' then path else path + "/";
    assert PathJoin(path, x) == p + x && PathJoin(path, y) == p + y;
    assert x == (p + x)[|p|..];
    assert y == (p + y)[|p|..];
  }

  lemma MiddleCancels(prefix: string, m1: string, m2: string, suffix: string)
    requires prefix + m1 + suffix == prefix + m2 + suffix
    ensures m1 == m2
  {
    var a := prefix + m1 + suffix;
    assert |m1| == |m2|;
    assert m1 == a[|prefix|..|prefix| + |m1|];
    assert m2 == (prefix + m2 + suffix)[|prefix|..|prefix| + |m2|];
  }

  /**
   * Every task set gets its own pair of files: different indices give
   * different names, and no job file is named like a precedence file.
   */
  lemma FileNamesDistinct(path: string, i: nat, j: nat)
    ensures JobsName(path, i) == JobsName(path, j) ==> i == j
    ensures PredName(path, i) == PredName(path, j) ==> i == j
    ensures JobsName(path, i) != PredName(path, j)
  {
    DecimalValueOfNatToString(i);
    DecimalValueOfNatToString(j);
    if JobsName(path, i) == JobsName(path, j) {
      PathJoinCancels(path, "task_set_" + NatToString(i) + ".csv", "task_set_" + NatToString(j) + ".csv");
      MiddleCancels("task_set_", NatToString(i), NatToString(j), ".csv");
    }
    if PredName(path, i) == PredName(path, j) {
      PathJoinCancels(path, "pred_" + NatToString(i) + ".csv", "pred_" + NatToString(j) + ".csv");
      MiddleCancels("pred_", NatToString(i), NatToString(j), ".csv");
    }
    var x, y := "task_set_" + NatToString(i) + ".csv", "pred_" + NatToString(j) + ".csv";
    if JobsName(path, i) == PredName(path, j) {
      PathJoinCancels(path, x, y);
    }
  }

  /** The two CSV files of one task set: names, job rows and precedence rows. */
  datatype CsvPair = CsvPair(jobsName: string, predName: string, jobs: seq<JobRows.JobRow>, edges: seq<JobRows.EdgeRow>)

  /** What `generate_csv_n_task_sets` writes for the task set with index idx. */
  function CsvOf(flat: seq<int>, nrofChains: nat, b: int, timers: seq<int>, subs: seq<int>, path: string, idx: nat): CsvPair
    requires Expanders.FixedInput(flat, nrofChains, b, timers, subs)
  {
    Expanders.FixedSortedBounds(flat, nrofChains, b, timers, subs);
    var tasks := JobRows.Sort(Expanders.FixedTasks(flat, nrofChains, b, timers, subs));
    var h := Expanders.FixedHyperperiod(flat, b);
    CsvPair(JobsName(path, idx), PredName(path, idx),
            JobRows.Jobs(tasks, h, Expanders.InfiniteDeadlineVariant.cost, Expanders.InfiniteDeadlineVariant.deadline),
            JobRows.Edges(tasks, nrofChains, h))
  }

  /** Priority permutations for every task set: `random_permutation(1, k)` and `random_permutation(k + 1, k * L)`. */
  predicate PriorityDraws(timers: seq<seq<int>>, subs: seq<seq<int>>, n: nat, nrofChains: nat, b: nat)
  {
    |timers| == n && |subs| == n
    && forall s :: 0 <= s < n ==>
      PermutationOfRange(timers[s], 1, nrofChains + 1) && PermutationOfRange(subs[s], nrofChains + 1, nrofChains * b + 1)
  }

  /** The `for task_set in task_sets` loop: both files of every task set, numbered from 1. */
  method WriteTaskSets(sets: seq<seq<int>>, nrofChains: nat, b: nat, timers: seq<seq<int>>, subs: seq<seq<int>>, path: string)
    returns (files: seq<CsvPair>)
    requires |timers| == |sets| && |subs| == |sets|
    requires forall s :: 0 <= s < |sets| ==> Expanders.FixedInput(sets[s], nrofChains, b, timers[s], subs[s])
    ensures |files| == |sets|
    ensures forall s :: 0 <= s < |sets| ==> files[s] == CsvOf(sets[s], nrofChains, b, timers[s], subs[s], path, s + 1)
  {
    files := [];
    var taskSetIdx := 1;
    for s := 0 to |sets|
      invariant taskSetIdx == s + 1 && |files| == s
      invariant forall r :: 0 <= r < s ==> files[r] == CsvOf(sets[r], nrofChains, b, timers[r], subs[r], path, r + 1)
    {
      var jobs, edges := Expanders.ExpandFixedChains(sets[s], nrofChains, b, timers[s], subs[s], Expanders.InfiniteDeadlineVariant);
      var pair := CsvPair(JobsName(path, taskSetIdx), PredName(path, taskSetIdx), jobs, edges);
      assert pair == CsvOf(sets[s], nrofChains, b, timers[s], subs[s], path, s + 1);
      ghost var written := files;
      files := files + [pair];
      forall r | 0 <= r <= s
        ensures files[r] == CsvOf(sets[r], nrofChains, b, timers[r], subs[r], path, r + 1)
      {
        if r < s {
          assert files[r] == written[r];
        }
      }
      taskSetIdx := taskSetIdx + 1;
    }
  }

  /**
   * `generate_csv_n_task_sets`: the task sets of `generate_n_task_sets`,
   * each expanded into the job and precedence files numbered from 1, with
   * BCET equal to WCET and the deadline `int(1e12)`.
   */
  method GenerateCsvNTaskSets(attempts: seq<seq<SetDraw>>, nrofChains: nat, b: nat,
                              timers: seq<seq<int>>, subs: seq<seq<int>>, path: string)
    returns (files: Option<seq<CsvPair>>)
    requires nrofChains >= 1 && SetAttempts(attempts, nrofChains, b)
    requires PriorityDraws(timers, subs, |attempts|, nrofChains, b)
    ensures files == None <==> !AllSettle(attempts, b)
    ensures files != None ==>
      |files.value| == |attempts| &&
      forall s :: 0 <= s < |attempts| ==>
        Expanders.FixedInput(Settled(attempts, b)[s], nrofChains, b, timers[s], subs[s]) &&
        files.value[s] == CsvOf(Settled(attempts, b)[s], nrofChains, b, timers[s], subs[s], path, s + 1)
  {
    var taskSets := GenerateNTaskSets(attempts, nrofChains, b);
    if taskSets == None {
      return None;
    }
    var sets := taskSets.value;
    forall s | 0 <= s < |sets|
      ensures Expanders.FixedInput(sets[s], nrofChains, b, timers[s], subs[s])
    {
      SettledAreFixedInputs(attempts, nrofChains, b, s, timers[s], subs[s]);
    }
    var written := WriteTaskSets(sets, nrofChains, b, timers, subs, path);
    files := Some(written);
  }
}

/**
 * The job generators, one task set at a time: from the flat chain list to
 * the rows of the jobs file and of the precedence file.
 *
 * Every copy follows the same steps: chain periods, hyperperiod (the LCM
 * of the periods), per-task periods and WCETs, priorities from a timer
 * permutation of 1..nrof_chains and a subscription permutation of
 * nrof_chains+1..nrof_tasks, predecessor priorities, the zipped task
 * tuples sorted by priority, and the emission loop. The copies differ in
 * how they find the chain heads (prefix sums of the chain lengths, or
 * `i % b == 0` for chains of `b` callbacks), in the deadline column and in
 * the Cost min column. The case-study copy writes its priority and
 * predecessor lists by hand.
 *
 * The random permutations are inputs; the model asks that they be
 * permutations of the ranges `random.sample` draws them from.
 */
module Expanders {
  import opened Seqs
  import opened ChainFile
  import opened ChainLayout
  import opened JobRows
  import Numeric

  /** The columns in which the copies differ. */
  datatype Variant = Variant(cost: CostRule, deadline: DeadlineRule)

  /** The variable-length copy: Cost min is `wcet // 2`, deadline is release + period. */
  const OddChainsVariant := Variant(HalfWcet, ReleasePlusPeriod)
  /** The fixed-length copy next to it: Cost min is the WCET, deadline is release + period. */
  const FixedChainsVariant := Variant(FullWcet, ReleasePlusPeriod)
  /** The constant-deadline copies: Cost min is the WCET, deadline is `int(1e12)`. */
  const InfiniteDeadlineVariant := Variant(FullWcet, Constant(Infinity))
  /** The case-study copy: Cost min is the WCET, deadline is release + period. */
  const CaseStudyVariant := Variant(FullWcet, ReleasePlusPeriod)

  // ----- The task list before sorting -----

  /** The zipped task tuples of a layout: priority, WCET, predecessor priority and period of every task. */
  function ChainTasks(heads: seq<bool>, timers: seq<int>, subs: seq<int>, wcets: seq<int>, periods: seq<int>): seq<Task>
    requires CountTrue(heads) <= |timers| && |heads| - CountTrue(heads) <= |subs|
  {
    var priority := Assign(heads, timers, subs);
    Zip(priority, wcets, Preds(heads, priority), periods)
  }

  /**
   * What the generators feed the priority walk: one timer priority per
   * head, drawn as a permutation of 1..nrof_chains, one subscription
   * priority per other task, drawn as a permutation of the rest, and a WCET
   * and a positive period for every task.
   */
  predicate Layout(heads: seq<bool>, timers: seq<int>, subs: seq<int>, wcets: seq<int>, periods: seq<int>)
  {
    && CountTrue(heads) == |timers| && |subs| == |heads| - |timers|
    && PermutationOfRange(timers, 1, |timers| + 1)
    && PermutationOfRange(subs, |timers| + 1, |heads| + 1)
    && |wcets| == |heads| && |periods| == |heads| && AllPositive(periods)
  }

  /** The task list of a layout has one task per head mark, and its priorities are the walk's. */
  lemma LayoutTasks(heads: seq<bool>, timers: seq<int>, subs: seq<int>, wcets: seq<int>, periods: seq<int>)
    requires Layout(heads, timers, subs, wcets, periods)
    ensures |ChainTasks(heads, timers, subs, wcets, periods)| == |heads|
    ensures Keys(ChainTasks(heads, timers, subs, wcets, periods)) == Assign(heads, timers, subs)
  {
    var priority := Assign(heads, timers, subs);
    TimerSplit(heads, timers, subs, priority);
    var pred := Preds(heads, priority);
    PredsBounded(heads, priority);
    ZipTasks(priority, wcets, pred, periods);
  }

  /** The priorities of the task list of a layout are 1..nrof_tasks in some order. */
  lemma LayoutOneToN(heads: seq<bool>, timers: seq<int>, subs: seq<int>, wcets: seq<int>, periods: seq<int>)
    requires Layout(heads, timers, subs, wcets, periods)
    ensures PrioritiesOneToN(ChainTasks(heads, timers, subs, wcets, periods))
  {
    LayoutTasks(heads, timers, subs, wcets, periods);
    var priority := Assign(heads, timers, subs);
    TimerSplit(heads, timers, subs, priority);
    KeysOneToN(ChainTasks(heads, timers, subs, wcets, periods), priority);
  }

  lemma KeysOneToN(tasks: seq<Task>, priority: seq<int>)
    requires Keys(tasks) == priority
    requires Distinct(priority) && forall i :: 0 <= i < |priority| ==> 1 <= priority[i] <= |priority|
    ensures PrioritiesOneToN(tasks)
  {
    assert forall i :: 0 <= i < |tasks| ==> tasks[i].priority == priority[i];
  }

  /** After sorting, every period of a layout's tasks is positive and every predecessor priority names a task. */
  lemma LayoutSortedBounds(heads: seq<bool>, timers: seq<int>, subs: seq<int>, wcets: seq<int>, periods: seq<int>)
    requires Layout(heads, timers, subs, wcets, periods)
    ensures PositivePeriods(Sort(ChainTasks(heads, timers, subs, wcets, periods)))
    ensures PredsInRange(Sort(ChainTasks(heads, timers, subs, wcets, periods)), |timers|)
  {
    var priority := Assign(heads, timers, subs);
    TimerSplit(heads, timers, subs, priority);
    var pred := Preds(heads, priority);
    PredsBounded(heads, priority);
    ZipTasks(priority, wcets, pred, periods);
    SortKeepsBounds(Zip(priority, wcets, pred, periods), |timers|);
  }

  /** Every predecessor priority is 0 or one of the priorities. */
  lemma PredsBounded(heads: seq<bool>, priority: seq<int>)
    requires |priority| == |heads| && forall i :: 0 <= i < |priority| ==> 1 <= priority[i] <= |priority|
    ensures forall i :: 0 <= i < |heads| ==> 0 <= Preds(heads, priority)[i] <= |heads|
  {
  }

  lemma ZipTasks(priority: seq<int>, wcets: seq<int>, pred: seq<int>, periods: seq<int>)
    requires |wcets| == |priority| && |pred| == |priority| && |periods| == |priority|
    requires AllPositive(periods) && forall i :: 0 <= i < |pred| ==> pred[i] <= |priority|
    ensures var tasks := Zip(priority, wcets, pred, periods);
      && |tasks| == |priority| && Keys(tasks) == priority
      && forall i :: 0 <= i < |tasks| ==> tasks[i].period > 0 && tasks[i].pred <= |tasks|
  {
  }

  /** Sorting keeps every task, so it keeps positive periods and predecessor priorities in range. */
  lemma SortKeepsBounds(tasks: seq<Task>, nrofChains: nat)
    requires forall i :: 0 <= i < |tasks| ==> tasks[i].period > 0 && tasks[i].pred <= |tasks|
    ensures PositivePeriods(Sort(tasks)) && PredsInRange(Sort(tasks), nrofChains)
  {
    var sorted := Sort(tasks);
    forall m | 0 <= m < |sorted| ensures sorted[m].period > 0 && sorted[m].pred <= |sorted| {
      assert sorted[m] in multiset(tasks);
      var i :| 0 <= i < |tasks| && tasks[i] == sorted[m];
    }
  }

  /**
   * The task list of a layout, position by position: task `i` carries
   * the walk's priority `i`, which lies in 1..nrof_tasks and is a timer
   * priority exactly when task `i` heads its chain, and a task that is not
   * a chain head names the priority of the task before it as its
   * predecessor.
   */
  lemma ChainTaskFacts(heads: seq<bool>, timers: seq<int>, subs: seq<int>, wcets: seq<int>, periods: seq<int>,
                       tasks: seq<Task>, priority: seq<int>)
    requires Layout(heads, timers, subs, wcets, periods)
    requires priority == Assign(heads, timers, subs) && tasks == ChainTasks(heads, timers, subs, wcets, periods)
    ensures |tasks| == |heads| && |priority| == |heads|
    ensures forall j :: 0 <= j < |tasks| ==>
      && tasks[j].priority == priority[j] && 1 <= priority[j] <= |heads|
      && (heads[j] <==> priority[j] <= |timers|)
    ensures forall j :: 0 < j < |tasks| && !heads[j] ==> tasks[j].pred == priority[j - 1]
  {
    LayoutTasks(heads, timers, subs, wcets, periods);
    forall j | 0 <= j < |tasks|
      ensures 1 <= priority[j] <= |heads| && (heads[j] <==> priority[j] <= |timers|)
    {
      HeadsHoldTimerPriorities(heads, timers, subs, j);
    }
  }

  /**
   * In a task list whose priorities are a permutation of 1..nrof_tasks, a
   * task `i` with a subscription priority whose predecessor is task `i - 1`
   * of the same period gets, for its `k`-th job, a precedence row from the
   * `k`-th job of task `i - 1` to its own `k`-th job.
   */
  lemma NonHeadLinks(tasks: seq<Task>, nrofChains: nat, hyperperiod: nat, v: Variant, i: nat, k: nat)
    requires PrioritiesOneToN(tasks)
    requires PositivePeriods(Sort(tasks)) && PredsInRange(Sort(tasks), nrofChains)
    requires 0 < i < |tasks| && tasks[i].priority > nrofChains && tasks[i].pred == tasks[i - 1].priority
    requires tasks[i].period == tasks[i - 1].period && 0 < tasks[i].period && k < hyperperiod / tasks[i].period
    ensures Linked(Jobs(Sort(tasks), hyperperiod, v.cost, v.deadline), Edges(Sort(tasks), nrofChains, hyperperiod),
                   tasks[i - 1], tasks[i], k, v.cost, v.deadline)
  {
    SortHolds(tasks, i);
    SortHolds(tasks, i - 1);
    SuccessorLinked(Sort(tasks), nrofChains, hyperperiod, v.cost, v.deadline, tasks[i - 1], tasks[i], k);
  }

  /**
   * For a layout, a task that is not a chain head and has the period of
   * the task before it gets, for its `k`-th job, a precedence row from the
   * `k`-th job of the task before it to its own `k`-th job.
   */
  lemma ChainLinks(heads: seq<bool>, timers: seq<int>, subs: seq<int>, wcets: seq<int>, periods: seq<int>,
                   tasks: seq<Task>, hyperperiod: nat, v: Variant, i: nat, k: nat)
    requires Layout(heads, timers, subs, wcets, periods) && tasks == ChainTasks(heads, timers, subs, wcets, periods)
    requires 0 < i < |heads| && !heads[i] && periods[i] == periods[i - 1] && k < hyperperiod / periods[i]
    ensures PositivePeriods(Sort(tasks)) && PredsInRange(Sort(tasks), |timers|) && i < |tasks|
    ensures Linked(Jobs(Sort(tasks), hyperperiod, v.cost, v.deadline), Edges(Sort(tasks), |timers|, hyperperiod),
                   tasks[i - 1], tasks[i], k, v.cost, v.deadline)
  {
    var priority := Assign(heads, timers, subs);
    LayoutOneToN(heads, timers, subs, wcets, periods);
    LayoutSortedBounds(heads, timers, subs, wcets, periods);
    ChainTaskFacts(heads, timers, subs, wcets, periods, tasks, priority);
    NonHeadLinks(tasks, |timers|, hyperperiod, v, i, k);
  }

  // ----- The variable-length generator -----

  /**
   * What the variable-length generator is given for one task set: a flat
   * list with its chain lengths as the reader returns them, positive chain
   * periods, and the two permutations it draws with `random.sample`.
   */
  predicate OddInput(ts: seq<int>, lengths: seq<int>, timers: seq<int>, subs: seq<int>)
  {
    && WellFormed(TaskSet(ts, lengths))
    && AllPositive(Periods(Chains(ts, lengths)))
    && |timers| == |lengths| && |subs| == Sum(lengths) - |lengths|
    && PermutationOfRange(timers, 1, |timers| + 1)
    && PermutationOfRange(subs, |timers| + 1, Sum(lengths) + 1)
  }

  /** `periods_extended` of a variable-length task set: the period of its chain for every task. */
  function TaskPeriods(ts: seq<int>, lengths: seq<int>): (r: seq<int>)
    requires WellFormed(TaskSet(ts, lengths))
    ensures |r| == Sum(lengths)
    ensures AllPositive(Periods(Chains(ts, lengths))) ==> AllPositive(r)
  {
    ExtendedPositive(Periods(Chains(ts, lengths)), lengths);
    Extended(Periods(Chains(ts, lengths)), lengths)
  }

  /** The tasks of a variable-length task set before sorting: one per callback, chain after chain. */
  function OddTasks(ts: seq<int>, lengths: seq<int>, timers: seq<int>, subs: seq<int>): seq<Task>
    requires WellFormed(TaskSet(ts, lengths)) && |timers| == |lengths| && |subs| == Sum(lengths) - |lengths|
  {
    CountMarks(lengths);
    ChainTasks(Marks(lengths), timers, subs, Execs(Chains(ts, lengths)), TaskPeriods(ts, lengths))
  }

  /** The hyperperiod of a task set: the LCM of its chain periods. */
  function OddHyperperiod(ts: seq<int>, lengths: seq<int>): (h: nat)
    requires WellFormed(TaskSet(ts, lengths)) && AllPositive(Periods(Chains(ts, lengths)))
  {
    Numeric.LcmOf(Periods(Chains(ts, lengths)))
  }

  /** The inputs of the variable-length generator form a layout. */
  lemma OddLayout(ts: seq<int>, lengths: seq<int>, timers: seq<int>, subs: seq<int>)
    requires OddInput(ts, lengths, timers, subs)
    ensures Layout(Marks(lengths), timers, subs, Execs(Chains(ts, lengths)), TaskPeriods(ts, lengths))
  {
    OddSizes(ts, lengths);
    LayoutOfSize(Marks(lengths), timers, subs, Execs(Chains(ts, lengths)), TaskPeriods(ts, lengths), Sum(lengths));
  }

  /** One head mark, one execution time and one period per task, and one head per chain. */
  lemma OddSizes(ts: seq<int>, lengths: seq<int>)
    requires WellFormed(TaskSet(ts, lengths))
    ensures |Marks(lengths)| == Sum(lengths) && CountTrue(Marks(lengths)) == |lengths|
    ensures |Execs(Chains(ts, lengths))| == Sum(lengths) && |TaskPeriods(ts, lengths)| == Sum(lengths)
  {
    CountMarks(lengths);
    ExecsLength(Chains(ts, lengths));
    FlattenChains(ts, lengths);
  }

  /** Layout, with the number of tasks named. */
  lemma LayoutOfSize(heads: seq<bool>, timers: seq<int>, subs: seq<int>, wcets: seq<int>, periods: seq<int>, n: nat)
    requires |heads| == n && CountTrue(heads) == |timers| && |subs| == n - |timers|
    requires PermutationOfRange(timers, 1, |timers| + 1)
    requires PermutationOfRange(subs, |timers| + 1, n + 1)
    requires |wcets| == n && |periods| == n && AllPositive(periods)
    ensures Layout(heads, timers, subs, wcets, periods)
  {
  }

  /**
   * `generate_csv_n_task_sets_odd_chains` for one task set: the period
   * walk, the hyperperiod, the extended periods, the execution-time walk,
   * the priority and predecessor walks, the zip, the sort and the emission
   * with Cost min `wcet // 2` and deadline release + period.
   */
  method ExpandOddChains(ts: seq<int>, lengths: seq<int>, timers: seq<int>, subs: seq<int>)
    returns (jobs: seq<JobRow>, edges: seq<EdgeRow>)
    requires OddInput(ts, lengths, timers, subs)
    ensures PositivePeriods(Sort(OddTasks(ts, lengths, timers, subs)))
    ensures PredsInRange(Sort(OddTasks(ts, lengths, timers, subs)), |lengths|)
    ensures jobs == Jobs(Sort(OddTasks(ts, lengths, timers, subs)), OddHyperperiod(ts, lengths),
                         OddChainsVariant.cost, OddChainsVariant.deadline)
    ensures edges == Edges(Sort(OddTasks(ts, lengths, timers, subs)), |lengths|, OddHyperperiod(ts, lengths))
  {
    var periods := OddPeriods(ts, lengths);
    var hyperperiod := Numeric.Hyperperiod(periods);
    var periodsExtended := Extended(periods, lengths);
    var wcets := OddWcets(ts, lengths);
    var priority := OddPriorities(lengths, timers, subs);
    var pred := OddPreds(lengths, priority);
    var tasks := Zip(priority, wcets, pred, periodsExtended);
    var tasksByPriority := Sort(tasks);
    OddLayout(ts, lengths, timers, subs);
    LayoutSortedBounds(Marks(lengths), timers, subs, wcets, periodsExtended);
    jobs, edges := EmitRows(tasksByPriority, |lengths|, hyperperiod, OddChainsVariant.cost, OddChainsVariant.deadline);
  }

  /** A variable-length task set has one task per callback, and their priorities are 1..nrof_tasks in some order. */
  lemma OddTasksOneToN(ts: seq<int>, lengths: seq<int>, timers: seq<int>, subs: seq<int>)
    requires OddInput(ts, lengths, timers, subs)
    ensures |OddTasks(ts, lengths, timers, subs)| == Sum(lengths)
    ensures PrioritiesOneToN(OddTasks(ts, lengths, timers, subs))
  {
    OddLayout(ts, lengths, timers, subs);
    LayoutTasks(Marks(lengths), timers, subs, Execs(Chains(ts, lengths)), TaskPeriods(ts, lengths));
    LayoutOneToN(Marks(lengths), timers, subs, Execs(Chains(ts, lengths)), TaskPeriods(ts, lengths));
  }

  /** Task `q` of a variable-length task set carries the `q`-th execution time and the period of its chain. */
  lemma OddTaskValues(ts: seq<int>, lengths: seq<int>, timers: seq<int>, subs: seq<int>, q: nat)
    requires WellFormed(TaskSet(ts, lengths)) && |timers| == |lengths| && |subs| == Sum(lengths) - |lengths|
    requires q < Sum(lengths)
    ensures |OddTasks(ts, lengths, timers, subs)| == Sum(lengths)
    ensures OddTasks(ts, lengths, timers, subs)[q].wcet == Execs(Chains(ts, lengths))[q]
    ensures OddTasks(ts, lengths, timers, subs)[q].period == TaskPeriods(ts, lengths)[q]
  {
    OddSizes(ts, lengths);
  }

  /**
   * The priority of task `q` is a timer priority exactly when it heads its
   * chain; a head has no predecessor, and any other task names the
   * priority of the task before it.
   */
  lemma OddTaskRoles(ts: seq<int>, lengths: seq<int>, timers: seq<int>, subs: seq<int>, tasks: seq<Task>, q: nat)
    requires OddInput(ts, lengths, timers, subs) && tasks == OddTasks(ts, lengths, timers, subs)
    requires q < Sum(lengths)
    ensures |tasks| == Sum(lengths)
    ensures 1 <= tasks[q].priority <= Sum(lengths)
    ensures tasks[q].priority <= |lengths| <==> Marks(lengths)[q]
    ensures Marks(lengths)[q] ==> tasks[q].pred == 0
    ensures 0 < q && !Marks(lengths)[q] ==> tasks[q].pred == tasks[q - 1].priority
  {
    OddTaskPriority(ts, lengths, timers, subs, tasks, q);
    OddTaskPred(ts, lengths, timers, subs, tasks, q);
  }

  lemma OddTaskPriority(ts: seq<int>, lengths: seq<int>, timers: seq<int>, subs: seq<int>, tasks: seq<Task>, q: nat)
    requires OddInput(ts, lengths, timers, subs) && tasks == OddTasks(ts, lengths, timers, subs)
    requires q < Sum(lengths)
    ensures |tasks| == Sum(lengths) == |Marks(lengths)|
    ensures 1 <= tasks[q].priority <= Sum(lengths)
    ensures tasks[q].priority <= |lengths| <==> Marks(lengths)[q]
  {
    OddLayout(ts, lengths, timers, subs);
    ChainTaskFacts(Marks(lengths), timers, subs, Execs(Chains(ts, lengths)), TaskPeriods(ts, lengths),
                   tasks, Assign(Marks(lengths), timers, subs));
  }

  lemma OddTaskPred(ts: seq<int>, lengths: seq<int>, timers: seq<int>, subs: seq<int>, tasks: seq<Task>, q: nat)
    requires OddInput(ts, lengths, timers, subs) && tasks == OddTasks(ts, lengths, timers, subs)
    requires q < Sum(lengths)
    ensures |tasks| == Sum(lengths) == |Marks(lengths)|
    ensures Marks(lengths)[q] ==> tasks[q].pred == 0
    ensures 0 < q && !Marks(lengths)[q] ==> tasks[q].pred == tasks[q - 1].priority
  {
    OddLayout(ts, lengths, timers, subs);
    ChainTaskFacts(Marks(lengths), timers, subs, Execs(Chains(ts, lengths)), TaskPeriods(ts, lengths),
                   tasks, Assign(Marks(lengths), timers, subs));
  }

  /**
   * The `k`-th job of every task that does not head its chain is linked by
   * a precedence row to the `k`-th job of the task before it in the chain.
   */
  lemma OddChainLinks(ts: seq<int>, lengths: seq<int>, timers: seq<int>, subs: seq<int>, v: Variant, q: nat, k: nat)
    requires OddInput(ts, lengths, timers, subs)
    requires 0 < q < Sum(lengths) && !Marks(lengths)[q]
    requires k < OddHyperperiod(ts, lengths) / TaskPeriods(ts, lengths)[q]
    ensures PositivePeriods(Sort(OddTasks(ts, lengths, timers, subs)))
    ensures PredsInRange(Sort(OddTasks(ts, lengths, timers, subs)), |lengths|)
    ensures q < |OddTasks(ts, lengths, timers, subs)|
    ensures Linked(Jobs(Sort(OddTasks(ts, lengths, timers, subs)), OddHyperperiod(ts, lengths), v.cost, v.deadline),
                   Edges(Sort(OddTasks(ts, lengths, timers, subs)), |lengths|, OddHyperperiod(ts, lengths)),
                   OddTasks(ts, lengths, timers, subs)[q - 1], OddTasks(ts, lengths, timers, subs)[q], k, v.cost, v.deadline)
  {
    var heads, wcets, periods := Marks(lengths), Execs(Chains(ts, lengths)), TaskPeriods(ts, lengths);
    OddLayout(ts, lengths, timers, subs);
    ExtendedSameInChain(Periods(Chains(ts, lengths)), lengths, q);
    ChainLinks(heads, timers, subs, wcets, periods, OddTasks(ts, lengths, timers, subs), OddHyperperiod(ts, lengths), v, q, k);
  }

  // ----- The fixed-length generators -----

  /**
   * What a fixed-length generator is given for one task set: a flat list
   * of `nrofChains` chains of `b` callbacks, positive periods, and the two
   * permutations.
   */
  predicate FixedInput(flat: seq<int>, nrofChains: nat, b: int, timers: seq<int>, subs: seq<int>)
  {
    && b >= 1 && nrofChains >= 1 && |flat| == nrofChains * (b + 1)
    && AllPositive(FixedPeriods(flat, b))
    && |timers| == nrofChains && |subs| == nrofChains * b - nrofChains
    && PermutationOfRange(timers, 1, |timers| + 1)
    && PermutationOfRange(subs, |timers| + 1, nrofChains * b + 1)
  }

  /** The tasks of a fixed-length task set before sorting, as the fixed-length generators build them. */
  function FixedTasks(flat: seq<int>, nrofChains: nat, b: int, timers: seq<int>, subs: seq<int>): seq<Task>
    requires b >= 1 && |flat| == nrofChains * (b + 1)
    requires |timers| == nrofChains && |subs| == nrofChains * b - nrofChains
  {
    FixedHeadsAreMarks(nrofChains, b);
    CountMarks(Repeat(b, nrofChains));
    var periods := FixedPeriods(flat, b);
    ChainTasks(FixedHeads(nrofChains * b, b), timers, subs, FixedWcets(flat, b), Extended(periods, Repeat(b, |periods|)))
  }

  /** The hyperperiod of a fixed-length task set: the LCM of its chain periods. */
  function FixedHyperperiod(flat: seq<int>, b: int): nat
    requires b >= 1 && |FixedPeriods(flat, b)| > 0 && AllPositive(FixedPeriods(flat, b))
  {
    Numeric.LcmOf(FixedPeriods(flat, b))
  }

  /**
   * A fixed-length task set is the variable-length task set whose chains
   * all have `b` callbacks: the same tasks and the same hyperperiod.
   */
  lemma FixedIsOdd(flat: seq<int>, nrofChains: nat, b: int, timers: seq<int>, subs: seq<int>)
    requires b >= 1 && nrofChains >= 1 && |flat| == nrofChains * (b + 1) && AllPositive(FixedPeriods(flat, b))
    requires |timers| == nrofChains && |subs| == nrofChains * b - nrofChains
    ensures WellFormed(TaskSet(flat, Repeat(b, nrofChains))) && Sum(Repeat(b, nrofChains)) == nrofChains * b
    ensures AllPositive(Periods(Chains(flat, Repeat(b, nrofChains))))
    ensures FixedTasks(flat, nrofChains, b, timers, subs) == OddTasks(flat, Repeat(b, nrofChains), timers, subs)
    ensures FixedHyperperiod(flat, b) == OddHyperperiod(flat, Repeat(b, nrofChains))
  {
    FixedShape(flat, nrofChains, b);
    FixedHeadsAreMarks(nrofChains, b);
    FixedPeriodsAreChainPeriods(flat, nrofChains, b);
    FixedWcetsAreChainExecs(flat, nrofChains, b);
  }

  /** The inputs of a fixed-length generator are those of the variable-length generator with chains of `b` callbacks. */
  lemma FixedInputIsOddInput(flat: seq<int>, nrofChains: nat, b: int, timers: seq<int>, subs: seq<int>)
    requires FixedInput(flat, nrofChains, b, timers, subs)
    ensures OddInput(flat, Repeat(b, nrofChains), timers, subs)
  {
    FixedIsOdd(flat, nrofChains, b, timers, subs);
  }

  /** One head per chain, and one WCET and one positive period per task. */
  lemma FixedSizes(flat: seq<int>, nrofChains: nat, b: int)
    requires b >= 1 && |flat| == nrofChains * (b + 1) && AllPositive(FixedPeriods(flat, b))
    ensures CountTrue(FixedHeads(nrofChains * b, b)) == nrofChains
    ensures |FixedWcets(flat, b)| == nrofChains * b
    ensures |FixedPeriods(flat, b)| == nrofChains
    ensures var periods := FixedPeriods(flat, b);
      && |Extended(periods, Repeat(b, |periods|))| == nrofChains * b
      && AllPositive(Extended(periods, Repeat(b, |periods|)))
  {
    var periods := FixedPeriods(flat, b);
    FixedShape(flat, nrofChains, b);
    FixedHeadsAreMarks(nrofChains, b);
    CountMarks(Repeat(b, nrofChains));
    FixedPeriodsAreChainPeriods(flat, nrofChains, b);
    FixedWcetsAreChainExecs(flat, nrofChains, b);
    ExecsLength(Chains(flat, Repeat(b, nrofChains)));
    FlattenChains(flat, Repeat(b, nrofChains));
    ExtendedPositive(periods, Repeat(b, |periods|));
  }

  /** The inputs of a fixed-length generator form a layout. */
  lemma FixedLayout(flat: seq<int>, nrofChains: nat, b: int, timers: seq<int>, subs: seq<int>)
    requires FixedInput(flat, nrofChains, b, timers, subs)
    ensures Layout(FixedHeads(nrofChains * b, b), timers, subs, FixedWcets(flat, b),
                   Extended(FixedPeriods(flat, b), Repeat(b, |FixedPeriods(flat, b)|)))
  {
    var periods := FixedPeriods(flat, b);
    FixedSizes(flat, nrofChains, b);
    LayoutOfSize(FixedHeads(nrofChains * b, b), timers, subs, FixedWcets(flat, b),
                 Extended(periods, Repeat(b, |periods|)), nrofChains * b);
  }

  /** A fixed-length input has one period per chain, and its sorted tasks have positive periods and predecessors that name tasks. */
  lemma FixedSortedBounds(flat: seq<int>, nrofChains: nat, b: int, timers: seq<int>, subs: seq<int>)
    requires FixedInput(flat, nrofChains, b, timers, subs)
    ensures |FixedPeriods(flat, b)| == nrofChains
    ensures PositivePeriods(Sort(FixedTasks(flat, nrofChains, b, timers, subs)))
    ensures PredsInRange(Sort(FixedTasks(flat, nrofChains, b, timers, subs)), nrofChains)
  {
    var periods := FixedPeriods(flat, b);
    FixedSizes(flat, nrofChains, b);
    FixedLayout(flat, nrofChains, b, timers, subs);
    LayoutSortedBounds(FixedHeads(nrofChains * b, b), timers, subs, FixedWcets(flat, b), Extended(periods, Repeat(b, |periods|)));
  }

  /**
   * `generate_csv_n_task_sets` for one task set: the strided periods, the
   * hyperperiod, the extended periods, the WCETs, the `i % b` priority and
   * predecessor loops, the zip, the sort and the emission with the
   * variant's Cost min and deadline columns.
   */
  method ExpandFixedChains(flat: seq<int>, nrofChains: nat, b: int, timers: seq<int>, subs: seq<int>, v: Variant)
    returns (jobs: seq<JobRow>, edges: seq<EdgeRow>)
    requires b >= 1 && FixedInput(flat, nrofChains, b, timers, subs)
    ensures |FixedPeriods(flat, b)| == nrofChains
    ensures PositivePeriods(Sort(FixedTasks(flat, nrofChains, b, timers, subs)))
    ensures PredsInRange(Sort(FixedTasks(flat, nrofChains, b, timers, subs)), nrofChains)
    ensures jobs == Jobs(Sort(FixedTasks(flat, nrofChains, b, timers, subs)), FixedHyperperiod(flat, b), v.cost, v.deadline)
    ensures edges == Edges(Sort(FixedTasks(flat, nrofChains, b, timers, subs)), nrofChains, FixedHyperperiod(flat, b))
  {
    var nrofTasks := nrofChains * b;
    var periods := FixedPeriods(flat, b);
    var hyperperiod := Numeric.Hyperperiod(periods);
    var periodsExtended := Extended(periods, Repeat(b, |periods|));
    var wcets := FixedWcets(flat, b);
    var priority := FixedPriorities(nrofChains, b, timers, subs);
    var pred := FixedPreds(nrofTasks, b, priority);
    var tasks := Zip(priority, wcets, pred, periodsExtended);
    var tasksByPriority := Sort(tasks);
    FixedSizes(flat, nrofChains, b);
    FixedLayout(flat, nrofChains, b, timers, subs);
    LayoutSortedBounds(FixedHeads(nrofTasks, b), timers, subs, wcets, periodsExtended);
    jobs, edges := EmitRows(tasksByPriority, nrofChains, hyperperiod, v.cost, v.deadline);
  }

  // ----- The case-study generator -----

  /** The tasks of the case study: the written priority and predecessor lists zipped with the file's values. */
  function CaseStudyTasks(ts: seq<int>, lengths: seq<int>): seq<Task>
    requires WellFormed(TaskSet(ts, lengths))
  {
    var cs := Chains(ts, lengths);
    Zip(CaseStudyPriority, Execs(cs), CaseStudyPred, Extended(Periods(cs), lengths))
  }

  /**
   * With the chain lengths 2, 4, 3 and 4 of the case study, the written
   * lists give the tasks the priority walk gives with timer priorities 1..4
   * and subscription priorities 5..13.
   */
  lemma CaseStudyIsOdd(ts: seq<int>)
    requires WellFormed(TaskSet(ts, CaseStudyLengths)) && AllPositive(Periods(Chains(ts, CaseStudyLengths)))
    ensures OddInput(ts, CaseStudyLengths, Range(1, 5), Range(5, 14))
    ensures CaseStudyTasks(ts, CaseStudyLengths) == OddTasks(ts, CaseStudyLengths, Range(1, 5), Range(5, 14))
  {
    CaseStudyLists();
    RangeIsPermutation(1, 5);
    RangeIsPermutation(5, 14);
    OddInputOfSize(ts, CaseStudyLengths, Range(1, 5), Range(5, 14), 13);
    CaseStudyTasksAreOdd(ts);
  }

  lemma OddInputOfSize(ts: seq<int>, lengths: seq<int>, timers: seq<int>, subs: seq<int>, n: int)
    requires WellFormed(TaskSet(ts, lengths)) && AllPositive(Periods(Chains(ts, lengths)))
    requires Sum(lengths) == n && |timers| == |lengths| && |subs| == n - |lengths|
    requires PermutationOfRange(timers, 1, |timers| + 1) && PermutationOfRange(subs, |timers| + 1, n + 1)
    ensures OddInput(ts, lengths, timers, subs)
  {
  }

  lemma CaseStudyTasksAreOdd(ts: seq<int>)
    requires WellFormed(TaskSet(ts, CaseStudyLengths))
    ensures |Range(1, 5)| == |CaseStudyLengths| && |Range(5, 14)| == Sum(CaseStudyLengths) - |CaseStudyLengths|
    ensures CaseStudyTasks(ts, CaseStudyLengths) == OddTasks(ts, CaseStudyLengths, Range(1, 5), Range(5, 14))
  {
    CaseStudyLists();
  }

  /**
   * `generate_csv_n_task_sets_odd_chains` of the case-study script for one
   * task set of 13 tasks in 4 chains: the period and execution-time walks,
   * the written priority and predecessor lists, and the emission with Cost
   * min equal to the WCET and deadline release + period.
   */
  method ExpandCaseStudy(ts: seq<int>, lengths: seq<int>) returns (jobs: seq<JobRow>, edges: seq<EdgeRow>)
    requires WellFormed(TaskSet(ts, lengths)) && AllPositive(Periods(Chains(ts, lengths)))
    requires |lengths| == 4 && Sum(lengths) == 13
    ensures PositivePeriods(Sort(CaseStudyTasks(ts, lengths)))
    ensures PredsInRange(Sort(CaseStudyTasks(ts, lengths)), |lengths|)
    ensures jobs == Jobs(Sort(CaseStudyTasks(ts, lengths)), OddHyperperiod(ts, lengths),
                         CaseStudyVariant.cost, CaseStudyVariant.deadline)
    ensures edges == Edges(Sort(CaseStudyTasks(ts, lengths)), |lengths|, OddHyperperiod(ts, lengths))
  {
    var periods := OddPeriods(ts, lengths);
    var hyperperiod := Numeric.Hyperperiod(periods);
    var periodsExtended := Extended(periods, lengths);
    var wcets := OddWcets(ts, lengths);
    var priority := CaseStudyPriority;
    var pred := CaseStudyPred;
    var tasks := Zip(priority, wcets, pred, periodsExtended);
    var tasksByPriority := Sort(tasks);
    CaseStudyBounds(ts, lengths);
    jobs, edges := EmitRows(tasksByPriority, |lengths|, hyperperiod, CaseStudyVariant.cost, CaseStudyVariant.deadline);
  }

  lemma CaseStudyBounds(ts: seq<int>, lengths: seq<int>)
    requires WellFormed(TaskSet(ts, lengths)) && AllPositive(Periods(Chains(ts, lengths)))
    requires |lengths| == 4 && Sum(lengths) == 13
    ensures PositivePeriods(Sort(CaseStudyTasks(ts, lengths)))
    ensures PredsInRange(Sort(CaseStudyTasks(ts, lengths)), |lengths|)
  {
    var cs := Chains(ts, lengths);
    ExecsLength(cs);
    FlattenChains(ts, lengths);
    ExtendedPositive(Periods(cs), lengths);
    CaseStudyPredBound();
    var tasks := Zip(CaseStudyPriority, Execs(cs), CaseStudyPred, Extended(Periods(cs), lengths));
    ZipTasks(CaseStudyPriority, Execs(cs), CaseStudyPred, Extended(Periods(cs), lengths));
    SortKeepsBounds(tasks, |lengths|);
    assert tasks == CaseStudyTasks(ts, lengths);
  }

  lemma CaseStudyPredBound()
    ensures |CaseStudyPriority| == 13 && |CaseStudyPred| == 13
    ensures forall i :: 0 <= i < |CaseStudyPred| ==> CaseStudyPred[i] <= 13
  {
  }
}

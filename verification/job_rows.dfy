/**
 * The rows the job generators hand to the schedule-abstraction solver.
 *
 * The generators zip the per-task lists (priority, WCET, predecessor
 * priority, period) into task tuples, sort them by priority, and emit, task
 * by task in that order, one job row per period instance within the
 * hyperperiod and, for every task past the first `nrof_chains` sorted ones,
 * one precedence row per job. Job IDs run from 1 in emission order and the
 * Priority column repeats the Job ID. A precedence row links a job to the
 * job of the predecessor task found by counting the jobs of every task whose
 * priority is smaller than the predecessor's.
 *
 * The four copies of the generator differ only in the deadline column and
 * in the minimal cost column; both are parameters here.
 */
module JobRows {
  import opened Seqs

  /** One task tuple `(priority, wcet, pred, period)`. */
  datatype Task = Task(priority: int, wcet: int, pred: int, period: int)

  /** A row of the jobs file: Task ID, Job ID, Arrival min/max, Cost min/max, Deadline, Priority. */
  datatype JobRow = JobRow(
    taskId: int, jobId: int, arrivalMin: int, arrivalMax: int,
    costMin: int, costMax: int, deadline: int, priority: int)

  /** A row of the precedence file: PredTaskID, PredJobID, SuccTaskID, SuccJobID. */
  datatype EdgeRow = EdgeRow(predTask: int, predJob: int, succTask: int, succJob: int)

  /** The deadline column: release plus period, or one constant for every job. */
  datatype DeadlineRule = ReleasePlusPeriod | Constant(value: int)

  /** The Cost min column: the WCET itself, or `wcet // 2`. */
  datatype CostRule = FullWcet | HalfWcet

  /** `int(1e12)`, the "infinite" deadline of the constant-deadline copies. */
  const Infinity: int := 1_000_000_000_000

  // ----- Task tuples -----

  /** `list(zip(priority, wcets, pred, periods_extended))`: stops at the shortest list. */
  function Zip(priority: seq<int>, wcets: seq<int>, pred: seq<int>, periods: seq<int>): (r: seq<Task>)
    ensures |r| <= |priority| && |r| <= |wcets| && |r| <= |pred| && |r| <= |periods|
    ensures |r| == |priority| || |r| == |wcets| || |r| == |pred| || |r| == |periods|
    ensures forall i :: 0 <= i < |r| ==> r[i] == Task(priority[i], wcets[i], pred[i], periods[i])
  {
    var n := Min(Min(|priority|, |wcets|), Min(|pred|, |periods|));
    seq(n, i requires 0 <= i < n => Task(priority[i], wcets[i], pred[i], periods[i]))
  }

  function Min(a: int, b: int): int
  {
    if a <= b then a else b
  }

  /** The priorities of a list of tasks. */
  function Keys(tasks: seq<Task>): (r: seq<int>)
    ensures |r| == |tasks| && forall i :: 0 <= i < |tasks| ==> r[i] == tasks[i].priority
  {
    seq(|tasks|, i requires 0 <= i < |tasks| => tasks[i].priority)
  }

  predicate SortedByPriority(tasks: seq<Task>)
  {
    forall i, j :: 0 <= i < j < |tasks| ==> tasks[i].priority <= tasks[j].priority
  }

  // ----- Sorting by priority -----

  /** Insert `x` after every task of `sorted` whose priority is not larger (keeps equal keys in order). */
  function Insert(sorted: seq<Task>, x: Task): (r: seq<Task>)
    ensures |r| == |sorted| + 1
    ensures multiset(r) == multiset(sorted) + multiset{x}
  {
    if sorted == [] || sorted[|sorted| - 1].priority <= x.priority then sorted + [x]
    else
      var n := |sorted| - 1;
      assert sorted == sorted[..n] + [sorted[n]];
      Insert(sorted[..n], x) + [sorted[n]]
  }

  /** `sorted(tasks, key=lambda t: t[0])`: a stable sort by priority (insertion of each task in turn). */
  function Sort(tasks: seq<Task>): (r: seq<Task>)
    ensures |r| == |tasks|
    ensures multiset(r) == multiset(tasks)
  {
    if tasks == [] then []
    else
      var n := |tasks| - 1;
      assert tasks == tasks[..n] + [tasks[n]];
      Insert(Sort(tasks[..n]), tasks[n])
  }

  lemma KeysAppend(a: seq<Task>, b: seq<Task>)
    ensures Keys(a + b) == Keys(a) + Keys(b)
  {
  }

  /** Every task of `Insert(sorted, x)` is a task of `sorted` or `x`. */
  lemma InsertBelow(sorted: seq<Task>, x: Task, bound: int)
    requires forall i :: 0 <= i < |sorted| ==> sorted[i].priority <= bound
    requires x.priority <= bound
    ensures forall i :: 0 <= i < |sorted| + 1 ==> Insert(sorted, x)[i].priority <= bound
  {
    var r := Insert(sorted, x);
    forall i | 0 <= i < |r| ensures r[i].priority <= bound {
      assert r[i] in multiset(r);
      if r[i] != x {
        assert r[i] in multiset(sorted);
        var m :| 0 <= m < |sorted| && sorted[m] == r[i];
      }
    }
  }

  lemma {:induction false} InsertSorted(sorted: seq<Task>, x: Task)
    requires SortedByPriority(sorted)
    ensures SortedByPriority(Insert(sorted, x))
    decreases |sorted|
  {
    var r := Insert(sorted, x);
    if sorted == [] || sorted[|sorted| - 1].priority <= x.priority {
      assert r == sorted + [x];
      forall i, j | 0 <= i < j < |r|
        ensures r[i].priority <= r[j].priority
      {
        if j < |sorted| {
          assert r[i] == sorted[i] && r[j] == sorted[j];
        } else if i < |sorted| - 1 {
          assert r[i] == sorted[i] && sorted[i].priority <= sorted[|sorted| - 1].priority;
        }
      }
    } else {
      var n := |sorted| - 1;
      var init := sorted[..n];
      assert SortedByPriority(init) by {
        forall i, j | 0 <= i < j < |init|
          ensures init[i].priority <= init[j].priority
        {
          assert init[i] == sorted[i] && init[j] == sorted[j];
        }
      }
      forall i | 0 <= i < |init|
        ensures init[i].priority <= sorted[n].priority
      {
        assert init[i] == sorted[i];
      }
      InsertSorted(init, x);
      InsertBelow(init, x, sorted[n].priority);
      var m := Insert(init, x);
      assert r == m + [sorted[n]];
      forall i, j | 0 <= i < j < |r|
        ensures r[i].priority <= r[j].priority
      {
        assert r[i] == m[i];
        if j < |m| {
          assert r[j] == m[j];
        }
      }
    }
  }

  lemma {:induction false} InsertKeys(sorted: seq<Task>, x: Task)
    ensures multiset(Keys(Insert(sorted, x))) == multiset(Keys(sorted)) + multiset{x.priority}
    decreases |sorted|
  {
    if sorted == [] || sorted[|sorted| - 1].priority <= x.priority {
      assert Insert(sorted, x) == sorted + [x];
      KeysAppend(sorted, [x]);
      assert Keys([x]) == [x.priority];
    } else {
      var n := |sorted| - 1;
      var init, y := sorted[..n], sorted[n];
      assert sorted == init + [y];
      assert Insert(sorted, x) == Insert(init, x) + [y];
      InsertKeys(init, x);
      KeysAppend(Insert(init, x), [y]);
      KeysAppend(init, [y]);
      assert Keys([y]) == [y.priority];
      assert multiset(Keys(sorted)) == multiset(Keys(init)) + multiset{y.priority};
    }
  }

  /** The sort orders the tasks by priority and keeps the multiset of priorities. */
  lemma {:induction false} SortSorted(tasks: seq<Task>)
    ensures SortedByPriority(Sort(tasks))
    ensures multiset(Keys(Sort(tasks))) == multiset(Keys(tasks))
  {
    SortOrders(tasks);
    SortKeepsKeys(tasks);
  }

  lemma {:induction false} SortOrders(tasks: seq<Task>)
    ensures SortedByPriority(Sort(tasks))
  {
    if tasks != [] {
      var n := |tasks| - 1;
      SortOrders(tasks[..n]);
      InsertSorted(Sort(tasks[..n]), tasks[n]);
    }
  }

  lemma {:induction false} SortKeepsKeys(tasks: seq<Task>)
    ensures multiset(Keys(Sort(tasks))) == multiset(Keys(tasks))
  {
    if tasks != [] {
      var n := |tasks| - 1;
      var init, x := tasks[..n], tasks[n];
      assert tasks == init + [x];
      assert Sort(tasks) == Insert(Sort(init), x);
      SortKeepsKeys(init);
      InsertKeys(Sort(init), x);
      KeysAppend(init, [x]);
      assert Keys([x]) == [x.priority];
      assert multiset(Keys(tasks)) == multiset(Keys(init)) + multiset{x.priority};
    }
  }

  /** The priorities are 1..n in some order: each lies in 1..n and no two are equal. */
  predicate PrioritiesOneToN(tasks: seq<Task>)
  {
    && (forall i :: 0 <= i < |tasks| ==> 1 <= tasks[i].priority <= |tasks|)
    && (forall i, j :: 0 <= i < j < |tasks| ==> tasks[i].priority != tasks[j].priority)
  }

  /** Priorities drawn as a permutation of 1..n are 1..n in some order. */
  lemma PermutationOneToN(tasks: seq<Task>)
    requires multiset(Keys(tasks)) == multiset(Range(1, |tasks| + 1))
    ensures PrioritiesOneToN(tasks)
  {
    PermutationOfRangeIsDistinct(Keys(tasks), 1, |tasks| + 1);
    forall i, j | 0 <= i < j < |tasks| ensures tasks[i].priority != tasks[j].priority {
      assert Keys(tasks)[i] != Keys(tasks)[j];
    }
  }

  /** A non-decreasing list of distinct values in 1..n is the list 1, 2, .., n. */
  lemma SortedRangeIsIdentity(s: seq<int>)
    requires forall i, j :: 0 <= i < j < |s| ==> s[i] <= s[j]
    requires Distinct(s) && forall i :: 0 <= i < |s| ==> 1 <= s[i] <= |s|
    ensures forall i :: 0 <= i < |s| ==> s[i] == i + 1
  {
    forall i | 0 <= i < |s| ensures s[i] == i + 1 {
      StrictlyAbove(s, i);
      StrictlyBelow(s, i);
    }
  }

  lemma {:induction false} StrictlyAbove(s: seq<int>, i: nat)
    requires i < |s| && Distinct(s)
    requires forall a, b :: 0 <= a < b < |s| ==> s[a] <= s[b]
    ensures s[i] >= s[0] + i
  {
    if i > 0 {
      StrictlyAbove(s, i - 1);
    }
  }

  lemma {:induction false} StrictlyBelow(s: seq<int>, i: nat)
    requires i < |s| && Distinct(s)
    requires forall a, b :: 0 <= a < b < |s| ==> s[a] <= s[b]
    ensures s[|s| - 1] >= s[i] + (|s| - 1 - i)
    decreases |s| - i
  {
    if i < |s| - 1 {
      StrictlyBelow(s, i + 1);
    }
  }

  /**
   * When the priorities are a permutation of 1..n, the sorted list holds the
   * task of priority j + 1 at index j, and it is the input task of that priority.
   */
  lemma ByPriority(tasks: seq<Task>)
    requires multiset(Keys(tasks)) == multiset(Range(1, |tasks| + 1))
    ensures forall j :: 0 <= j < |tasks| ==> Sort(tasks)[j].priority == j + 1
    ensures forall i :: 0 <= i < |tasks| ==> 1 <= tasks[i].priority <= |tasks|
    ensures forall i :: 0 <= i < |tasks| ==> Sort(tasks)[tasks[i].priority - 1] == tasks[i]
  {
    PermutationOneToN(tasks);
    SortedAt(tasks);
    forall i | 0 <= i < |tasks|
      ensures 1 <= tasks[i].priority <= |tasks| && Sort(tasks)[tasks[i].priority - 1] == tasks[i]
    {
      SortHolds(tasks, i);
    }
  }

  lemma SortedAt(tasks: seq<Task>)
    requires PrioritiesOneToN(tasks)
    ensures forall j :: 0 <= j < |tasks| ==> Sort(tasks)[j].priority == j + 1
  {
    SortSorted(tasks);
    var keys := Keys(tasks);
    var s := Keys(Sort(tasks));
    assert Distinct(keys);
    SameElementsDistinct(s, keys);
    forall j | 0 <= j < |s| ensures 1 <= s[j] <= |s| {
      assert s[j] in multiset(keys);
      var m :| 0 <= m < |keys| && keys[m] == s[j];
    }
    SortedRangeIsIdentity(s);
  }

  lemma SortHolds(tasks: seq<Task>, i: nat)
    requires PrioritiesOneToN(tasks) && i < |tasks|
    ensures 1 <= tasks[i].priority <= |tasks| && Sort(tasks)[tasks[i].priority - 1] == tasks[i]
  {
    SortedAt(tasks);
    var r := Sort(tasks);
    var y := r[tasks[i].priority - 1];
    assert y in multiset(r);
    assert y in multiset(tasks);
    var m :| 0 <= m < |tasks| && tasks[m] == y;
    assert m == i;
  }

  // ----- Job and precedence rows -----

  predicate PositivePeriods(tasks: seq<Task>)
  {
    forall i :: 0 <= i < |tasks| ==> tasks[i].period > 0
  }

  /** Every predecessor priority reachable by the counting loop `for j in range(0, pred - 1)`. */
  predicate PredsInRange(tasks: seq<Task>, nrofChains: nat)
  {
    forall i :: nrofChains <= i < |tasks| ==> tasks[i].pred <= |tasks| + 1
  }

  /** `hyperperiod // period` of every task: its number of jobs. */
  function Counts(tasks: seq<Task>, hyperperiod: nat): (r: seq<int>)
    requires PositivePeriods(tasks)
    ensures |r| == |tasks| && AllNonNegative(r)
    ensures forall i :: 0 <= i < |tasks| ==> r[i] == hyperperiod / tasks[i].period
  {
    QuotientsNonNegative(tasks, hyperperiod);
    seq(|tasks|, i requires 0 <= i < |tasks| => hyperperiod / tasks[i].period)
  }

  lemma QuotientsNonNegative(tasks: seq<Task>, hyperperiod: nat)
    requires PositivePeriods(tasks)
    ensures forall i :: 0 <= i < |tasks| ==> hyperperiod / tasks[i].period >= 0
  {
    forall i | 0 <= i < |tasks| ensures hyperperiod / tasks[i].period >= 0 {
      QuotientNonNegative(hyperperiod, tasks[i].period);
    }
  }

  lemma QuotientNonNegative(h: nat, p: int)
    requires p > 0
    ensures h / p >= 0
  {
  }

  /** The Job ID of the first job of the task at sorted index `i`. */
  function FirstId(tasks: seq<Task>, hyperperiod: nat, i: nat): int
    requires PositivePeriods(tasks) && i <= |tasks|
  {
    1 + Sum(Counts(tasks, hyperperiod)[..i])
  }

  /** The start value of `pred_job_idx`: 1 plus the jobs of the first `pred - 1` sorted tasks. */
  function PredStart(tasks: seq<Task>, hyperperiod: nat, pred: int): int
    requires PositivePeriods(tasks) && pred <= |tasks| + 1
  {
    if pred - 1 <= 0 then 1 else FirstId(tasks, hyperperiod, pred - 1)
  }

  function CostMin(rule: CostRule, wcet: int): int
  {
    match rule
    case FullWcet => wcet
    case HalfWcet => wcet / 2
  }

  function DeadlineOf(rule: DeadlineRule, release: int, period: int): int
  {
    match rule
    case ReleasePlusPeriod => release + period
    case Constant(v) => v
  }

  /** The row of the `k`-th job (from 0) of task `t`, numbered `id`. */
  function JobOf(t: Task, id: int, k: int, cost: CostRule, deadline: DeadlineRule): JobRow
  {
    var release := k * t.period;
    JobRow(t.priority, id, release, release, CostMin(cost, t.wcet), t.wcet,
           DeadlineOf(deadline, release, t.period), id)
  }

  /** The jobs of one task, numbered from `first`. */
  function TaskJobs(t: Task, first: int, hyperperiod: nat, cost: CostRule, deadline: DeadlineRule): (r: seq<JobRow>)
    requires t.period > 0
    ensures |r| == hyperperiod / t.period
  {
    seq(hyperperiod / t.period, k => JobOf(t, first + k, k, cost, deadline))
  }

  lemma TaskJobsAt(t: Task, first: int, hyperperiod: nat, cost: CostRule, deadline: DeadlineRule, k: nat)
    requires t.period > 0 && k < hyperperiod / t.period
    ensures TaskJobs(t, first, hyperperiod, cost, deadline)[k] == JobOf(t, first + k, k, cost, deadline)
  {
  }

  /** The precedence rows of one task whose jobs are numbered from `first`. */
  function TaskEdges(t: Task, predStart: int, first: int, hyperperiod: nat): (r: seq<EdgeRow>)
    requires t.period > 0
    ensures |r| == hyperperiod / t.period
  {
    seq(hyperperiod / t.period, k => EdgeRow(t.pred, predStart + k, t.priority, first + k))
  }

  lemma TaskEdgesAt(t: Task, predStart: int, first: int, hyperperiod: nat, k: nat)
    requires t.period > 0 && k < hyperperiod / t.period
    ensures TaskEdges(t, predStart, first, hyperperiod)[k] == EdgeRow(t.pred, predStart + k, t.priority, first + k)
  {
  }

  /** The job rows of each sorted task, as separate blocks. */
  function JobBlocks(tasks: seq<Task>, hyperperiod: nat, cost: CostRule, deadline: DeadlineRule): (r: seq<seq<JobRow>>)
    requires PositivePeriods(tasks)
    ensures |r| == |tasks|
  {
    seq(|tasks|, j requires 0 <= j < |tasks| => TaskJobs(tasks[j], FirstId(tasks, hyperperiod, j), hyperperiod, cost, deadline))
  }

  /** The precedence rows of each sorted task, as separate blocks: none for the first `nrofChains`. */
  function EdgeBlocks(tasks: seq<Task>, nrofChains: nat, hyperperiod: nat): (r: seq<seq<EdgeRow>>)
    requires PositivePeriods(tasks) && PredsInRange(tasks, nrofChains)
    ensures |r| == |tasks|
  {
    seq(|tasks|, j requires 0 <= j < |tasks| =>
      if j < nrofChains then []
      else TaskEdges(tasks[j], PredStart(tasks, hyperperiod, tasks[j].pred), FirstId(tasks, hyperperiod, j), hyperperiod))
  }

  /** The job rows of the first `i` sorted tasks, one block after another. */
  function JobsUpTo(tasks: seq<Task>, hyperperiod: nat, cost: CostRule, deadline: DeadlineRule, i: nat): (r: seq<JobRow>)
    requires PositivePeriods(tasks) && i <= |tasks|
    ensures |r| == Sum(Counts(tasks, hyperperiod)[..i])
  {
    JobsLength(tasks, hyperperiod, cost, deadline, i);
    Concat(JobBlocks(tasks, hyperperiod, cost, deadline)[..i])
  }

  lemma {:induction false} JobsLength(tasks: seq<Task>, hyperperiod: nat, cost: CostRule, deadline: DeadlineRule, i: nat)
    requires PositivePeriods(tasks) && i <= |tasks|
    ensures |Concat(JobBlocks(tasks, hyperperiod, cost, deadline)[..i])| == Sum(Counts(tasks, hyperperiod)[..i])
  {
    if i > 0 {
      var bs := JobBlocks(tasks, hyperperiod, cost, deadline);
      JobsLength(tasks, hyperperiod, cost, deadline, i - 1);
      assert bs[..i][..i - 1] == bs[..i - 1];
      SumPrefixStep(Counts(tasks, hyperperiod), i - 1);
    }
  }

  /** The precedence rows of the first `i` sorted tasks, one block after another. */
  function EdgesUpTo(tasks: seq<Task>, nrofChains: nat, hyperperiod: nat, i: nat): seq<EdgeRow>
    requires PositivePeriods(tasks) && PredsInRange(tasks, nrofChains) && i <= |tasks|
  {
    Concat(EdgeBlocks(tasks, nrofChains, hyperperiod)[..i])
  }

  function Jobs(tasks: seq<Task>, hyperperiod: nat, cost: CostRule, deadline: DeadlineRule): seq<JobRow>
    requires PositivePeriods(tasks)
  {
    JobsUpTo(tasks, hyperperiod, cost, deadline, |tasks|)
  }

  function Edges(tasks: seq<Task>, nrofChains: nat, hyperperiod: nat): seq<EdgeRow>
    requires PositivePeriods(tasks) && PredsInRange(tasks, nrofChains)
  {
    EdgesUpTo(tasks, nrofChains, hyperperiod, |tasks|)
  }

  /**
   * The emission loop over the sorted tasks: a running `job_id`, the
   * `pred_job_idx` counting loop for every task past the first
   * `nrofChains`, and one job row (and precedence row) per period instance.
   */
  method EmitRows(tasks: seq<Task>, nrofChains: nat, hyperperiod: nat, cost: CostRule, deadline: DeadlineRule)
    returns (jobs: seq<JobRow>, edges: seq<EdgeRow>)
    requires PositivePeriods(tasks) && PredsInRange(tasks, nrofChains)
    ensures jobs == Jobs(tasks, hyperperiod, cost, deadline)
    ensures edges == Edges(tasks, nrofChains, hyperperiod)
  {
    jobs, edges := [], [];
    var jobId := 1;
    var i := 0;
    while i < |tasks|
      invariant 0 <= i <= |tasks|
      invariant jobs == JobsUpTo(tasks, hyperperiod, cost, deadline, i)
      invariant edges == EdgesUpTo(tasks, nrofChains, hyperperiod, i)
      invariant jobId == FirstId(tasks, hyperperiod, i)
    {
      var t := tasks[i];
      var bcet := CostMin(cost, t.wcet);
      var nrofJobs := hyperperiod / t.period;
      var predJobIdx := -1;
      if i >= nrofChains {
        predJobIdx := CountPredJobs(tasks, hyperperiod, t.pred);
      }
      var taskJobs, taskEdges := EmitTaskRows(t, jobId, predJobIdx, nrofJobs, bcet, hyperperiod, cost, deadline);
      jobs := jobs + taskJobs;
      edges := edges + taskEdges;
      jobId := jobId + nrofJobs;
      RowsStep(tasks, nrofChains, hyperperiod, cost, deadline, i);
      i := i + 1;
    }
  }

  lemma RowsStep(tasks: seq<Task>, nrofChains: nat, hyperperiod: nat, cost: CostRule, deadline: DeadlineRule, i: nat)
    requires PositivePeriods(tasks) && PredsInRange(tasks, nrofChains) && i < |tasks|
    ensures FirstId(tasks, hyperperiod, i + 1) == FirstId(tasks, hyperperiod, i) + hyperperiod / tasks[i].period
    ensures JobsUpTo(tasks, hyperperiod, cost, deadline, i + 1)
      == JobsUpTo(tasks, hyperperiod, cost, deadline, i)
         + TaskJobs(tasks[i], FirstId(tasks, hyperperiod, i), hyperperiod, cost, deadline)
    ensures EdgesUpTo(tasks, nrofChains, hyperperiod, i + 1)
      == EdgesUpTo(tasks, nrofChains, hyperperiod, i)
         + if i < nrofChains then []
           else TaskEdges(tasks[i], PredStart(tasks, hyperperiod, tasks[i].pred), FirstId(tasks, hyperperiod, i), hyperperiod)
  {
    SumPrefixStep(Counts(tasks, hyperperiod), i);
    var js := JobBlocks(tasks, hyperperiod, cost, deadline);
    var es := EdgeBlocks(tasks, nrofChains, hyperperiod);
    assert js[..i + 1][..i] == js[..i];
    assert es[..i + 1][..i] == es[..i];
  }

  /**
   * The rows of one task: `nrofJobs` job rows numbered from `first`, and a
   * precedence row per job when `predJobIdx` is positive.
   */
  method EmitTaskRows(t: Task, first: int, predJobIdx: int, nrofJobs: int, bcet: int,
                      hyperperiod: nat, cost: CostRule, deadline: DeadlineRule)
    returns (jobs: seq<JobRow>, edges: seq<EdgeRow>)
    requires t.period > 0 && nrofJobs == hyperperiod / t.period && bcet == CostMin(cost, t.wcet)
    ensures jobs == TaskJobs(t, first, hyperperiod, cost, deadline)
    ensures edges == if predJobIdx > 0 then TaskEdges(t, predJobIdx, first, hyperperiod) else []
  {
    jobs, edges := [], [];
    var jobId := first;
    var predIdx := predJobIdx;
    var k := 0;
    while k < nrofJobs
      invariant 0 <= k <= nrofJobs
      invariant jobId == first + k
      invariant jobs == TaskJobs(t, first, hyperperiod, cost, deadline)[..k]
      invariant predJobIdx > 0 ==> predIdx == predJobIdx + k
      invariant predJobIdx > 0 ==> edges == TaskEdges(t, predJobIdx, first, hyperperiod)[..k]
      invariant predJobIdx <= 0 ==> predIdx == predJobIdx && edges == []
    {
      var release := k * t.period;
      TaskRowsSnoc(t, first, predJobIdx, hyperperiod, cost, deadline, k);
      jobs := jobs + [JobRow(t.priority, jobId, release, release, bcet, t.wcet, DeadlineOf(deadline, release, t.period), jobId)];
      if predIdx > 0 {
        edges := edges + [EdgeRow(t.pred, predIdx, t.priority, jobId)];
        predIdx := predIdx + 1;
      }
      jobId := jobId + 1;
      k := k + 1;
    }
  }

  lemma TaskRowsSnoc(t: Task, first: int, predStart: int, hyperperiod: nat, cost: CostRule, deadline: DeadlineRule, k: nat)
    requires t.period > 0 && k < hyperperiod / t.period
    ensures TaskJobs(t, first, hyperperiod, cost, deadline)[..k + 1]
      == TaskJobs(t, first, hyperperiod, cost, deadline)[..k] + [JobOf(t, first + k, k, cost, deadline)]
    ensures TaskEdges(t, predStart, first, hyperperiod)[..k + 1]
      == TaskEdges(t, predStart, first, hyperperiod)[..k] + [EdgeRow(t.pred, predStart + k, t.priority, first + k)]
  {
    var js := TaskJobs(t, first, hyperperiod, cost, deadline);
    var es := TaskEdges(t, predStart, first, hyperperiod);
    assert js[..k + 1] == js[..k] + [js[k]];
    assert es[..k + 1] == es[..k] + [es[k]];
  }

  /**
   * The counting loop for `pred_job_idx`: 1 plus the jobs of the sorted
   * tasks `0 .. pred - 2`. The result is at least 1.
   */
  method CountPredJobs(tasks: seq<Task>, hyperperiod: nat, pred: int) returns (idx: int)
    requires PositivePeriods(tasks) && pred <= |tasks| + 1
    ensures idx == PredStart(tasks, hyperperiod, pred) && idx >= 1
  {
    idx := 1;
    var j := 0;
    while j < pred - 1
      invariant 0 <= j <= if pred - 1 > 0 then pred - 1 else 0
      invariant idx == 1 + Sum(Counts(tasks, hyperperiod)[..j])
    {
      SumPrefixStep(Counts(tasks, hyperperiod), j);
      idx := idx + hyperperiod / tasks[j].period;
      j := j + 1;
    }
    SumNonNegative(Counts(tasks, hyperperiod)[..j]);
  }

  // ----- What the rows say -----

  predicate NumberedFromOne(jobs: seq<JobRow>)
  {
    forall q :: 0 <= q < |jobs| ==>
      jobs[q].jobId == q + 1 && jobs[q].priority == q + 1 && jobs[q].arrivalMin == jobs[q].arrivalMax
  }

  /**
   * Job IDs run 1, 2, 3, .. in emission order, the Priority column repeats
   * the Job ID, and every job has Arrival min equal to Arrival max.
   */
  lemma {:induction false} JobIdsConsecutive(tasks: seq<Task>, hyperperiod: nat, cost: CostRule, deadline: DeadlineRule, i: nat)
    requires PositivePeriods(tasks) && i <= |tasks|
    ensures NumberedFromOne(JobsUpTo(tasks, hyperperiod, cost, deadline, i))
  {
    if i > 0 {
      JobIdsConsecutive(tasks, hyperperiod, cost, deadline, i - 1);
      var prev := JobsUpTo(tasks, hyperperiod, cost, deadline, i - 1);
      var first := FirstId(tasks, hyperperiod, i - 1);
      var block := TaskJobs(tasks[i - 1], first, hyperperiod, cost, deadline);
      assert first == |prev| + 1;
      var jobs := JobsUpTo(tasks, hyperperiod, cost, deadline, i);
      var bs := JobBlocks(tasks, hyperperiod, cost, deadline);
      assert bs[..i][..i - 1] == bs[..i - 1];
      assert jobs == prev + block;
      forall q | 0 <= q < |prev|
        ensures jobs[q].jobId == q + 1 && jobs[q].priority == q + 1 && jobs[q].arrivalMin == jobs[q].arrivalMax
      {
        assert jobs[q] == prev[q];
      }
      forall q | |prev| <= q < |jobs|
        ensures jobs[q].jobId == q + 1 && jobs[q].priority == q + 1 && jobs[q].arrivalMin == jobs[q].arrivalMax
      {
        var k := q - |prev|;
        assert jobs[q] == block[k] == JobOf(tasks[i - 1], first + k, k, cost, deadline);
      }
    }
  }

  /** The `k`-th job (from 0) of the task at sorted index `j` sits after the jobs of the tasks before it. */
  lemma JobAt(tasks: seq<Task>, hyperperiod: nat, cost: CostRule, deadline: DeadlineRule, j: nat, k: nat)
    requires PositivePeriods(tasks) && j < |tasks| && k < hyperperiod / tasks[j].period
    ensures JobIsAt(Jobs(tasks, hyperperiod, cost, deadline), Sum(Counts(tasks, hyperperiod)[..j]) + k, tasks[j], k, cost, deadline)
  {
    var bs := JobBlocks(tasks, hyperperiod, cost, deadline);
    JobsLength(tasks, hyperperiod, cost, deadline, j);
    assert bs[..|tasks|] == bs;
    ConcatAt(bs, j, k);
    SumNonNegative(Counts(tasks, hyperperiod)[..j]);
    assert bs[j] == TaskJobs(tasks[j], FirstId(tasks, hyperperiod, j), hyperperiod, cost, deadline);
    TaskJobsAt(tasks[j], FirstId(tasks, hyperperiod, j), hyperperiod, cost, deadline, k);
  }

  /** The number of precedence rows: the jobs of every task past the first `nrofChains`. */
  lemma {:induction false} EdgeCount(tasks: seq<Task>, nrofChains: nat, hyperperiod: nat, i: nat)
    requires PositivePeriods(tasks) && PredsInRange(tasks, nrofChains) && i <= |tasks|
    ensures |EdgesUpTo(tasks, nrofChains, hyperperiod, i)|
      == Sum(Counts(tasks, hyperperiod)[..i]) - Sum(Counts(tasks, hyperperiod)[..Min(i, nrofChains)])
  {
    if i > 0 {
      var es, counts := EdgeBlocks(tasks, nrofChains, hyperperiod), Counts(tasks, hyperperiod);
      EdgeCount(tasks, nrofChains, hyperperiod, i - 1);
      SumPrefixStep(counts, i - 1);
      assert es[..i][..i - 1] == es[..i - 1] && es[..i][i - 1] == es[i - 1];
      assert |EdgesUpTo(tasks, nrofChains, hyperperiod, i)| == |EdgesUpTo(tasks, nrofChains, hyperperiod, i - 1)| + |es[i - 1]|;
      if i - 1 < nrofChains {
        assert |es[i - 1]| == 0 && Min(i, nrofChains) == i;
      } else {
        assert |es[i - 1]| == counts[i - 1] && Min(i, nrofChains) == nrofChains == Min(i - 1, nrofChains);
      }
    }
  }

  /**
   * The precedence row of the `k`-th job of the task at sorted index
   * `j >= nrofChains` points from job `PredStart + k` to that job.
   */
  lemma EdgeAt(tasks: seq<Task>, nrofChains: nat, hyperperiod: nat, j: nat, k: nat)
    requires PositivePeriods(tasks) && PredsInRange(tasks, nrofChains)
    requires nrofChains <= j < |tasks| && k < hyperperiod / tasks[j].period
    ensures var counts := Counts(tasks, hyperperiod);
      var q := Sum(counts[..j]) - Sum(counts[..nrofChains]) + k;
      0 <= q < |Edges(tasks, nrofChains, hyperperiod)|
      && Edges(tasks, nrofChains, hyperperiod)[q]
         == EdgeRow(tasks[j].pred, PredStart(tasks, hyperperiod, tasks[j].pred) + k,
                    tasks[j].priority, FirstId(tasks, hyperperiod, j) + k)
  {
    EdgesBefore(tasks, nrofChains, hyperperiod, j);
    var n := |EdgesUpTo(tasks, nrofChains, hyperperiod, j)|;
    assert n == Sum(Counts(tasks, hyperperiod)[..j]) - Sum(Counts(tasks, hyperperiod)[..nrofChains]);
    var bs := EdgeBlocks(tasks, nrofChains, hyperperiod);
    var t := tasks[j];
    var predStart, first := PredStart(tasks, hyperperiod, t.pred), FirstId(tasks, hyperperiod, j);
    assert bs[j] == TaskEdges(t, predStart, first, hyperperiod);
    EdgesBlockAt(tasks, nrofChains, hyperperiod, j, k);
    TaskEdgesAt(t, predStart, first, hyperperiod, k);
    assert Edges(tasks, nrofChains, hyperperiod)[n + k] == EdgeRow(t.pred, predStart + k, t.priority, first + k);
  }

  /** The precedence rows before those of task `j >= nrofChains`: the jobs of tasks nrofChains .. j-1. */
  lemma EdgesBefore(tasks: seq<Task>, nrofChains: nat, hyperperiod: nat, j: nat)
    requires PositivePeriods(tasks) && PredsInRange(tasks, nrofChains) && nrofChains <= j <= |tasks|
    ensures var counts := Counts(tasks, hyperperiod);
      |EdgesUpTo(tasks, nrofChains, hyperperiod, j)| == Sum(counts[..j]) - Sum(counts[..nrofChains]) >= 0
  {
    EdgeCount(tasks, nrofChains, hyperperiod, j);
    assert Min(j, nrofChains) == nrofChains;
    SumPrefixMono(Counts(tasks, hyperperiod), nrofChains, j);
  }

  /** Row `k` of the block of task `j` follows the precedence rows of the tasks before `j`. */
  lemma EdgesBlockAt(tasks: seq<Task>, nrofChains: nat, hyperperiod: nat, j: nat, k: nat)
    requires PositivePeriods(tasks) && PredsInRange(tasks, nrofChains)
    requires j < |tasks| && k < |EdgeBlocks(tasks, nrofChains, hyperperiod)[j]|
    ensures var n := |EdgesUpTo(tasks, nrofChains, hyperperiod, j)|;
      n + k < |Edges(tasks, nrofChains, hyperperiod)|
      && Edges(tasks, nrofChains, hyperperiod)[n + k] == EdgeBlocks(tasks, nrofChains, hyperperiod)[j][k]
  {
    var bs := EdgeBlocks(tasks, nrofChains, hyperperiod);
    assert bs[..|tasks|] == bs;
    ConcatAt(bs, j, k);
  }

  /**
   * The `k`-th job of a task past the first `nrofChains` is linked to the
   * `k`-th job of the task at sorted index `pred - 1`: both ends of its
   * precedence row are rows of the jobs file, the successor end is the
   * task's own `k`-th job and the predecessor end is the `k`-th job of the
   * task at sorted index `pred - 1`.
   */
  lemma EdgeLinksKthJobs(tasks: seq<Task>, nrofChains: nat, hyperperiod: nat, cost: CostRule, deadline: DeadlineRule, j: nat, k: nat)
    requires PositivePeriods(tasks) && PredsInRange(tasks, nrofChains)
    requires nrofChains <= j < |tasks| && 1 <= tasks[j].pred <= |tasks|
    requires k < hyperperiod / tasks[j].period && k < hyperperiod / tasks[tasks[j].pred - 1].period
    ensures var counts := Counts(tasks, hyperperiod);
      var q := Sum(counts[..j]) - Sum(counts[..nrofChains]) + k;
      var edges := Edges(tasks, nrofChains, hyperperiod);
      var jobs := Jobs(tasks, hyperperiod, cost, deadline);
      var p := tasks[j].pred;
      0 <= q < |edges|
      && edges[q].predTask == p && edges[q].succTask == tasks[j].priority
      && EndsAreJobs(jobs, edges[q], tasks[p - 1], tasks[j], k, cost, deadline)
  {
    JobsArePlaced(tasks, hyperperiod, cost, deadline);
    EdgesArePlaced(tasks, nrofChains, hyperperiod);
    PlacedEdgeLinksJobs(Jobs(tasks, hyperperiod, cost, deadline), Edges(tasks, nrofChains, hyperperiod),
                        tasks, nrofChains, hyperperiod, cost, deadline, j, k);
  }

  /** EdgeLinksKthJobs for any rows laid out as the generator lays them out. */
  lemma PlacedEdgeLinksJobs(jobs: seq<JobRow>, edges: seq<EdgeRow>, tasks: seq<Task>, nrofChains: nat, hyperperiod: nat,
                            cost: CostRule, deadline: DeadlineRule, j: nat, k: nat)
    requires PositivePeriods(tasks)
    requires JobsPlaced(jobs, tasks, hyperperiod, cost, deadline) && EdgesPlaced(edges, tasks, nrofChains, hyperperiod)
    requires nrofChains <= j < |tasks| && 1 <= tasks[j].pred <= |tasks|
    requires k < hyperperiod / tasks[j].period && k < hyperperiod / tasks[tasks[j].pred - 1].period
    ensures var counts := Counts(tasks, hyperperiod);
      var q := Sum(counts[..j]) - Sum(counts[..nrofChains]) + k;
      var p := tasks[j].pred;
      0 <= q < |edges|
      && edges[q].predTask == p && edges[q].succTask == tasks[j].priority
      && EndsAreJobs(jobs, edges[q], tasks[p - 1], tasks[j], k, cost, deadline)
  {
    assert EdgePlaced(edges, tasks, nrofChains, hyperperiod, j, k);
    assert JobPlaced(jobs, tasks, hyperperiod, cost, deadline, j, k);
    assert JobPlaced(jobs, tasks, hyperperiod, cost, deadline, tasks[j].pred - 1, k);
  }

  /** The `k`-th job of the task at sorted index `j` is row `Sum(counts[..j]) + k` of `jobs`. */
  predicate JobPlaced(jobs: seq<JobRow>, tasks: seq<Task>, hyperperiod: nat, cost: CostRule, deadline: DeadlineRule, j: nat, k: nat)
    requires PositivePeriods(tasks)
  {
    j < |tasks| && JobIsAt(jobs, Sum(Counts(tasks, hyperperiod)[..j]) + k, tasks[j], k, cost, deadline)
  }

  /** Every job of every task is where the generator puts it. */
  predicate JobsPlaced(jobs: seq<JobRow>, tasks: seq<Task>, hyperperiod: nat, cost: CostRule, deadline: DeadlineRule)
    requires PositivePeriods(tasks)
  {
    forall j: nat, k: nat :: j < |tasks| && k < hyperperiod / tasks[j].period ==> JobPlaced(jobs, tasks, hyperperiod, cost, deadline, j, k)
  }

  /**
   * The precedence row of the `k`-th job of the task at sorted index `j`
   * (past the first `nrofChains`) follows the rows of the tasks before it
   * and links the jobs at positions `Sum(counts[..pred - 1]) + k` and
   * `Sum(counts[..j]) + k` of the jobs file.
   */
  predicate EdgePlaced(edges: seq<EdgeRow>, tasks: seq<Task>, nrofChains: nat, hyperperiod: nat, j: nat, k: nat)
    requires PositivePeriods(tasks)
  {
    nrofChains <= j < |tasks| && 1 <= tasks[j].pred <= |tasks| + 1
    && var counts := Counts(tasks, hyperperiod);
    var q := Sum(counts[..j]) - Sum(counts[..nrofChains]) + k;
    0 <= q < |edges|
    && edges[q].predTask == tasks[j].pred && edges[q].succTask == tasks[j].priority
    && edges[q].predJob - 1 == Sum(counts[..tasks[j].pred - 1]) + k && edges[q].succJob - 1 == Sum(counts[..j]) + k
  }

  /** Every precedence row is where the generator puts it. */
  predicate EdgesPlaced(edges: seq<EdgeRow>, tasks: seq<Task>, nrofChains: nat, hyperperiod: nat)
    requires PositivePeriods(tasks)
  {
    forall j: nat, k: nat :: nrofChains <= j < |tasks| && 1 <= tasks[j].pred <= |tasks| && k < hyperperiod / tasks[j].period
      ==> EdgePlaced(edges, tasks, nrofChains, hyperperiod, j, k)
  }

  lemma JobsArePlaced(tasks: seq<Task>, hyperperiod: nat, cost: CostRule, deadline: DeadlineRule)
    requires PositivePeriods(tasks)
    ensures JobsPlaced(Jobs(tasks, hyperperiod, cost, deadline), tasks, hyperperiod, cost, deadline)
  {
    forall j: nat, k: nat | j < |tasks| && k < hyperperiod / tasks[j].period
      ensures JobPlaced(Jobs(tasks, hyperperiod, cost, deadline), tasks, hyperperiod, cost, deadline, j, k)
    {
      JobAt(tasks, hyperperiod, cost, deadline, j, k);
    }
  }

  lemma EdgesArePlaced(tasks: seq<Task>, nrofChains: nat, hyperperiod: nat)
    requires PositivePeriods(tasks) && PredsInRange(tasks, nrofChains)
    ensures EdgesPlaced(Edges(tasks, nrofChains, hyperperiod), tasks, nrofChains, hyperperiod)
  {
    forall j: nat, k: nat | nrofChains <= j < |tasks| && 1 <= tasks[j].pred <= |tasks| && k < hyperperiod / tasks[j].period
      ensures EdgePlaced(Edges(tasks, nrofChains, hyperperiod), tasks, nrofChains, hyperperiod, j, k)
    {
      EdgeEnds(tasks, nrofChains, hyperperiod, j, k);
    }
  }

  /** EdgeAt with both ends written as positions in the jobs file. */
  lemma EdgeEnds(tasks: seq<Task>, nrofChains: nat, hyperperiod: nat, j: nat, k: nat)
    requires PositivePeriods(tasks) && PredsInRange(tasks, nrofChains)
    requires nrofChains <= j < |tasks| && 1 <= tasks[j].pred <= |tasks| && k < hyperperiod / tasks[j].period
    ensures var counts := Counts(tasks, hyperperiod);
      var q := Sum(counts[..j]) - Sum(counts[..nrofChains]) + k;
      0 <= q < |Edges(tasks, nrofChains, hyperperiod)|
      && var e := Edges(tasks, nrofChains, hyperperiod)[q];
      && e.predTask == tasks[j].pred && e.succTask == tasks[j].priority
      && e.predJob - 1 == Sum(counts[..tasks[j].pred - 1]) + k && e.succJob - 1 == Sum(counts[..j]) + k
  {
    EdgeAt(tasks, nrofChains, hyperperiod, j, k);
    PredStartIsFirstId(tasks, hyperperiod, tasks[j].pred);
  }

  /** `pred_job_idx` starts at the Job ID of the first job of the task at sorted index `pred - 1`. */
  lemma PredStartIsFirstId(tasks: seq<Task>, hyperperiod: nat, pred: int)
    requires PositivePeriods(tasks) && 1 <= pred <= |tasks| + 1
    ensures PredStart(tasks, hyperperiod, pred) == FirstId(tasks, hyperperiod, pred - 1)
  {
    if pred == 1 {
      assert Counts(tasks, hyperperiod)[..0] == [];
    }
  }

  /**
   * Some precedence row goes from the `k`-th job of task `a` to the `k`-th
   * job of task `b`, both jobs being rows of the jobs file.
   */
  predicate Linked(jobs: seq<JobRow>, edges: seq<EdgeRow>, a: Task, b: Task, k: nat, cost: CostRule, deadline: DeadlineRule)
  {
    exists q :: 0 <= q < |edges| && Links(jobs, edges[q], a, b, k, cost, deadline)
  }

  predicate Links(jobs: seq<JobRow>, e: EdgeRow, a: Task, b: Task, k: nat, cost: CostRule, deadline: DeadlineRule)
  {
    e.predTask == a.priority && e.succTask == b.priority && EndsAreJobs(jobs, e, a, b, k, cost, deadline)
  }

  /** Both ends of precedence row `e` are rows of `jobs`: the `k`-th job of `a` and the `k`-th job of `b`. */
  predicate EndsAreJobs(jobs: seq<JobRow>, e: EdgeRow, a: Task, b: Task, k: nat, cost: CostRule, deadline: DeadlineRule)
  {
    JobIsAt(jobs, e.predJob - 1, a, k, cost, deadline) && JobIsAt(jobs, e.succJob - 1, b, k, cost, deadline)
  }

  /** Row `q` of the jobs file is the `k`-th job of task `t`, numbered `q + 1`. */
  predicate JobIsAt(jobs: seq<JobRow>, q: int, t: Task, k: nat, cost: CostRule, deadline: DeadlineRule)
  {
    0 <= q < |jobs| && jobs[q] == JobOf(t, q + 1, k, cost, deadline)
  }

  /**
   * Once sorted, a task `b` with a subscription priority whose predecessor
   * `a` has the same period gets, for each `k`, a precedence row from the
   * `k`-th job of `a` to its own `k`-th job.
   */
  lemma SuccessorLinked(sorted: seq<Task>, nrofChains: nat, hyperperiod: nat, cost: CostRule, deadline: DeadlineRule,
                        a: Task, b: Task, k: nat)
    requires PositivePeriods(sorted) && PredsInRange(sorted, nrofChains)
    requires nrofChains < b.priority <= |sorted| && sorted[b.priority - 1] == b
    requires 1 <= a.priority <= |sorted| && sorted[a.priority - 1] == a && b.pred == a.priority
    requires a.period == b.period && 0 < b.period && k < hyperperiod / b.period
    ensures Linked(Jobs(sorted, hyperperiod, cost, deadline), Edges(sorted, nrofChains, hyperperiod), a, b, k, cost, deadline)
  {
    var j := b.priority - 1;
    EdgeLinksKthJobs(sorted, nrofChains, hyperperiod, cost, deadline, j, k);
    var q := Sum(Counts(sorted, hyperperiod)[..j]) - Sum(Counts(sorted, hyperperiod)[..nrofChains]) + k;
    var jobs, edges := Jobs(sorted, hyperperiod, cost, deadline), Edges(sorted, nrofChains, hyperperiod);
    assert EndsAreJobs(jobs, edges[q], a, b, k, cost, deadline);
    assert Links(jobs, edges[q], a, b, k, cost, deadline);
  }
}

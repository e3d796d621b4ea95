# sag-ros-experiments, modelled in Dafny

This project models the data pipeline of the sag-ros-experiments scripts, which evaluate ROS 2 callback chains on a multi-threaded executor. The pipeline runs in these steps:

- **Chain text files.** A task set is written as tab-separated lines `period exec deadline task_id chain_id`, and a line `-` closes the set. Two parsers read these files back: the fixed-length one returns a flat list `[T1, e11..e1L, T2, ..]` per set. The variable-length one also returns the chain lengths. A writer produces these files from generated task sets.
- **Job and precedence files.** These are the inputs of the schedule-abstraction-graph (SAG) analysis. The flat list is expanded into one job row per period instance within the hyperperiod, plus one precedence row for every job of a task that is not a chain head. Priorities come from a timer permutation and a subscription permutation. Tasks are sorted by priority before emission.
- **Theorem 1 of Jiang et al. (RTSS 2022).** The response-time analysis of processing chains. It covers the per-chain summaries (period, total execution time, last callback), the interference functions `n`, `W` and `f`, the per-chain verdict and the schedulability ratio of a batch.
- **Synthetic task-set generation.** This covers:
  - period snapping and log-uniform period sampling;
  - largest-remainder rounding and the at-least-one partition of a chain budget;
  - the first-entry discrepancy fix-up;
  - the job-count acceptance windows.
- **Row transforms.** These are:
  - per-folder pass counts of analysis results;
  - the ROS overhead added to job costs;
  - the maximum end-to-end difference between two analysed job files.

Random draws are inputs of the model. These are `drs`, `random.sample`, `random.randint`, `random.uniform` and the value of `math.exp`. Each draw comes with the contract the source relies on, e.g. a permutation of a range, or non-negative reals with a positive sum. The sum that `drs` is asked for is not part of any contract, and the chain utilisations and execution-time shares of synthetic_tasks.py are unconstrained: the discrepancy fix-up and the raise-to-C step make every proved property hold for any draw. Floats are exact reals. The fixed-point solver of SciPy is an input too: one `Option<real>` per chain, where None stands for a `RuntimeError`.

Modules:

| module | file | what it models |
|---|---|---|
| `Seqs`, `Numeric`, `Text` | seqs.dfy, numeric.dfy, text.dfy | Python's `sum`, `range`, `math.gcd`/`lcm`, `round`, `int()`/`str()`, `strip`/`split`, `os.path` |
| `ChainFile` | chain_file.dfy | both chain-file parsers (one model for all copies), the writer's line format, the round trip |
| `ChainLayout` | chain_layout.dfy | chain heads, priority and predecessor loops, period and WCET extraction |
| `JobRows` | job_rows.dfy | the sort by priority and the job/precedence emission loop |
| `Expanders` | expanders.dfy | the four expander copies, as one emission loop with a deadline rule and a cost rule |
| `ResponseTime` | response_time.dfy | the conversion to chain summaries, `n`, `W`, `theorem1_L`, `jiang_on_tasksets` |
| `JiangSynthetic` | jiang_synthetic.dfy | `sample_period_log_uniform`, `round_and_scale`, `partition_integer_min1`, `generate_task_set` |
| `SyntheticTasks` | synthetic_tasks.dfy | `snap_period`, `float_list_to_ns`, the generators and the acceptance window |
| `ProcessResults` | process_results.dfy | `process_results` |
| `AugmentExecutionTimes` | augment.dfy | `augment_execution_times` |
| `ChainWcrt` | chain_wcrt.dfy | `compute_max_difference` |

The parser is copied in five places: jiang_et_al/JRTA.py:6-155, this_paper/convert_sobhani_to_sag.py:17-100 and 225-289, this_paper/covert_sobhani_to_sag.py:15-79, and this_paper/generate_SagInput_SobhaniCaseStudy.py:11-94. The copies behave identically, so `ChainFile` models them once. The `lcm` helper is copied too, and `Numeric` models it once.

## Model

| member | source | states |
|---|---|---|
| ChainFile.ParseOddChains | jiang_et_al/JRTA.py:72-155 | The variable-length reader, a loop over the file's lines. The result equals the reading state machine `ParseOdd`: each line is stripped, split and converted with `int()` on fields 0, 1 and 4. |
| ChainFile.ReadOddChains | this_paper/convert_sobhani_to_sag.py:35-100 | The loop body updates the current chain, the current set, the running chain length and the chain lengths. Over the classified lines, its result equals `Parse`. |
| ChainFile.ParseTaskSets | jiang_et_al/JRTA.py:6-70 | The fixed-length reader equals the same state machine with the chain lengths dropped. |
| ChainFile.ReadTaskSets | this_paper/covert_sobhani_to_sag.py:27-79 | The fixed-length loop over the classified lines. Ghost counts tie it to `Parse`. |
| ChainFile.ParsedSetsWellFormed | jiang_et_al/JRTA.py:86-153 | Every returned set has at least one chain, and every chain has at least one callback. The flat list holds one period plus the callbacks of each chain, so `len(flat) == sum(chain_lengths) + len(chain_lengths)` and the flat list is the flattening of its chains. |
| ChainFile.FailureSticks | jiang_et_al/JRTA.py:46-49 | Once a line raises, the whole read fails with the same literal. |
| ChainFile.BadLiteralFails | jiang_et_al/JRTA.py:46-49 | A line whose field 0, 1 or 4 is not an integer makes the read fail unless an earlier line already failed. Such lines are not skipped. |
| ChainFile.IgnoredLine | jiang_et_al/JRTA.py:19-22 | Deleting a blank line, or a line with fewer than five fields, does not change the result. |
| ChainFile.TrailingSeparator | jiang_et_al/JRTA.py:65-68 | End of file flushes the pending chain and set exactly as a final "-" line would. |
| ChainFile.DoubleSeparator | jiang_et_al/JRTA.py:25-37 | Two consecutive "-" lines read like one, so no empty set is ever emitted. |
| ChainFile.FlattenChains | jiang_et_al/JRTA.py:52-62 | Cutting a well-formed flat list and flattening it again gives back the list and its chain lengths. |
| ChainFile.ChainsOfFlatten | jiang_et_al/JRTA.py:52-62 | Flattening chains and then cutting the result by their lengths gives the chains back. |
| ChainFile.ChainsRowsAt | this_paper/generate_data_for_Jiang_synthetic.py:100-114 | Callback j of chain k is written at row `TaskCount(chains before k) + j`. Its period and deadline are the chain's period, its task id is one more than the row and its chain id is k + 1. |
| ChainFile.TaskLineReads | this_paper/generate_data_for_Jiang_synthetic.py:112 | A task line as the generator formats it reads back as its period, execution time and chain id. |
| ChainFile.ReadWritten | this_paper/generate_data_for_Jiang_synthetic.py:97-118 | Round trip. Reading back a file the generator wrote gives each task set's flattened chains and their callback counts. |
| Numeric.LcmIsLeastCommonMultiple | this_paper/convert_sobhani_to_sag.py:11-15 | `math.lcm(a, b)` is a positive common multiple of a and b that divides every common multiple. |
| Numeric.LcmOfIsLeastCommonMultiple | this_paper/convert_sobhani_to_sag.py:11-15 | The fold `lcm(numbers)` is divisible by every number, and it divides every common multiple of them. |
| Numeric.Hyperperiod | this_paper/covert_sobhani_to_sag.py:9-13 | The accumulation loop returns the fold, and every period divides it. |
| Numeric.RoundHalfEven | synthetic_tasks.py:41 | Python's `round` lies within one half of its argument, and a tie goes to the even neighbour. |
| Numeric.Trunc | this_paper/generate_data_for_Jiang_synthetic.py:34 | `int(x)` on a non-negative real is its floor, with the fraction in [0, 1). |
| Numeric.FloatMod | jiang_et_al/JRTA.py:223 | Python's `%` with a positive divisor lies in [0, divisor) and differs from the dividend by a whole multiple of the divisor, which fixes it uniquely. |
| Numeric.Ceil | jiang_et_al/JRTA.py:220 | `math.ceil(x)` is the least integer not below x. |
| ChainLayout.CountMarks | this_paper/convert_sobhani_to_sag.py:148-162 | The head marks of chains with positive lengths contain exactly one head per chain. |
| ChainLayout.FixedHeadsAreMarks | this_paper/covert_sobhani_to_sag.py:115-122 | The `i % b == 0` heads are the heads of nrof_chains chains of b callbacks. |
| ChainLayout.AssignPermutation | this_paper/convert_sobhani_to_sag.py:148-162 | The timers are a permutation of 1..nc and the subscriptions one of nc+1..N, so the assigned priorities are a permutation of 1..N. |
| ChainLayout.HeadsHoldTimerPriorities | this_paper/covert_sobhani_to_sag.py:109-122 | A task is a chain head exactly when its priority is at most nrof_chains. |
| ChainLayout.Preds | this_paper/convert_sobhani_to_sag.py:164-173 | A head's predecessor is 0. Any other task's predecessor is the priority of the task before it. |
| ChainLayout.FixedPriorities | this_paper/covert_sobhani_to_sag.py:109-122 | The `i % b` priority loop fills the list the assignment specifies, and the layout has nrof_chains heads. |
| ChainLayout.FixedPreds | this_paper/covert_sobhani_to_sag.py:123-128 | The predecessor loop of the fixed-length copies equals `Preds` on the `i % b` heads. |
| ChainLayout.OddPriorities | this_paper/convert_sobhani_to_sag.py:148-162 | The `period_idx` walk over the prefix sums of the chain lengths assigns what `Assign` gives on the chain heads. |
| ChainLayout.OddPreds | this_paper/convert_sobhani_to_sag.py:164-173 | The variable-length predecessor loop equals `Preds` on the chain heads. |
| ChainLayout.CaseStudyLists | this_paper/generate_SagInput_SobhaniCaseStudy.py:142-144 | The hard-coded priorities are what the priority walk gives for chains of 2, 4, 3 and 4 callbacks, with timers 1..4 and subscriptions 5..13 in order. The hard-coded predecessors are what the predecessor walk derives from them. |
| ChainLayout.CaseStudyPermutation | this_paper/generate_SagInput_SobhaniCaseStudy.py:143 | `[1,5,2,6,7,8,3,9,10,4,11,12,13]` is a permutation of 1..13, and its four chain heads hold 1..4. |
| ChainLayout.OddPeriods | this_paper/generate_SagInput_SobhaniCaseStudy.py:122-126 | The `period_idx += chain_length + 1` walk collects the period of every chain in order. |
| ChainLayout.OddWcets | this_paper/generate_SagInput_SobhaniCaseStudy.py:131-140 | The execution-time walk collects every entry that is not a period, chain after chain, so `len(wcets) == sum(chain_lengths)`. |
| ChainLayout.ExtendedAt | this_paper/convert_sobhani_to_sag.py:133 | Every task of chain k carries the period of chain k. |
| ChainLayout.KeepChains | this_paper/convert_sobhani_to_sag.py:128-146 | In a flattened chain list, keeping the chain heads gives the periods, and dropping them gives the execution times. |
| ChainLayout.FixedPeriodsAreChainPeriods | this_paper/covert_sobhani_to_sag.py:104 | Every (b+1)-th entry is the period of the corresponding chain under the chain cut. |
| ChainLayout.FixedWcetsAreChainExecs | this_paper/covert_sobhani_to_sag.py:108 | The entries at indices that are not multiples of b+1 are the chains' execution times, in order. |
| JobRows.Zip | this_paper/convert_sobhani_to_sag.py:175 | `zip` stops at the shortest list, and entry i combines the i-th elements. |
| JobRows.SortSorted | this_paper/convert_sobhani_to_sag.py:178 | The stable sort by priority orders the tasks and keeps their priorities as a multiset. |
| JobRows.SortKeepsKeys | this_paper/convert_sobhani_to_sag.py:178 | The sorted list is a permutation of the task list. |
| JobRows.ByPriority | this_paper/convert_sobhani_to_sag.py:178 | When the priorities are a permutation of 1..n, sorted index j holds the input task of priority j + 1. |
| JobRows.EmitRows | this_paper/convert_sobhani_to_sag.py:191-221 | The emission loop, with its running Job ID and its `pred_job_idx` counter, returns exactly the job rows `Jobs` and the precedence rows `Edges`. |
| JobRows.EmitTaskRows | this_paper/convert_sobhani_to_sag.py:209-221 | One task emits `hyperperiod // period` job rows numbered from its first Job ID. When `pred_job_idx` is positive it also emits one precedence row per job. |
| JobRows.CountPredJobs | this_paper/convert_sobhani_to_sag.py:202-207 | `pred_job_idx` starts at 1 plus the jobs of the sorted tasks before index pred - 1, and is at least 1. |
| JobRows.JobIdsConsecutive | this_paper/convert_sobhani_to_sag.py:205-221 | Job IDs run 1, 2, 3, .. in emission order. The Priority column repeats the Job ID, and Arrival min equals Arrival max. |
| JobRows.JobAt | this_paper/convert_sobhani_to_sag.py:209-213 | The k-th job of sorted task j follows the jobs of the earlier tasks. It is released at k * period, with the variant's Cost min and deadline. |
| JobRows.EdgeCount | this_paper/convert_sobhani_to_sag.py:200-219 | There is one precedence row per job of every task past the first nrof_chains, and none for the first nrof_chains. |
| JobRows.EdgeLinksKthJobs | this_paper/convert_sobhani_to_sag.py:202-219 | The precedence row of the k-th job of a task past the first nrof_chains runs from the k-th job of the task at sorted index pred - 1 to the task's own k-th job. |
| JobRows.SuccessorLinked | this_paper/convert_sobhani_to_sag.py:202-219 | After sorting, a subscription task whose predecessor has the same period gets, for each k, a row from the predecessor's k-th job to its own k-th job. |
| Expanders.ExpandOddChains | this_paper/convert_sobhani_to_sag.py:123-221 | One task set of `generate_csv_n_task_sets_odd_chains`. The steps are the period walk, the hyperperiod, the WCETs, the priorities and predecessors, the zip, the sort and the emission. Cost min is `wcet // 2` and the deadline is release + period. The emitted rows equal `Jobs`/`Edges` of the sorted tasks. |
| Expanders.ExpandFixedChains | this_paper/convert_sobhani_to_sag.py:313-386 | One task set of the fixed-length expanders, with the strided periods and the `i % b` loops. The copies differ only in their cost and deadline rules: this_paper/covert_sobhani_to_sag.py:103-174 and synthetic_tasks.py:142-214 use a deadline of 10^12. |
| Expanders.ExpandCaseStudy | this_paper/generate_SagInput_SobhaniCaseStudy.py:117-190 | The case-study expander with its hard-coded lists: 13 tasks in 4 chains. Cost min equals the WCET and the deadline is release + period. |
| Expanders.OddTasksOneToN | this_paper/convert_sobhani_to_sag.py:148-175 | There is one task per callback, and the priorities are a permutation of 1..nrof_tasks. |
| Expanders.OddTaskValues | this_paper/convert_sobhani_to_sag.py:128-175 | Task q carries the q-th execution time and the period of its own chain. |
| Expanders.OddTaskRoles | this_paper/convert_sobhani_to_sag.py:148-173 | Task q has a timer priority exactly when it heads its chain. A head has predecessor 0, and any other task names the priority of the task before it. |
| Expanders.OddChainLinks | this_paper/convert_sobhani_to_sag.py:191-221 | The k-th job of every task that is not a chain head is linked by a precedence row to the k-th job of the task before it. |
| Expanders.FixedIsOdd | this_paper/covert_sobhani_to_sag.py:103-132 | A fixed-length set is the variable-length set whose chains all have b callbacks: same tasks, same hyperperiod. |
| Expanders.FixedSortedBounds | this_paper/covert_sobhani_to_sag.py:103-132 | A fixed-length input has nrof_chains periods. Its sorted tasks have positive periods, and each predecessor names a task. |
| Expanders.CaseStudyIsOdd | this_paper/generate_SagInput_SobhaniCaseStudy.py:142-147 | With chain lengths 2, 4, 3 and 4, the hard-coded lists give the tasks the general walk gives with timers 1..4 and subscriptions 5..13. |
| ResponseTime.Summarize | jiang_et_al/JRTA.py:189-192 | A chain's intended summary: its period, its total execution time and its last execution time. The last one is at most the total when the times are non-negative. |
| ResponseTime.FixedSummariesAreChainSummaries | jiang_et_al/JRTA.py:189-192 | The offsets `(k-1)(b+1)` read every chain of a fixed-length flat list as its own summary. |
| ResponseTime.SummarizeFixed | jiang_et_al/JRTA.py:184-196 | The chain loop of `convert_sobhani_synthetic_to_jiang` builds the summaries, or yields `IndexError` where the source raises it. |
| ResponseTime.ReadChain | jiang_et_al/JRTA.py:171-173 | A chain's three dictionary entries are read, or `IndexError` is raised exactly when the last index is past the end. |
| ResponseTime.ConvertSyntheticToJiang | jiang_et_al/JRTA.py:180-197 | The whole fixed-length conversion: parse the file, then summarise every set. |
| ResponseTime.SummarizeOddAsWritten | jiang_et_al/JRTA.py:170-176 | The variable-length chain loop, with its offsets as written. |
| ResponseTime.ConvertOddToJiangAsWritten | jiang_et_al/JRTA.py:157-178 | `convert_sobhani_syntethic_odd_to_jiang` as written. |
| ResponseTime.EqualLengthsAgree | jiang_et_al/JRTA.py:170-173 | When all chains have the same length, the offsets as written are the prefix offsets. |
| ResponseTime.UnequalLengthsMisread | jiang_et_al/JRTA.py:171-173 | A concrete set with chains of lengths 2 and 1 (flat list `[10, 1, 2, 20, 3]`). As written, the second chain is summarised as period 2, total 20 and last 20. The prefix offsets give period 20, total 3 and last 3. |
| ResponseTime.OddSummariesAreChainSummaries | jiang_et_al/JRTA.py:170-173 | With prefix offsets, every chain is read inside the flat list and gets its own period, total and last execution time. |
| ResponseTime.ConvertOddSummarizesChains | jiang_et_al/JRTA.py:157-178 | The corrected conversion gives every chain of every parsed set its own summary. |
| ResponseTime.Instances | jiang_et_al/JRTA.py:219-220 | `n(k, L) = ceil((L - C_k)/T_k) + 1`. It is at least 1 once L is at least C_k. |
| ResponseTime.Workload | jiang_et_al/JRTA.py:222-223 | `W(k, L)` lies between `(n-1)·C_k` and `n·C_k` for C_k >= 0, and it is non-negative once L >= C_k. |
| ResponseTime.TheoremOneMap | jiang_et_al/JRTA.py:225-230 | The accumulation loop of `theorem1_L` computes the map as written. |
| ResponseTime.AsWrittenOmitsLastChain | jiang_et_al/JRTA.py:227 | For every chain but the last, the map as written differs from Theorem 1 by exactly the last chain's workload divided by m. |
| ResponseTime.LastChainIgnored | jiang_et_al/JRTA.py:227 | A concrete two-chain set at L = 5 on one thread. The map as written yields 1, where Theorem 1 yields 6. |
| ResponseTime.OtherChainsInterfere | jiang_et_al/JRTA.py:225-230 | In the corrected map, once L is at least every chain's execution time, every other chain's workload divided by m is charged. |
| ResponseTime.SingleChain | jiang_et_al/JRTA.py:225-238 | With one chain the map is the constant `C - C_last`, and a fixed point gives `R = C`. |
| ResponseTime.ChainVerdicts | jiang_et_al/JRTA.py:218-243 | The chain loop records an entry for every converged chain and clears `schedulable` on a miss. A chain whose solver failed is skipped. |
| ResponseTime.SetResponsesAre | jiang_et_al/JRTA.py:232-240 | The entries of a set are exactly its converged chains, in order, each with `R = L* + C_last` and `D = period`. |
| ResponseTime.VerdictMatchesResponses | jiang_et_al/JRTA.py:232-246 | A set is schedulable exactly when none of its entries has R > D. A chain whose solver failed cannot make the set unschedulable. |
| ResponseTime.JiangOnTasksets | jiang_et_al/JRTA.py:199-251 | `jiang_on_tasksets` returns the recorded entries and the ratio. The ratio is None for an empty batch (`ZeroDivisionError`). |
| ResponseTime.CountSchedulable | jiang_et_al/JRTA.py:245-246 | The count lies between 0 and the number of sets. |
| ResponseTime.RatioBounds | jiang_et_al/JRTA.py:250 | The ratio lies in [0, 1], and it is 1 exactly when every set is schedulable. |
| JiangSynthetic.SnapDown | this_paper/generate_data_for_Jiang_synthetic.py:22 | `floor(x / T_g) * T_g` is a multiple of T_g that does not exceed x, and x is less than it plus T_g. |
| JiangSynthetic.SampledPeriodInRange | this_paper/generate_data_for_Jiang_synthetic.py:6-23 | The sampled period is a multiple of 5000 between 10000 and 100000 whenever the draw `exp(r)` lies in [T_min, T_max + T_g). |
| JiangSynthetic.OrderIsPermutation | this_paper/generate_data_for_Jiang_synthetic.py:39 | The index order lists every index once, with larger fractions first. |
| JiangSynthetic.RoundAndScaleLoop | this_paper/generate_data_for_Jiang_synthetic.py:25-42 | The loop that adds one at `indices[i]` for `i < remainder` computes `round_and_scale`. |
| JiangSynthetic.RoundedSums | this_paper/generate_data_for_Jiang_synthetic.py:33-42 | The rounded values sum exactly to the target. |
| JiangSynthetic.RoundedWithinOne | this_paper/generate_data_for_Jiang_synthetic.py:34-41 | Each rounded value is its scaled value truncated, or that plus one. So it is within one of the scaled value and never negative. |
| JiangSynthetic.RoundedLargestFractions | this_paper/generate_data_for_Jiang_synthetic.py:37-41 | Every index that got an extra unit has a fraction at least as large as every index that did not. |
| JiangSynthetic.RoundAndScaleOfZero | this_paper/generate_data_for_Jiang_synthetic.py:30-32 | When the values sum to zero, the result is all zeros. |
| JiangSynthetic.PartitionMin1Parts | this_paper/generate_data_for_Jiang_synthetic.py:52-61 | There are C parts, each at least 1, summing to E raised to C. When E <= C every part is 1. |
| JiangSynthetic.PartitionIntegerMin1 | this_paper/generate_data_for_Jiang_synthetic.py:44-61 | `partition_integer_min1` with its rounding loop computes the partition. |
| JiangSynthetic.JobCountOfHyperperiod | this_paper/generate_data_for_Jiang_synthetic.py:94-95 | Every period divides the hyperperiod, so the job count is a multiple of ten with at least ten per chain. An accepted set has 1 to 500 chains. |
| JiangSynthetic.FirstAcceptedIsFirst | this_paper/generate_data_for_Jiang_synthetic.py:91-95 | The `while` loop stops on the first attempt whose job count lies in [1000, 5000]. It runs out exactly when no attempt does. |
| JiangSynthetic.ChoosePeriods | this_paper/generate_data_for_Jiang_synthetic.py:88-95 | The acceptance loop over the given attempts returns the first accepted periods. |
| JiangSynthetic.TaskSetChainsShape | this_paper/generate_data_for_Jiang_synthetic.py:100-109 | Every chain has its chosen period and C callbacks, each with execution time at least 1. The callbacks sum to `round(period·u)`, raised to C. |
| JiangSynthetic.EmitChain | this_paper/generate_data_for_Jiang_synthetic.py:110-114 | The inner loop writes the chain's rows with task ids from the running counter, and advances the counter by C. |
| JiangSynthetic.TaskSetRows | this_paper/generate_data_for_Jiang_synthetic.py:97-115 | The chain loop writes the rows of every chain, with task ids running on from 1. |
| JiangSynthetic.GenerateTaskSet | this_paper/generate_data_for_Jiang_synthetic.py:63-118 | The result is None when no attempt is accepted. Otherwise it is the lines of the chains built on the first accepted periods, followed by "-". |
| JiangSynthetic.GeneratedRows | this_paper/generate_data_for_Jiang_synthetic.py:100-114 | There are C·NC rows. Row k·C + j is callback j of chain k, with task id k·C + j + 1, chain id k + 1, and the chain's period as both period and deadline. |
| JiangSynthetic.GeneratedTaskSetReads | this_paper/generate_data_for_Jiang_synthetic.py:110-117 | Reading a generated set back gives one set: the flat list of every chain's period and execution times, with `chain_lengths == [C]*NC`. |
| SyntheticTasks.SnapPeriodIsNearestAllowed | synthetic_tasks.py:8-29 | The snapped period is a whole number of ms among 50, 60, .., 200. No allowed value is nearer to the clipped period, ties go to the smaller value, and it lies within 5 ms of the clipped period. |
| SyntheticTasks.NearestFirstIsNearest | synthetic_tasks.py:26-27 | `min(..., key=abs(v - x))` returns a value at the smallest distance. |
| SyntheticTasks.AbsorbDiscrepancyHitsTarget | synthetic_tasks.py:42-44 | After the fix-up the entries sum to the target, and every entry but the first is unchanged. |
| SyntheticTasks.FloatListToNsSums | synthetic_tasks.py:40-46 | The values sum to `round(sum(values)·scale)`, and every value but the first is its own scaled value rounded. The result is None for an empty list. |
| SyntheticTasks.SetChainsBudgets | synthetic_tasks.py:74-86 | Chain k has the snapped period of its draw and one task per share. Its execution times sum exactly to `round(u_k·T)`. |
| SyntheticTasks.GenerateTaskSet | synthetic_tasks.py:52-88 | The loop appends `[T, e1..eL]` of every chain, in order. |
| SyntheticTasks.GeneratedPeriods | synthetic_tasks.py:100 | With b callbacks per chain, the strided entries `task_set[0::b+1]` are exactly the chain periods, all positive. |
| SyntheticTasks.FirstInWindowIsFirst | synthetic_tasks.py:98-110 | The resampling loop keeps the first attempt whose job count lies in [500, 1000]. It runs out exactly when no attempt does. |
| SyntheticTasks.DrawInWindow | synthetic_tasks.py:98-110 | One set's `while` loop returns the first attempt in the window. |
| SyntheticTasks.GenerateNTaskSets | synthetic_tasks.py:90-117 | Every set is the first attempt in the window, or the result is None exactly when some set has no such attempt. |
| SyntheticTasks.SettledAreFixedInputs | synthetic_tasks.py:90-117 | Every kept set lies in the window and is a well-formed fixed-length input with positive periods. |
| SyntheticTasks.FileNamesDistinct | synthetic_tasks.py:174-175 | Different indices give different file names, and no job file is named like a precedence file. |
| SyntheticTasks.WriteTaskSets | synthetic_tasks.py:142-216 | Each set's pair of files is written, numbered from 1. |
| SyntheticTasks.GenerateCsvNTaskSets | synthetic_tasks.py:120-216 | The sets of `generate_n_task_sets` are expanded into job and precedence files with BCET = WCET and deadline 10^12. The result is None exactly when a set never settles. |
| ProcessResults.CountGroups | sag_scripts/process_results.py:12-33 | The loop over the rows builds exactly the tally of the kept rows. |
| ProcessResults.TallyCounts | sag_scripts/process_results.py:13-33 | A sub-folder has a group exactly when a kept row falls in it. `total` counts those rows, and `ones` counts the ones with value 1, so `ones <= total`. |
| ProcessResults.TotalsAddUp | sag_scripts/process_results.py:29-33 | Over the group names, the totals add up to the number of kept rows. |
| ProcessResults.WriteSummaries | sag_scripts/process_results.py:40-44 | One summary per group, with its counters and ratio, in strictly increasing name order. |
| ProcessResults.ProcessRows | sag_scripts/process_results.py:6-44 | The summaries are sorted and complete. Each total is the number of kept rows of its sub-folder, and each ones count is at most the total. The totals add up to the kept rows, and every ratio lies in [0, 1]. |
| ProcessResults.SummariesAreSorted | sag_scripts/process_results.py:40 | Rows in strictly increasing order name each sub-folder once. |
| ProcessResults.BeforeTotal | sag_scripts/process_results.py:40 | Python's string `<` is a strict total order (with BeforeIrreflexive and BeforeTransitive). |
| ProcessResults.RatioBounds | sag_scripts/process_results.py:43 | `ones / total if total else 0` lies in [0, 1]. |
| AugmentExecutionTimes.AugmentedPathBesideInput | this_paper/augment_execution_times.py:5-27 | The output is in the input's directory and named `aug_<filename>`, so it is never the input. |
| AugmentExecutionTimes.AugmentRowFields | this_paper/augment_execution_times.py:20-24 | A row is augmented exactly when columns 4 and 5 exist and hold integers. The row keeps its length and all other fields, and both costs read back as the old cost plus 5000. |
| AugmentExecutionTimes.AllSomeShape | this_paper/augment_execution_times.py:20-24 | The per-row transform of all rows succeeds exactly when every row's does, and it keeps the count and order. |
| AugmentExecutionTimes.UpdateInPlace | this_paper/augment_execution_times.py:20-24 | The in-place loop over the rows computes the row-by-row transform. It stops at the first row that raises. |
| AugmentExecutionTimes.AugmentExecutionTimes | this_paper/augment_execution_times.py:4-32 | `augment_execution_times` writes the header followed by the augmented rows to `aug_<filename>`. |
| AugmentExecutionTimes.AugmentKeepsRows | this_paper/augment_execution_times.py:13-32 | The header is copied unchanged, and there is one output row per data row, in order, each that row augmented. Nothing is written when the file is empty or a row raises. |
| AugmentExecutionTimes.AugmentFailsOnlyOnBadRows | this_paper/augment_execution_times.py:13-22 | The transform fails exactly when the file is empty or some data row lacks a cost column or holds a cost `int()` rejects. |
| ChainWcrt.ColumnIndexFindsFirst | this_paper/calc_chain_wcrt.py:18-19 | A column lookup finds the first column of that name, and fails (`KeyError`) exactly when there is none. |
| ChainWcrt.SelectKeepsOrder | this_paper/calc_chain_wcrt.py:18-19 | The selection is the subsequence of the rows with that Task ID, in file order, and every such row is included. |
| ChainWcrt.MaxOfIsMaximum | this_paper/calc_chain_wcrt.py:22-36 | The running maximum is `-inf` exactly on no elements. Otherwise it is an element, and no element exceeds it. |
| ChainWcrt.PairIsMaxDifference | this_paper/calc_chain_wcrt.py:16-38 | A stored pair has both ids' selections of equal length. Its value is at least every positional difference and equal to one of them, and it is `-inf` only when neither task has a row. |
| ChainWcrt.ResultsArePairs | this_paper/calc_chain_wcrt.py:14-40 | The result fails exactly when some pair raises. Otherwise it holds exactly the pairs whose selections have equal length, each with its maximum difference. |
| ChainWcrt.MaxDifference | this_paper/calc_chain_wcrt.py:22-36 | The accumulator loop computes the maximum of the differences. |
| ChainWcrt.HandlePair | this_paper/calc_chain_wcrt.py:17-38 | The loop body for one pair computes `Pair`: skip on mismatch, `KeyError` on a missing column. |
| ChainWcrt.ComputeMaxDifference | this_paper/calc_chain_wcrt.py:4-40 | `compute_max_difference` on the two tables returns the results map. |

## Left out

- Random draws are inputs with contracts, not sampled. This covers `drs`, `random.sample` (the `random_permutation` helpers), `random.randint`, `random.uniform`, and `math.exp`/`math.log` in `sample_period_log_uniform`. `period_distribution` is an input for each chain.
- `scipy.optimize.fixed_point` is a foreign solver. Each chain receives its outcome as `Option<real>`, with None for `RuntimeError`. Its tolerance argument (`xtol=10-6`, which is 4) is not modelled.
- IEEE floating point is modelled as exact reals. Rounding errors of `v / total * target`, `exp`, and the 1e6/1e9 scalings are not captured.
- The `while` resampling loops run over a finite list of attempts given as input. Where the source would keep drawing forever, the model returns None when the attempts run out.
- File and CLI plumbing is left out: `open`, `csv.reader`/`csv.writer` quoting, `os.makedirs`, `tqdm`, `argparse`, and `print`. Files are sequences of lines or of rows of fields, and writers return rows.
- The sweep drivers are left out: this_paper/convert_sobhani_to_sag.py:390-491, synthetic_tasks.py:218-243 and this_paper/generate_data_for_Jiang_synthetic.py:143-225. So are the module-level calls at this_paper/generate_SagInput_SobhaniCaseStudy.py:194 and this_paper/augment_execution_times.py:34.
- `generate_file` (this_paper/generate_data_for_Jiang_synthetic.py:120-141) is left out. It only draws NC, C and U and concatenates the outputs of `generate_task_set`; one task set is modelled.
- The expanders in this_paper/convert_sobhani_to_sag.py and this_paper/covert_sobhani_to_sag.py loop over the parsed file and name the output files `task_set_<i>.csv`/`pred_<i>.csv`. The model expands one task set per call. Only synthetic_tasks.py's file loop and file names are modelled.
- `pd.read_csv` is not modelled. A table is given as stripped-or-not column names and rows of integer cells. NaN, float cells and pandas' renaming of duplicate column names are not modelled.
- The printed summaries of `process_results` and the ratio's `:.2f` formatting are left out; the model returns typed summary rows.
- `nrof_chains = 0` in the fixed-length converter is allowed, and it yields empty summaries. Theorem 1 is modelled for `m > 0` threads only, because `WorkloadSum / m` divides by m.
- ResponseTime.JiangOnTasksets: a chain whose solver raises `RuntimeError` is skipped without clearing `schedulable` (jiang_et_al/JRTA.py:234-236), so such a set can still count as schedulable. The model follows the code (see ResponseTime.VerdictMatchesResponses).
- Non-positive periods are excluded. Expanders.ExpandOddChains, Expanders.ExpandFixedChains and Expanders.ExpandCaseStudy, the JobRows members (JobRows.EmitRows, JobRows.JobAt, JobRows.EdgeCount and the others that take JobRows.PositivePeriods), and ResponseTime.Instances and ResponseTime.Workload require every period to be positive. In the source a period of 0 makes `math.lcm` return 0, and the expanders then raise `ZeroDivisionError` at `hyperperiod // task_period` (this_paper/convert_sobhani_to_sag.py:200 and :365); JRTA.py raises it at `/ periods[k]` (jiang_et_al/JRTA.py:220). A negative period gives a negative job count, and the source silently emits no jobs for that task. Neither path is modelled. Every generator in the model writes positive periods (SyntheticTasks.GeneratedPeriods, JiangSynthetic.TaskSetChainsShape).
- Text.PyInt accepts only ASCII digits `0`-`9` (with sign, surrounding whitespace and single underscores between digits). Python's `int()` also accepts every other Unicode decimal digit, such as Arabic-Indic digits, so ChainFile.BadLiteralFails, the two chain-file readers and AugmentExecutionTimes.AugmentRowFields fail on such fields where the source reads a number.
- SyntheticTasks.SnapPeriodIsNearestAllowed follows the code's `range(50, 201, 10)` (synthetic_tasks.py:23), so the allowed periods are 50, 60, …, 200 ms. The docstring at synthetic_tasks.py:12 says multiples of 5.
- ProcessResults.ProcessRows returns the summary rows only. The header row `subfolder, ones, total, ratio` that sag_scripts/process_results.py:38 writes before them is CSV plumbing and is in no contract.
- Expanders.ExpandFixedChains requires `b >= 1`, `nrof_chains >= 1` and a flat list of exactly `nrof_chains * (b + 1)` entries (Expanders.FixedInput). On a list of another shape the source truncates at `zip` or raises IndexError at `tasks_by_p[i]` (this_paper/convert_sobhani_to_sag.py:313-386); neither path is modelled. Every file the model generates has that shape (SyntheticTasks.SettledAreFixedInputs).
- Expanders.ExpandCaseStudy requires 4 chains with 13 callbacks in total, the shape the hard-coded priority and predecessor lists are written for.
- JiangSynthetic.SampledPeriodInRange assumes the draw lies in [T_min, T_max + T_g), which is what `uniform(log T_min, log(T_max + T_g))` gives in exact arithmetic. The endpoint that `exp` may reach is not modelled.

## Findings

| source | as written | input that shows it | evidently intended | confidence | as-written member | corrected member |
|---|---|---|---|---|---|---|
| jiang_et_al/JRTA.py:171-173 | Chain k of a variable-length set is read at offset `(k-1)·(chain_lengths[k-1]+1)`, which uses only that chain's own length | Chains `[10, 1, 2]` and `[20, 3]` (flat list `[10, 1, 2, 20, 3]`, lengths `[2, 1]`): chain 2 is read at offset 2 and gets period 2 instead of 20 | Offsets are the prefix sums of the earlier chains' lengths plus one period each | not executed | ResponseTime.UnequalLengthsMisread | ResponseTime.OddSummariesAreChainSummaries |
| jiang_et_al/JRTA.py:227 | The interference sum of `theorem1_L` runs over `range(1, nrof_chains)`, so the last chain never interferes | The two-chain set of ResponseTime.LastChainIgnored at L = 5 with m = 1: the map as written yields 1, Theorem 1 yields 6 | The sum runs over every other chain, `range(1, nrof_chains + 1)` | not executed | ResponseTime.LastChainIgnored | ResponseTime.OtherChainsInterfere |

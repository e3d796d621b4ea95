/**
 * The response-time analysis of jiang_et_al/JRTA.py (Theorem 1 of Jiang et
 * al., "Real-time scheduling and analysis of processing chains on
 * multi-threaded executor in ROS 2", RTSS 2022).
 *
 * A parsed task set is summarised chain by chain (period, total execution
 * time, execution time of the last callback); the interference functions
 * `n`, `W` and the fixed-point map `theorem1_L` are defined on the
 * summaries; the batch loop turns the solver's answer for every chain into
 * a response time, a verdict per task set and the schedulability ratio.
 *
 * The fixed-point solver (`scipy.optimize.fixed_point`) is not modelled: its
 * outcome for every chain is an input, `Some(L)` for a converged value and
 * `None` for a `RuntimeError`.
 */
module ResponseTime {
  import opened Seqs
  import opened Text
  import opened ChainFile
  import Numeric

  /**
   * One chain as the analysis sees it: the entries of the three
   * dictionaries `periods`, `exec_times` and `exec_time_last_cb` under the
   * chain's key. A task set is the sequence of its chains, chain k + 1 at
   * index k.
   */
  datatype Summary = Summary(period: int, exec: int, last: int)

  /** One entry of `reponse_times_per_chain`: (taskset_nr, chain, R, D). */
  datatype Response = Response(tasksetNr: int, chain: int, r: real, d: int)

  /** The outcome of a conversion: the summaries, an `int()` failure while reading, or an `IndexError`. */
  datatype Converted = Converted(sets: seq<seq<Summary>>) | NotAnInteger(literal: string) | IndexOutOfRange

  // ----- Summaries -----

  /** The summary the analysis intends for a chain: its period, its total and its last execution time. */
  function Summarize(c: Chain): (s: Summary)
    requires |c.execs| >= 1
    ensures s.period == c.period
    ensures AllNonNegative(c.execs) ==> 0 <= s.last <= s.exec
  {
    var s := Summary(c.period, Sum(c.execs), c.execs[|c.execs| - 1]);
    assert AllNonNegative(c.execs) ==> s.last <= s.exec by {
      if AllNonNegative(c.execs) {
        SumNonNegative(c.execs[..|c.execs| - 1]);
      }
    }
    s
  }

  /**
   * What the converters read for a chain whose entries are taken to start
   * at `start` and span `width` entries: the period at `start`, the sum of
   * the slice `[start + 1:start + width]` and the entry at
   * `start + width - 1`.
   */
  function StrideSummary(flat: seq<int>, start: int, width: int): Summary
    requires 0 <= start && 1 <= width && start + width <= |flat|
  {
    Summary(flat[start], Sum(flat[start + 1..start + width]), flat[start + width - 1])
  }

  /**
   * Every chain's entries lie inside the flat list. An index past the end
   * raises `IndexError`; the slice in the middle never does, and the last
   * index is the largest one read.
   */
  predicate Fits(flat: seq<int>, starts: seq<int>, widths: seq<int>)
    requires |starts| == |widths|
  {
    forall k :: 0 <= k < |starts| ==> 0 <= starts[k] && 1 <= widths[k] && starts[k] + widths[k] <= |flat|
  }

  function StrideSummaries(flat: seq<int>, starts: seq<int>, widths: seq<int>): Option<seq<Summary>>
    requires |starts| == |widths|
  {
    if Fits(flat, starts, widths) then
      Some(seq(|starts|, k requires 0 <= k < |starts| && Fits(flat, starts, widths) =>
        StrideSummary(flat, starts[k], widths[k])))
    else None
  }

  /** The offsets `(chain - 1) * (nrof_callbacks_per_chain + 1)` of the fixed-length converter. */
  function FixedStarts(nrofChains: nat, b: nat): (r: seq<int>)
    ensures |r| == nrofChains
  {
    seq(nrofChains, k => k * (b + 1))
  }

  /** The offsets `(chain - 1) * (chain_lengths[chain - 1] + 1)` of the variable-length converter, as written. */
  function AsWrittenStarts(lengths: seq<int>): (r: seq<int>)
    ensures |r| == |lengths|
  {
    seq(|lengths|, k requires 0 <= k < |lengths| => k * (lengths[k] + 1))
  }

  /** The offsets of the chains in the flat list: all earlier chains' lengths plus one period each. */
  function PrefixStarts(lengths: seq<int>): (r: seq<int>)
    ensures |r| == |lengths|
  {
    seq(|lengths|, k requires 0 <= k < |lengths| => Sum(lengths[..k]) + k)
  }

  /** A chain spans its period and its callbacks. */
  function Widths(lengths: seq<int>): (r: seq<int>)
    ensures |r| == |lengths|
  {
    seq(|lengths|, k requires 0 <= k < |lengths| => lengths[k] + 1)
  }

  /** The loop of `convert_sobhani_synthetic_to_jiang` over one flat task set. */
  function FixedSummaries(flat: seq<int>, nrofChains: nat, b: nat): Option<seq<Summary>>
  {
    StrideSummaries(flat, FixedStarts(nrofChains, b), Repeat<int>(b + 1, nrofChains))
  }

  /** The loop of `convert_sobhani_syntethic_odd_to_jiang` over one task set, as written. */
  function OddSummariesAsWritten(ts: TaskSet): Option<seq<Summary>>
  {
    StrideSummaries(ts.flat, AsWrittenStarts(ts.lengths), Widths(ts.lengths))
  }

  /** The variable-length conversion with each chain read at its own offset in the flat list. */
  function OddSummaries(ts: TaskSet): Option<seq<Summary>>
  {
    StrideSummaries(ts.flat, PrefixStarts(ts.lengths), Widths(ts.lengths))
  }

  /** The summary of chain k of the chain cut, read at the prefix offset. */
  lemma PrefixStrideIsChain(ts: TaskSet, k: nat)
    requires WellFormed(ts) && k < |ts.lengths|
    ensures var p := Sum(ts.lengths[..k]) + k;
      && 0 <= p && p + ts.lengths[k] + 1 <= |ts.flat|
      && |Chains(ts.flat, ts.lengths)[k].execs| >= 1
      && StrideSummary(ts.flat, p, ts.lengths[k] + 1) == Summarize(Chains(ts.flat, ts.lengths)[k])
  {
    ChainsAt(ts.flat, ts.lengths, k);
    var p := Sum(ts.lengths[..k]) + k;
    var len := ts.lengths[k];
    assert ts.flat[p + 1..p + 1 + len][len - 1] == ts.flat[p + len];
  }

  /**
   * Reading every chain at its prefix offset never leaves the flat list,
   * and gives each chain of the parsed task set its own period, the total of
   * its execution times and its last execution time.
   */
  lemma OddSummariesAreChainSummaries(ts: TaskSet)
    requires WellFormed(ts)
    ensures OddSummaries(ts).Some?
    ensures |OddSummaries(ts).value| == |ts.lengths|
    ensures forall k :: 0 <= k < |ts.lengths| ==>
      |Chains(ts.flat, ts.lengths)[k].execs| >= 1
      && OddSummaries(ts).value[k] == Summarize(Chains(ts.flat, ts.lengths)[k])
  {
    var starts, widths := PrefixStarts(ts.lengths), Widths(ts.lengths);
    forall k | 0 <= k < |ts.lengths|
      ensures 0 <= starts[k] && 1 <= widths[k] && starts[k] + widths[k] <= |ts.flat|
    {
      PrefixStrideIsChain(ts, k);
    }
    forall k | 0 <= k < |ts.lengths|
      ensures |Chains(ts.flat, ts.lengths)[k].execs| >= 1
      ensures OddSummaries(ts).value[k] == Summarize(Chains(ts.flat, ts.lengths)[k])
    {
      PrefixStrideIsChain(ts, k);
    }
  }

  /** When every chain has the same length the offsets as written are the prefix offsets. */
  lemma EqualLengthsAgree(flat: seq<int>, nrofChains: nat, b: nat)
    ensures OddSummariesAsWritten(TaskSet(flat, Repeat<int>(b, nrofChains))) == OddSummaries(TaskSet(flat, Repeat<int>(b, nrofChains)))
    ensures FixedSummaries(flat, nrofChains, b) == OddSummaries(TaskSet(flat, Repeat<int>(b, nrofChains)))
  {
    var lengths: seq<int> := Repeat<int>(b, nrofChains);
    forall k | 0 <= k < nrofChains ensures AsWrittenStarts(lengths)[k] == PrefixStarts(lengths)[k] {
      assert lengths[..k] == Repeat<int>(b, k);
      SumRepeat(b, k);
      Distribute(k, b);
    }
    assert AsWrittenStarts(lengths) == PrefixStarts(lengths);
    assert FixedStarts(nrofChains, b) == AsWrittenStarts(lengths);
    assert Repeat<int>(b + 1, nrofChains) == Widths(lengths);
  }

  /**
   * The fixed-length converter applied to a flat list of nrofChains chains
   * of b callbacks gives every chain its own summary.
   */
  lemma FixedSummariesAreChainSummaries(flat: seq<int>, nrofChains: nat, b: nat)
    requires nrofChains >= 1 && b >= 1 && |flat| == nrofChains * (b + 1)
    ensures WellFormed(TaskSet(flat, Repeat<int>(b, nrofChains)))
    ensures FixedSummaries(flat, nrofChains, b).Some?
    ensures |FixedSummaries(flat, nrofChains, b).value| == nrofChains
    ensures forall k :: 0 <= k < nrofChains ==>
      |Chains(flat, Repeat<int>(b, nrofChains))[k].execs| >= 1
      && FixedSummaries(flat, nrofChains, b).value[k] == Summarize(Chains(flat, Repeat<int>(b, nrofChains))[k])
  {
    ChainLayoutShape(flat, nrofChains, b);
    EqualLengthsAgree(flat, nrofChains, b);
    OddSummariesAreChainSummaries(TaskSet(flat, Repeat<int>(b, nrofChains)));
  }

  lemma ChainLayoutShape(flat: seq<int>, nrofChains: nat, b: nat)
    requires nrofChains >= 1 && b >= 1 && |flat| == nrofChains * (b + 1)
    ensures WellFormed(TaskSet(flat, Repeat<int>(b, nrofChains)))
  {
    var lengths: seq<int> := Repeat<int>(b, nrofChains);
    SumRepeat(b, nrofChains);
    Distribute(nrofChains, b);
    assert |flat| == Sum(lengths) + |lengths|;
  }

  lemma Distribute(k: int, b: int)
    ensures k * (b + 1) == k * b + k
  {
  }

  /** Chains of two and one callbacks: the second chain is read at offset 2 instead of 3. */
  const UnequalFlat: seq<int> := [10, 1, 2, 20, 3]
  const UnequalLengths: seq<int> := [2, 1]

  /**
   * With chains of unequal length the offsets as written read the second
   * chain's period from the first chain's callbacks: the summary has period
   * 2, where the chain's period is 20.
   */
  lemma UnequalLengthsMisread()
    ensures WellFormed(TaskSet(UnequalFlat, UnequalLengths))
    ensures Chains(UnequalFlat, UnequalLengths)[1].period == 20
    ensures OddSummariesAsWritten(TaskSet(UnequalFlat, UnequalLengths)) == Some([Summary(10, 3, 2), Summary(2, 20, 20)])
    ensures OddSummaries(TaskSet(UnequalFlat, UnequalLengths)) == Some([Summary(10, 3, 2), Summary(20, 3, 3)])
  {
    assert UnequalLengths[..1] == [2] && UnequalLengths[..0] == [];
    assert Sum(UnequalLengths) == 3 by {
      assert UnequalLengths[..1] == [2];
    }
    ChainsAt(UnequalFlat, UnequalLengths, 1);
    assert Sum([1, 2]) == 3 by {
      assert [1, 2][..1] == [1];
    }
    UnequalReadAsWritten();
    UnequalReadByPrefix();
  }

  /** The offsets as written read the second chain from offset 2, inside the first chain. */
  lemma UnequalReadAsWritten()
    ensures OddSummariesAsWritten(TaskSet(UnequalFlat, UnequalLengths)) == Some([Summary(10, 3, 2), Summary(2, 20, 20)])
  {
    var ts := TaskSet(UnequalFlat, UnequalLengths);
    assert UnequalFlat[1..3] == [1, 2] && UnequalFlat[3..4] == [20];
    var first, misread := StrideSummary(UnequalFlat, 0, 3), StrideSummary(UnequalFlat, 2, 2);
    assert first == Summary(10, 3, 2) && misread == Summary(2, 20, 20);
    var widths := Widths(UnequalLengths);
    assert widths == [3, 2];
    var written := AsWrittenStarts(UnequalLengths);
    assert written == [0, 2];
    assert Fits(UnequalFlat, written, widths);
    assert OddSummariesAsWritten(ts).value == [first, misread];
  }

  /** The prefix offsets read the second chain from offset 3, where it starts. */
  lemma UnequalReadByPrefix()
    ensures OddSummaries(TaskSet(UnequalFlat, UnequalLengths)) == Some([Summary(10, 3, 2), Summary(20, 3, 3)])
  {
    var ts := TaskSet(UnequalFlat, UnequalLengths);
    assert UnequalLengths[..1] == [2] && UnequalLengths[..0] == [];
    assert UnequalFlat[1..3] == [1, 2] && UnequalFlat[4..5] == [3];
    var first, second := StrideSummary(UnequalFlat, 0, 3), StrideSummary(UnequalFlat, 3, 2);
    assert first == Summary(10, 3, 2) && second == Summary(20, 3, 3);
    var widths := Widths(UnequalLengths);
    assert widths == [3, 2];
    var prefix := PrefixStarts(UnequalLengths);
    assert prefix == [0, 3];
    assert Fits(UnequalFlat, prefix, widths);
    assert OddSummaries(ts).value == [first, second];
  }

  // ----- The conversion loops -----

  /** Every flat task set is converted, or the first one that does not fit raises `IndexError`. */
  function FixedSets(flats: seq<seq<int>>, nrofChains: nat, b: nat): Converted
  {
    if forall i :: 0 <= i < |flats| ==> FixedSummaries(flats[i], nrofChains, b).Some? then
      Converted(seq(|flats|, i requires 0 <= i < |flats| && FixedSummaries(flats[i], nrofChains, b).Some? =>
        FixedSummaries(flats[i], nrofChains, b).value))
    else IndexOutOfRange
  }

  /** `convert_sobhani_synthetic_to_jiang(nrof_chains, nrof_callbacks_per_chain, input)` on the file's lines. */
  function ConvertFixed(nrofChains: nat, b: nat, lines: seq<string>): Converted
  {
    match ParseFixed(lines)
    case Failure(l) => NotAnInteger(l)
    case Success(flats) => FixedSets(flats, nrofChains, b)
  }

  /** Every task set is converted with the offsets as written, or the first one that does not fit raises `IndexError`. */
  function OddSetsAsWritten(sets: seq<TaskSet>): Converted
  {
    if forall i :: 0 <= i < |sets| ==> OddSummariesAsWritten(sets[i]).Some? then
      Converted(seq(|sets|, i requires 0 <= i < |sets| && OddSummariesAsWritten(sets[i]).Some? =>
        OddSummariesAsWritten(sets[i]).value))
    else IndexOutOfRange
  }

  /** `convert_sobhani_syntethic_odd_to_jiang(input)` on the file's lines, as written. */
  function ConvertOddAsWritten(lines: seq<string>): Converted
  {
    match ParseOdd(lines)
    case Failure(l) => NotAnInteger(l)
    case Success(sets) => OddSetsAsWritten(sets)
  }

  /** The variable-length conversion with prefix offsets: every parsed chain summarised. */
  function ConvertOdd(lines: seq<string>): (r: Converted)
    ensures ParseOdd(lines).Failure? ==> r == NotAnInteger(ParseOdd(lines).literal)
    ensures ParseOdd(lines).Success? ==> r.Converted? && |r.sets| == |ParseOdd(lines).value|
  {
    match ParseOdd(lines)
    case Failure(l) => NotAnInteger(l)
    case Success(sets) =>
      ParsedSetsWellFormed(lines);
      forall i | 0 <= i < |sets| ensures OddSummaries(sets[i]).Some? {
        OddSummariesAreChainSummaries(sets[i]);
      }
      Converted(seq(|sets|, i requires 0 <= i < |sets| => OddSummaries(sets[i]).value))
  }

  /**
   * Converting with prefix offsets gives, for every parsed task set and
   * every chain in it, that chain's period, total execution time and last
   * execution time.
   */
  lemma ConvertOddSummarizesChains(lines: seq<string>, i: nat, k: nat)
    requires ParseOdd(lines).Success? && i < |ParseOdd(lines).value|
    requires k < |ParseOdd(lines).value[i].lengths|
    ensures var ts := ParseOdd(lines).value[i];
      && WellFormed(ts) && |Chains(ts.flat, ts.lengths)[k].execs| >= 1
      && ConvertOdd(lines).Converted? && |ConvertOdd(lines).sets[i]| == |ts.lengths|
      && ConvertOdd(lines).sets[i][k] == Summarize(Chains(ts.flat, ts.lengths)[k])
  {
    ParsedSetsWellFormed(lines);
    OddSummariesAreChainSummaries(ParseOdd(lines).value[i]);
  }

  /** The body of the per-chain loop: the three dictionary entries, or `IndexError`. */
  method ReadChain(flat: seq<int>, start: int, width: int) returns (s: Option<Summary>)
    requires 1 <= width && 0 <= start
    ensures s.Some? <==> start + width <= |flat|
    ensures s.Some? ==> s.value == StrideSummary(flat, start, width)
  {
    if start + width - 1 >= |flat| {
      return None;
    }
    s := Some(Summary(flat[start], Sum(flat[start + 1..start + width]), flat[start + width - 1]));
  }

  /** One chain past the end is enough for the set not to fit. */
  lemma NotFitsAt(flat: seq<int>, starts: seq<int>, widths: seq<int>, i: nat)
    requires |starts| == |widths| && i < |starts|
    requires !(0 <= starts[i] && 1 <= widths[i] && starts[i] + widths[i] <= |flat|)
    ensures !Fits(flat, starts, widths)
  {
  }

  lemma FitsStep(flat: seq<int>, starts: seq<int>, widths: seq<int>, i: nat)
    requires |starts| == |widths| && i < |starts|
    requires forall k :: 0 <= k < i ==> 0 <= starts[k] && 1 <= widths[k] && starts[k] + widths[k] <= |flat|
    requires 0 <= starts[i] && 1 <= widths[i] && starts[i] + widths[i] <= |flat|
    ensures forall k :: 0 <= k < i + 1 ==> 0 <= starts[k] && 1 <= widths[k] && starts[k] + widths[k] <= |flat|
  {
  }

  /** The chain loop of `convert_sobhani_synthetic_to_jiang` over one flat task set. */
  method SummarizeFixed(taskset: seq<int>, nrofChains: nat, b: nat) returns (r: Option<seq<Summary>>)
    ensures r == FixedSummaries(taskset, nrofChains, b)
  {
    ghost var starts, widths := FixedStarts(nrofChains, b), Repeat<int>(b + 1, nrofChains);
    var summaries: seq<Summary> := [];
    var chain := 1;
    while chain <= nrofChains
      invariant 1 <= chain <= nrofChains + 1
      invariant |summaries| == chain - 1
      invariant forall k :: 0 <= k < chain - 1 ==> 0 <= starts[k] && 1 <= widths[k] && starts[k] + widths[k] <= |taskset|
      invariant forall k :: 0 <= k < chain - 1 ==> summaries[k] == StrideSummary(taskset, starts[k], widths[k])
    {
      var s := ReadChain(taskset, (chain - 1) * (b + 1), b + 1);
      if s.None? {
        assert !Fits(taskset, starts, widths);
        return None;
      }
      FitsStep(taskset, starts, widths, chain - 1);
      summaries := summaries + [s.value];
      chain := chain + 1;
    }
    assert Fits(taskset, starts, widths);
    assert summaries == seq(nrofChains, k requires 0 <= k < nrofChains && Fits(taskset, starts, widths) =>
      StrideSummary(taskset, starts[k], widths[k]));
    r := Some(summaries);
  }

  /** The chain loop of `convert_sobhani_syntethic_odd_to_jiang` over one task set, with its offsets as written. */
  method SummarizeOddAsWritten(taskset: TaskSet) returns (r: Option<seq<Summary>>)
    requires AllNonNegative(taskset.lengths)
    ensures r == OddSummariesAsWritten(taskset)
  {
    var ts, chainLengths := taskset.flat, taskset.lengths;
    ghost var starts, widths := AsWrittenStarts(chainLengths), Widths(chainLengths);
    var summaries: seq<Summary> := [];
    var chain := 1;
    while chain <= |chainLengths|
      invariant 1 <= chain <= |chainLengths| + 1
      invariant |summaries| == chain - 1
      invariant forall k :: 0 <= k < chain - 1 ==> 0 <= starts[k] && 1 <= widths[k] && starts[k] + widths[k] <= |ts|
      invariant forall k :: 0 <= k < chain - 1 ==> summaries[k] == StrideSummary(ts, starts[k], widths[k])
    {
      var len := chainLengths[chain - 1];
      Numeric.MulMonotone(chain - 1, 0, len + 1);
      assert starts[chain - 1] == (chain - 1) * (len + 1) && widths[chain - 1] == len + 1;
      var s := ReadChain(ts, (chain - 1) * (len + 1), len + 1);
      if s.None? {
        NotFitsAt(ts, starts, widths, chain - 1);
        return None;
      }
      FitsStep(ts, starts, widths, chain - 1);
      ghost var before := summaries;
      summaries := summaries + [s.value];
      forall k | 0 <= k < chain
        ensures summaries[k] == StrideSummary(ts, starts[k], widths[k])
      {
        if k < chain - 1 { assert summaries[k] == before[k]; }
      }
      chain := chain + 1;
    }
    assert Fits(ts, starts, widths);
    assert summaries == seq(|chainLengths|, k requires 0 <= k < |chainLengths| && Fits(ts, starts, widths) =>
      StrideSummary(ts, starts[k], widths[k]));
    r := Some(summaries);
  }

  /** `convert_sobhani_synthetic_to_jiang`: read the file, then summarise every task set in turn. */
  method ConvertSyntheticToJiang(nrofChains: nat, b: nat, lines: seq<string>) returns (r: Converted)
    ensures r == ConvertFixed(nrofChains, b, lines)
  {
    var parsed := ChainFile.ParseTaskSets(lines);
    if parsed.Failure? {
      return NotAnInteger(parsed.literal);
    }
    var tasksets := parsed.value;
    var result: seq<seq<Summary>> := [];
    var i := 0;
    while i < |tasksets|
      invariant 0 <= i <= |tasksets|
      invariant |result| == i
      invariant forall j :: 0 <= j < i ==> FixedSummaries(tasksets[j], nrofChains, b) == Some(result[j])
    {
      var one := SummarizeFixed(tasksets[i], nrofChains, b);
      if one.None? {
        return IndexOutOfRange;
      }
      result := result + [one.value];
      i := i + 1;
    }
    assert result == seq(|tasksets|, j requires 0 <= j < |tasksets| && FixedSummaries(tasksets[j], nrofChains, b).Some? =>
      FixedSummaries(tasksets[j], nrofChains, b).value);
    r := Converted(result);
  }

  /** `convert_sobhani_syntethic_odd_to_jiang`, with its offsets as written. */
  method ConvertOddToJiangAsWritten(lines: seq<string>) returns (r: Converted)
    ensures r == ConvertOddAsWritten(lines)
  {
    var parsed := ChainFile.ParseOddChains(lines);
    if parsed.Failure? {
      return NotAnInteger(parsed.literal);
    }
    var tasksets := parsed.value;
    ParsedSetsAreWellFormed(lines);
    var result: seq<seq<Summary>> := [];
    var i := 0;
    while i < |tasksets|
      invariant 0 <= i <= |tasksets|
      invariant |result| == i
      invariant forall j :: 0 <= j < i ==> OddSummariesAsWritten(tasksets[j]) == Some(result[j])
    {
      assert WellFormed(tasksets[i]);
      var one := SummarizeOddAsWritten(tasksets[i]);
      if one.None? {
        return IndexOutOfRange;
      }
      result := result + [one.value];
      i := i + 1;
    }
    assert result == seq(|tasksets|, j requires 0 <= j < |tasksets| && OddSummariesAsWritten(tasksets[j]).Some? =>
      OddSummariesAsWritten(tasksets[j]).value);
    r := Converted(result);
  }

  lemma ParsedSetsAreWellFormed(lines: seq<string>)
    requires ParseOdd(lines).Success?
    ensures forall k :: 0 <= k < |ParseOdd(lines).value| ==> WellFormed(ParseOdd(lines).value[k])
  {
    ParsedSetsWellFormed(lines);
  }

  // ----- Theorem 1 -----

  /** Every chain of the task set has a positive period (`n` divides by it). */
  predicate PositivePeriods(sums: seq<Summary>)
  {
    forall i :: 0 <= i < |sums| ==> sums[i].period > 0
  }

  /** `n(k, L)`: the number of instances of a chain that can fall into a window of length L. */
  function Instances(s: Summary, L: real): (n: int)
    requires s.period > 0
    ensures L >= s.exec as real ==> n >= 1
  {
    Numeric.Ceil((L - s.exec as real) / s.period as real) + 1
  }

  /** Python's `min` on two numbers: the first unless the second is smaller. */
  function RealMin(a: real, b: real): real
  {
    if b < a then b else a
  }

  /**
   * `W(k, L)`: the workload of a chain in a window of length L, the full
   * execution time of all instances but one plus the part of the remaining
   * one that fits, and never more than a full execution time for it.
   */
  function Workload(s: Summary, L: real): (w: real)
    requires s.period > 0
    ensures s.exec >= 0 ==> (Instances(s, L) - 1) as real * s.exec as real <= w <= Instances(s, L) as real * s.exec as real
    ensures s.exec >= 0 && L >= s.exec as real ==> w >= 0.0
  {
    Spread(Instances(s, L), s.exec as real, TailShare(s, L))
  }

  /** The share of the last instance in the window, `min((L - C) % T, C)`. */
  function TailShare(s: Summary, L: real): (tail: real)
    requires s.period > 0
    ensures s.exec >= 0 ==> 0.0 <= tail <= s.exec as real
  {
    RealMin(Numeric.FloatMod(L - s.exec as real, s.period as real), s.exec as real)
  }

  /** n - 1 whole executions of length c and a share of at most one more. */
  function Spread(n: int, c: real, tail: real): (w: real)
    ensures 0.0 <= tail <= c ==> (n - 1) as real * c <= w <= n as real * c
    ensures 0.0 <= tail <= c && n >= 1 ==> w >= 0.0
  {
    var w := (n - 1) as real * c + tail;
    assert n as real * c == (n - 1) as real * c + c;
    if n >= 1 && 0.0 <= c then NonNegativeProduct((n - 1) as real, c); w else w
  }

  lemma NonNegativeProduct(a: real, b: real)
    requires a >= 0.0 && b >= 0.0
    ensures a * b >= 0.0
  {
  }

  /** The workload sum of `theorem1_L` over the chains 1 .. hi - 1 other than `chain`. */
  function Interference(sums: seq<Summary>, chain: int, L: real, hi: nat): real
    requires PositivePeriods(sums) && hi <= |sums| + 1
  {
    if hi <= 1 then 0.0
    else Interference(sums, chain, L, hi - 1) + (if hi - 1 != chain then Workload(sums[hi - 2], L) else 0.0)
  }

  /**
   * `theorem1_L(L)` as written: the chain's execution time without its last
   * callback, plus the workload of the chains in `range(1, nrof_chains)`
   * other than the chain itself, divided by the number of threads m.
   */
  function TheoremOneAsWritten(sums: seq<Summary>, chain: int, m: int, L: real): real
    requires PositivePeriods(sums) && 1 <= chain <= |sums| && m > 0
  {
    var s := sums[chain - 1];
    (s.exec - s.last) as real + Interference(sums, chain, L, |sums|) / m as real
  }

  /** Theorem 1 with the workload of every other chain, the last one included. */
  function TheoremOne(sums: seq<Summary>, chain: int, m: int, L: real): real
    requires PositivePeriods(sums) && 1 <= chain <= |sums| && m > 0
  {
    var s := sums[chain - 1];
    (s.exec - s.last) as real + Interference(sums, chain, L, |sums| + 1) / m as real
  }

  /** The accumulation loop of `theorem1_L`. */
  method TheoremOneMap(sums: seq<Summary>, chain: int, m: int, L: real) returns (f: real)
    requires PositivePeriods(sums) && 1 <= chain <= |sums| && m > 0
    ensures f == TheoremOneAsWritten(sums, chain, m, L)
  {
    var workloadSum := 0.0;
    var i := 1;
    while i < |sums|
      invariant 1 <= i <= |sums|
      invariant workloadSum == Interference(sums, chain, L, i)
    {
      if chain != i {
        workloadSum := workloadSum + Workload(sums[i - 1], L);
      }
      i := i + 1;
    }
    f := (sums[chain - 1].exec - sums[chain - 1].last) as real + workloadSum / m as real;
  }

  /** With every workload non-negative, the sum up to hi holds the workload of each counted chain j. */
  lemma {:induction false} InterferenceHolds(sums: seq<Summary>, chain: int, L: real, hi: nat, j: int)
    requires PositivePeriods(sums) && hi <= |sums| + 1
    requires forall i :: 0 <= i < |sums| ==> 0 <= sums[i].exec && sums[i].exec as real <= L
    requires 1 <= j < hi && j != chain
    ensures Interference(sums, chain, L, hi) >= Workload(sums[j - 1], L)
  {
    InterferenceNonNegative(sums, chain, L, hi - 1);
    if j < hi - 1 {
      InterferenceHolds(sums, chain, L, hi - 1, j);
      assert Workload(sums[hi - 2], L) >= 0.0;
    }
  }

  lemma {:induction false} InterferenceNonNegative(sums: seq<Summary>, chain: int, L: real, hi: nat)
    requires PositivePeriods(sums) && hi <= |sums| + 1
    requires forall i :: 0 <= i < |sums| ==> 0 <= sums[i].exec && sums[i].exec as real <= L
    ensures Interference(sums, chain, L, hi) >= 0.0
  {
    if hi > 1 {
      InterferenceNonNegative(sums, chain, L, hi - 1);
      assert Workload(sums[hi - 2], L) >= 0.0;
    }
  }

  /**
   * Every other chain interferes: once the window is at least as long as
   * every chain's execution time, Theorem 1 charges the chain at least the
   * workload of any other chain j, divided by m.
   */
  lemma OtherChainsInterfere(sums: seq<Summary>, chain: int, m: int, L: real, j: int)
    requires PositivePeriods(sums) && 1 <= chain <= |sums| && m > 0
    requires forall i :: 0 <= i < |sums| ==> 0 <= sums[i].exec && sums[i].exec as real <= L
    requires 1 <= j <= |sums| && j != chain
    ensures TheoremOne(sums, chain, m, L) >= (sums[chain - 1].exec - sums[chain - 1].last) as real + Workload(sums[j - 1], L) / m as real
  {
    InterferenceHolds(sums, chain, L, |sums| + 1, j);
    DivideMonotone(Interference(sums, chain, L, |sums| + 1), Workload(sums[j - 1], L), m as real);
  }

  lemma DivideMonotone(a: real, b: real, m: real)
    requires a >= b && m > 0.0
    ensures a / m >= b / m
  {
  }

  /** As written, the map differs from Theorem 1 by exactly the workload of the last chain, for every chain but the last. */
  lemma AsWrittenOmitsLastChain(sums: seq<Summary>, chain: int, m: int, L: real)
    requires PositivePeriods(sums) && 1 <= chain < |sums| && m > 0
    ensures TheoremOne(sums, chain, m, L) == TheoremOneAsWritten(sums, chain, m, L) + Workload(sums[|sums| - 1], L) / m as real
  {
    DivideSum(Interference(sums, chain, L, |sums|), Workload(sums[|sums| - 1], L), m as real);
  }

  lemma DivideSum(a: real, b: real, m: real)
    requires m > 0.0
    ensures (a + b) / m == a / m + b / m
  {
  }

  /** Two chains, the second with period 10 and execution time 3. */
  const TwoChains: seq<Summary> := [Summary(10, 2, 1), Summary(10, 3, 3)]

  /**
   * For chain 1 of TwoChains at L = 5 on one thread, the second chain's
   * workload is 5, yet the map as written charges nothing for it: it yields 1
   * where Theorem 1 yields 6.
   */
  lemma LastChainIgnored()
    ensures PositivePeriods(TwoChains)
    ensures Workload(TwoChains[1], 5.0) == 5.0
    ensures TheoremOneAsWritten(TwoChains, 1, 1, 5.0) == 1.0
    ensures TheoremOne(TwoChains, 1, 1, 5.0) == 6.0
  {
    var s := TwoChains[1];
    assert (5.0 - 3.0) / 10.0 == 0.2;
    assert Numeric.Ceil(0.2) == 1;
    assert Instances(s, 5.0) == 2;
    assert Numeric.FloatMod(2.0, 10.0) == 2.0 by {
      assert (2.0 / 10.0).Floor == 0;
    }
    assert TailShare(s, 5.0) == 2.0;
    assert Workload(s, 5.0) == 5.0;
  }

  /** With a single chain there is no other chain: the map is constant, and a fixed point gives the response time C. */
  lemma SingleChain(sums: seq<Summary>, m: int, L: real)
    requires PositivePeriods(sums) && |sums| == 1 && m > 0
    ensures TheoremOneAsWritten(sums, 1, m, L) == TheoremOne(sums, 1, m, L) == (sums[0].exec - sums[0].last) as real
    ensures L == TheoremOne(sums, 1, m, L) ==> L + sums[0].last as real == sums[0].exec as real
  {
    assert Interference(sums, 1, L, 1) == 0.0;
    assert Interference(sums, 1, L, 2) == 0.0;
  }

  // ----- The batch -----

  /** A converged chain whose response time L + C_last exceeds its period. */
  predicate Misses(s: Summary, outcome: Option<real>)
  {
    outcome.Some? && outcome.value + s.last as real > s.period as real
  }

  /** A task set counts as schedulable unless a converged chain misses its deadline. */
  predicate Schedulable(sums: seq<Summary>, outcomes: seq<Option<real>>)
    requires |outcomes| == |sums|
  {
    forall k :: 0 <= k < |sums| ==> !Misses(sums[k], outcomes[k])
  }

  /** The response entries of one task set: one per converged chain, in chain order. */
  function SetResponses(nr: int, sums: seq<Summary>, outcomes: seq<Option<real>>): seq<Response>
    requires |outcomes| == |sums|
  {
    if sums == [] then []
    else
      var n := |sums| - 1;
      SetResponses(nr, sums[..n], outcomes[..n]) +
        match outcomes[n]
        case None => []
        case Some(L) => [Response(nr, n + 1, L + sums[n].last as real, sums[n].period)]
  }

  predicate Shaped(sets: seq<seq<Summary>>, outcomes: seq<seq<Option<real>>>)
  {
    |outcomes| == |sets| && forall i :: 0 <= i < |sets| ==> |outcomes[i]| == |sets[i]|
  }

  /** All response entries of a batch, the task sets numbered from 1. */
  function AllResponses(sets: seq<seq<Summary>>, outcomes: seq<seq<Option<real>>>): seq<Response>
    requires Shaped(sets, outcomes)
  {
    if sets == [] then []
    else
      var n := |sets| - 1;
      AllResponses(sets[..n], outcomes[..n]) + SetResponses(n + 1, sets[n], outcomes[n])
  }

  /** The number of schedulable task sets. */
  function CountSchedulable(sets: seq<seq<Summary>>, outcomes: seq<seq<Option<real>>>): (r: nat)
    requires Shaped(sets, outcomes)
    ensures r <= |sets|
  {
    if sets == [] then 0
    else
      var n := |sets| - 1;
      CountSchedulable(sets[..n], outcomes[..n]) + (if Schedulable(sets[n], outcomes[n]) then 1 else 0)
  }

  /** `sched_task_sets / len(tasksets)`; an empty batch raises `ZeroDivisionError`. */
  function Ratio(sets: seq<seq<Summary>>, outcomes: seq<seq<Option<real>>>): Option<real>
    requires Shaped(sets, outcomes)
  {
    if sets == [] then None else Some(CountSchedulable(sets, outcomes) as real / |sets| as real)
  }

  /** The ratio lies in [0, 1]; it is 1 exactly when every task set is schedulable. */
  lemma RatioBounds(sets: seq<seq<Summary>>, outcomes: seq<seq<Option<real>>>)
    requires Shaped(sets, outcomes) && sets != []
    ensures 0.0 <= Ratio(sets, outcomes).value <= 1.0
    ensures Ratio(sets, outcomes).value == 1.0 <==> CountSchedulable(sets, outcomes) == |sets|
  {
    FractionBounds(CountSchedulable(sets, outcomes) as real, |sets| as real);
  }

  /** A part over a positive whole lies in [0, 1], and is 1 exactly when the part is the whole. */
  lemma FractionBounds(c: real, n: real)
    requires 0.0 <= c <= n && n > 0.0
    ensures 0.0 <= c / n <= 1.0
    ensures c / n == 1.0 <==> c == n
  {
    assert c / n <= 1.0 by {
      assert c <= n;
    }
    if c / n == 1.0 {
      assert c == (c / n) * n;
    }
  }

  /** The entries of one task set: exactly the converged chains, each with R = L + C_last and D = its period. */
  lemma {:induction false} SetResponsesAre(nr: int, sums: seq<Summary>, outcomes: seq<Option<real>>)
    requires |outcomes| == |sums|
    ensures forall r :: r in SetResponses(nr, sums, outcomes) <==>
      exists k :: 0 <= k < |sums| && outcomes[k].Some? &&
        r == Response(nr, k + 1, outcomes[k].value + sums[k].last as real, sums[k].period)
  {
    if sums != [] {
      var n := |sums| - 1;
      SetResponsesAre(nr, sums[..n], outcomes[..n]);
      forall r ensures r in SetResponses(nr, sums, outcomes) <==>
        exists k :: 0 <= k < |sums| && outcomes[k].Some? &&
          r == Response(nr, k + 1, outcomes[k].value + sums[k].last as real, sums[k].period)
      {
        if r in SetResponses(nr, sums[..n], outcomes[..n]) {
          var k :| 0 <= k < n && outcomes[..n][k].Some? &&
            r == Response(nr, k + 1, outcomes[..n][k].value + sums[..n][k].last as real, sums[..n][k].period);
          assert outcomes[k] == outcomes[..n][k] && sums[k] == sums[..n][k];
        }
        if exists k :: (0 <= k < |sums| && outcomes[k].Some? &&
          r == Response(nr, k + 1, outcomes[k].value + sums[k].last as real, sums[k].period))
        {
          var k :| 0 <= k < |sums| && outcomes[k].Some? &&
            r == Response(nr, k + 1, outcomes[k].value + sums[k].last as real, sums[k].period);
          if k < n {
            assert outcomes[k] == outcomes[..n][k] && sums[k] == sums[..n][k];
          }
        }
      }
    }
  }

  /**
   * The verdict agrees with the recorded entries: a task set is schedulable
   * exactly when no entry of it has R > D. A chain whose solver failed leaves
   * no entry and so cannot make the set unschedulable.
   */
  lemma VerdictMatchesResponses(nr: int, sums: seq<Summary>, outcomes: seq<Option<real>>)
    requires |outcomes| == |sums|
    ensures Schedulable(sums, outcomes) <==> forall r :: r in SetResponses(nr, sums, outcomes) ==> r.r <= r.d as real
  {
    SetResponsesAre(nr, sums, outcomes);
    if !Schedulable(sums, outcomes) {
      var k :| 0 <= k < |sums| && Misses(sums[k], outcomes[k]);
      assert Response(nr, k + 1, outcomes[k].value + sums[k].last as real, sums[k].period) in SetResponses(nr, sums, outcomes);
    }
  }

  /** `jiang_on_tasksets`: the per-chain outcomes of the solver turned into entries, verdicts and the ratio. */
  method JiangOnTasksets(tasksets: seq<seq<Summary>>, outcomes: seq<seq<Option<real>>>)
    returns (ratio: Option<real>, responses: seq<Response>)
    requires Shaped(tasksets, outcomes)
    ensures responses == AllResponses(tasksets, outcomes)
    ensures ratio == Ratio(tasksets, outcomes)
  {
    var tasksetNr := 1;
    var schedTaskSets := 0;
    responses := [];
    while tasksetNr <= |tasksets|
      invariant 1 <= tasksetNr <= |tasksets| + 1
      invariant Shaped(tasksets[..tasksetNr - 1], outcomes[..tasksetNr - 1])
      invariant responses == AllResponses(tasksets[..tasksetNr - 1], outcomes[..tasksetNr - 1])
      invariant schedTaskSets == CountSchedulable(tasksets[..tasksetNr - 1], outcomes[..tasksetNr - 1])
    {
      var sums, outs := tasksets[tasksetNr - 1], outcomes[tasksetNr - 1];
      var schedulable, entries := ChainVerdicts(tasksetNr, sums, outs);
      responses := responses + entries;
      if schedulable {
        schedTaskSets := schedTaskSets + 1;
      }
      BatchStep(tasksets, outcomes, tasksetNr - 1);
      tasksetNr := tasksetNr + 1;
    }
    assert tasksets[..|tasksets|] == tasksets && outcomes[..|tasksets|] == outcomes;
    if |tasksets| == 0 {
      return None, responses;
    }
    ratio := Some(schedTaskSets as real / |tasksets| as real);
  }

  lemma BatchStep(sets: seq<seq<Summary>>, outcomes: seq<seq<Option<real>>>, i: nat)
    requires Shaped(sets, outcomes) && i < |sets|
    ensures Shaped(sets[..i + 1], outcomes[..i + 1])
    ensures AllResponses(sets[..i + 1], outcomes[..i + 1]) == AllResponses(sets[..i], outcomes[..i]) + SetResponses(i + 1, sets[i], outcomes[i])
    ensures CountSchedulable(sets[..i + 1], outcomes[..i + 1]) == CountSchedulable(sets[..i], outcomes[..i]) + (if Schedulable(sets[i], outcomes[i]) then 1 else 0)
  {
    assert sets[..i + 1][..i] == sets[..i] && outcomes[..i + 1][..i] == outcomes[..i];
  }

  /** The chain loop of one task set: record every converged chain and clear `schedulable` on a miss. */
  method ChainVerdicts(nr: int, sums: seq<Summary>, outcomes: seq<Option<real>>) returns (schedulable: bool, entries: seq<Response>)
    requires |outcomes| == |sums|
    ensures schedulable == Schedulable(sums, outcomes)
    ensures entries == SetResponses(nr, sums, outcomes)
  {
    schedulable := true;
    entries := [];
    var chain := 1;
    while chain <= |sums|
      invariant 1 <= chain <= |sums| + 1
      invariant schedulable == Schedulable(sums[..chain - 1], outcomes[..chain - 1])
      invariant entries == SetResponses(nr, sums[..chain - 1], outcomes[..chain - 1])
    {
      ChainStep(nr, sums, outcomes, chain - 1);
      var outcome := outcomes[chain - 1];
      if outcome.None? {
        chain := chain + 1;
        continue;
      }
      var r := outcome.value + sums[chain - 1].last as real;
      var d := sums[chain - 1].period;
      entries := entries + [Response(nr, chain, r, d)];
      if r > d as real {
        schedulable := false;
      }
      chain := chain + 1;
    }
    assert sums[..|sums|] == sums && outcomes[..|sums|] == outcomes;
  }

  lemma ChainStep(nr: int, sums: seq<Summary>, outcomes: seq<Option<real>>, k: nat)
    requires |outcomes| == |sums| && k < |sums|
    ensures Schedulable(sums[..k + 1], outcomes[..k + 1]) == (Schedulable(sums[..k], outcomes[..k]) && !Misses(sums[k], outcomes[k]))
    ensures SetResponses(nr, sums[..k + 1], outcomes[..k + 1]) == SetResponses(nr, sums[..k], outcomes[..k]) +
      match outcomes[k]
      case None => []
      case Some(L) => [Response(nr, k + 1, L + sums[k].last as real, sums[k].period)]
  {
    assert sums[..k + 1][..k] == sums[..k] && outcomes[..k + 1][..k] == outcomes[..k];
  }
}

/**
 * The chain-set text format shared by every converter, and its two readers.
 *
 * A file is a sequence of lines (as `for line in f` yields them, line
 * terminator included). A task line holds at least five whitespace-separated
 * integers: period, execution time, deadline, task id, chain id. Consecutive
 * task lines with the same chain id form one chain; a line holding only "-"
 * closes a task set. Blank lines and lines with fewer than five fields are
 * skipped.
 *
 * Each task set is read as the flat list [T1, C11, .., C1k, T2, C21, ..]
 * (the period of each chain followed by its execution times) together with
 * the number of callbacks of every chain.
 */
module ChainFile {
  import opened Seqs
  import opened Text

  /** One processing chain: its period and the execution times of its callbacks, in order. */
  datatype Chain = Chain(period: int, execs: seq<int>)

  /** A task set as the readers return it: the flat list and the callback count of every chain. */
  datatype TaskSet = TaskSet(flat: seq<int>, lengths: seq<int>)

  /** Outcome of reading a file: `Failure(literal)` where `int(literal)` raises ValueError. */
  datatype Result<T> = Success(value: T) | Failure(literal: string)

  /** What a single line means to the readers. */
  datatype Line =
    | Blank
    | Separator
    | Short
    | Entry(period: int, exec: int, chainId: int)
    | BadLiteral(literal: string)

  /**
   * Classification of one line: strip it, skip it when empty, recognise "-",
   * skip it when it has fewer than five fields, and otherwise convert fields
   * 0, 1 and 4 with `int()` in that order; the first that fails is reported.
   */
  function Classify(line: string): Line
  {
    var t := Strip(line);
    if t == [] then Blank
    else if t == "-" then Separator
    else
      var parts := Split(t);
      if |parts| < 5 then Short
      else match (PyInt(parts[0]), PyInt(parts[1]), PyInt(parts[4]))
        case (None, _, _) => BadLiteral(parts[0])
        case (Some(_), None, _) => BadLiteral(parts[1])
        case (Some(_), Some(_), None) => BadLiteral(parts[4])
        case (Some(p), Some(e), Some(c)) => Entry(p, e, c)
  }

  /**
   * The reader's local variables: finished task sets, the task set and the
   * chain under construction, the id of that chain, its callback count minus
   * one, and the callback counts of the chains already in the task set.
   */
  datatype State = State(
    done: seq<TaskSet>,
    taskset: seq<int>,
    chain: seq<int>,
    chainId: Option<int>,
    chainLen: int,
    lengths: seq<int>)

  const Init := State([], [], [], None, 0, [])

  /** Move the chain under construction, if any, into the task set. */
  function CloseChain(st: State): State
  {
    if st.chain != [] then
      st.(taskset := st.taskset + st.chain, lengths := st.lengths + [st.chainLen + 1],
          chainLen := 0, chain := [], chainId := None)
    else st
  }

  /** The "-" line: close the chain, then the task set if it is not empty, then reset. */
  function CloseSet(st: State): State
  {
    var s := CloseChain(st);
    var s' := if s.taskset != [] then s.(done := s.done + [TaskSet(s.taskset, s.lengths)], lengths := []) else s;
    s'.(taskset := [], chain := [], chainId := None, chainLen := 0)
  }

  /** A task line: start a new chain when the chain id changes, else append the execution time. */
  function AddEntry(st: State, period: int, exec: int, chainId: int): State
  {
    if st.chainId.None? || chainId != st.chainId.value then
      CloseChain(st).(chain := [period, exec], chainId := Some(chainId))
    else
      st.(chain := st.chain + [exec], chainLen := st.chainLen + 1)
  }

  function Step(st: State, line: Line): Result<State>
  {
    match line
    case Blank => Success(st)
    case Short => Success(st)
    case Separator => Success(CloseSet(st))
    case Entry(p, e, c) => Success(AddEntry(st, p, e, c))
    case BadLiteral(l) => Failure(l)
  }

  /** The reading loop over the classified lines, from state st; the first failure ends it. */
  function RunFrom(st: State, lines: seq<Line>): Result<State>
  {
    if lines == [] then Success(st)
    else match RunFrom(st, lines[..|lines| - 1])
      case Failure(l) => Failure(l)
      case Success(s) => Step(s, lines[|lines| - 1])
  }

  /** End of file: the pending chain and task set are kept as if a "-" line followed. */
  function Finish(st: State): seq<TaskSet>
  {
    var s := CloseChain(st);
    if s.taskset != [] then s.done + [TaskSet(s.taskset, s.lengths)] else s.done
  }

  /** Every line of a file, classified. */
  function Classified(lines: seq<string>): (r: seq<Line>)
    ensures |r| == |lines|
  {
    seq(|lines|, k requires 0 <= k < |lines| => Classify(lines[k]))
  }

  /** The reading loop and its end-of-file step, over classified lines. */
  function Parse(lines: seq<Line>): Result<seq<TaskSet>>
  {
    match RunFrom(Init, lines)
    case Failure(l) => Failure(l)
    case Success(st) => Success(Finish(st))
  }

  /** `convert_file_to_tasksets_odd_chains` on a file given as its lines. */
  function ParseOdd(lines: seq<string>): Result<seq<TaskSet>>
  {
    Parse(Classified(lines))
  }

  function Flats(ts: seq<TaskSet>): (r: seq<seq<int>>)
    ensures |r| == |ts|
  {
    seq(|ts|, k requires 0 <= k < |ts| => ts[k].flat)
  }

  lemma FlatsSnoc(ts: seq<TaskSet>, t: TaskSet)
    ensures Flats(ts + [t]) == Flats(ts) + [t.flat]
  {
  }

  /** The task sets of Parse, without the callback counts. */
  function ParseFlat(lines: seq<Line>): Result<seq<seq<int>>>
  {
    match Parse(lines)
    case Failure(l) => Failure(l)
    case Success(ts) => Success(Flats(ts))
  }

  /** `convert_file_to_tasksets`: the same task sets, without the callback counts. */
  function ParseFixed(lines: seq<string>): Result<seq<seq<int>>>
  {
    ParseFlat(Classified(lines))
  }

  // ----- Chains and flat lists -----

  /** The flat list of a sequence of chains: each period followed by its execution times. */
  function Flatten(cs: seq<Chain>): seq<int>
  {
    if cs == [] then [] else Flatten(cs[..|cs| - 1]) + ([cs[|cs| - 1].period] + cs[|cs| - 1].execs)
  }

  /** The callback count of every chain. */
  function Lengths(cs: seq<Chain>): (r: seq<int>)
    ensures |r| == |cs| && forall k :: 0 <= k < |cs| ==> r[k] == |cs[k].execs|
  {
    if cs == [] then [] else Lengths(cs[..|cs| - 1]) + [|cs[|cs| - 1].execs|]
  }

  /** A flat list with callback counts that describe it exactly. */
  predicate WellFormed(ts: TaskSet)
  {
    && |ts.lengths| >= 1
    && (forall k :: 0 <= k < |ts.lengths| ==> ts.lengths[k] >= 1)
    && |ts.flat| == Sum(ts.lengths) + |ts.lengths|
  }

  /**
   * Cut a flat list back into chains: chain k starts at offset
   * Sum(lengths[..k]) + k, with its period there and its lengths[k]
   * execution times after it.
   */
  function Chains(flat: seq<int>, lengths: seq<int>): (r: seq<Chain>)
    requires AllNonNegative(lengths) && |flat| == Sum(lengths) + |lengths|
    ensures |r| == |lengths|
  {
    seq(|lengths|, k requires 0 <= k < |lengths| => ChainAt(flat, lengths, k))
  }

  function ChainAt(flat: seq<int>, lengths: seq<int>, k: nat): Chain
    requires AllNonNegative(lengths) && |flat| == Sum(lengths) + |lengths| && k < |lengths|
  {
    ChainBounds(flat, lengths, k);
    var p := Sum(lengths[..k]) + k;
    Chain(flat[p], flat[p + 1..p + 1 + lengths[k]])
  }

  /** The entries of chain k lie inside the flat list. */
  lemma ChainBounds(flat: seq<int>, lengths: seq<int>, k: nat)
    requires AllNonNegative(lengths) && |flat| == Sum(lengths) + |lengths| && k < |lengths|
    ensures AllNonNegative(lengths[..k]) && Sum(lengths[..k]) >= 0
    ensures Sum(lengths[..k]) + k + lengths[k] < |flat|
  {
    SumPrefixStep(lengths, k);
    SumPrefixLe(lengths, k + 1);
    SumNonNegative(lengths[..k]);
  }

  /** Chain k of the cut, as the generators read it: the period at the k-th offset and the entries after it. */
  lemma ChainsAt(flat: seq<int>, lengths: seq<int>, k: nat)
    requires AllNonNegative(lengths) && |flat| == Sum(lengths) + |lengths| && k < |lengths|
    ensures var p := Sum(lengths[..k]) + k;
      && AllNonNegative(lengths[..k]) && Sum(lengths[..k]) >= 0 && p + lengths[k] < |flat|
      && Chains(flat, lengths)[k] == Chain(flat[p], flat[p + 1..p + 1 + lengths[k]])
  {
    ChainBounds(flat, lengths, k);
    ChainsElement(flat, lengths, k);
  }

  lemma ChainsElement(flat: seq<int>, lengths: seq<int>, k: nat)
    requires AllNonNegative(lengths) && |flat| == Sum(lengths) + |lengths| && k < |lengths|
    ensures Chains(flat, lengths)[k] == ChainAt(flat, lengths, k)
  {
  }

  lemma {:induction false} FlattenLength(cs: seq<Chain>)
    ensures |Flatten(cs)| == Sum(Lengths(cs)) + |cs|
  {
    if cs != [] {
      var n := |cs|;
      FlattenLength(cs[..n - 1]);
      SumSnoc(Lengths(cs[..n - 1]), |cs[n - 1].execs|);
    }
  }

  /** The last chain Chains cuts off: the entries after the first Sum(init) + |init|. */
  lemma ChainsLast(flat: seq<int>, lengths: seq<int>) returns (start: nat)
    requires AllNonNegative(lengths) && |flat| == Sum(lengths) + |lengths| && lengths != []
    ensures var init := lengths[..|lengths| - 1];
      && AllNonNegative(init) && start == Sum(init) + |init| < |flat|
      && |flat[start + 1..]| == lengths[|lengths| - 1]
      && Chains(flat, lengths) == Chains(flat[..start], init) + [Chain(flat[start], flat[start + 1..])]
  {
    var n := |lengths| - 1;
    var init := lengths[..n];
    ChainBounds(flat, lengths, n);
    start := Sum(init) + |init|;
    SumPrefixStep(lengths, n);
    assert lengths[..n + 1] == lengths;
    var whole, left := Chains(flat, lengths), Chains(flat[..start], init);
    forall k | 0 <= k < n ensures whole[k] == left[k] {
      ChainsInit(flat, lengths, k, start);
    }
    assert flat[start + 1..start + 1 + lengths[n]] == flat[start + 1..];
  }

  /** A chain before the last is the same chain of the list without the last chain. */
  lemma ChainsInit(flat: seq<int>, lengths: seq<int>, k: nat, start: nat)
    requires AllNonNegative(lengths) && |flat| == Sum(lengths) + |lengths| && k < |lengths| - 1
    requires var init := lengths[..|lengths| - 1]; start == Sum(init) + |init|
    ensures var init := lengths[..|lengths| - 1];
      && AllNonNegative(init) && |flat[..start]| == Sum(init) + |init|
      && Chains(flat, lengths)[k] == Chains(flat[..start], init)[k]
  {
    var init := lengths[..|lengths| - 1];
    ChainBounds(flat, lengths, |lengths| - 1);
    ChainsElement(flat[..start], init, k);
    ChainsElement(flat, lengths, k);
    ChainAtOfPrefix(flat, lengths, k, start);
  }

  /** Chain k read from the flat list cut before the last chain, with the last count dropped. */
  lemma ChainAtOfPrefix(flat: seq<int>, lengths: seq<int>, k: nat, start: nat)
    requires AllNonNegative(lengths) && |flat| == Sum(lengths) + |lengths| && k < |lengths| - 1
    requires var init := lengths[..|lengths| - 1];
      AllNonNegative(init) && start == Sum(init) + |init| <= |flat|
    ensures ChainAt(flat[..start], lengths[..|lengths| - 1], k) == ChainAt(flat, lengths, k)
  {
    var init := lengths[..|lengths| - 1];
    ChainBounds(flat[..start], init, k);
    ChainBounds(flat, lengths, k);
    assert init[..k] == lengths[..k] && init[k] == lengths[k];
    var p := Sum(lengths[..k]) + k;
    SliceOfPrefix(flat, start, p + 1, p + 1 + lengths[k]);
  }

  lemma FlattenSnoc(cs: seq<Chain>, c: Chain)
    ensures Flatten(cs + [c]) == Flatten(cs) + ([c.period] + c.execs)
  {
    assert (cs + [c])[..|cs|] == cs;
  }

  lemma LengthsSnoc(cs: seq<Chain>, c: Chain)
    ensures Lengths(cs + [c]) == Lengths(cs) + [|c.execs|]
  {
    assert (cs + [c])[..|cs|] == cs;
  }

  /** Cutting a flat list into chains and flattening them again gives the flat list and counts back. */
  lemma FlattenChains(flat: seq<int>, lengths: seq<int>)
    requires AllNonNegative(lengths) && |flat| == Sum(lengths) + |lengths|
    ensures Flatten(Chains(flat, lengths)) == flat
    ensures Lengths(Chains(flat, lengths)) == lengths
  {
    FlattenOfChains(flat, lengths);
    LengthsOfChains(flat, lengths);
  }

  lemma {:induction false} FlattenOfChains(flat: seq<int>, lengths: seq<int>)
    requires AllNonNegative(lengths) && |flat| == Sum(lengths) + |lengths|
    ensures Flatten(Chains(flat, lengths)) == flat
  {
    if lengths != [] {
      var init := lengths[..|lengths| - 1];
      var start := ChainsLast(flat, lengths);
      FlattenOfChains(flat[..start], init);
      FlattenSnoc(Chains(flat[..start], init), Chain(flat[start], flat[start + 1..]));
      assert flat == flat[..start] + ([flat[start]] + flat[start + 1..]);
    }
  }

  lemma {:induction false} LengthsOfChains(flat: seq<int>, lengths: seq<int>)
    requires AllNonNegative(lengths) && |flat| == Sum(lengths) + |lengths|
    ensures Lengths(Chains(flat, lengths)) == lengths
  {
    if lengths != [] {
      var n := |lengths|;
      var init := lengths[..n - 1];
      var start := ChainsLast(flat, lengths);
      LengthsOfChains(flat[..start], init);
      LengthsSnoc(Chains(flat[..start], init), Chain(flat[start], flat[start + 1..]));
      assert lengths == init + [lengths[n - 1]];
    }
  }

  /** Chains of a flat list with one more chain appended end with that chain. */
  lemma ChainsSnoc(flat: seq<int>, lengths: seq<int>, c: Chain)
    requires AllNonNegative(lengths) && |flat| == Sum(lengths) + |lengths|
    ensures AllNonNegative(lengths + [|c.execs|])
    ensures |flat + ([c.period] + c.execs)| == Sum(lengths + [|c.execs|]) + |lengths + [|c.execs|]|
    ensures Chains(flat + ([c.period] + c.execs), lengths + [|c.execs|]) == Chains(flat, lengths) + [c]
  {
    var flat', lengths' := flat + ([c.period] + c.execs), lengths + [|c.execs|];
    SumSnoc(lengths, |c.execs|);
    assert lengths'[..|lengths|] == lengths;
    var start := ChainsLast(flat', lengths');
    assert flat'[..start] == flat;
    assert flat'[start + 1..] == c.execs;
  }

  /** Flattening chains and cutting the result by their callback counts gives the chains back. */
  lemma {:induction false} ChainsOfFlatten(cs: seq<Chain>)
    ensures AllNonNegative(Lengths(cs)) && |Flatten(cs)| == Sum(Lengths(cs)) + |Lengths(cs)|
    ensures Chains(Flatten(cs), Lengths(cs)) == cs
    decreases |cs|
  {
    FlattenLength(cs);
    if cs != [] {
      var n := |cs|;
      var init, c := cs[..n - 1], cs[n - 1];
      ChainsOfFlatten(init);
      assert cs == init + [c];
      FlattenSnoc(init, c);
      LengthsSnoc(init, c);
      ChainsSnoc(Flatten(init), Lengths(init), c);
    }
  }

  // ----- Invariant of the reading loop -----

  /** What the reader's variables always satisfy between two lines. */
  predicate Inv(st: State)
  {
    && (st.chain == []) == st.chainId.None?
    && st.chainLen >= 0
    && (st.chain == [] ==> st.chainLen == 0)
    && (st.chain != [] ==> |st.chain| == st.chainLen + 2)
    && (st.taskset == []) == (st.lengths == [])
    && (forall k :: 0 <= k < |st.lengths| ==> st.lengths[k] >= 1)
    && |st.taskset| == Sum(st.lengths) + |st.lengths|
    && forall k :: 0 <= k < |st.done| ==> WellFormed(st.done[k])
  }

  lemma CloseChainKeepsInv(st: State)
    requires Inv(st)
    ensures Inv(CloseChain(st)) && CloseChain(st).chain == []
    ensures CloseChain(st).done == st.done
  {
    if st.chain != [] {
      SumSnoc(st.lengths, st.chainLen + 1);
      var s := CloseChain(st);
      assert forall k :: 0 <= k < |s.lengths| ==> s.lengths[k] >= 1 by {
        forall k | 0 <= k < |s.lengths| ensures s.lengths[k] >= 1 {
          if k < |st.lengths| {
            assert s.lengths[k] == st.lengths[k];
          }
        }
      }
    }
  }

  lemma CloseSetKeepsInv(st: State)
    requires Inv(st)
    ensures Inv(CloseSet(st))
  {
    CloseChainKeepsInv(st);
    var s := CloseChain(st);
    if s.taskset != [] {
      var d := s.done + [TaskSet(s.taskset, s.lengths)];
      assert forall k :: 0 <= k < |d| ==> WellFormed(d[k]) by {
        forall k | 0 <= k < |d| ensures WellFormed(d[k]) {
          if k < |s.done| {
            assert d[k] == s.done[k];
          }
        }
      }
    }
  }

  lemma StepKeepsInv(st: State, line: Line)
    requires Inv(st)
    ensures Step(st, line).Success? ==> Inv(Step(st, line).value)
  {
    match line
    case Blank =>
    case Short =>
    case Separator =>
      CloseSetKeepsInv(st);
    case Entry(p, e, c) =>
      if st.chainId.None? || c != st.chainId.value {
        CloseChainKeepsInv(st);
      }
    case BadLiteral(l) =>
  }

  lemma {:induction false} RunKeepsInv(st: State, lines: seq<Line>)
    requires Inv(st)
    ensures RunFrom(st, lines).Success? ==> Inv(RunFrom(st, lines).value)
  {
    if lines != [] {
      RunKeepsInv(st, lines[..|lines| - 1]);
      match RunFrom(st, lines[..|lines| - 1])
      case Failure(_) =>
      case Success(s) => StepKeepsInv(s, lines[|lines| - 1]);
    }
  }

  /**
   * Every task set the reader returns has at least one chain, every chain at
   * least one callback, and the flat list is exactly one period plus the
   * callbacks per chain; so it is the flattening of the chains it encodes.
   */
  lemma ParsedSetsWellFormed(lines: seq<string>)
    ensures ParseOdd(lines).Success? ==>
      forall k :: 0 <= k < |ParseOdd(lines).value| ==>
        var ts := ParseOdd(lines).value[k];
        WellFormed(ts) && Flatten(Chains(ts.flat, ts.lengths)) == ts.flat
        && Lengths(Chains(ts.flat, ts.lengths)) == ts.lengths
  {
    var ls := Classified(lines);
    RunKeepsInv(Init, ls);
    if RunFrom(Init, ls).Success? {
      var st := RunFrom(Init, ls).value;
      CloseChainKeepsInv(st);
      var r := Finish(st);
      assert ParseOdd(lines).value == r;
      forall k | 0 <= k < |r|
        ensures WellFormed(r[k]) && Flatten(Chains(r[k].flat, r[k].lengths)) == r[k].flat
        ensures Lengths(Chains(r[k].flat, r[k].lengths)) == r[k].lengths
      {
        FinishWellFormed(st, k);
        FlattenChains(r[k].flat, r[k].lengths);
      }
    }
  }

  lemma FinishWellFormed(st: State, k: nat)
    requires Inv(st) && k < |Finish(st)|
    ensures WellFormed(Finish(st)[k])
  {
    CloseChainKeepsInv(st);
    var s := CloseChain(st);
    if k < |s.done| {
      assert Finish(st)[k] == s.done[k];
    }
  }

  // ----- Properties of the reading loop -----

  lemma {:induction false} RunAppend(st: State, a: seq<Line>, b: seq<Line>)
    ensures RunFrom(st, a + b) ==
      match RunFrom(st, a)
      case Failure(l) => Failure(l)
      case Success(s) => RunFrom(s, b)
  {
    if b == [] {
      assert a + b == a;
    } else {
      var n := |b|;
      assert (a + b)[..|a + b| - 1] == a + b[..n - 1];
      RunAppend(st, a, b[..n - 1]);
    }
  }

  lemma ClassifiedAppend(a: seq<string>, b: seq<string>)
    ensures Classified(a + b) == Classified(a) + Classified(b)
  {
  }

  lemma SeparatorLine()
    ensures Classify("-\n") == Separator
  {
    StripDropsTrailingSpace("-", "\n");
  }

  /** A failing prefix makes the whole run fail with the same literal. */
  lemma FailureSticks(st: State, lines: seq<Line>, k: nat)
    requires k <= |lines| && RunFrom(st, lines[..k]).Failure?
    ensures RunFrom(st, lines) == RunFrom(st, lines[..k])
  {
    RunAppend(st, lines[..k], lines[k..]);
    assert lines[..k] + lines[k..] == lines;
  }

  /**
   * A line with a field that `int()` rejects makes the reader fail, unless
   * an earlier line already did: the reader has no error recovery.
   */
  lemma BadLiteralFails(lines: seq<string>, k: nat)
    requires k < |lines| && Classify(lines[k]).BadLiteral?
    ensures ParseOdd(lines).Failure?
  {
    BadLineFails(Classified(lines), k);
  }

  lemma BadLineFails(ls: seq<Line>, k: nat)
    requires k < |ls| && ls[k].BadLiteral?
    ensures Parse(ls).Failure?
  {
    assert ls[..k + 1][..k] == ls[..k];
    FailureSticks(Init, ls, k + 1);
  }

  /** A blank line, or one with fewer than five fields, can be deleted without changing the result. */
  lemma IgnoredLine(a: seq<string>, line: string, b: seq<string>)
    requires Classify(line).Blank? || Classify(line).Short?
    ensures ParseOdd(a + [line] + b) == ParseOdd(a + b)
  {
    var la, lb, c := Classified(a), Classified(b), Classify(line);
    assert Classified(a + [line] + b) == la + [c] + lb by {
      ClassifiedAppend(a + [line], b);
      ClassifiedAppend(a, [line]);
      assert Classified([line]) == [c];
    }
    ClassifiedAppend(a, b);
    RunAppend(Init, la + [c], lb);
    RunAppend(Init, la, lb);
    RunAppend(Init, la, [c]);
    assert RunFrom(Init, la + [c]) == RunFrom(Init, la);
  }

  /** End of file closes the last task set exactly as a final "-" line would. */
  lemma TrailingSeparator(lines: seq<string>)
    ensures ParseOdd(lines + ["-\n"]) == ParseOdd(lines)
  {
    SeparatorLine();
    ClassifiedAppend(lines, ["-\n"]);
    RunAppend(Init, Classified(lines), [Separator]);
  }

  /** Two consecutive "-" lines read like one: no empty task set is ever produced. */
  lemma DoubleSeparator(a: seq<string>, b: seq<string>)
    ensures ParseOdd(a + ["-\n", "-\n"] + b) == ParseOdd(a + ["-\n"] + b)
  {
    var la, lb := Classified(a), Classified(b);
    assert Classified(a + ["-\n", "-\n"] + b) == la + [Separator, Separator] + lb by {
      SeparatorLine();
      ClassifiedAppend(a + ["-\n", "-\n"], b);
      ClassifiedAppend(a, ["-\n", "-\n"]);
      assert Classified(["-\n", "-\n"]) == [Separator, Separator];
    }
    assert Classified(a + ["-\n"] + b) == la + [Separator] + lb by {
      SeparatorLine();
      ClassifiedAppend(a + ["-\n"], b);
      ClassifiedAppend(a, ["-\n"]);
      assert Classified(["-\n"]) == [Separator];
    }
    SeparatorTwice(la, lb);
  }

  lemma SeparatorTwice(la: seq<Line>, lb: seq<Line>)
    ensures Parse(la + [Separator, Separator] + lb) == Parse(la + [Separator] + lb)
  {
    RunAppend(Init, la + [Separator, Separator], lb);
    RunAppend(Init, la + [Separator], lb);
    RunAppend(Init, la, [Separator, Separator]);
    RunAppend(Init, la, [Separator]);
    assert [Separator, Separator][..1] == [Separator];
    assert RunFrom(Init, la + [Separator, Separator]) == RunFrom(Init, la + [Separator]) by {
      match RunFrom(Init, la)
      case Failure(_) =>
      case Success(s) =>
        assert RunFrom(s, [Separator, Separator]) == Step(CloseSet(s), Separator);
        assert CloseSet(CloseSet(s)) == CloseSet(s);
    }
  }

  // ----- The writer side of the format -----

  /** One line the generators write: a task row, or the "-" that closes a task set. */
  datatype Row = TaskRow(period: int, exec: int, deadline: int, taskId: int, chainId: int) | EndRow

  /** A row as text: five tab-separated integers and a newline, or "-" and a newline. */
  function RowText(row: Row): string
  {
    match row
    case TaskRow(p, e, d, t, c) =>
      Join([IntToString(p), IntToString(e), IntToString(d), IntToString(t), IntToString(c)], "\t") + "\n"
    case EndRow => "-\n"
  }

  /** The lines of a file holding the given rows. */
  function Render(rows: seq<Row>): (r: seq<string>)
    ensures |r| == |rows|
  {
    seq(|rows|, k requires 0 <= k < |rows| => RowText(rows[k]))
  }

  /**
   * The rows of one chain: one task row per callback, the deadline equal to
   * the period, task ids counting up from firstId.
   */
  function ChainRows(period: int, execs: seq<int>, chainId: int, firstId: int): (r: seq<Row>)
    ensures |r| == |execs|
  {
    seq(|execs|, j requires 0 <= j < |execs| => TaskRow(period, execs[j], period, firstId + j, chainId))
  }

  /** The number of callbacks in chains cs: the last task id the writer used for them. */
  function TaskCount(cs: seq<Chain>): nat
  {
    if cs == [] then 0 else TaskCount(cs[..|cs| - 1]) + |cs[|cs| - 1].execs|
  }

  /** The rows of the chains of one task set: chain k gets chain id k + 1, task ids run on from 1. */
  function ChainsRows(cs: seq<Chain>): seq<Row>
  {
    if cs == [] then []
    else
      var n := |cs|;
      var init := cs[..n - 1];
      ChainsRows(init) + ChainRows(cs[n - 1].period, cs[n - 1].execs, n, TaskCount(init) + 1)
  }

  /** A whole file: per task set its chain rows and a closing "-". */
  function FileRows(sets: seq<seq<Chain>>): seq<Row>
  {
    if sets == [] then [] else FileRows(sets[..|sets| - 1]) + (ChainsRows(sets[|sets| - 1]) + [EndRow])
  }

  /** The lines of a file written for the given task sets. */
  function FileLines(sets: seq<seq<Chain>>): seq<string>
  {
    Render(FileRows(sets))
  }

  lemma RenderAppend(a: seq<Row>, b: seq<Row>)
    ensures Render(a + b) == Render(a) + Render(b)
  {
    var whole, left, right := Render(a + b), Render(a), Render(b);
    forall k | 0 <= k < |a + b|
      ensures whole[k] == (left + right)[k]
    {
      if k < |a| {
        assert (a + b)[k] == a[k];
      } else {
        assert (a + b)[k] == b[k - |a|];
      }
    }
  }

  lemma TaskCountSnoc(cs: seq<Chain>, k: nat)
    requires k < |cs|
    ensures TaskCount(cs[..k + 1]) == TaskCount(cs[..k]) + |cs[k].execs|
  {
    assert cs[..k + 1][..k] == cs[..k];
  }

  lemma ChainsRowsSnoc(cs: seq<Chain>, k: nat)
    requires k < |cs|
    ensures ChainsRows(cs[..k + 1]) == ChainsRows(cs[..k]) + ChainRows(cs[k].period, cs[k].execs, k + 1, TaskCount(cs[..k]) + 1)
  {
    assert cs[..k + 1][..k] == cs[..k];
  }

  lemma {:induction false} ChainsRowsLength(cs: seq<Chain>)
    ensures |ChainsRows(cs)| == TaskCount(cs)
  {
    if cs != [] {
      ChainsRowsLength(cs[..|cs| - 1]);
    }
  }

  /**
   * The rows of a task set: one per callback, chain after chain. Callback j
   * of chain k is row TaskCount(cs[..k]) + j, with the chain's period as
   * period and deadline, task id one more than its row and chain id k + 1.
   */
  lemma {:induction false} ChainsRowsAt(cs: seq<Chain>, k: nat, j: nat)
    requires k < |cs| && j < |cs[k].execs|
    ensures TaskCount(cs[..k]) + j < |ChainsRows(cs)| == TaskCount(cs)
    ensures ChainsRows(cs)[TaskCount(cs[..k]) + j] == TaskRow(cs[k].period, cs[k].execs[j], cs[k].period, TaskCount(cs[..k]) + j + 1, k + 1)
  {
    var n := |cs| - 1;
    var init := cs[..n];
    ChainsRowsLength(cs);
    ChainsRowsLength(init);
    assert cs[..n + 1] == cs;
    ChainsRowsSnoc(cs, n);
    TaskCountSnoc(cs, n);
    if k < n {
      ChainsRowsAt(init, k, j);
      assert init[k] == cs[k];
      assert init[..k] == cs[..k];
    }
  }
  /** What the reader should make of a row. */
  function RowLine(row: Row): Line
  {
    match row
    case TaskRow(p, e, _, _, c) => Entry(p, e, c)
    case EndRow => Separator
  }

  function RowLines(rows: seq<Row>): (r: seq<Line>)
    ensures |r| == |rows|
  {
    seq(|rows|, k requires 0 <= k < |rows| => RowLine(rows[k]))
  }

  /** What the reader sees in the lines of one chain. */
  function ChainEntries(period: int, execs: seq<int>, chainId: int): (r: seq<Line>)
    ensures |r| == |execs|
  {
    seq(|execs|, j requires 0 <= j < |execs| => Entry(period, execs[j], chainId))
  }

  function ChainsEntries(cs: seq<Chain>): seq<Line>
  {
    if cs == [] then []
    else
      var n := |cs|;
      ChainsEntries(cs[..n - 1]) + ChainEntries(cs[n - 1].period, cs[n - 1].execs, n)
  }

  function FileEntries(sets: seq<seq<Chain>>): seq<Line>
  {
    if sets == [] then [] else FileEntries(sets[..|sets| - 1]) + (ChainsEntries(sets[|sets| - 1]) + [Separator])
  }

  lemma IntField(i: int)
    ensures var r := IntToString(i);
      r != [] && NoSpace(r) && !IsSpace(r[0]) && !IsSpace(r[|r| - 1]) && PyInt(r) == Some(i)
  {
    var r := IntToString(i);
    assert r != [] && NoSpace(r) && !IsSpace(r[0]) && !IsSpace(r[|r| - 1]) by {
      IntToStringHasNoSpace(i);
    }
    assert PyInt(r) == Some(i) by {
      PyIntOfIntToString(i, []);
      assert r + [] == r;
    }
  }

  lemma IntToStringHasNoSpace(i: int)
    ensures var r := IntToString(i);
      r != [] && NoSpace(r) && !IsSpace(r[0]) && !IsSpace(r[|r| - 1])
  {
    var d := NatToString(if i < 0 then -i else i);
    assert NoSpace(d) by {
      forall k | 0 <= k < |d| ensures !IsSpace(d[k]) {
        assert IsDigit(d[k]);
      }
    }
    if i < 0 {
      var r := "-" + d;
      forall k | 0 <= k < |r| ensures !IsSpace(r[k]) {
        if k > 0 {
          assert r[k] == d[k - 1];
        }
      }
    }
  }

  /** A stripped line of at least five fields whose fields 0, 1 and 4 are integer literals is an entry. */
  lemma ClassifyEntry(line: string, parts: seq<string>, period: int, exec: int, chainId: int)
    requires Strip(line) != [] && Strip(line) != "-" && Split(Strip(line)) == parts && |parts| >= 5
    requires PyInt(parts[0]) == Some(period) && PyInt(parts[1]) == Some(exec) && PyInt(parts[4]) == Some(chainId)
    ensures Classify(line) == Entry(period, exec, chainId)
  {
  }

  /** The five fields of a task line are non-empty and hold no spaces. */
  lemma TaskFields(ints: seq<int>, fields: seq<string>)
    requires |ints| == |fields| && forall k :: 0 <= k < |fields| ==> fields[k] == IntToString(ints[k])
    ensures forall k :: 0 <= k < |fields| ==> fields[k] != [] && NoSpace(fields[k])
  {
    forall k | 0 <= k < |fields| ensures fields[k] != [] && NoSpace(fields[k]) {
      IntToStringHasNoSpace(ints[k]);
    }
  }

  /** A task line strips to its five fields joined by tabs, which split back into the fields. */
  lemma TaskLineSplits(period: int, exec: int, deadline: int, taskId: int, chainId: int)
    ensures var line := RowText(TaskRow(period, exec, deadline, taskId, chainId));
      var fields := [IntToString(period), IntToString(exec), IntToString(deadline), IntToString(taskId), IntToString(chainId)];
      Strip(line) != [] && Strip(line) != "-" && Split(Strip(line)) == fields
  {
    var fields := [IntToString(period), IntToString(exec), IntToString(deadline), IntToString(taskId), IntToString(chainId)];
    TaskFields([period, exec, deadline, taskId, chainId], fields);
    ReadJoined(fields, "\t", "\n");
    JoinLength(fields, "\t");
  }

  /** A task line written by the generators reads back as its period, execution time and chain id. */
  lemma TaskLineReads(period: int, exec: int, deadline: int, taskId: int, chainId: int)
    ensures Classify(RowText(TaskRow(period, exec, deadline, taskId, chainId))) == Entry(period, exec, chainId)
  {
    var fields := [IntToString(period), IntToString(exec), IntToString(deadline), IntToString(taskId), IntToString(chainId)];
    TaskLineSplits(period, exec, deadline, taskId, chainId);
    IntField(period);
    IntField(exec);
    IntField(chainId);
    ClassifyEntry(RowText(TaskRow(period, exec, deadline, taskId, chainId)), fields, period, exec, chainId);
  }

  /** A row the generators write reads back as what RowLine says. */
  lemma RowReads(row: Row)
    ensures Classify(RowText(row)) == RowLine(row)
  {
    match row
    case TaskRow(p, e, d, t, c) => TaskLineReads(p, e, d, t, c);
    case EndRow => SeparatorLine();
  }

  /** Rendering rows and classifying the lines gives what the reader should make of the rows. */
  lemma ClassifiedRender(rows: seq<Row>)
    ensures Classified(Render(rows)) == RowLines(rows)
  {
    var lines := Render(rows);
    forall k | 0 <= k < |rows| ensures Classified(lines)[k] == RowLines(rows)[k] {
      RowReads(rows[k]);
    }
  }

  lemma RowLinesAppend(a: seq<Row>, b: seq<Row>)
    ensures RowLines(a + b) == RowLines(a) + RowLines(b)
  {
  }

  lemma ChainRowLines(period: int, execs: seq<int>, chainId: int, firstId: int)
    ensures RowLines(ChainRows(period, execs, chainId, firstId)) == ChainEntries(period, execs, chainId)
  {
  }

  lemma {:induction false} ChainsRowLines(cs: seq<Chain>)
    ensures RowLines(ChainsRows(cs)) == ChainsEntries(cs)
  {
    if cs != [] {
      var n := |cs|;
      var init := cs[..n - 1];
      var rows := ChainRows(cs[n - 1].period, cs[n - 1].execs, n, TaskCount(init) + 1);
      ChainsRowLines(init);
      ChainRowLines(cs[n - 1].period, cs[n - 1].execs, n, TaskCount(init) + 1);
      RowLinesAppend(ChainsRows(init), rows);
    }
  }

  lemma {:induction false} FileRowLines(sets: seq<seq<Chain>>)
    ensures RowLines(FileRows(sets)) == FileEntries(sets)
  {
    if sets != [] {
      var n := |sets|;
      var init, cs := sets[..n - 1], sets[n - 1];
      FileRowLines(init);
      ChainsRowLines(cs);
      RowLinesAppend(ChainsRows(cs), [EndRow]);
      RowLinesAppend(FileRows(init), ChainsRows(cs) + [EndRow]);
    }
  }

  lemma FileEntriesSnoc(sets: seq<seq<Chain>>, cs: seq<Chain>)
    ensures FileEntries(sets + [cs]) == FileEntries(sets) + (ChainsEntries(cs) + [Separator])
  {
    assert (sets + [cs])[..|sets|] == sets;
  }

  /** The lines of a written file classify as the entries and separators of its task sets. */
  lemma ClassifiedFileLines(sets: seq<seq<Chain>>)
    ensures Classified(FileLines(sets)) == FileEntries(sets)
  {
    ClassifiedRender(FileRows(sets));
    FileRowLines(sets);
  }

  /** A reader state between two task sets: nothing under construction, the given sets done. */
  function Clean(done: seq<TaskSet>): State
  {
    State(done, [], [], None, 0, [])
  }

  /** The reader state right after the lines of chains cs (at least one) of a task set. */
  function Pending(done: seq<TaskSet>, cs: seq<Chain>): State
    requires |cs| >= 1
  {
    var n := |cs|;
    var last := cs[n - 1];
    State(done, Flatten(cs[..n - 1]), [last.period] + last.execs, Some(n), |last.execs| - 1, Lengths(cs[..n - 1]))
  }

  lemma {:induction false} ChainEntriesEffect(st: State, period: int, execs: seq<int>, chainId: int)
    requires st.chainId != Some(chainId) && |execs| >= 1
    requires st.chain == [] ==> st.chainLen == 0
    ensures RunFrom(st, ChainEntries(period, execs, chainId)) ==
      Success(CloseChain(st).(chain := [period] + execs, chainId := Some(chainId), chainLen := |execs| - 1))
  {
    var n := |execs|;
    var es := ChainEntries(period, execs, chainId);
    assert es[..n - 1] == ChainEntries(period, execs[..n - 1], chainId);
    if n == 1 {
      assert [period] + execs == [period, execs[0]];
    } else {
      ChainEntriesEffect(st, period, execs[..n - 1], chainId);
      assert [period] + execs[..n - 1] + [execs[n - 1]] == [period] + execs;
    }
  }

  lemma {:induction false} ChainsEntriesEffect(done: seq<TaskSet>, cs: seq<Chain>)
    requires |cs| >= 1 && forall k :: 0 <= k < |cs| ==> |cs[k].execs| >= 1
    ensures RunFrom(Clean(done), ChainsEntries(cs)) == Success(Pending(done, cs))
  {
    var n := |cs|;
    var init := cs[..n - 1];
    var last := cs[n - 1];
    RunAppend(Clean(done), ChainsEntries(init), ChainEntries(last.period, last.execs, n));
    if n == 1 {
      ChainEntriesEffect(Clean(done), last.period, last.execs, n);
    } else {
      ChainsEntriesEffect(done, init);
      assert init[..n - 2] == cs[..n - 2];
      ChainEntriesEffect(Pending(done, init), last.period, last.execs, n);
    }
  }

  lemma TaskSetEntriesEffect(done: seq<TaskSet>, cs: seq<Chain>)
    requires |cs| >= 1 && forall k :: 0 <= k < |cs| ==> |cs[k].execs| >= 1
    ensures RunFrom(Clean(done), ChainsEntries(cs) + [Separator]) == Success(Clean(done + [TaskSet(Flatten(cs), Lengths(cs))]))
  {
    ChainsEntriesEffect(done, cs);
    RunAppend(Clean(done), ChainsEntries(cs), [Separator]);
    var n := |cs|;
    assert cs[..n] == cs;
  }

  /** The task sets of a file as the reader should return them. */
  function Expected(sets: seq<seq<Chain>>): (r: seq<TaskSet>)
    ensures |r| == |sets|
  {
    seq(|sets|, k requires 0 <= k < |sets| => TaskSet(Flatten(sets[k]), Lengths(sets[k])))
  }

  lemma ExpectedSnoc(sets: seq<seq<Chain>>, cs: seq<Chain>)
    ensures Expected(sets + [cs]) == Expected(sets) + [TaskSet(Flatten(cs), Lengths(cs))]
  {
  }

  lemma {:induction false} ReadEntries(sets: seq<seq<Chain>>)
    requires forall i :: 0 <= i < |sets| ==> |sets[i]| >= 1
    requires forall i, k :: 0 <= i < |sets| && 0 <= k < |sets[i]| ==> |sets[i][k].execs| >= 1
    ensures RunFrom(Init, FileEntries(sets)) == Success(Clean(Expected(sets)))
  {
    if sets != [] {
      var n := |sets|;
      var init, last := sets[..n - 1], sets[n - 1];
      assert sets == init + [last];
      ReadEntries(init);
      ExpectedSnoc(init, last);
      FileEntriesSnoc(init, last);
      RunAppend(Init, FileEntries(init), ChainsEntries(last) + [Separator]);
      TaskSetEntriesEffect(Expected(init), last);
    }
  }

  /**
   * Round trip: reading a file written by the generators gives back, per
   * task set, the flattened chains and their callback counts, provided that
   * every task set has a chain and every chain a callback.
   */
  lemma ReadWritten(sets: seq<seq<Chain>>)
    requires forall i :: 0 <= i < |sets| ==> |sets[i]| >= 1
    requires forall i, k :: 0 <= i < |sets| && 0 <= k < |sets[i]| ==> |sets[i][k].execs| >= 1
    ensures ParseOdd(FileLines(sets)) == Success(Expected(sets))
  {
    ClassifiedFileLines(sets);
    ReadEntries(sets);
  }

  // ----- The two reading loops -----

  /** One more line of the reading loop is one more Step. */
  lemma RunNext(ls: seq<Line>, i: nat, st: State)
    requires i < |ls| && RunFrom(Init, ls[..i]) == Success(st)
    ensures RunFrom(Init, ls[..i + 1]) == Step(st, ls[i])
  {
    assert ls[..i + 1][..i] == ls[..i];
  }

  /**
   * `convert_file_to_tasksets_odd_chains`: each line is classified
   * (strip, split, `int()` on fields 0, 1 and 4), then the reading loop
   * runs over the classified lines.
   */
  method ParseOddChains(lines: seq<string>) returns (r: Result<seq<TaskSet>>)
    ensures r == ParseOdd(lines)
  {
    r := ReadOddChains(Classified(lines));
  }

  /** The reading loop of `convert_file_to_tasksets_odd_chains`, over classified lines. */
  method ReadOddChains(ls: seq<Line>) returns (r: Result<seq<TaskSet>>)
    ensures r == Parse(ls)
  {
    var tasksets: seq<TaskSet> := [];
    var currentTaskset: seq<int> := [];
    var currentChain: seq<int> := [];
    var currentChainId: Option<int> := None;
    var currChainLen := 0;
    var chainLengths: seq<int> := [];
    var i := 0;
    while i < |ls|
      invariant 0 <= i <= |ls|
      invariant RunFrom(Init, ls[..i]) ==
        Success(State(tasksets, currentTaskset, currentChain, currentChainId, currChainLen, chainLengths))
    {
      ghost var st := State(tasksets, currentTaskset, currentChain, currentChainId, currChainLen, chainLengths);
      RunNext(ls, i, st);
      var line := ls[i];
      match line {
        case Blank =>
        case Short =>
        case BadLiteral(literal) =>
          FailureSticks(Init, ls, i + 1);
          return Failure(literal);
        case Separator =>
          if currentChain != [] {
            currentTaskset := currentTaskset + currentChain;
            currChainLen := currChainLen + 1;
            chainLengths := chainLengths + [currChainLen];
            currChainLen := 0;
            currentChain := [];
            currentChainId := None;
          }
          ghost var closed := CloseChain(st);
          assert State(tasksets, currentTaskset, currentChain, currentChainId, currChainLen, chainLengths) == closed;
          if currentTaskset != [] {
            tasksets := tasksets + [TaskSet(currentTaskset, chainLengths)];
            chainLengths := [];
          }
          currentTaskset := [];
          currentChain := [];
          currentChainId := None;
          currChainLen := 0;
          assert State(tasksets, currentTaskset, currentChain, currentChainId, currChainLen, chainLengths) == CloseSet(st);
        case Entry(period, execTime, chainId) =>
          if currentChainId.None? || chainId != currentChainId.value {
            if currentChain != [] {
              currentTaskset := currentTaskset + currentChain;
              currChainLen := currChainLen + 1;
              chainLengths := chainLengths + [currChainLen];
              currChainLen := 0;
            }
            currentChain := [period, execTime];
            currentChainId := Some(chainId);
          } else {
            currentChain := currentChain + [execTime];
            currChainLen := currChainLen + 1;
          }
          assert State(tasksets, currentTaskset, currentChain, currentChainId, currChainLen, chainLengths)
            == AddEntry(st, period, execTime, chainId);
      }
      i := i + 1;
    }
    assert ls[..i] == ls;
    ghost var st := State(tasksets, currentTaskset, currentChain, currentChainId, currChainLen, chainLengths);
    if currentChain != [] {
      currentTaskset := currentTaskset + currentChain;
      currChainLen := currChainLen + 1;
      chainLengths := chainLengths + [currChainLen];
    }
    ghost var closed := CloseChain(st);
    assert currentTaskset == closed.taskset && chainLengths == closed.lengths;
    if currentTaskset != [] {
      tasksets := tasksets + [TaskSet(currentTaskset, chainLengths)];
      chainLengths := [];
    }
    r := Success(tasksets);
  }

  /**
   * `convert_file_to_tasksets`: the same loop without callback counts. The
   * counts and the finished task sets with their counts are ghost state that
   * ties the loop to the reading state machine.
   */
  method ParseTaskSets(lines: seq<string>) returns (r: Result<seq<seq<int>>>)
    ensures r == ParseFixed(lines)
  {
    r := ReadTaskSets(Classified(lines));
  }

  /** The reading loop of `convert_file_to_tasksets`, over classified lines. */
  method ReadTaskSets(ls: seq<Line>) returns (r: Result<seq<seq<int>>>)
    ensures r == ParseFlat(ls)
  {
    var tasksets: seq<seq<int>> := [];
    var currentTaskset: seq<int> := [];
    var currentChain: seq<int> := [];
    var currentChainId: Option<int> := None;
    ghost var done: seq<TaskSet> := [];
    ghost var chainLen := 0;
    ghost var lengths: seq<int> := [];
    var i := 0;
    while i < |ls|
      invariant 0 <= i <= |ls|
      invariant RunFrom(Init, ls[..i]) ==
        Success(State(done, currentTaskset, currentChain, currentChainId, chainLen, lengths))
      invariant tasksets == Flats(done)
    {
      ghost var st := State(done, currentTaskset, currentChain, currentChainId, chainLen, lengths);
      RunNext(ls, i, st);
      var line := ls[i];
      match line {
        case Blank =>
        case Short =>
        case BadLiteral(literal) =>
          FailureSticks(Init, ls, i + 1);
          return Failure(literal);
        case Separator =>
          if currentChain != [] {
            currentTaskset := currentTaskset + currentChain;
            lengths := lengths + [chainLen + 1];
            chainLen := 0;
            currentChain := [];
            currentChainId := None;
          }
          ghost var closed := CloseChain(st);
          assert State(done, currentTaskset, currentChain, currentChainId, chainLen, lengths) == closed;
          if currentTaskset != [] {
            FlatsSnoc(done, TaskSet(currentTaskset, lengths));
            tasksets := tasksets + [currentTaskset];
            done := done + [TaskSet(currentTaskset, lengths)];
            lengths := [];
          }
          currentTaskset := [];
          currentChain := [];
          currentChainId := None;
          chainLen := 0;
          assert State(done, currentTaskset, currentChain, currentChainId, chainLen, lengths) == CloseSet(st);
        case Entry(period, execTime, chainId) =>
          if currentChainId.None? || chainId != currentChainId.value {
            if currentChain != [] {
              currentTaskset := currentTaskset + currentChain;
              lengths := lengths + [chainLen + 1];
              chainLen := 0;
            }
            currentChain := [period, execTime];
            currentChainId := Some(chainId);
          } else {
            currentChain := currentChain + [execTime];
            chainLen := chainLen + 1;
          }
          assert State(done, currentTaskset, currentChain, currentChainId, chainLen, lengths)
            == AddEntry(st, period, execTime, chainId);
      }
      i := i + 1;
    }
    assert ls[..i] == ls;
    ghost var st := State(done, currentTaskset, currentChain, currentChainId, chainLen, lengths);
    if currentChain != [] {
      currentTaskset := currentTaskset + currentChain;
      lengths := lengths + [chainLen + 1];
    }
    ghost var closed := CloseChain(st);
    assert currentTaskset == closed.taskset && lengths == closed.lengths;
    if currentTaskset != [] {
      FlatsSnoc(done, TaskSet(currentTaskset, lengths));
      tasksets := tasksets + [currentTaskset];
      done := done + [TaskSet(currentTaskset, lengths)];
    }
    assert done == Finish(st);
    r := Success(tasksets);
  }
}

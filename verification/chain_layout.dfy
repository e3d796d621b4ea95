/**
 * How the job generators lay out the tasks of one task set before they
 * emit jobs: tasks are numbered chain after chain, the first task of every
 * chain is its timer (the "head"), the timers take the priorities of one
 * random permutation and the other tasks those of a second one, and every
 * non-head task names the priority of the task before it as its
 * predecessor.
 *
 * The variable-length generators find the heads by walking prefix sums of
 * the chain lengths; the fixed-length generators test `i % b == 0`. Both
 * are proved to compute the same head marks.
 */
module ChainLayout {
  import opened Seqs
  import opened ChainFile
  import Numeric

  // ----- Head marks -----

  /** The marks of one chain of `len` tasks: its first task is the head. */
  function Block(len: int): (r: seq<bool>)
    requires len >= 1
    ensures |r| == len && r[0]
    ensures forall j :: 1 <= j < len ==> !r[j]
  {
    [true] + Repeat(false, len - 1)
  }

  /** The head marks of tasks laid out chain after chain. */
  function Marks(lengths: seq<int>): (r: seq<bool>)
    requires AllPositive(lengths)
    ensures |r| == Sum(lengths)
  {
    if lengths == [] then []
    else
      var n := |lengths| - 1;
      SumSnoc(lengths[..n], lengths[n]);
      assert lengths == lengths[..n] + [lengths[n]];
      Marks(lengths[..n]) + Block(lengths[n])
  }

  /** The head marks of the fixed-length generators: `i % b == 0`. */
  function FixedHeads(nrofTasks: nat, b: int): (r: seq<bool>)
    requires b >= 1
    ensures |r| == nrofTasks
  {
    seq(nrofTasks, i => i % b == 0)
  }

  /** Number of marks set. */
  function CountTrue(s: seq<bool>): (r: nat)
    ensures r <= |s|
  {
    if s == [] then 0 else CountTrue(s[..|s| - 1]) + (if s[|s| - 1] then 1 else 0)
  }

  lemma {:induction false} CountTrueAppend(a: seq<bool>, b: seq<bool>)
    ensures CountTrue(a + b) == CountTrue(a) + CountTrue(b)
    decreases |b|
  {
    if b == [] {
      assert a + b == a;
    } else {
      var ab := a + b;
      assert ab[..|ab| - 1] == a + b[..|b| - 1];
      assert ab[|ab| - 1] == b[|b| - 1];
      CountTrueAppend(a, b[..|b| - 1]);
    }
  }

  lemma {:induction false} CountTrueNone(n: nat)
    ensures CountTrue(Repeat(false, n)) == 0
  {
    if n > 0 {
      assert Repeat(false, n)[..n - 1] == Repeat(false, n - 1);
      CountTrueNone(n - 1);
    }
  }

  /** Every chain has exactly one head. */
  lemma {:induction false} CountMarks(lengths: seq<int>)
    requires AllPositive(lengths)
    ensures CountTrue(Marks(lengths)) == |lengths|
  {
    if lengths != [] {
      var n := |lengths| - 1;
      CountMarks(lengths[..n]);
      CountTrueAppend(Marks(lengths[..n]), Block(lengths[n]));
      CountTrueAppend([true], Repeat(false, lengths[n] - 1));
      CountTrueNone(lengths[n] - 1);
      assert CountTrue([true]) == 1 by {
        assert [true][..0] == [];
      }
    }
  }

  lemma {:induction false} MarksPrefix(lengths: seq<int>, k: nat)
    requires AllPositive(lengths) && k <= |lengths|
    ensures AllPositive(lengths[..k]) && Marks(lengths[..k]) <= Marks(lengths)
    decreases |lengths| - k
  {
    var n := |lengths|;
    if k < n {
      MarksPrefix(lengths[..n - 1], k);
      assert lengths[..n - 1][..k] == lengths[..k];
      assert Marks(lengths) == Marks(lengths[..n - 1]) + Block(lengths[n - 1]);
    } else {
      assert lengths[..k] == lengths;
    }
  }

  /** Prefix sums of positive lengths grow strictly. */
  lemma {:induction false} PrefixSumsGrow(lengths: seq<int>, a: nat, b: nat)
    requires AllPositive(lengths) && a < b <= |lengths|
    ensures Sum(lengths[..a]) < Sum(lengths[..b])
    decreases b - a
  {
    SumPrefixStep(lengths, b - 1);
    if a < b - 1 {
      PrefixSumsGrow(lengths, a, b - 1);
    }
  }

  /**
   * The walk of the variable-length generators: with `t` heads passed, the
   * next head sits at Sum(lengths[..t]). A task lying after the previous
   * head and not beyond the next is a head exactly when it is the next.
   */
  lemma {:induction false} MarkAt(lengths: seq<int>, t: nat, i: int)
    requires AllPositive(lengths) && t <= |lengths| && 0 <= i < Sum(lengths)
    requires t > 0 ==> Sum(lengths[..t - 1]) < i
    requires t < |lengths| ==> i <= Sum(lengths[..t])
    ensures Marks(lengths)[i] <==> (t < |lengths| && i == Sum(lengths[..t]))
    decreases |lengths|
  {
    var n := |lengths|;
    var init := lengths[..n - 1];
    SumPrefixStep(lengths, n - 1);
    assert lengths[..n] == lengths;
    var s := Sum(init);
    assert Marks(lengths) == Marks(init) + Block(lengths[n - 1]);
    if i < s {
      if t == n {
        assert false;
      }
      if t < n - 1 {
        PrefixSumsGrow(lengths, t, n - 1);
      }
      assert init[..t] == lengths[..t];
      if t > 0 {
        assert init[..t - 1] == lengths[..t - 1];
      }
      MarkAt(init, t, i);
    } else {
      if t < n - 1 {
        PrefixSumsGrow(lengths, t, n - 1);
        assert false;
      }
    }
  }

  /**
   * The state of the walk before task i: `t` heads passed and the next head
   * expected at `p`.
   */
  predicate Walk(lengths: seq<int>, t: nat, p: int, i: int)
  {
    && t <= |lengths| && p == Sum(lengths[..t])
    && (t > 0 ==> Sum(lengths[..t - 1]) < i)
    && (t < |lengths| ==> i <= p)
    && (t == |lengths| ==> p == Sum(lengths))
    && (i == 0 ==> p == 0)
  }

  /** One task of the walk: it is a head exactly when it sits where the next head is expected. */
  lemma WalkStep(lengths: seq<int>, t: nat, p: int, i: int)
    requires AllPositive(lengths) && Walk(lengths, t, p, i) && 0 <= i < Sum(lengths)
    ensures Marks(lengths)[i] <==> i == p
    ensures i == p ==> t < |lengths| && Walk(lengths, t + 1, p + lengths[t], i + 1)
    ensures i != p ==> i > 0 && Walk(lengths, t, p, i + 1)
  {
    MarkAt(lengths, t, i);
    if i == p {
      WalkHead(lengths, t, p, i);
    }
  }

  /** The walk passes a head: the next head is expected one chain further. */
  lemma WalkHead(lengths: seq<int>, t: nat, p: int, i: int)
    requires AllPositive(lengths) && Walk(lengths, t, p, i) && 0 <= i < Sum(lengths) && i == p
    ensures t < |lengths| && Walk(lengths, t + 1, p + lengths[t], i + 1)
  {
    SumPrefixStep(lengths, t);
    if t + 1 == |lengths| {
      assert lengths[..t + 1] == lengths;
    }
  }

  lemma WalkStart(lengths: seq<int>)
    ensures Walk(lengths, 0, 0, 0)
  {
    if |lengths| == 0 {
      assert lengths[..0] == lengths;
    }
  }

  /** The i % b marks are the marks of nc chains of b tasks each. */
  lemma {:induction false} FixedHeadsAreMarks(nc: nat, b: int)
    requires b >= 1
    ensures AllPositive(Repeat(b, nc)) && Sum(Repeat(b, nc)) == nc * b
    ensures FixedHeads(nc * b, b) == Marks(Repeat(b, nc))
  {
    SumRepeat(b, nc);
    if nc > 0 {
      FixedHeadsAreMarks(nc - 1, b);
      var r := Repeat(b, nc);
      assert r[..nc - 1] == Repeat(b, nc - 1);
      var left := FixedHeads((nc - 1) * b, b);
      var whole := FixedHeads(nc * b, b);
      forall i | 0 <= i < nc * b ensures whole[i] == (left + Block(b))[i] {
        if i >= (nc - 1) * b {
          var j := i - (nc - 1) * b;
          assert i == j + (nc - 1) * b;
          ModShift(j, nc - 1, b);
        }
      }
    }
  }

  lemma ModShift(j: int, q: int, b: int)
    requires b >= 1 && 0 <= j < b && q >= 0
    ensures (j + q * b) % b == 0 <==> j == 0
  {
    Numeric.DivModUnique(q, b, j);
    assert j + q * b == q * b + j;
  }

  // ----- Priorities and predecessors -----

  /**
   * Priorities assigned in task order: a head takes the next timer
   * priority, any other task the next subscription priority. Task i is
   * preceded by CountTrue(heads[..i]) heads, so it takes the timer priority
   * at that index, or the subscription priority after the i - CountTrue(heads[..i])
   * non-heads before it.
   */
  function Assign(heads: seq<bool>, timers: seq<int>, subs: seq<int>): (r: seq<int>)
    requires CountTrue(heads) <= |timers| && |heads| - CountTrue(heads) <= |subs|
    ensures |r| == |heads|
  {
    AssignBounds(heads);
    seq(|heads|, i requires 0 <= i < |heads| =>
      if heads[i] then timers[CountTrue(heads[..i])] else subs[i - CountTrue(heads[..i])])
  }

  /** Fewer heads come before a head than there are in all, and likewise for non-heads. */
  lemma AssignBounds(heads: seq<bool>)
    ensures forall i :: 0 <= i < |heads| ==>
      && (heads[i] ==> CountTrue(heads[..i]) < CountTrue(heads))
      && (!heads[i] ==> i - CountTrue(heads[..i]) < |heads| - CountTrue(heads))
  {
    forall i | 0 <= i < |heads|
      ensures heads[i] ==> CountTrue(heads[..i]) < CountTrue(heads)
      ensures !heads[i] ==> i - CountTrue(heads[..i]) < |heads| - CountTrue(heads)
    {
      CountPrefix(heads, i + 1);
      CountStep(heads, i);
    }
  }

  /** The priority of task i: the timer or subscription priority after as many of its kind before it. */
  lemma AssignAt(heads: seq<bool>, timers: seq<int>, subs: seq<int>, i: nat)
    requires CountTrue(heads) <= |timers| && |heads| - CountTrue(heads) <= |subs|
    requires i < |heads|
    ensures var c := CountTrue(heads[..i]);
      && (heads[i] ==> c < |timers| && Assign(heads, timers, subs)[i] == timers[c])
      && (!heads[i] ==> i - c < |subs| && Assign(heads, timers, subs)[i] == subs[i - c])
  {
    AssignBounds(heads);
  }

  /**
   * With the timer priorities a permutation of 1..nc and the subscription
   * priorities one of nc+1..N, the assigned priorities are a permutation of 1..N.
   */
  lemma AssignPermutation(heads: seq<bool>, timers: seq<int>, subs: seq<int>)
    requires CountTrue(heads) == |timers| && |subs| == |heads| - |timers|
    requires PermutationOfRange(timers, 1, |timers| + 1)
    requires PermutationOfRange(subs, |timers| + 1, |heads| + 1)
    ensures PermutationOfRange(Assign(heads, timers, subs), 1, |heads| + 1)
  {
    var p := Assign(heads, timers, subs);
    forall i | 0 <= i < |p| ensures 1 <= p[i] <= |heads| {
      AssignAt(heads, timers, subs, i);
    }
    forall i, j | 0 <= i < j < |p| ensures p[i] != p[j] {
      AssignDistinct(heads, timers, subs, i, j);
    }
  }

  /** Two tasks take different priorities: different timers, different subscriptions, or one of each. */
  lemma AssignDistinct(heads: seq<bool>, timers: seq<int>, subs: seq<int>, i: nat, j: nat)
    requires CountTrue(heads) == |timers| && |subs| == |heads| - |timers|
    requires PermutationOfRange(timers, 1, |timers| + 1)
    requires PermutationOfRange(subs, |timers| + 1, |heads| + 1)
    requires i < j < |heads|
    ensures Assign(heads, timers, subs)[i] != Assign(heads, timers, subs)[j]
  {
    AssignAt(heads, timers, subs, i);
    AssignAt(heads, timers, subs, j);
    CountStep(heads, i);
    CountMono(heads, i + 1, j);
  }

  /** Counting over a longer prefix finds at least as many marks and at least as many unmarked tasks. */
  lemma CountMono(s: seq<bool>, a: nat, b: nat)
    requires a <= b <= |s|
    ensures CountTrue(s[..a]) <= CountTrue(s[..b])
    ensures a - CountTrue(s[..a]) <= b - CountTrue(s[..b])
  {
    CountPrefix(s[..b], a);
    assert s[..b][..a] == s[..a];
  }

  /** Under the same permutations, a task is a head exactly when its priority is at most nc. */
  lemma HeadsHoldTimerPriorities(heads: seq<bool>, timers: seq<int>, subs: seq<int>, i: nat)
    requires CountTrue(heads) == |timers| && |subs| == |heads| - |timers|
    requires PermutationOfRange(timers, 1, |timers| + 1)
    requires PermutationOfRange(subs, |timers| + 1, |heads| + 1)
    requires i < |heads|
    ensures 1 <= Assign(heads, timers, subs)[i] <= |heads|
    ensures heads[i] <==> Assign(heads, timers, subs)[i] <= |timers|
  {
    AssignAt(heads, timers, subs, i);
  }

  /** The chain lengths of the case study: four chains of 2, 4, 3 and 4 tasks. */
  const CaseStudyLengths: seq<int> := [2, 4, 3, 4]

  /** The priority list written into the case-study generator. */
  const CaseStudyPriority: seq<int> := [1, 5, 2, 6, 7, 8, 3, 9, 10, 4, 11, 12, 13]

  /** The predecessor list written into the case-study generator. */
  const CaseStudyPred: seq<int> := [0, 1, 0, 2, 6, 7, 0, 3, 9, 0, 4, 11, 12]

  /** The heads of the case study: tasks 0, 2, 6 and 9. */
  const CaseStudyHeads: seq<bool> :=
    [true, false, true, false, false, false, true, false, false, true, false, false, false]

  /**
   * The case-study priorities are what the priority walk gives with the
   * timer priorities 1..4 and the subscription priorities 5..13 in order,
   * and the predecessor list is what the predecessor walk derives from them.
   */
  lemma CaseStudyLists()
    ensures AllPositive(CaseStudyLengths) && Sum(CaseStudyLengths) == 13
    ensures CountTrue(Marks(CaseStudyLengths)) == 4
    ensures CaseStudyPriority == Assign(Marks(CaseStudyLengths), Range(1, 5), Range(5, 14))
    ensures CaseStudyPred == Preds(Marks(CaseStudyLengths), CaseStudyPriority)
  {
    CaseStudyMarks();
    CaseStudyAssign();
    CaseStudyPreds();
  }

  /** The case-study priorities are a permutation of 1..13 whose four chain heads hold 1..4. */
  lemma CaseStudyPermutation()
    ensures PermutationOfRange(CaseStudyPriority, 1, 14)
    ensures AllPositive(CaseStudyLengths) && Sum(CaseStudyLengths) == 13
    ensures forall i :: 0 <= i < 13 ==> (Marks(CaseStudyLengths)[i] <==> CaseStudyPriority[i] <= 4)
  {
    CaseStudyLists();
    TimerSplit(Marks(CaseStudyLengths), Range(1, 5), Range(5, 14), CaseStudyPriority);
  }

  /** Both facts for a whole priority list produced by the walk. */
  lemma TimerSplit(heads: seq<bool>, timers: seq<int>, subs: seq<int>, priority: seq<int>)
    requires CountTrue(heads) == |timers| && |subs| == |heads| - |timers|
    requires PermutationOfRange(timers, 1, |timers| + 1)
    requires PermutationOfRange(subs, |timers| + 1, |heads| + 1)
    requires priority == Assign(heads, timers, subs)
    ensures PermutationOfRange(priority, 1, |heads| + 1)
    ensures forall i :: 0 <= i < |heads| ==> (heads[i] <==> priority[i] <= |timers|)
  {
    AssignPermutation(heads, timers, subs);
    forall i | 0 <= i < |heads| ensures heads[i] <==> priority[i] <= |timers| {
      HeadsHoldTimerPriorities(heads, timers, subs, i);
    }
  }

  /** Chain after chain, the case-study marks are a head and then the chain's other tasks. */
  lemma CaseStudyMarks()
    ensures AllPositive(CaseStudyLengths) && Sum(CaseStudyLengths) == 13
    ensures Marks(CaseStudyLengths) == CaseStudyHeads
  {
    CaseStudyBlocks();
    BlockLiterals();
    assert [true, false] + [true, false, false, false] + [true, false, false] + [true, false, false, false]
      == CaseStudyHeads;
  }

  lemma CaseStudyBlocks()
    ensures AllPositive(CaseStudyLengths) && Sum(CaseStudyLengths) == 13
    ensures Marks(CaseStudyLengths) == Block(2) + Block(4) + Block(3) + Block(4)
  {
    assert Marks([]) == [];
    MarksSnoc([], 2);
    assert [] + [2] == [2];
    MarksSnoc([2], 4);
    assert [2] + [4] == [2, 4];
    MarksSnoc([2, 4], 3);
    assert [2, 4] + [3] == [2, 4, 3];
    MarksSnoc([2, 4, 3], 4);
    assert [2, 4, 3] + [4] == CaseStudyLengths;
  }

  lemma BlockLiterals()
    ensures Block(2) == [true, false]
    ensures Block(3) == [true, false, false]
    ensures Block(4) == [true, false, false, false]
  {
  }

  /** Adding a chain adds its block of marks. */
  lemma MarksSnoc(lengths: seq<int>, len: int)
    requires AllPositive(lengths) && len >= 1
    ensures AllPositive(lengths + [len])
    ensures Marks(lengths + [len]) == Marks(lengths) + Block(len)
  {
    assert (lengths + [len])[..|lengths|] == lengths;
  }

  /** The number of heads before each case-study task, four tasks at a time. */
  lemma CaseStudyCounts1()
    ensures CountTrue(CaseStudyHeads[..1]) == 1 && CountTrue(CaseStudyHeads[..2]) == 1
    ensures CountTrue(CaseStudyHeads[..3]) == 2 && CountTrue(CaseStudyHeads[..4]) == 2
  {
    var h := CaseStudyHeads;
    assert h[..0] == [];
    CountStep(h, 0); CountStep(h, 1); CountStep(h, 2); CountStep(h, 3);
  }

  lemma CaseStudyCounts2()
    ensures CountTrue(CaseStudyHeads[..5]) == 2 && CountTrue(CaseStudyHeads[..6]) == 2
    ensures CountTrue(CaseStudyHeads[..7]) == 3 && CountTrue(CaseStudyHeads[..8]) == 3
  {
    var h := CaseStudyHeads;
    CaseStudyCounts1();
    CountStep(h, 4); CountStep(h, 5); CountStep(h, 6); CountStep(h, 7);
  }

  lemma CaseStudyCounts3()
    ensures CountTrue(CaseStudyHeads[..9]) == 3 && CountTrue(CaseStudyHeads[..10]) == 4
    ensures CountTrue(CaseStudyHeads[..11]) == 4 && CountTrue(CaseStudyHeads[..12]) == 4
    ensures CountTrue(CaseStudyHeads) == 4
  {
    var h := CaseStudyHeads;
    CaseStudyCounts2();
    CountStep(h, 8); CountStep(h, 9); CountStep(h, 10); CountStep(h, 11); CountStep(h, 12);
    assert h[..13] == h;
  }

  /** The priorities of the case-study tasks, a few at a time. */
  lemma CaseStudyAssign1(p: seq<int>)
    requires CountTrue(CaseStudyHeads) == 4 && p == Assign(CaseStudyHeads, Range(1, 5), Range(5, 14))
    ensures p[0] == 1 && p[1] == 5 && p[2] == 2 && p[3] == 6
  {
    var h, t, s := CaseStudyHeads, Range(1, 5), Range(5, 14);
    CaseStudyCounts1();
    assert h[..0] == [];
    AssignAt(h, t, s, 0); AssignAt(h, t, s, 1); AssignAt(h, t, s, 2); AssignAt(h, t, s, 3);
  }

  lemma CaseStudyAssign2(p: seq<int>)
    requires CountTrue(CaseStudyHeads) == 4 && p == Assign(CaseStudyHeads, Range(1, 5), Range(5, 14))
    ensures p[4] == 7 && p[5] == 8 && p[6] == 3 && p[7] == 9
  {
    var h, t, s := CaseStudyHeads, Range(1, 5), Range(5, 14);
    CaseStudyCounts1();
    CaseStudyCounts2();
    AssignAt(h, t, s, 4); AssignAt(h, t, s, 5); AssignAt(h, t, s, 6); AssignAt(h, t, s, 7);
  }

  lemma CaseStudyAssign3(p: seq<int>)
    requires CountTrue(CaseStudyHeads) == 4 && p == Assign(CaseStudyHeads, Range(1, 5), Range(5, 14))
    ensures p[8] == 10 && p[9] == 4 && p[10] == 11 && p[11] == 12 && p[12] == 13
  {
    var h, t, s := CaseStudyHeads, Range(1, 5), Range(5, 14);
    CaseStudyCounts2();
    CaseStudyCounts3();
    AssignAt(h, t, s, 8); AssignAt(h, t, s, 9); AssignAt(h, t, s, 10);
    AssignAt(h, t, s, 11); AssignAt(h, t, s, 12);
  }

  lemma CaseStudyAssign()
    ensures CountTrue(CaseStudyHeads) == 4
    ensures Assign(CaseStudyHeads, Range(1, 5), Range(5, 14)) == CaseStudyPriority
  {
    CaseStudyCounts3();
    var p := Assign(CaseStudyHeads, Range(1, 5), Range(5, 14));
    CaseStudyAssign1(p);
    CaseStudyAssign2(p);
    CaseStudyAssign3(p);
  }

  lemma CaseStudyPreds()
    ensures Preds(CaseStudyHeads, CaseStudyPriority) == CaseStudyPred
  {
  }

  /**
   * Predecessor priorities: 0 for a head, the priority of the previous task
   * otherwise (index -1 is the last task, as Python reads it).
   */
  function Preds(heads: seq<bool>, priority: seq<int>): (r: seq<int>)
    requires |priority| == |heads|
    ensures |r| == |heads|
    ensures forall i :: 0 < i < |heads| && !heads[i] ==> r[i] == priority[i - 1]
    ensures forall i :: 0 <= i < |heads| && heads[i] ==> r[i] == 0
  {
    seq(|heads|, i requires 0 <= i < |heads| =>
      if heads[i] then 0 else if i == 0 then priority[|priority| - 1] else priority[i - 1])
  }

  /**
   * The priority loop of the fixed-length generators: a task with
   * `i % b == 0` takes the next timer priority, the others the next
   * subscription priority.
   */
  method FixedPriorities(nrofChains: nat, b: int, timers: seq<int>, subs: seq<int>) returns (priority: seq<int>)
    requires b >= 1 && |timers| == nrofChains && |subs| == nrofChains * b - nrofChains
    ensures CountTrue(FixedHeads(nrofChains * b, b)) == nrofChains
    ensures priority == Assign(FixedHeads(nrofChains * b, b), timers, subs)
  {
    var nrofTasks := nrofChains * b;
    ghost var heads := FixedHeads(nrofTasks, b);
    FixedHeadCount(nrofChains, b);
    ghost var spec := Assign(heads, timers, subs);
    priority := seq(nrofTasks, _ => 0);
    var timerIndex, subsIndex := 0, 0;
    for i := 0 to nrofTasks
      invariant |priority| == nrofTasks
      invariant timerIndex == CountTrue(heads[..i]) && subsIndex == i - timerIndex
      invariant Agrees(priority, spec, i)
    {
      AssignAt(heads, timers, subs, i);
      CountStep(heads, i);
      if i % b == 0 {
        ExtendPrefix(priority, spec, i, timers[timerIndex]);
        priority := priority[i := timers[timerIndex]];
        timerIndex := timerIndex + 1;
      } else {
        ExtendPrefix(priority, spec, i, subs[subsIndex]);
        priority := priority[i := subs[subsIndex]];
        subsIndex := subsIndex + 1;
      }
    }
    AgreesAll(priority, spec);
  }

  /** The fixed-length layout has one head per chain. */
  lemma FixedHeadCount(nc: nat, b: int)
    requires b >= 1
    ensures CountTrue(FixedHeads(nc * b, b)) == nc
  {
    FixedHeadsAreMarks(nc, b);
    CountMarks(Repeat(b, nc));
  }

  /** Writing the next value of a specification extends the prefix that agrees with it. */
  lemma ExtendPrefix(s: seq<int>, spec: seq<int>, i: nat, v: int)
    requires i < |s| == |spec| && spec[i] == v
    requires Agrees(s, spec, i)
    ensures |s[i := v]| == |s|
    ensures Agrees(s[i := v], spec, i + 1)
  {
  }

  /** The first `i` entries of `s` are those of `spec`. */
  predicate Agrees(s: seq<int>, spec: seq<int>, i: nat)
  {
    i <= |s| == |spec| && forall j :: 0 <= j < i ==> s[j] == spec[j]
  }

  /** An entry that already agrees extends the agreeing prefix. */
  lemma AgreesAt(s: seq<int>, spec: seq<int>, i: nat)
    requires Agrees(s, spec, i) && i < |s| && s[i] == spec[i]
    ensures Agrees(s, spec, i + 1)
  {
  }

  /** Agreeing on every entry is equality. */
  lemma AgreesAll(s: seq<int>, spec: seq<int>)
    requires Agrees(s, spec, |spec|)
    ensures s == spec
  {
  }

  /** One more task adds its own mark to the count. */
  lemma CountStep(s: seq<bool>, i: nat)
    requires i < |s|
    ensures CountTrue(s[..i + 1]) == CountTrue(s[..i]) + (if s[i] then 1 else 0)
  {
    assert s[..i + 1][..i] == s[..i];
  }

  /** A prefix never has more marks than the whole. */
  lemma {:induction false} CountPrefix(s: seq<bool>, k: nat)
    requires k <= |s|
    ensures CountTrue(s[..k]) <= CountTrue(s)
    ensures k - CountTrue(s[..k]) <= |s| - CountTrue(s)
  {
    assert s == s[..k] + s[k..];
    CountTrueAppend(s[..k], s[k..]);
  }

  /** The predecessor loop of the fixed-length generators. */
  method FixedPreds(nrofTasks: nat, b: int, priority: seq<int>) returns (pred: seq<int>)
    requires b >= 1 && |priority| == nrofTasks
    ensures pred == Preds(FixedHeads(nrofTasks, b), priority)
  {
    pred := seq(nrofTasks, _ => 0);
    for i := 0 to nrofTasks
      invariant |pred| == nrofTasks
      invariant pred[..i] == Preds(FixedHeads(nrofTasks, b), priority)[..i]
      invariant forall j :: i <= j < nrofTasks ==> pred[j] == 0
    {
      if i % b == 0 {
        continue;
      } else {
        pred := pred[i := priority[i - 1]];
      }
    }
    assert pred[..nrofTasks] == pred;
  }

  /**
   * The priority loop of the variable-length generators: `period_idx`
   * walks the prefix sums of the chain lengths to find the heads.
   */
  method OddPriorities(lengths: seq<int>, timers: seq<int>, subs: seq<int>) returns (priority: seq<int>)
    requires AllPositive(lengths) && |timers| == |lengths| && |subs| == Sum(lengths) - |lengths|
    ensures CountTrue(Marks(lengths)) == |lengths|
    ensures priority == Assign(Marks(lengths), timers, subs)
  {
    var nrofTasks := Sum(lengths);
    CountMarks(lengths);
    priority := seq(nrofTasks, _ => 0);
    var periodIdx, timerIndex, subsIndex := 0, 0, 0;
    for i := 0 to nrofTasks
      invariant OddWalk(lengths, timers, subs, priority, i, periodIdx, timerIndex, subsIndex)
    {
      ghost var priority0, periodIdx0, timerIndex0, subsIndex0 := priority, periodIdx, timerIndex, subsIndex;
      OddWalkBounds(lengths, timers, subs, priority, i, periodIdx, timerIndex, subsIndex);
      if i == periodIdx {
        priority := priority[i := timers[timerIndex]];
        periodIdx := periodIdx + lengths[timerIndex];
        timerIndex := timerIndex + 1;
      } else {
        priority := priority[i := subs[subsIndex]];
        subsIndex := subsIndex + 1;
      }
      OddWalkStep(lengths, timers, subs, priority0, i, periodIdx0, timerIndex0, subsIndex0,
                  priority, periodIdx, timerIndex, subsIndex);
    }
    AgreesAll(priority, Assign(Marks(lengths), timers, subs));
  }

  /**
   * The state of the variable-length priority loop before task i: `t`
   * heads passed, the next head expected at `p`, `u` non-heads passed, and
   * the first i priorities those Assign gives.
   */
  predicate OddWalk(lengths: seq<int>, timers: seq<int>, subs: seq<int>, priority: seq<int>, i: nat, p: int, t: nat, u: int)
    requires AllPositive(lengths) && |timers| == |lengths| && |subs| == Sum(lengths) - |lengths|
  {
    CountMarks(lengths);
    && |priority| == Sum(lengths) && i <= Sum(lengths)
    && t <= |lengths| && t == CountTrue(Marks(lengths)[..i]) && u == i - t
    && p == Sum(lengths[..t])
    && Agrees(priority, Assign(Marks(lengths), timers, subs), i)
  }

  /** Before a task, the next timer (at a head) or the next subscription (elsewhere) exists. */
  lemma OddWalkBounds(lengths: seq<int>, timers: seq<int>, subs: seq<int>, priority: seq<int>, i: nat, p: int, t: nat, u: int)
    requires AllPositive(lengths) && |timers| == |lengths| && |subs| == Sum(lengths) - |lengths|
    requires OddWalk(lengths, timers, subs, priority, i, p, t, u) && i < Sum(lengths)
    ensures i == p ==> t < |timers|
    ensures i != p ==> 0 <= u < |subs|
  {
    CountMarks(lengths);
    PriorityStep(lengths, Marks(lengths), timers, subs, t, p, i);
  }

  /** One iteration of the variable-length priority loop keeps its state. */
  lemma OddWalkStep(lengths: seq<int>, timers: seq<int>, subs: seq<int>,
                    priority: seq<int>, i: nat, p: int, t: nat, u: int,
                    priority': seq<int>, p': int, t': nat, u': int)
    requires AllPositive(lengths) && |timers| == |lengths| && |subs| == Sum(lengths) - |lengths|
    requires OddWalk(lengths, timers, subs, priority, i, p, t, u) && i < Sum(lengths)
    requires i == p ==> t < |timers| && priority' == priority[i := timers[t]] && p' == p + lengths[t] && t' == t + 1 && u' == u
    requires i != p ==> 0 <= u < |subs| && priority' == priority[i := subs[u]] && p' == p && t' == t && u' == u + 1
    ensures OddWalk(lengths, timers, subs, priority', i + 1, p', t', u')
  {
    var heads := Marks(lengths);
    CountMarks(lengths);
    var spec := Assign(heads, timers, subs);
    PriorityStep(lengths, heads, timers, subs, t, p, i);
    var v := if i == p then timers[t] else subs[u];
    ExtendPrefix(priority, spec, i, v);
  }

  /**
   * One task of the variable-length priority loop: with `t` heads before
   * task i and the next head expected at `p`, task i is a head exactly when
   * i == p, and it takes the priority Assign gives it.
   */
  lemma PriorityStep(lengths: seq<int>, heads: seq<bool>, timers: seq<int>, subs: seq<int>, t: nat, p: int, i: nat)
    requires AllPositive(lengths) && heads == Marks(lengths) && CountTrue(heads) == |lengths|
    requires |timers| == |lengths| && |subs| == Sum(lengths) - |lengths|
    requires i < Sum(lengths) && t == CountTrue(heads[..i]) && t <= |lengths| && p == Sum(lengths[..t])
    ensures t <= |lengths|
    ensures i == p ==>
      && t < |timers| && Assign(heads, timers, subs)[i] == timers[t]
      && p + lengths[t] == Sum(lengths[..t + 1]) && CountTrue(heads[..i + 1]) == t + 1
    ensures i != p ==>
      && i - t < |subs| && Assign(heads, timers, subs)[i] == subs[i - t]
      && CountTrue(heads[..i + 1]) == t
  {
    CountPrefix(heads, i);
    WalkAt(lengths, i);
    WalkStep(lengths, t, p, i);
    AssignAt(heads, timers, subs, i);
    CountStep(heads, i);
    if i == p {
      SumPrefixStep(lengths, t);
    }
  }

  /** Before task i the walk has passed as many heads as the marks of tasks 0..i-1 count. */
  lemma {:induction false} WalkAt(lengths: seq<int>, i: nat)
    requires AllPositive(lengths) && i <= Sum(lengths)
    ensures CountTrue(Marks(lengths)[..i]) <= |lengths|
    ensures var t := CountTrue(Marks(lengths)[..i]); Walk(lengths, t, Sum(lengths[..t]), i)
  {
    if i == 0 {
      WalkStart(lengths);
      assert Marks(lengths)[..0] == [];
    } else {
      WalkAt(lengths, i - 1);
      WalkAtNext(lengths, i - 1, CountTrue(Marks(lengths)[..i - 1]));
    }
  }

  lemma WalkAtNext(lengths: seq<int>, i: nat, t: nat)
    requires AllPositive(lengths) && i < Sum(lengths)
    requires t == CountTrue(Marks(lengths)[..i]) && t <= |lengths| && Walk(lengths, t, Sum(lengths[..t]), i)
    ensures var t' := CountTrue(Marks(lengths)[..i + 1]);
      t' <= |lengths| && Walk(lengths, t', Sum(lengths[..t']), i + 1)
  {
    WalkStep(lengths, t, Sum(lengths[..t]), i);
    CountStep(Marks(lengths), i);
  }

  /** The predecessor loop of the variable-length generators, with the same walk. */
  method OddPreds(lengths: seq<int>, priority: seq<int>) returns (pred: seq<int>)
    requires AllPositive(lengths) && |priority| == Sum(lengths)
    ensures pred == Preds(Marks(lengths), priority)
  {
    var nrofTasks := Sum(lengths);
    ghost var spec := Preds(Marks(lengths), priority);
    pred := seq(nrofTasks, _ => 0);
    var periodIdx, timerIndex := 0, 0;
    WalkStart(lengths);
    for i := 0 to nrofTasks
      invariant |pred| == nrofTasks
      invariant Walk(lengths, timerIndex, periodIdx, i)
      invariant Agrees(pred, spec, i)
      invariant forall j :: i <= j < nrofTasks ==> pred[j] == 0
    {
      WalkStep(lengths, timerIndex, periodIdx, i);
      if i == periodIdx {
        AgreesAt(pred, spec, i);
        periodIdx := periodIdx + lengths[timerIndex];
        timerIndex := timerIndex + 1;
        continue;
      } else {
        ExtendPrefix(pred, spec, i, priority[i - 1]);
        pred := pred[i := priority[i - 1]];
      }
    }
    AgreesAll(pred, spec);
  }

  // ----- Periods and execution times -----

  /** The period of every chain, in chain order. */
  function Periods(cs: seq<Chain>): (r: seq<int>)
    ensures |r| == |cs| && forall k :: 0 <= k < |cs| ==> r[k] == cs[k].period
  {
    if cs == [] then [] else Periods(cs[..|cs| - 1]) + [cs[|cs| - 1].period]
  }

  /** The callback execution times of all chains, chain after chain. */
  function Execs(cs: seq<Chain>): seq<int>
  {
    if cs == [] then [] else Execs(cs[..|cs| - 1]) + cs[|cs| - 1].execs
  }

  /** `periods_extended`: the period of chain i repeated once per callback of chain i. */
  function Extended(periods: seq<int>, lengths: seq<int>): (r: seq<int>)
    requires |periods| == |lengths| && AllNonNegative(lengths)
    ensures |r| == Sum(lengths)
  {
    if periods == [] then []
    else
      var n := |periods| - 1;
      SumSnoc(lengths[..n], lengths[n]);
      assert lengths == lengths[..n] + [lengths[n]];
      Extended(periods[..n], lengths[..n]) + Repeat(periods[n], lengths[n])
  }

  /** One execution time per callback of every chain. */
  lemma {:induction false} ExecsLength(cs: seq<Chain>)
    ensures |Execs(cs)| == Sum(Lengths(cs))
  {
    if cs != [] {
      var n := |cs| - 1;
      ExecsLength(cs[..n]);
      assert Lengths(cs) == Lengths(cs[..n]) + [|cs[n].execs|];
      SumSnoc(Lengths(cs[..n]), |cs[n].execs|);
    }
  }

  /** Repeating positive periods gives positive periods. */
  lemma {:induction false} ExtendedPositive(periods: seq<int>, lengths: seq<int>)
    requires |periods| == |lengths| && AllNonNegative(lengths)
    ensures AllPositive(periods) ==> AllPositive(Extended(periods, lengths))
  {
    if periods != [] {
      var n := |periods| - 1;
      ExtendedPositive(periods[..n], lengths[..n]);
    }
  }

  /** Every task of chain k carries the period of chain k. */
  lemma {:induction false} ExtendedAt(periods: seq<int>, lengths: seq<int>, k: nat, q: int)
    requires |periods| == |lengths| && AllNonNegative(lengths) && k < |lengths|
    requires Sum(lengths[..k]) <= q < Sum(lengths[..k + 1])
    ensures 0 <= q < Sum(lengths) && Extended(periods, lengths)[q] == periods[k]
  {
    var n := |lengths| - 1;
    var init := lengths[..n];
    SumPrefixStep(lengths, n);
    assert lengths[..n + 1] == lengths;
    SumNonNegative(init);
    if k < n {
      assert init[..k] == lengths[..k] && init[..k + 1] == lengths[..k + 1];
      SumPrefixLe(init, k + 1);
      ExtendedAt(periods[..n], init, k, q);
      SumNonNegative(lengths[..k]);
      assert Extended(periods, lengths)[q] == Extended(periods[..n], init)[q];
    } else {
      SumNonNegative(lengths[..k]);
    }
  }

  /** Two neighbouring tasks of which the second is not a head have the same period. */
  lemma {:induction false} ExtendedSameInChain(periods: seq<int>, lengths: seq<int>, q: int)
    requires |periods| == |lengths| && AllPositive(lengths)
    requires 0 < q < Sum(lengths) && !Marks(lengths)[q]
    ensures Extended(periods, lengths)[q] == Extended(periods, lengths)[q - 1]
  {
    var n := |lengths| - 1;
    var init := lengths[..n];
    SumSnoc(init, lengths[n]);
    assert lengths == init + [lengths[n]];
    var e := Extended(periods, lengths);
    assert e == Extended(periods[..n], init) + Repeat(periods[n], lengths[n]);
    assert Marks(lengths) == Marks(init) + Block(lengths[n]);
    if q < Sum(init) {
      ExtendedSameInChain(periods[..n], init, q);
    }
  }

  /** The entries whose mark equals `want`, in order. */
  function Keep(s: seq<int>, marks: seq<bool>, want: bool): (r: seq<int>)
    requires |s| == |marks|
    ensures |r| <= |s|
  {
    if s == [] then []
    else
      var n := |s| - 1;
      Keep(s[..n], marks[..n], want) + (if marks[n] == want then [s[n]] else [])
  }

  lemma {:induction false} KeepAppend(a: seq<int>, ma: seq<bool>, b: seq<int>, mb: seq<bool>, want: bool)
    requires |a| == |ma| && |b| == |mb|
    ensures Keep(a + b, ma + mb, want) == Keep(a, ma, want) + Keep(b, mb, want)
    decreases |b|
  {
    if b == [] {
      assert a + b == a && ma + mb == ma;
    } else {
      var n := |b| - 1;
      assert (a + b)[..|a| + n] == a + b[..n];
      assert (ma + mb)[..|a| + n] == ma + mb[..n];
      KeepAppend(a, ma, b[..n], mb[..n], want);
      var tail := if mb[n] == want then [b[n]] else [];
      assert (a + b)[|a| + n] == b[n] && (ma + mb)[|a| + n] == mb[n];
      assert Keep(a + b, ma + mb, want) == Keep(a + b[..n], ma + mb[..n], want) + tail;
      assert Keep(b, mb, want) == Keep(b[..n], mb[..n], want) + tail;
    }
  }

  /** Within one chain's entries the head is the period and the rest are the execution times. */
  lemma {:induction false} KeepBlock(p: int, e: seq<int>)
    ensures Keep([p] + e, Block(|e| + 1), true) == [p]
    ensures Keep([p] + e, Block(|e| + 1), false) == e
  {
    if e == [] {
      assert [p] + e == [p] && Block(1) == [true];
      assert [p][..0] == [];
    } else {
      var n := |e| - 1;
      assert ([p] + e)[..|e|] == [p] + e[..n];
      assert Block(|e| + 1)[..|e|] == Block(|e|);
      KeepBlock(p, e[..n]);
      assert e == e[..n] + [e[n]];
    }
  }

  /** Chain sizes counting the period entry: `L + 1` for every chain. */
  function Succ(lengths: seq<int>): (r: seq<int>)
    requires AllNonNegative(lengths)
    ensures |r| == |lengths| && AllPositive(r)
    ensures forall k :: 0 <= k < |lengths| ==> r[k] == lengths[k] + 1
  {
    seq(|lengths|, k requires 0 <= k < |lengths| => lengths[k] + 1)
  }

  lemma {:induction false} SumSucc(lengths: seq<int>)
    requires AllNonNegative(lengths)
    ensures Sum(Succ(lengths)) == Sum(lengths) + |lengths|
  {
    if lengths != [] {
      var n := |lengths| - 1;
      assert Succ(lengths)[..n] == Succ(lengths[..n]);
      SumSucc(lengths[..n]);
    }
  }

  /**
   * In a flattened list of chains the period entries are the chain heads:
   * keeping the heads gives the periods, dropping them the execution times.
   */
  lemma {:induction false} KeepChains(cs: seq<Chain>)
    ensures AllNonNegative(Lengths(cs)) && |Flatten(cs)| == Sum(Succ(Lengths(cs)))
    ensures Keep(Flatten(cs), Marks(Succ(Lengths(cs))), true) == Periods(cs)
    ensures Keep(Flatten(cs), Marks(Succ(Lengths(cs))), false) == Execs(cs)
  {
    FlattenLength(cs);
    SumSucc(Lengths(cs));
    if cs != [] {
      var n := |cs| - 1;
      var init, c := cs[..n], cs[n];
      KeepChains(init);
      var sizes := Succ(Lengths(cs));
      assert sizes[..n] == Succ(Lengths(init));
      assert sizes[n] == |c.execs| + 1;
      assert Marks(sizes) == Marks(Succ(Lengths(init))) + Block(|c.execs| + 1);
      assert Flatten(cs) == Flatten(init) + ([c.period] + c.execs);
      KeepAppend(Flatten(init), Marks(Succ(Lengths(init))), [c.period] + c.execs, Block(|c.execs| + 1), true);
      KeepAppend(Flatten(init), Marks(Succ(Lengths(init))), [c.period] + c.execs, Block(|c.execs| + 1), false);
      KeepBlock(c.period, c.execs);
    }
  }

  /** The same for a flat list read from a file: its heads sit at the prefix sums of `L + 1`. */
  lemma KeepOfChains(ts: seq<int>, lengths: seq<int>)
    requires WellFormed(TaskSet(ts, lengths))
    ensures AllNonNegative(lengths) && |ts| == Sum(Succ(lengths))
    ensures Keep(ts, Marks(Succ(lengths)), true) == Periods(Chains(ts, lengths))
    ensures Keep(ts, Marks(Succ(lengths)), false) == Execs(Chains(ts, lengths))
  {
    FlattenChains(ts, lengths);
    KeepChains(Chains(ts, lengths));
  }

  /** The period walk of the variable-length generators: `period_idx += chain_length + 1`. */
  method OddPeriods(ts: seq<int>, lengths: seq<int>) returns (periods: seq<int>)
    requires WellFormed(TaskSet(ts, lengths))
    ensures periods == Periods(Chains(ts, lengths))
  {
    ghost var cs := Chains(ts, lengths);
    periods := [];
    var periodIdx := 0;
    for k := 0 to |lengths|
      invariant periodIdx == Sum(lengths[..k]) + k
      invariant periods == Periods(cs)[..k]
    {
      ChainsAt(ts, lengths, k);
      SumPrefixStep(lengths, k);
      assert Periods(cs)[..k + 1] == Periods(cs)[..k] + [ts[periodIdx]];
      periods := periods + [ts[periodIdx]];
      periodIdx := periodIdx + lengths[k] + 1;
    }
  }

  /**
   * The execution-time walk of the variable-length generators: an entry
   * before the next period index is an execution time, the entry at it is
   * a period and moves the index past the chain.
   */
  method OddWcets(ts: seq<int>, lengths: seq<int>) returns (wcets: seq<int>)
    requires WellFormed(TaskSet(ts, lengths))
    ensures wcets == Execs(Chains(ts, lengths))
  {
    KeepOfChains(ts, lengths);
    var periodIdx, chainIdx := 0, 0;
    wcets := [];
    WalkStart(Succ(lengths));
    for i := 0 to |ts|
      invariant WcetWalk(ts, lengths, wcets, i, periodIdx, chainIdx)
    {
      ghost var wcets0, periodIdx0, chainIdx0 := wcets, periodIdx, chainIdx;
      WcetBounds(ts, lengths, wcets, i, periodIdx, chainIdx);
      if i < periodIdx {
        wcets := wcets + [ts[i]];
      } else if i == periodIdx {
        periodIdx := periodIdx + lengths[chainIdx] + 1;
        chainIdx := chainIdx + 1;
      }
      WcetWalkStep(ts, lengths, wcets0, i, periodIdx0, chainIdx0, wcets, periodIdx, chainIdx);
    }
    KeepWhole(ts, Marks(Succ(lengths)), false);
  }

  /**
   * The state of the execution-time walk before entry i: the walk over the
   * chain sizes (callbacks plus the period) and the execution times kept so far.
   */
  predicate WcetWalk(ts: seq<int>, lengths: seq<int>, wcets: seq<int>, i: nat, p: int, t: nat)
    requires AllNonNegative(lengths) && |ts| == Sum(Succ(lengths))
  {
    && i <= |ts| && Walk(Succ(lengths), t, p, i)
    && wcets == Keep(ts[..i], Marks(Succ(lengths))[..i], false)
  }

  /** Before an entry, the walk has not passed the next period index, and a chain is left at it. */
  lemma WcetBounds(ts: seq<int>, lengths: seq<int>, wcets: seq<int>, i: nat, p: int, t: nat)
    requires AllNonNegative(lengths) && |ts| == Sum(Succ(lengths))
    requires WcetWalk(ts, lengths, wcets, i, p, t) && i < |ts|
    ensures i <= p && (i == p ==> t < |lengths|)
  {
    WalkStep(Succ(lengths), t, p, i);
  }

  /** One entry of the execution-time walk keeps its state. */
  lemma WcetWalkStep(ts: seq<int>, lengths: seq<int>, wcets: seq<int>, i: nat, p: int, t: nat,
                     wcets': seq<int>, p': int, t': nat)
    requires AllNonNegative(lengths) && |ts| == Sum(Succ(lengths))
    requires WcetWalk(ts, lengths, wcets, i, p, t) && i < |ts| && i <= p
    requires i < p ==> wcets' == wcets + [ts[i]] && p' == p && t' == t
    requires i == p ==> t < |lengths| && wcets' == wcets && p' == p + lengths[t] + 1 && t' == t + 1
    ensures WcetWalk(ts, lengths, wcets', i + 1, p', t')
  {
    WcetStep(ts, Succ(lengths), t, p, i);
  }

  /** The walk over every entry keeps what Keep keeps of the whole list. */
  lemma KeepWhole(s: seq<int>, marks: seq<bool>, want: bool)
    requires |s| == |marks|
    ensures Keep(s[..|s|], marks[..|s|], want) == Keep(s, marks, want)
  {
    assert s[..|s|] == s && marks[..|s|] == marks;
  }

  /** One entry of the execution-time walk. */
  lemma WcetStep(ts: seq<int>, sizes: seq<int>, t: nat, p: int, i: nat)
    requires AllPositive(sizes) && |ts| == Sum(sizes) && Walk(sizes, t, p, i) && i < |ts|
    ensures i <= p
    ensures i == p ==>
      && t < |sizes| && Walk(sizes, t + 1, p + sizes[t], i + 1)
      && Keep(ts[..i + 1], Marks(sizes)[..i + 1], false) == Keep(ts[..i], Marks(sizes)[..i], false)
    ensures i != p ==>
      && Walk(sizes, t, p, i + 1)
      && Keep(ts[..i + 1], Marks(sizes)[..i + 1], false) == Keep(ts[..i], Marks(sizes)[..i], false) + [ts[i]]
  {
    WalkStep(sizes, t, p, i);
    KeepStep(ts, Marks(sizes), false, i);
  }

  /** One more entry of a prefix. */
  lemma KeepStep(s: seq<int>, marks: seq<bool>, want: bool, i: nat)
    requires |s| == |marks| && i < |s|
    ensures Keep(s[..i + 1], marks[..i + 1], want)
      == Keep(s[..i], marks[..i], want) + (if marks[i] == want then [s[i]] else [])
  {
    assert s[..i + 1][..i] == s[..i];
    assert marks[..i + 1][..i] == marks[..i];
  }

  /** `[task_set[i] for i in range(0, len(task_set), b + 1)]`. */
  function FixedPeriods(flat: seq<int>, b: nat): (r: seq<int>)
    ensures |r| == (|flat| + b) / (b + 1)
  {
    var n := (|flat| + b) / (b + 1);
    seq(n, k requires 0 <= k < n => StrideBound(k, b, |flat|); flat[k * (b + 1)])
  }

  lemma StrideBound(k: nat, b: nat, len: nat)
    requires k < (len + b) / (b + 1)
    ensures k * (b + 1) < len
  {
    var n := (len + b) / (b + 1);
    assert n * (b + 1) <= len + b;
    Numeric.MulMonotone(b + 1, k + 1, n);
  }

  /** `[task_set[i] for i in range(len(task_set)) if i % (b + 1) != 0]`. */
  function FixedWcets(flat: seq<int>, b: nat): seq<int>
  {
    Keep(flat, FixedHeads(|flat|, b + 1), false)
  }

  /** With |flat| == nc * (b + 1), the flat list describes nc chains of b callbacks. */
  lemma FixedShape(flat: seq<int>, nc: nat, b: int)
    requires b >= 1 && |flat| == nc * (b + 1)
    ensures AllNonNegative(Repeat(b, nc)) && |flat| == Sum(Repeat(b, nc)) + nc
    ensures nc > 0 ==> WellFormed(TaskSet(flat, Repeat(b, nc)))
  {
    SumRepeat(b, nc);
    assert nc * (b + 1) == nc * b + nc;
  }

  /**
   * The fixed-length generators read every (b + 1)-th entry as a period:
   * the same periods the chain cut gives with every chain of length b.
   */
  lemma FixedPeriodsAreChainPeriods(flat: seq<int>, nc: nat, b: int)
    requires b >= 1 && |flat| == nc * (b + 1)
    ensures AllNonNegative(Repeat(b, nc)) && |flat| == Sum(Repeat(b, nc)) + nc
    ensures FixedPeriods(flat, b) == Periods(Chains(flat, Repeat(b, nc)))
  {
    FixedShape(flat, nc, b);
    var lengths: seq<int> := Repeat(b, nc);
    var cs := Chains(flat, lengths);
    Numeric.DivModUnique(nc, b + 1, b);
    assert |FixedPeriods(flat, b)| == nc;
    forall k | 0 <= k < nc ensures FixedPeriods(flat, b)[k] == Periods(cs)[k] {
      FixedPeriodAt(flat, nc, b, k);
    }
  }

  lemma FixedPeriodAt(flat: seq<int>, nc: nat, b: int, k: nat)
    requires b >= 1 && |flat| == nc * (b + 1) && k < nc
    requires AllNonNegative(Repeat(b, nc)) && |flat| == Sum(Repeat(b, nc)) + nc
    requires k < |FixedPeriods(flat, b)|
    ensures FixedPeriods(flat, b)[k] == Chains(flat, Repeat(b, nc))[k].period
  {
    var lengths: seq<int> := Repeat(b, nc);
    ChainsAt(flat, lengths, k);
    assert lengths[..k] == Repeat(b, k);
    SumRepeat(b, k);
    StrideOffset(b, k);
  }

  lemma StrideOffset(b: int, k: int)
    ensures k * b + k == k * (b + 1)
  {
  }

  /**
   * The fixed-length generators keep the entries whose index is not a
   * multiple of b + 1: the execution times of the same chains.
   */
  lemma FixedWcetsAreChainExecs(flat: seq<int>, nc: nat, b: int)
    requires b >= 1 && |flat| == nc * (b + 1)
    ensures AllNonNegative(Repeat(b, nc)) && |flat| == Sum(Repeat(b, nc)) + nc
    ensures FixedWcets(flat, b) == Execs(Chains(flat, Repeat(b, nc)))
  {
    FixedShape(flat, nc, b);
    var lengths: seq<int> := Repeat(b, nc);
    FixedHeadsAreMarks(nc, b + 1);
    assert Succ(lengths) == Repeat(b + 1, nc);
    FlattenChains(flat, lengths);
    KeepChains(Chains(flat, lengths));
  }
}

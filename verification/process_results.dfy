/**
 * The result aggregation of sag_scripts/process_results.py: the rows of a
 * `result.csv` (a task-set path, then the analysis verdict) are grouped by
 * the sub-folder holding the task set, and each group reports how many of
 * its verdicts are 1, how many it has, and their ratio, sub-folders in
 * sorted order.
 *
 * Rows come in already split into fields (the CSV quoting of `csv.reader`
 * is not modelled); the written rows are returned as typed summaries.
 */
module ProcessResults {
  import opened Seqs
  import opened Text

  /** The counters `{'ones': .., 'total': ..}` of one sub-folder. */
  datatype Counts = Counts(ones: nat, total: nat)

  /**
   * A row the loop keeps: the sub-folder `basename(dirname(row[0]))` and
   * the value `int(row[1])`. None for a row that is skipped: empty, shorter
   * than two fields, or whose second field is not an integer.
   */
  function Entry(row: seq<string>): Option<(string, int)>
  {
    if |row| < 2 then None
    else match PyInt(row[1])
      case None => None
      case Some(v) => Some((Basename(Dirname(row[0])), v))
  }

  /** The kept rows, as (sub-folder, value) pairs in file order. */
  function KeptEntries(rows: seq<seq<string>>): seq<(string, int)>
  {
    if rows == [] then []
    else
      var e := Entry(rows[|rows| - 1]);
      KeptEntries(rows[..|rows| - 1]) + (if e.Some? then [e.value] else [])
  }

  /** One kept row counted into its group: `total` always, `ones` when the value is 1. */
  function Count(groups: map<string, Counts>, key: string, value: int): map<string, Counts>
  {
    var c := if key in groups then groups[key] else Counts(0, 0);
    groups[key := Counts(if value == 1 then c.ones + 1 else c.ones, c.total + 1)]
  }

  /** The groups after counting the kept rows in order. */
  function Tally(kept: seq<(string, int)>): map<string, Counts>
  {
    if kept == [] then map[]
    else
      var e := kept[|kept| - 1];
      Count(Tally(kept[..|kept| - 1]), e.0, e.1)
  }

  /** How many kept rows fall in sub-folder k. */
  function Hits(kept: seq<(string, int)>, k: string): nat
  {
    if kept == [] then 0
    else Hits(kept[..|kept| - 1], k) + (if kept[|kept| - 1].0 == k then 1 else 0)
  }

  /** How many kept rows of sub-folder k have the value 1. */
  function OnesIn(kept: seq<(string, int)>, k: string): nat
  {
    if kept == [] then 0
    else OnesIn(kept[..|kept| - 1], k) + (if kept[|kept| - 1] == (k, 1) then 1 else 0)
  }

  /**
   * A sub-folder has a group exactly when some kept row falls in it; its
   * `total` counts those rows and its `ones` those with value 1, never
   * more than `total`.
   */
  lemma {:induction false} TallyCounts(kept: seq<(string, int)>, k: string)
    ensures k in Tally(kept) <==> Hits(kept, k) > 0
    ensures k in Tally(kept) ==> Tally(kept)[k] == Counts(OnesIn(kept, k), Hits(kept, k))
    ensures OnesIn(kept, k) <= Hits(kept, k)
  {
    if kept != [] {
      TallyCounts(kept[..|kept| - 1], k);
    }
  }

  /** The `total` of every sub-folder in a list of names. */
  function HitsOf(kept: seq<(string, int)>, names: seq<string>): (r: seq<int>)
    ensures |r| == |names|
  {
    seq(|names|, i requires 0 <= i < |names| => Hits(kept, names[i]))
  }

  /** Over sub-folders named once each, and covering every group, the totals add up to the kept rows. */
  lemma {:induction false} TotalsAddUp(kept: seq<(string, int)>, names: seq<string>)
    requires Distinct(names) && forall k :: Hits(kept, k) > 0 ==> k in names
    ensures Sum(HitsOf(kept, names)) == |kept|
  {
    if kept == [] {
      assert HitsOf(kept, names) == Repeat<int>(0, |names|);
      SumRepeat(0, |names|);
    } else {
      var init := kept[..|kept| - 1];
      forall k | Hits(init, k) > 0 ensures k in names {
        assert Hits(kept, k) > 0;
      }
      TotalsAddUp(init, names);
      var k := kept[|kept| - 1].0;
      assert Hits(kept, k) > 0;
      var p :| 0 <= p < |names| && names[p] == k;
      var before := HitsOf(init, names);
      assert HitsOf(kept, names) == before[p := before[p] + 1];
      SumUpdate(before, p, 1);
    }
  }

  lemma KeptStep(rows: seq<seq<string>>, i: nat)
    requires i < |rows|
    ensures Entry(rows[i]).None? ==> KeptEntries(rows[..i + 1]) == KeptEntries(rows[..i])
    ensures Entry(rows[i]).Some? ==> KeptEntries(rows[..i + 1]) == KeptEntries(rows[..i]) + [Entry(rows[i]).value]
    ensures Entry(rows[i]).Some? ==> Tally(KeptEntries(rows[..i + 1])) == Count(Tally(KeptEntries(rows[..i])), Entry(rows[i]).value.0, Entry(rows[i]).value.1)
  {
    var pre := rows[..i + 1];
    assert pre[..|pre| - 1] == rows[..i] && pre[|pre| - 1] == rows[i];
    var kept := KeptEntries(rows[..i]);
    if Entry(rows[i]).Some? {
      var e := Entry(rows[i]).value;
      assert KeptEntries(rows[..i + 1]) == kept + [e];
      TallyAppend(kept, e);
    }
  }

  /** Counting one more kept row on top of the earlier ones. */
  lemma TallyAppend(kept: seq<(string, int)>, e: (string, int))
    ensures Tally(kept + [e]) == Count(Tally(kept), e.0, e.1)
  {
    var kept' := kept + [e];
    assert kept'[..|kept'| - 1] == kept && kept'[|kept'| - 1] == e;
  }

  /** The body of the loop for a kept row: create the group if needed, then bump its counters. */
  method Increment(groups: map<string, Counts>, subfolder: string, value: int) returns (updated: map<string, Counts>)
    ensures updated == Count(groups, subfolder, value)
  {
    updated := groups;
    if subfolder !in updated {
      updated := updated[subfolder := Counts(0, 0)];
    }
    var c := updated[subfolder];
    c := c.(total := c.total + 1);
    if value == 1 {
      c := c.(ones := c.ones + 1);
    }
    updated := updated[subfolder := c];
  }

  /** The loop over the rows: `groups[subfolder]['total'] += 1`, and `'ones'` when the value is 1. */
  method CountGroups(rows: seq<seq<string>>) returns (groups: map<string, Counts>)
    ensures groups == Tally(KeptEntries(rows))
  {
    groups := map[];
    for i := 0 to |rows|
      invariant groups == Tally(KeptEntries(rows[..i]))
    {
      var row := rows[i];
      KeptStep(rows, i);
      if |row| < 2 {
        continue;
      }
      var value := PyInt(row[1]);
      if value == None {
        continue;
      }
      var subfolder := Basename(Dirname(row[0]));
      assert Entry(row) == Some((subfolder, value.value));
      groups := Increment(groups, subfolder, value.value);
    }
    assert rows[..|rows|] == rows;
  }

  // ----- sorted output -----

  /** Python's `<` on str: the first differing character decides, and a proper prefix comes first. */
  predicate Before(a: string, b: string)
    decreases |a|
  {
    if a == [] then b != []
    else if b == [] then false
    else if a[0] != b[0] then a[0] < b[0]
    else Before(a[1..], b[1..])
  }

  lemma {:induction false} BeforeIrreflexive(a: string)
    ensures !Before(a, a)
    decreases |a|
  {
    if a != [] {
      BeforeIrreflexive(a[1..]);
    }
  }

  lemma {:induction false} BeforeTransitive(a: string, b: string, c: string)
    requires Before(a, b) && Before(b, c)
    ensures Before(a, c)
    decreases |a|
  {
    if a != [] && b != [] && c != [] && a[0] == b[0] && b[0] == c[0] {
      BeforeTransitive(a[1..], b[1..], c[1..]);
    }
  }

  lemma {:induction false} BeforeTotal(a: string, b: string)
    requires a != b
    ensures Before(a, b) || Before(b, a)
    decreases |a|
  {
    if a != [] && b != [] && a[0] == b[0] {
      assert a == [a[0]] + a[1..] && b == [b[0]] + b[1..];
      BeforeTotal(a[1..], b[1..]);
    }
  }

  /** Every non-empty set of names has a first one in sorted order. */
  lemma {:induction false} FirstExists(s: set<string>) returns (k: string)
    requires s != {}
    ensures k in s && forall j :: j in s && j != k ==> Before(k, j)
    decreases s
  {
    var x :| x in s;
    if s == {x} {
      k := x;
    } else {
      var m := FirstExists(s - {x});
      BeforeTotal(x, m);
      if Before(x, m) {
        k := x;
        forall j | j in s && j != k ensures Before(k, j) {
          if j != m {
            BeforeTransitive(x, m, j);
          }
        }
      } else {
        k := m;
      }
    }
  }

  /** One written row `[subfolder, ones, total, ratio]`. */
  datatype Summary = Summary(subfolder: string, ones: nat, total: nat, ratio: real)

  /** `ones / total if total else 0`. */
  function Ratio(ones: nat, total: nat): real
  {
    if total != 0 then ones as real / total as real else 0.0
  }

  function SummaryOf(name: string, c: Counts): Summary
  {
    Summary(name, c.ones, c.total, Ratio(c.ones, c.total))
  }

  function Names(out: seq<Summary>): (r: seq<string>)
    ensures |r| == |out| && forall i :: 0 <= i < |out| ==> r[i] == out[i].subfolder
  {
    seq(|out|, i requires 0 <= i < |out| => out[i].subfolder)
  }

  /** One row per group, in sorted sub-folder order, each carrying its group's counters and ratio. */
  predicate Summarises(out: seq<Summary>, groups: map<string, Counts>)
  {
    && (forall i, j :: 0 <= i < j < |out| ==> Before(out[i].subfolder, out[j].subfolder))
    && (forall i :: 0 <= i < |out| ==> out[i].subfolder in groups && out[i] == SummaryOf(out[i].subfolder, groups[out[i].subfolder]))
    && (forall k :: k in groups ==> k in Names(out))
  }

  /** After some rows are written: the rest of the names remain, all after the written ones. */
  predicate Progress(out: seq<Summary>, remaining: set<string>, groups: map<string, Counts>)
  {
    && remaining <= groups.Keys
    && (forall k :: k in groups ==> k in remaining || k in Names(out))
    && (forall i :: 0 <= i < |out| ==>
          out[i].subfolder in groups && out[i].subfolder !in remaining && out[i] == SummaryOf(out[i].subfolder, groups[out[i].subfolder]))
    && (forall i, j :: 0 <= i < j < |out| ==> Before(out[i].subfolder, out[j].subfolder))
    && (forall i, k :: 0 <= i < |out| && k in remaining ==> Before(out[i].subfolder, k))
  }

  /** Writing the first remaining name keeps the rows sorted and complete so far. */
  lemma ProgressStep(out: seq<Summary>, remaining: set<string>, groups: map<string, Counts>, k: string)
    requires Progress(out, remaining, groups)
    requires k in remaining && forall j :: j in remaining && j != k ==> Before(k, j)
    ensures Progress(out + [SummaryOf(k, groups[k])], remaining - {k}, groups)
  {
    var row := SummaryOf(k, groups[k]);
    var out', rest := out + [row], remaining - {k};
    assert row.subfolder == k && out'[|out|] == row;
    assert Names(out') == Names(out) + [k];
    forall j | j in groups
      ensures j in rest || j in Names(out')
    {
      if j != k && j !in rest {
        assert j in Names(out);
      }
    }
    forall i | 0 <= i < |out'|
      ensures out'[i].subfolder in groups && out'[i].subfolder !in rest
      ensures out'[i] == SummaryOf(out'[i].subfolder, groups[out'[i].subfolder])
    {
      if i < |out| {
        assert out'[i] == out[i];
      }
    }
    forall i, j | 0 <= i < j < |out'|
      ensures Before(out'[i].subfolder, out'[j].subfolder)
    {
      assert out'[i] == out[i];
      if j < |out| {
        assert out'[j] == out[j];
      }
    }
    forall i, j | 0 <= i < |out'| && j in rest
      ensures Before(out'[i].subfolder, j)
    {
      if i < |out| {
        assert out'[i] == out[i];
      }
    }
  }

  /** The `for subfolder in sorted(groups.keys())` loop, taking the first remaining name each time. */
  method WriteSummaries(groups: map<string, Counts>) returns (out: seq<Summary>)
    ensures Summarises(out, groups)
  {
    out := [];
    var remaining := groups.Keys;
    while remaining != {}
      invariant Progress(out, remaining, groups)
      decreases remaining
    {
      ghost var first := FirstExists(remaining);
      var subfolder :| subfolder in remaining && forall j :: j in remaining && j != subfolder ==> Before(subfolder, j);
      ProgressStep(out, remaining, groups, subfolder);
      var ones := groups[subfolder].ones;
      var total := groups[subfolder].total;
      var ratio := if total != 0 then ones as real / total as real else 0.0;
      out := out + [Summary(subfolder, ones, total, ratio)];
      remaining := remaining - {subfolder};
    }
  }

  /**
   * `process_results`: one row per sub-folder, in sorted order, with the
   * counters of its kept rows; the totals add up to the number of kept
   * rows, and every ratio lies between 0 and 1.
   */
  method ProcessRows(rows: seq<seq<string>>) returns (out: seq<Summary>)
    ensures Summarises(out, Tally(KeptEntries(rows)))
    ensures Sum(HitsOf(KeptEntries(rows), Names(out))) == |KeptEntries(rows)|
    ensures forall i :: 0 <= i < |out| ==>
      && out[i].total == Hits(KeptEntries(rows), out[i].subfolder) > 0
      && out[i].ones == OnesIn(KeptEntries(rows), out[i].subfolder) <= out[i].total
      && 0.0 <= out[i].ratio <= 1.0
  {
    var groups := CountGroups(rows);
    out := WriteSummaries(groups);
    ghost var kept := KeptEntries(rows);
    SummariesAreSorted(out, groups);
    forall k | Hits(kept, k) > 0 ensures k in Names(out) {
      TallyCounts(kept, k);
    }
    TotalsAddUp(kept, Names(out));
    forall i | 0 <= i < |out|
      ensures out[i].total == Hits(kept, out[i].subfolder) > 0
      ensures out[i].ones == OnesIn(kept, out[i].subfolder) <= out[i].total
      ensures 0.0 <= out[i].ratio <= 1.0
    {
      TallyCounts(kept, out[i].subfolder);
      RatioBounds(out[i].ones, out[i].total);
    }
  }

  /** Rows in strictly increasing order name each sub-folder once. */
  lemma SummariesAreSorted(out: seq<Summary>, groups: map<string, Counts>)
    requires Summarises(out, groups)
    ensures Distinct(Names(out))
  {
    forall i, j | 0 <= i < j < |out| ensures out[i].subfolder != out[j].subfolder {
      if out[i].subfolder == out[j].subfolder {
        BeforeIrreflexive(out[i].subfolder);
      }
    }
  }

  lemma RatioBounds(ones: nat, total: nat)
    requires ones <= total
    ensures 0.0 <= Ratio(ones, total) <= 1.0
  {
    if total != 0 {
      assert ones as real <= total as real;
    }
  }
}

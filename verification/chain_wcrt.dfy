/**
 * The end-to-end chain bound of this_paper/calc_chain_wcrt.py: for each
 * pair (a, b) of task ids, the rows of task a in the first response-time
 * table and of task b in the second are paired up in file order, and the
 * largest `WCRT(row_b) - Arrival min(row_a)` is reported.
 *
 * A table is given already read: its header names as they stand in the
 * file and its rows of integer cells.
 */
module ChainWcrt {
  import opened Text

  /** A read CSV table: the header names and the data rows. */
  datatype Frame = Frame(columns: seq<string>, rows: seq<seq<int>>)

  /** Every row has a cell for every column. */
  predicate Rectangular(f: Frame)
  {
    forall r :: 0 <= r < |f.rows| ==> |f.rows[r]| == |f.columns|
  }

  /** `df.columns = df.columns.str.strip()`. */
  function StripColumns(f: Frame): (g: Frame)
    ensures |g.columns| == |f.columns| && g.rows == f.rows
    ensures forall i :: 0 <= i < |f.columns| ==> g.columns[i] == Strip(f.columns[i])
  {
    Frame(seq(|f.columns|, i requires 0 <= i < |f.columns| => Strip(f.columns[i])), f.rows)
  }

  /** The position of the column `df[name]` reads; None where pandas raises KeyError. */
  function ColumnIndex(columns: seq<string>, name: string): (r: Option<nat>)
    ensures r != None ==> r.value < |columns| && columns[r.value] == name
  {
    if columns == [] then None
    else if columns[0] == name then Some(0)
    else match ColumnIndex(columns[1..], name)
      case None => None
      case Some(i) => Some(i + 1)
  }

  /** The lookup finds the first column of that name, and fails only when there is none. */
  lemma {:induction false} ColumnIndexFindsFirst(columns: seq<string>, name: string)
    ensures ColumnIndex(columns, name) == None <==> name !in columns
    ensures ColumnIndex(columns, name) != None ==>
      var i := ColumnIndex(columns, name).value;
      i < |columns| && columns[i] == name && forall j :: 0 <= j < i ==> columns[j] != name
  {
    if columns != [] && columns[0] != name {
      ColumnIndexFindsFirst(columns[1..], name);
      if ColumnIndex(columns[1..], name) != None {
        var i := ColumnIndex(columns[1..], name).value;
        forall j | 0 <= j < i + 1 ensures columns[j] != name {
          if j > 0 {
            assert columns[j] == columns[1..][j - 1];
          }
        }
      }
    }
  }

  /** Every row has `width` cells. */
  predicate Width(rows: seq<seq<int>>, width: nat)
  {
    forall r :: 0 <= r < |rows| ==> |rows[r]| == width
  }

  /** The rows whose cell in column `col` is `id`, in table order. */
  function Select(rows: seq<seq<int>>, width: nat, col: nat, id: int): (s: seq<seq<int>>)
    requires col < width && Width(rows, width)
    ensures |s| <= |rows| && Width(s, width)
  {
    if rows == [] then []
    else
      var n := |rows| - 1;
      Select(rows[..n], width, col, id) + (if rows[n][col] == id then [rows[n]] else [])
  }

  /** `df[df[col] == id]`: a table with the same columns and the selected rows. */
  function Where(f: Frame, col: nat, id: int): (g: Frame)
    requires Rectangular(f) && col < |f.columns|
    ensures g.columns == f.columns && Rectangular(g)
  {
    Frame(f.columns, Select(f.rows, |f.columns|, col, id))
  }

  /** The positions of the rows the selection keeps, in increasing order. */
  function Matching(rows: seq<seq<int>>, width: nat, col: nat, id: int): seq<nat>
    requires col < width && Width(rows, width)
  {
    if rows == [] then []
    else
      var n := |rows| - 1;
      Matching(rows[..n], width, col, id) + (if rows[n][col] == id then [n] else [])
  }

  /**
   * The selection is the subsequence of the rows at the matching positions:
   * those positions increase, each names a row with that id, and every row
   * with that id is named.
   */
  lemma SelectKeepsOrder(rows: seq<seq<int>>, width: nat, col: nat, id: int)
    requires col < width && Width(rows, width)
    ensures var s, m := Select(rows, width, col, id), Matching(rows, width, col, id);
      && |s| == |m|
      && (forall k :: 0 <= k < |m| ==> m[k] < |rows| && s[k] == rows[m[k]] && rows[m[k]][col] == id)
      && (forall k, l :: 0 <= k < l < |m| ==> m[k] < m[l])
      && (forall r :: 0 <= r < |rows| && rows[r][col] == id ==> r in m)
  {
    MatchingIncreases(rows, width, col, id);
    MatchingComplete(rows, width, col, id);
    SelectAtMatching(rows, width, col, id);
  }

  /** The matching positions are in range, name rows with that id, and increase. */
  lemma {:induction false} MatchingIncreases(rows: seq<seq<int>>, width: nat, col: nat, id: int)
    requires col < width && Width(rows, width)
    ensures var m := Matching(rows, width, col, id);
      && (forall k :: 0 <= k < |m| ==> m[k] < |rows| && rows[m[k]][col] == id)
      && (forall k, l :: 0 <= k < l < |m| ==> m[k] < m[l])
  {
    if rows != [] {
      var n := |rows| - 1;
      var init := rows[..n];
      MatchingIncreases(init, width, col, id);
      var m0 := Matching(init, width, col, id);
      assert forall k :: 0 <= k < |Matching(init, width, col, id)| ==>
        Matching(init, width, col, id)[k] < n && init[Matching(init, width, col, id)[k]][col] == id;
      assert forall k, l :: 0 <= k < l < |Matching(init, width, col, id)| ==>
        Matching(init, width, col, id)[k] < Matching(init, width, col, id)[l];
      var m := Matching(rows, width, col, id);
      assert m == m0 + (if rows[n][col] == id then [n] else []);
      forall k | 0 <= k < |m| ensures m[k] < |rows| && rows[m[k]][col] == id {
        if k < |m0| {
          assert m[k] == m0[k] && init[m0[k]] == rows[m0[k]];
        }
      }
      forall k, l | 0 <= k < l < |m| ensures m[k] < m[l] {
        assert m[k] == m0[k];
        if l < |m0| {
          assert m[l] == m0[l];
        }
      }
    }
  }

  /** Every row with that id has its position among the matching ones. */
  lemma {:induction false} MatchingComplete(rows: seq<seq<int>>, width: nat, col: nat, id: int)
    requires col < width && Width(rows, width)
    ensures forall r :: 0 <= r < |rows| && rows[r][col] == id ==> r in Matching(rows, width, col, id)
  {
    if rows != [] {
      var n := |rows| - 1;
      var init := rows[..n];
      MatchingComplete(init, width, col, id);
      forall r | 0 <= r < |rows| && rows[r][col] == id ensures r in Matching(rows, width, col, id) {
        if r < n {
          assert init[r] == rows[r];
        }
      }
    }
  }

  /** The k-th selected row is the row at the k-th matching position. */
  lemma {:induction false} SelectAtMatching(rows: seq<seq<int>>, width: nat, col: nat, id: int)
    requires col < width && Width(rows, width)
    ensures var s, m := Select(rows, width, col, id), Matching(rows, width, col, id);
      |s| == |m| && forall k :: 0 <= k < |m| ==> m[k] < |rows| && s[k] == rows[m[k]]
  {
    if rows != [] {
      var n := |rows| - 1;
      var init := rows[..n];
      SelectAtMatching(init, width, col, id);
      var s0, m0 := Select(init, width, col, id), Matching(init, width, col, id);
      assert |Select(init, width, col, id)| == |Matching(init, width, col, id)|;
      assert forall k :: 0 <= k < |Matching(init, width, col, id)| ==>
        Matching(init, width, col, id)[k] < n && Select(init, width, col, id)[k] == init[Matching(init, width, col, id)[k]];
      var s, m := Select(rows, width, col, id), Matching(rows, width, col, id);
      assert s == s0 + (if rows[n][col] == id then [rows[n]] else []);
      assert m == m0 + (if rows[n][col] == id then [n] else []);
      forall k | 0 <= k < |m| ensures m[k] < |rows| && s[k] == rows[m[k]] {
        if k < |m0| {
          assert m[k] == m0[k] && s[k] == s0[k] && init[m0[k]] == rows[m0[k]];
        }
      }
    }
  }

  /** `float('-inf')` and the integer differences. */
  datatype ExtInt = NegInf | Finite(value: int)

  /** `max(d, x)` for the running maximum d. */
  function Max(d: ExtInt, x: int): ExtInt
  {
    match d
      case NegInf => Finite(x)
      case Finite(y) => Finite(if y < x then x else y)
  }

  /** The largest element, `-inf` for none. */
  function MaxOf(s: seq<int>): ExtInt
  {
    if s == [] then NegInf else Max(MaxOf(s[..|s| - 1]), s[|s| - 1])
  }

  /** MaxOf is `-inf` exactly on no elements; otherwise it is an element and no element exceeds it. */
  lemma {:induction false} MaxOfIsMaximum(s: seq<int>)
    ensures MaxOf(s) == NegInf <==> s == []
    ensures MaxOf(s) != NegInf ==>
      (exists k :: 0 <= k < |s| && MaxOf(s).value == s[k]) &&
      forall k :: 0 <= k < |s| ==> s[k] <= MaxOf(s).value
  {
    if s != [] {
      var n := |s| - 1;
      MaxOfIsMaximum(s[..n]);
      assert forall k :: 0 <= k < n ==> s[..n][k] == s[k];
      if MaxOf(s[..n]) != NegInf && MaxOf(s[..n]).value >= s[n] {
        var k :| 0 <= k < n && MaxOf(s[..n]).value == s[..n][k];
        assert MaxOf(s).value == s[k];
      } else {
        assert MaxOf(s).value == s[n];
      }
    }
  }

  /** `row_b['WCRT'] - row_a['Arrival min']` for the k-th rows of both selections. */
  function Diffs(rowsA: seq<seq<int>>, rowsB: seq<seq<int>>, arrival: nat, wcrt: nat): (d: seq<int>)
    requires |rowsA| == |rowsB|
    requires forall r :: 0 <= r < |rowsA| ==> arrival < |rowsA[r]| && wcrt < |rowsB[r]|
    ensures |d| == |rowsA|
    ensures forall k :: 0 <= k < |d| ==> d[k] == rowsB[k][wcrt] - rowsA[k][arrival]
  {
    seq(|rowsA|, k requires 0 <= k < |rowsA| => rowsB[k][wcrt] - rowsA[k][arrival])
  }

  /** What one pair of ids leads to. */
  datatype PairOutcome =
    | KeyError            // a column the pair needs is missing
    | Mismatch            // the selections differ in length: the pair is skipped
    | MaxDiff(d: ExtInt)  // the value stored under the pair

  /** The handling of one pair `(a, b)` on tables whose names are already stripped. */
  function Pair(f1: Frame, f2: Frame, a: int, b: int): PairOutcome
    requires Rectangular(f1) && Rectangular(f2)
  {
    match (ColumnIndex(f1.columns, "Task ID"), ColumnIndex(f2.columns, "Task ID"))
      case (Some(ia), Some(ib)) =>
        var dfA, dfB := Where(f1, ia, a), Where(f2, ib, b);
        if |dfA.rows| != |dfB.rows| then Mismatch
        else if dfA.rows == [] then MaxDiff(NegInf)
        else
          (match (ColumnIndex(f2.columns, "WCRT"), ColumnIndex(f1.columns, "Arrival min"))
             case (Some(w), Some(arr)) => MaxDiff(MaxOf(Diffs(dfA.rows, dfB.rows, arr, w)))
             case _ => KeyError)
      case _ => KeyError
  }

  /**
   * A pair that gets a value has both ids present and selections of equal
   * length, and the value is the largest difference over the positional
   * row pairs: no difference exceeds it, one attains it, and it is `-inf`
   * only when neither task has a row.
   */
  lemma PairIsMaxDifference(f1: Frame, f2: Frame, a: int, b: int)
    requires Rectangular(f1) && Rectangular(f2)
    requires Pair(f1, f2, a, b).MaxDiff?
    ensures ColumnIndex(f1.columns, "Task ID") != None && ColumnIndex(f2.columns, "Task ID") != None
    ensures var dfA := Where(f1, ColumnIndex(f1.columns, "Task ID").value, a);
      var dfB := Where(f2, ColumnIndex(f2.columns, "Task ID").value, b);
      var d := Pair(f1, f2, a, b).d;
      && |dfA.rows| == |dfB.rows|
      && (d == NegInf <==> dfA.rows == [])
      && (d != NegInf ==>
        && ColumnIndex(f2.columns, "WCRT") != None && ColumnIndex(f1.columns, "Arrival min") != None
        && var w, arr := ColumnIndex(f2.columns, "WCRT").value, ColumnIndex(f1.columns, "Arrival min").value;
          && (forall k :: 0 <= k < |dfA.rows| ==> dfB.rows[k][w] - dfA.rows[k][arr] <= d.value)
          && (exists k :: 0 <= k < |dfA.rows| && dfB.rows[k][w] - dfA.rows[k][arr] == d.value))
  {
    var dfA := Where(f1, ColumnIndex(f1.columns, "Task ID").value, a);
    var dfB := Where(f2, ColumnIndex(f2.columns, "Task ID").value, b);
    if dfA.rows != [] {
      var w, arr := ColumnIndex(f2.columns, "WCRT").value, ColumnIndex(f1.columns, "Arrival min").value;
      MaxOfIsMaximum(Diffs(dfA.rows, dfB.rows, arr, w));
    }
  }

  /** The `results` dict after the pairs, in order; None where a lookup raises KeyError. */
  function Results(f1: Frame, f2: Frame, pairs: seq<(int, int)>): Option<map<(int, int), ExtInt>>
    requires Rectangular(f1) && Rectangular(f2)
  {
    if pairs == [] then Some(map[])
    else
      var p := pairs[|pairs| - 1];
      match Results(f1, f2, pairs[..|pairs| - 1])
        case None => None
        case Some(m) =>
          match Pair(f1, f2, p.0, p.1)
            case KeyError => None
            case Mismatch => Some(m)
            case MaxDiff(d) => Some(m[p := d])
  }

  /**
   * The results fail exactly when some pair raises; otherwise they hold
   * exactly the pairs whose selections have equal length, each with its
   * own maximum difference.
   */
  lemma {:induction false} ResultsArePairs(f1: Frame, f2: Frame, pairs: seq<(int, int)>)
    requires Rectangular(f1) && Rectangular(f2)
    ensures Results(f1, f2, pairs) == None <==>
      exists k :: 0 <= k < |pairs| && Pair(f1, f2, pairs[k].0, pairs[k].1) == KeyError
    ensures Results(f1, f2, pairs) != None ==>
      var m := Results(f1, f2, pairs).value;
      && (forall p :: p in m <==> p in pairs && Pair(f1, f2, p.0, p.1) != Mismatch)
      && (forall p :: p in m ==> Pair(f1, f2, p.0, p.1) == MaxDiff(m[p]))
  {
    ResultsFail(f1, f2, pairs);
    ResultsContent(f1, f2, pairs);
  }

  /** The failure half of ResultsArePairs. */
  lemma {:induction false} ResultsFail(f1: Frame, f2: Frame, pairs: seq<(int, int)>)
    requires Rectangular(f1) && Rectangular(f2)
    ensures Results(f1, f2, pairs) == None <==>
      exists k :: 0 <= k < |pairs| && Pair(f1, f2, pairs[k].0, pairs[k].1) == KeyError
  {
    if pairs != [] {
      var n := |pairs| - 1;
      var init, last := pairs[..n], pairs[n];
      ResultsFail(f1, f2, init);
      assert Results(f1, f2, pairs) == None <==>
        Results(f1, f2, init) == None || Pair(f1, f2, last.0, last.1) == KeyError;
      if k :| 0 <= k < n && Pair(f1, f2, init[k].0, init[k].1) == KeyError {
        assert pairs[k] == init[k];
      }
      if k :| 0 <= k < |pairs| && Pair(f1, f2, pairs[k].0, pairs[k].1) == KeyError {
        if k < n {
          assert pairs[k] == init[k];
        }
      }
    }
  }

  /** The content half of ResultsArePairs. */
  lemma {:induction false} ResultsContent(f1: Frame, f2: Frame, pairs: seq<(int, int)>)
    requires Rectangular(f1) && Rectangular(f2)
    ensures Results(f1, f2, pairs) != None ==>
      var m := Results(f1, f2, pairs).value;
      && (forall p :: p in m <==> p in pairs && Pair(f1, f2, p.0, p.1) != Mismatch)
      && (forall p :: p in m ==> Pair(f1, f2, p.0, p.1) == MaxDiff(m[p]))
  {
    if pairs != [] && Results(f1, f2, pairs) != None {
      var n := |pairs| - 1;
      var init, last := pairs[..n], pairs[n];
      ResultsContent(f1, f2, init);
      assert forall q :: q in pairs <==> q in init || q == last by {
        assert pairs == init + [last];
      }
      var m := Results(f1, f2, init).value;
      assert Results(f1, f2, init) == Some(m);
      var o := Pair(f1, f2, last.0, last.1);
      if o == Mismatch {
        assert Results(f1, f2, pairs) == Some(m);
      } else {
        var m' := m[last := o.d];
        assert Results(f1, f2, pairs) == Some(m');
        forall p: (int, int) | p in m'
          ensures Pair(f1, f2, p.0, p.1) == MaxDiff(m'[p])
        {
          if p != last {
            assert p in m && m'[p] == m[p];
          }
        }
      }
    }
  }

  /** The inner loop: the running maximum over the zipped rows, starting at `-inf`. */
  method MaxDifference(rowsA: seq<seq<int>>, rowsB: seq<seq<int>>, arrival: nat, wcrt: nat) returns (maxDiff: ExtInt)
    requires |rowsA| == |rowsB|
    requires forall r :: 0 <= r < |rowsA| ==> arrival < |rowsA[r]| && wcrt < |rowsB[r]|
    ensures maxDiff == MaxOf(Diffs(rowsA, rowsB, arrival, wcrt))
  {
    ghost var diffs := Diffs(rowsA, rowsB, arrival, wcrt);
    maxDiff := NegInf;
    for k := 0 to |rowsA|
      invariant maxDiff == MaxOf(diffs[..k])
    {
      var diff := rowsB[k][wcrt] - rowsA[k][arrival];
      assert diffs[..k + 1][..k] == diffs[..k];
      maxDiff := Max(maxDiff, diff);
    }
    assert diffs[..|rowsA|] == diffs;
  }

  /** The body of the pair loop for one pair; `KeyError` where the source raises. */
  method HandlePair(f1: Frame, f2: Frame, a: int, b: int) returns (outcome: PairOutcome)
    requires Rectangular(f1) && Rectangular(f2)
    ensures outcome == Pair(f1, f2, a, b)
  {
    var ia := ColumnIndex(f1.columns, "Task ID");
    var ib := ColumnIndex(f2.columns, "Task ID");
    if ia == None || ib == None {
      return KeyError;
    }
    var dfA := Where(f1, ia.value, a);
    var dfB := Where(f2, ib.value, b);
    if |dfA.rows| != |dfB.rows| {
      return Mismatch;
    }
    if dfA.rows == [] {
      return MaxDiff(NegInf);
    }
    // The first zipped row reads both columns.
    var w := ColumnIndex(f2.columns, "WCRT");
    var arr := ColumnIndex(f1.columns, "Arrival min");
    if w == None || arr == None {
      return KeyError;
    }
    var maxDiff := MaxDifference(dfA.rows, dfB.rows, arr.value, w.value);
    outcome := MaxDiff(maxDiff);
  }

  /** `compute_max_difference` on the two read tables; None where it raises KeyError. */
  method ComputeMaxDifference(csv1: Frame, csv2: Frame, pairs: seq<(int, int)>)
    returns (results: Option<map<(int, int), ExtInt>>)
    requires Rectangular(csv1) && Rectangular(csv2)
    ensures results == Results(StripColumns(csv1), StripColumns(csv2), pairs)
  {
    var df1 := StripColumns(csv1);
    var df2 := StripColumns(csv2);
    var m: map<(int, int), ExtInt> := map[];
    for i := 0 to |pairs|
      invariant Results(df1, df2, pairs[..i]) == Some(m)
    {
      var (a, b) := pairs[i];
      assert pairs[..i + 1][..i] == pairs[..i];
      var outcome := HandlePair(df1, df2, a, b);
      match outcome
      case KeyError =>
        ResultsFailFrom(df1, df2, pairs, i + 1);
        return None;
      case Mismatch =>
      case MaxDiff(d) =>
        m := m[(a, b) := d];
    }
    assert pairs[..|pairs|] == pairs;
    results := Some(m);
  }

  /** Once a prefix of the pairs fails, the whole run fails. */
  lemma {:induction false} ResultsFailFrom(f1: Frame, f2: Frame, pairs: seq<(int, int)>, i: nat)
    requires Rectangular(f1) && Rectangular(f2)
    requires i <= |pairs| && Results(f1, f2, pairs[..i]) == None
    ensures Results(f1, f2, pairs) == None
    decreases |pairs| - i
  {
    if i < |pairs| {
      assert pairs[..i + 1][..i] == pairs[..i];
      ResultsFailFrom(f1, f2, pairs, i + 1);
    } else {
      assert pairs[..i] == pairs;
    }
  }
}

/**
 * The cost augmentation of this_paper/augment_execution_times.py: every
 * job row of a SAG job file gets the ROS callback overhead added to its
 * Cost min and Cost max columns, and the result is written next to the
 * input as `aug_<name>`.
 *
 * The file comes in already split into rows of fields; the written rows are
 * returned, integers written back with `str`.
 */
module AugmentExecutionTimes {
  import opened Text

  /** `ROS_overhead = 5000`, added to both costs. */
  const RosOverhead: int := 5000

  /** The columns `row[4]` (Cost min) and `row[5]` (Cost max). */
  const CostMinColumn: nat := 4
  const CostMaxColumn: nat := 5

  /** `os.path.join(directory, f"aug_{filename}")`. */
  function AugmentedPath(path: string): string
  {
    PathJoin(Dirname(path), "aug_" + Basename(path))
  }

  /**
   * The output lies in the input's directory, under the input's file name
   * prefixed with `aug_`; so it is never the input itself.
   */
  lemma AugmentedPathBesideInput(path: string)
    ensures Dirname(AugmentedPath(path)) == Dirname(path)
    ensures Basename(AugmentedPath(path)) == "aug_" + Basename(path)
    ensures AugmentedPath(path) != path
  {
    var base := Basename(path);
    var name := "aug_" + base;
    PrefixedNameSlashFree(base, name);
    JoinDirname(path, name);
    var out := AugmentedPath(path);
    assert out == PathJoin(Dirname(path), name);
    assert |Basename(out)| == |base| + 4;
  }

  /** Prefixing a file name without separators by `aug_` adds none. */
  lemma PrefixedNameSlashFree(base: string, name: string)
    requires forall i :: 0 <= i < |base| ==> base[i] != '/'
    requires name == "aug_" + base
    ensures name != [] && forall i :: 0 <= i < |name| ==> name[i] != '/'
  {
    forall i | 0 <= i < |name|
      ensures name[i] != '/'
    {
      if i >= 4 { assert name[i] == base[i - 4]; }
    }
  }

  /**
   * One data row with both costs raised by the overhead; None where
   * `int(row[4])` or `int(row[5])` raises (a missing column or a value
   * that is not an integer).
   */
  function AugmentRow(row: seq<string>): Option<seq<string>>
  {
    if |row| <= CostMaxColumn then None
    else
      var cMin := PyInt(row[CostMinColumn]);
      var cMax := PyInt(row[CostMaxColumn]);
      if cMin == None || cMax == None then None
      else Some(row[CostMinColumn := IntToString(cMin.value + RosOverhead)][CostMaxColumn := IntToString(cMax.value + RosOverhead)])
  }

  /** `f` applied to every element, or None as soon as one application fails. */
  function AllSome<T, U>(f: T -> Option<U>, xs: seq<T>): Option<seq<U>>
  {
    if xs == [] then Some([])
    else match (AllSome(f, xs[..|xs| - 1]), f(xs[|xs| - 1]))
      case (Some(init), Some(last)) => Some(init + [last])
      case _ => None
  }

  /** AllSome succeeds exactly when every application does; it keeps the count and order. */
  lemma {:induction false} AllSomeShape<T, U>(f: T -> Option<U>, xs: seq<T>)
    ensures AllSome(f, xs) != None <==> forall i :: 0 <= i < |xs| ==> f(xs[i]) != None
    ensures AllSome(f, xs) != None ==>
      |AllSome(f, xs).value| == |xs| &&
      forall i :: 0 <= i < |xs| ==> Some(AllSome(f, xs).value[i]) == f(xs[i])
  {
    if xs != [] {
      var n := |xs| - 1;
      AllSomeShape(f, xs[..n]);
      assert forall i :: 0 <= i < n ==> xs[..n][i] == xs[i];
    }
  }

  /** All data rows augmented, or None when one of them fails. */
  function AugmentRows(rows: seq<seq<string>>): Option<seq<seq<string>>>
  {
    AllSome(AugmentRow, rows)
  }

  /** A row the transform accepts: both cost columns exist and hold integers. */
  predicate Augmentable(row: seq<string>)
  {
    |row| > CostMaxColumn && PyInt(row[CostMinColumn]) != None && PyInt(row[CostMaxColumn]) != None
  }

  /**
   * A row is augmented exactly when it is augmentable; then it keeps its
   * length and every other field, and its two costs read back as the old
   * costs plus the overhead.
   */
  lemma AugmentRowFields(row: seq<string>)
    ensures AugmentRow(row) != None <==> Augmentable(row)
    ensures AugmentRow(row) != None ==>
      var r := AugmentRow(row).value;
      && |r| == |row|
      && (forall j :: 0 <= j < |row| && j != CostMinColumn && j != CostMaxColumn ==> r[j] == row[j])
      && PyInt(r[CostMinColumn]) == Some(PyInt(row[CostMinColumn]).value + RosOverhead)
      && PyInt(r[CostMaxColumn]) == Some(PyInt(row[CostMaxColumn]).value + RosOverhead)
  {
    if Augmentable(row) {
      AugmentedRowKeepsFields(row);
      AugmentedRowReadsBack(row);
    } else {
      assert AugmentRow(row) == None;
    }
  }

  /** An augmentable row keeps its length and every field but the two costs. */
  lemma AugmentedRowKeepsFields(row: seq<string>)
    requires Augmentable(row)
    ensures AugmentRow(row) != None
    ensures var r := AugmentRow(row).value;
      && |r| == |row|
      && (forall j :: 0 <= j < |row| && j != CostMinColumn && j != CostMaxColumn ==> r[j] == row[j])
  {
    AugmentRowOfCosts(row, PyInt(row[CostMinColumn]).value, PyInt(row[CostMaxColumn]).value);
  }

  /** The two costs of an augmented row read back as the row's own costs plus the overhead. */
  lemma AugmentedRowReadsBack(row: seq<string>)
    requires Augmentable(row)
    ensures AugmentRow(row) != None
    ensures var r := AugmentRow(row).value;
      && |r| == |row|
      && PyInt(r[CostMinColumn]) == Some(PyInt(row[CostMinColumn]).value + RosOverhead)
      && PyInt(r[CostMaxColumn]) == Some(PyInt(row[CostMaxColumn]).value + RosOverhead)
  {
    AugmentRowOfCosts(row, PyInt(row[CostMinColumn]).value, PyInt(row[CostMaxColumn]).value);
  }

  /** A row whose cost columns read as a and b is augmented to a + overhead and b + overhead. */
  lemma AugmentRowOfCosts(row: seq<string>, a: int, b: int)
    requires |row| > CostMaxColumn
    requires PyInt(row[CostMinColumn]) == Some(a) && PyInt(row[CostMaxColumn]) == Some(b)
    ensures AugmentRow(row) != None
    ensures var r := AugmentRow(row).value;
      && |r| == |row|
      && (forall j :: 0 <= j < |row| && j != CostMinColumn && j != CostMaxColumn ==> r[j] == row[j])
      && PyInt(r[CostMinColumn]) == Some(a + RosOverhead)
      && PyInt(r[CostMaxColumn]) == Some(b + RosOverhead)
  {
    var sa, sb := IntToString(a + RosOverhead), IntToString(b + RosOverhead);
    AugmentRowIsUpdate(row, a, b);
    var r := row[CostMinColumn := sa][CostMaxColumn := sb];
    assert r[CostMinColumn] == sa && r[CostMaxColumn] == sb;
    PyIntOfDecimal(a + RosOverhead);
    PyIntOfDecimal(b + RosOverhead);
  }

  /** With both costs parsed, the row is the input with the two cost fields rewritten. */
  lemma AugmentRowIsUpdate(row: seq<string>, a: int, b: int)
    requires |row| > CostMaxColumn
    requires PyInt(row[CostMinColumn]) == Some(a) && PyInt(row[CostMaxColumn]) == Some(b)
    ensures AugmentRow(row)
      == Some(row[CostMinColumn := IntToString(a + RosOverhead)][CostMaxColumn := IntToString(b + RosOverhead)])
  {
  }

  /** `int(str(i)) == i`. */
  lemma PyIntOfDecimal(i: int)
    ensures PyInt(IntToString(i)) == Some(i)
  {
    PyIntOfIntToString(i, "");
    assert IntToString(i) + "" == IntToString(i);
  }

  /** What is written: the header row, then the data rows augmented. */
  datatype Written = Written(path: string, rows: seq<seq<string>>)

  /**
   * `augment_execution_times(path)` on the rows of the file: None where
   * `next(reader)` finds no header or a data row fails.
   */
  function Augment(path: string, file: seq<seq<string>>): Option<Written>
  {
    if file == [] then None
    else match AugmentRows(file[1..])
      case None => None
      case Some(rows) => Some(Written(AugmentedPath(path), [file[0]] + rows))
  }

  /**
   * The `for row in rows` loop: every row replaced in place by `f` of it,
   * stopping with None at the first row `f` fails on.
   */
  method UpdateInPlace<T>(f: T -> Option<T>, rows: seq<T>) returns (out: Option<seq<T>>)
    ensures out == AllSome(f, rows)
  {
    var updated := rows;
    for i := 0 to |rows|
      invariant |updated| == |rows| && forall k :: i <= k < |rows| ==> updated[k] == rows[k]
      invariant AllSome(f, rows[..i]) == Some(updated[..i])
    {
      assert rows[..i + 1][..i] == rows[..i];
      var row := f(updated[i]);
      if row == None {
        AllSomeShape(f, rows);
        assert f(rows[i]) == None;
        return None;
      }
      updated := updated[i := row.value];
      assert updated[..i + 1] == updated[..i] + [row.value];
    }
    assert rows[..|rows|] == rows && updated[..|rows|] == updated;
    out := Some(updated);
  }

  /** `augment_execution_times`: the header copied, the data rows augmented, the output named `aug_<name>`. */
  method AugmentExecutionTimes(path: string, file: seq<seq<string>>) returns (written: Option<Written>)
    ensures written == Augment(path, file)
  {
    if file == [] {
      return None;
    }
    var firstRow := file[0];
    var rows := UpdateInPlace(AugmentRow, file[1..]);
    assert rows == AugmentRows(file[1..]);
    if rows == None {
      return None;
    }
    var outputPath := PathJoin(Dirname(path), "aug_" + Basename(path));
    assert outputPath == AugmentedPath(path);
    written := Some(Written(outputPath, [firstRow] + rows.value));
  }

  /**
   * A written file has the header unchanged and one row per data row, in
   * the same order, each the data row augmented; nothing is written when
   * the file is empty or a data row cannot be augmented.
   */
  lemma AugmentKeepsRows(path: string, file: seq<seq<string>>)
    ensures Augment(path, file) == None <==>
      file == [] || exists i :: 1 <= i < |file| && AugmentRow(file[i]) == None
    ensures Augment(path, file) != None ==>
      var w := Augment(path, file).value;
      && w.path == AugmentedPath(path)
      && |w.rows| == |file| && w.rows[0] == file[0]
      && forall i :: 1 <= i < |file| ==> Some(w.rows[i]) == AugmentRow(file[i])
  {
    if file != [] {
      var data := file[1..];
      AllSomeShape(AugmentRow, data);
      assert forall i :: 1 <= i < |file| ==> file[i] == data[i - 1];
      if AugmentRows(data) == None {
        assert Augment(path, file) == None;
        var k :| 0 <= k < |data| && AugmentRow(data[k]) == None;
        assert AugmentRow(file[k + 1]) == None;
      } else {
        var rows := AugmentRows(data).value;
        assert Augment(path, file) == Some(Written(AugmentedPath(path), [file[0]] + rows));
        var out := [file[0]] + rows;
        assert out[1..] == rows;
        forall i | 1 <= i < |file| ensures Some(out[i]) == AugmentRow(file[i]) {
          assert out[i] == out[1..][i - 1];
        }
      }
    }
  }

  /**
   * Nothing is written exactly when the file is empty or one of its data
   * rows lacks a cost column or holds a cost `int` rejects.
   */
  lemma AugmentFailsOnlyOnBadRows(path: string, file: seq<seq<string>>)
    ensures Augment(path, file) == None <==>
      file == [] || exists i :: 1 <= i < |file| && !Augmentable(file[i])
  {
    AugmentKeepsRows(path, file);
    forall i | 1 <= i < |file| ensures AugmentRow(file[i]) == None <==> !Augmentable(file[i]) {
      AugmentRowFields(file[i]);
    }
  }
}

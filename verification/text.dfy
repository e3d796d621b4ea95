/**
 * The pieces of Python's text handling the scripts depend on: `str.strip()`
 * and `str.split()` with no arguments (Python's notion of whitespace),
 * `int(s)` on a decimal string, `str(n)` on an integer, and the POSIX
 * `os.path.dirname`, `os.path.basename` and `os.path.join`.
 */
module Text {

  datatype Option<T> = None | Some(value: T)

  /** `c.isspace()` in Python: the characters `str.strip()` and `str.split()` remove. */
  predicate IsSpace(c: char)
  {
    c == ' ' || '\t' <= c <= '\r' || '\U{001C}' <= c <= '\U{001F}'
    || c == '\U{0085}' || c == '\U{00A0}' || c == '\U{1680}'
    || '\U{2000}' <= c <= '\U{200A}' || c == '\U{2028}' || c == '\U{2029}'
    || c == '\U{202F}' || c == '\U{205F}' || c == '\U{3000}'
  }

  predicate AllSpace(s: string)
  {
    forall i :: 0 <= i < |s| ==> IsSpace(s[i])
  }

  predicate NoSpace(s: string)
  {
    forall i :: 0 <= i < |s| ==> !IsSpace(s[i])
  }

  /** `s.lstrip()`: drop the leading whitespace. */
  function LStrip(s: string): (r: string)
    ensures |r| <= |s|
    ensures r == [] || !IsSpace(r[0])
  {
    if s != [] && IsSpace(s[0]) then LStrip(s[1..]) else s
  }

  /** What LStrip leaves is a suffix of s, and what it drops is whitespace. */
  lemma {:induction false} LStripShape(s: string)
    ensures var r := LStrip(s); r == s[|s| - |r|..] && AllSpace(s[..|s| - |r|])
  {
    if s != [] && IsSpace(s[0]) {
      LStripShape(s[1..]);
      var r := LStrip(s);
      assert s[..|s| - |r|] == [s[0]] + s[1..][..|s| - 1 - |r|];
    }
  }

  /** `s.rstrip()`: drop the trailing whitespace. */
  function RStrip(s: string): (r: string)
    ensures |r| <= |s|
    ensures r == [] || !IsSpace(r[|r| - 1])
  {
    if s != [] && IsSpace(s[|s| - 1]) then RStrip(s[..|s| - 1]) else s
  }

  /** What RStrip leaves is a prefix of s, and what it drops is whitespace. */
  lemma {:induction false} RStripShape(s: string)
    ensures var r := RStrip(s); r == s[..|r|] && AllSpace(s[|r|..])
  {
    if s != [] && IsSpace(s[|s| - 1]) {
      RStripShape(s[..|s| - 1]);
      var r := RStrip(s);
      assert s[|r|..] == s[..|s| - 1][|r|..] + [s[|s| - 1]];
    }
  }

  /**
   * `s.strip()`: a slice of s with only whitespace around it, neither
   * starting nor ending with whitespace.
   */
  function Strip(s: string): (r: string)
    ensures |r| <= |s|
    ensures r == [] || (!IsSpace(r[0]) && !IsSpace(r[|r| - 1]))
  {
    var l := LStrip(s);
    var r := RStrip(l);
    RStripShape(l);
    assert r == [] || r[0] == l[0];
    r
  }

  /** Trailing whitespace (the line terminator, say) is invisible to Strip. */
  lemma {:induction false} StripDropsTrailingSpace(x: string, tail: string)
    requires x != [] && !IsSpace(x[0]) && !IsSpace(x[|x| - 1])
    requires AllSpace(tail)
    ensures Strip(x + tail) == x
    decreases |tail|
  {
    assert LStrip(x + tail) == x + tail;
    if tail != [] {
      assert (x + tail)[..|x + tail| - 1] == x + tail[..|tail| - 1];
      StripDropsTrailingSpace(x, tail[..|tail| - 1]);
    }
  }

  /** The longest prefix of s without whitespace. */
  function Word(s: string): (w: string)
    ensures |w| <= |s|
    ensures s != [] && !IsSpace(s[0]) ==> w != []
  {
    if s == [] || IsSpace(s[0]) then [] else [s[0]] + Word(s[1..])
  }

  /** Word is a prefix of s without whitespace, followed by whitespace or the end of s. */
  lemma {:induction false} WordShape(s: string)
    ensures var w := Word(s); w == s[..|w|] && NoSpace(w) && (|w| < |s| ==> IsSpace(s[|w|]))
  {
    if s != [] && !IsSpace(s[0]) {
      WordShape(s[1..]);
    }
  }

  /** `s.split()`: the maximal runs of non-whitespace characters, in order. */
  function Split(s: string): (fields: seq<string>)
    decreases |s|
  {
    var t := LStrip(s);
    if t == [] then []
    else
      var w := Word(t);
      [w] + Split(t[|w|..])
  }

  /** No field of Split is empty or holds whitespace. */
  lemma {:induction false} SplitFields(s: string)
    ensures forall k :: 0 <= k < |Split(s)| ==> Split(s)[k] != [] && NoSpace(Split(s)[k])
    decreases |s|
  {
    var t := LStrip(s);
    if t != [] {
      var w := Word(t);
      WordShape(t);
      SplitFields(t[|w|..]);
      var r := Split(s);
      assert r == [w] + Split(t[|w|..]);
      forall k | 0 < k < |r| ensures r[k] == Split(t[|w|..])[k - 1] {
      }
    }
  }

  /** `sep.join(fields)`. */
  function Join(fields: seq<string>, sep: string): string
  {
    if |fields| == 0 then ""
    else if |fields| == 1 then fields[0]
    else fields[0] + sep + Join(fields[1..], sep)
  }

  /** A join of non-empty fields starts with the first field's first character and ends with the last field's last character. */
  lemma {:induction false} JoinEnds(fields: seq<string>, sep: string)
    requires |fields| > 0 && forall k :: 0 <= k < |fields| ==> fields[k] != []
    ensures var j := Join(fields, sep); j != [] && j[0] == fields[0][0]
    ensures var j := Join(fields, sep); var l := fields[|fields| - 1]; j != [] && j[|j| - 1] == l[|l| - 1]
    decreases |fields|
  {
    if |fields| > 1 {
      var rest := fields[1..];
      JoinEnds(rest, sep);
      assert rest[|rest| - 1] == fields[|fields| - 1];
    }
  }

  /**
   * A line made of non-empty whitespace-free fields joined by whitespace and
   * ended by whitespace strips to the joined fields and splits back into them.
   */
  lemma ReadJoined(fields: seq<string>, sep: string, tail: string)
    requires |fields| > 0 && forall k :: 0 <= k < |fields| ==> fields[k] != [] && NoSpace(fields[k])
    requires sep != [] && AllSpace(sep) && AllSpace(tail)
    ensures Strip(Join(fields, sep) + tail) == Join(fields, sep)
    ensures Split(Join(fields, sep)) == fields
  {
    var j := Join(fields, sep);
    assert Strip(j + tail) == j by {
      JoinEnds(fields, sep);
      var l := fields[|fields| - 1];
      assert !IsSpace(l[|l| - 1]);
      StripDropsTrailingSpace(j, tail);
    }
    assert Split(j) == fields by {
      SplitJoin(fields, sep, []);
      assert j + [] == j;
    }
  }

  /** A join is at least as long as its separators. */
  lemma {:induction false} JoinLength(fields: seq<string>, sep: string)
    requires |fields| > 0
    ensures |Join(fields, sep)| >= (|fields| - 1) * |sep|
    decreases |fields|
  {
    if |fields| > 1 {
      JoinLength(fields[1..], sep);
    }
  }

  lemma LStripSkipsSpace(a: string, y: string)
    requires AllSpace(a)
    ensures LStrip(a + y) == LStrip(y)
    decreases |a|
  {
    if a == [] {
      assert a + y == y;
    } else {
      assert (a + y)[0] == a[0];
      assert (a + y)[1..] == a[1..] + y;
      LStripSkipsSpace(a[1..], y);
    }
  }

  lemma WordOfFieldThenSpace(f: string, x: string)
    requires NoSpace(f)
    requires x == [] || IsSpace(x[0])
    ensures Word(f + x) == f
    decreases |f|
  {
    if f != [] {
      assert (f + x)[1..] == f[1..] + x;
      WordOfFieldThenSpace(f[1..], x);
    }
  }

  lemma Associate(a: string, b: string, c: string, d: string)
    ensures a + b + c + d == a + (b + (c + d))
  {
  }

  lemma SplitSkipsSpace(a: string, y: string)
    requires AllSpace(a)
    ensures Split(a + y) == Split(y)
  {
    LStripSkipsSpace(a, y);
  }

  lemma SplitField(f: string, x: string)
    requires f != [] && NoSpace(f)
    requires x == [] || IsSpace(x[0])
    ensures Split(f + x) == [f] + Split(x)
  {
    assert LStrip(f + x) == f + x by {
      assert (f + x)[0] == f[0];
    }
    WordOfFieldThenSpace(f, x);
    assert (f + x)[|f|..] == x;
  }

  /**
   * Splitting fields joined by a whitespace separator, followed by any
   * trailing whitespace, gives the fields back, provided that no field is
   * empty or holds whitespace.
   */
  lemma {:induction false} SplitJoin(fields: seq<string>, sep: string, tail: string)
    requires forall k :: 0 <= k < |fields| ==> fields[k] != [] && NoSpace(fields[k])
    requires sep != [] && AllSpace(sep)
    requires AllSpace(tail)
    ensures Split(Join(fields, sep) + tail) == fields
    decreases |fields|
  {
    if |fields| <= 1 {
      assert Split(tail) == [] by {
        SplitSkipsSpace(tail, []);
        assert tail + [] == tail;
      }
      if |fields| == 0 {
        assert Join(fields, sep) + tail == tail;
      } else {
        assert Join(fields, sep) + tail == fields[0] + tail;
        SplitField(fields[0], tail);
        assert fields == [fields[0]];
      }
    } else {
      SplitJoin(fields[1..], sep, tail);
      SplitJoinStep(fields, sep, tail);
    }
  }

  lemma SplitJoinStep(fields: seq<string>, sep: string, tail: string)
    requires |fields| >= 2 && fields[0] != [] && NoSpace(fields[0])
    requires sep != [] && AllSpace(sep)
    requires Split(Join(fields[1..], sep) + tail) == fields[1..]
    ensures Split(Join(fields, sep) + tail) == fields
  {
    var f := fields[0];
    var rest := Join(fields[1..], sep) + tail;
    assert Join(fields, sep) + tail == f + (sep + rest) by {
      assert Join(fields, sep) == f + sep + Join(fields[1..], sep);
      Associate(f, sep, Join(fields[1..], sep), tail);
    }
    assert Split(f + (sep + rest)) == [f] + Split(sep + rest) by {
      SplitField(f, sep + rest);
    }
    assert Split(sep + rest) == fields[1..] by {
      SplitSkipsSpace(sep, rest);
    }
    assert fields == [f] + fields[1..];
  }

  predicate IsDigit(c: char)
  {
    '0' <= c <= '9'
  }

  /**
   * The digit part `int()` accepts in base 10: ASCII digits, with single
   * underscores allowed between two digits.
   */
  predicate ValidDigits(d: string)
  {
    && |d| > 0 && IsDigit(d[0]) && IsDigit(d[|d| - 1])
    && (forall i :: 0 <= i < |d| ==> IsDigit(d[i]) || d[i] == '_')
    && (forall i, j :: 0 <= i < |d| && j == i + 1 && j < |d| ==> IsDigit(d[i]) || IsDigit(d[j]))
  }

  function DropUnderscores(d: string): (r: string)
    ensures |r| <= |d|
  {
    if d == [] then []
    else DropUnderscores(d[..|d| - 1]) + (if d[|d| - 1] == '_' then [] else [d[|d| - 1]])
  }

  /** Value of a string of ASCII digits, most significant first. */
  function DecimalValue(d: string): nat
  {
    if d == [] then 0
    else 10 * DecimalValue(d[..|d| - 1]) + DigitValue(d[|d| - 1])
  }

  function DigitValue(c: char): nat
  {
    if IsDigit(c) then c as int - '0' as int else 0
  }

  function DigitChar(n: nat): char
    requires n < 10
  {
    ('0' as int + n) as char
  }

  /** `int(s)`: None where Python raises ValueError. */
  function PyInt(s: string): Option<int>
  {
    SignedDecimal(Strip(s))
  }

  /** An optional sign followed by the digits ValidDigits accepts. */
  function SignedDecimal(t: string): Option<int>
  {
    if t == [] then None
    else
      var negative := t[0] == '-';
      var d := if t[0] == '-' || t[0] == '+' then t[1..] else t;
      if !ValidDigits(d) then None
      else
        var n: int := DecimalValue(DropUnderscores(d));
        Some(if negative then -n else n)
  }

  /** `str(n)` for a natural number: its decimal digits without leading zeros. */
  function NatToString(n: nat): (r: string)
    ensures r != [] && forall i :: 0 <= i < |r| ==> IsDigit(r[i])
    ensures |r| > 1 ==> r[0] != '0'
  {
    if n < 10 then [DigitChar(n)]
    else NatToString(n / 10) + [DigitChar(n % 10)]
  }

  /** `str(i)` for an integer. */
  function IntToString(i: int): (r: string)
  {
    if i < 0 then "-" + NatToString(-i) else NatToString(i)
  }

  lemma {:induction false} DropUnderscoresOfDigits(d: string)
    requires forall i :: 0 <= i < |d| ==> IsDigit(d[i])
    ensures DropUnderscores(d) == d
  {
    if d != [] {
      DropUnderscoresOfDigits(d[..|d| - 1]);
      assert d == d[..|d| - 1] + [d[|d| - 1]];
    }
  }

  lemma {:induction false} DecimalValueOfNatToString(n: nat)
    ensures DropUnderscores(NatToString(n)) == NatToString(n)
    ensures DecimalValue(NatToString(n)) == n
  {
    var r := NatToString(n);
    DropUnderscoresOfDigits(r);
    if n < 10 {
      assert r[..|r| - 1] == [];
    } else {
      DecimalValueOfNatToString(n / 10);
      assert r[..|r| - 1] == NatToString(n / 10);
    }
  }

  /** `int(str(i)) == i`, also with whitespace after the digits (a line terminator, say). */
  lemma PyIntOfIntToString(i: int, tail: string)
    requires AllSpace(tail)
    ensures PyInt(IntToString(i) + tail) == Some(i)
  {
    StripDropsTrailingSpace(IntToString(i), tail);
    SignedDecimalOfIntToString(i);
  }

  lemma SignedDecimalOfIntToString(i: int)
    ensures SignedDecimal(IntToString(i)) == Some(i)
  {
    var n: nat := if i < 0 then -i else i;
    var d := NatToString(n);
    assert ValidDigits(d) by {
      DigitsAreValid(d);
    }
    assert DecimalValue(DropUnderscores(d)) == n by {
      DecimalValueOfNatToString(n);
    }
    SignedDecimalOfDigits(d, i < 0, n);
  }

  lemma SignedDecimalOfDigits(d: string, negative: bool, n: nat)
    requires ValidDigits(d) && DecimalValue(DropUnderscores(d)) == n
    ensures SignedDecimal(if negative then "-" + d else d) == Some(if negative then 0 - n else n)
  {
    if negative {
      NegativeDigits(d, n);
    } else {
      PlainDigits(d, n);
    }
  }

  lemma PlainDigits(d: string, n: nat)
    requires ValidDigits(d) && DecimalValue(DropUnderscores(d)) == n
    ensures SignedDecimal(d) == Some(n)
  {
    assert d[0] != '-' && d[0] != '+';
  }

  lemma NegativeDigits(d: string, n: nat)
    requires ValidDigits(d) && DecimalValue(DropUnderscores(d)) == n
    ensures SignedDecimal("-" + d) == Some(0 - n)
  {
    assert ("-" + d)[0] == '-' && ("-" + d)[1..] == d;
  }

  lemma DigitsAreValid(d: string)
    requires d != [] && forall i :: 0 <= i < |d| ==> IsDigit(d[i])
    ensures ValidDigits(d)
  {
  }

  /** `os.path.basename(p)`: what follows the last '/'. */
  function Basename(p: string): (r: string)
    ensures |r| <= |p| && r == p[|p| - |r|..]
    ensures forall i :: 0 <= i < |r| ==> r[i] != '/'
    ensures |r| < |p| ==> p[|p| - |r| - 1] == '/'
  {
    if p == [] || p[|p| - 1] == '/' then []
    else
      var r := Basename(p[..|p| - 1]);
      SuffixStep(p, |r|);
      r + [p[|p| - 1]]
  }

  /** The last k + 1 characters of p: the last k of p without its last one, then that one. */
  lemma SuffixStep(p: string, k: nat)
    requires k < |p|
    ensures p[|p| - k - 1..] == p[..|p| - 1][|p| - 1 - k..] + [p[|p| - 1]]
  {
  }

  /** The part of p up to and including its last '/' (the head `os.path.split` cuts off). */
  function Head(p: string): (h: string)
    ensures h + Basename(p) == p
  {
    p[..|p| - |Basename(p)|]
  }

  predicate AllSlashes(s: string)
  {
    forall i :: 0 <= i < |s| ==> s[i] == '/'
  }

  function RStripSlashes(s: string): string
  {
    if s != [] && s[|s| - 1] == '/' then RStripSlashes(s[..|s| - 1]) else s
  }

  /**
   * `os.path.dirname(p)`: the head, with its trailing slashes removed
   * unless the head is made of slashes only.
   */
  function Dirname(p: string): string
  {
    var h := Head(p);
    if h != [] && !AllSlashes(h) then RStripSlashes(h) else h
  }

  /** `os.path.join(a, b)` for two components. */
  function PathJoin(a: string, b: string): string
  {
    if b != [] && b[0] == '/' then b
    else if a == [] || a[|a| - 1] == '/' then a + b
    else a + "/" + b
  }

  lemma {:induction false} RStripSlashesShape(s: string)
    ensures var r := RStripSlashes(s);
      |r| <= |s| && r == s[..|r|] && AllSlashes(s[|r|..]) && (r == [] || r[|r| - 1] != '/')
    decreases |s|
  {
    if s != [] && s[|s| - 1] == '/' {
      RStripSlashesShape(s[..|s| - 1]);
      var r := RStripSlashes(s);
      assert s[|r|..] == s[..|s| - 1][|r|..] + ['/'];
    }
  }

  /**
   * Joining a file name without '/' onto the directory of p gives a path in
   * the same directory whose base name is that file name.
   */
  lemma JoinDirname(p: string, name: string)
    requires name != [] && forall i :: 0 <= i < |name| ==> name[i] != '/'
    ensures Basename(PathJoin(Dirname(p), name)) == name
    ensures Dirname(PathJoin(Dirname(p), name)) == Dirname(p)
  {
    var d := Dirname(p);
    var h := d + if d == [] || d[|d| - 1] == '/' then "" else "/";
    assert name[0] != '/';
    var joined := PathJoin(d, name);
    assert joined == h + name;
    HeadOfSlashFree(h, name);
    DirnameGlue(p);
    assert Dirname(joined) == (if h != [] && !AllSlashes(h) then RStripSlashes(h) else h);
  }

  /** After a head ending in '/', a slash-free name is the base name and the head is the head. */
  lemma HeadOfSlashFree(h: string, name: string)
    requires h == [] || h[|h| - 1] == '/'
    requires forall i :: 0 <= i < |name| ==> name[i] != '/'
    ensures Basename(h + name) == name && Head(h + name) == h
  {
    BasenameOfSlashFree(h, name);
    assert Head(h + name) + name == h + name;
  }

  /** The directory of p, followed by the separator PathJoin would insert, has p's directory as its own. */
  lemma DirnameGlue(p: string)
    ensures var d := Dirname(p);
      var h' := d + (if d == [] || d[|d| - 1] == '/' then "" else "/");
      (h' == [] || h'[|h'| - 1] == '/')
      && (if h' != [] && !AllSlashes(h') then RStripSlashes(h') else h') == d
  {
    var h := Head(p);
    var d := Dirname(p);
    if h != [] && !AllSlashes(h) {
      assert h[|h| - 1] == '/' by {
        assert |Basename(p)| < |p|;
      }
      RStripSlashesShape(h);
      assert d != [];
      var h' := d + "/";
      assert h'[|d| - 1] != '/';
      assert h'[..|h'| - 1] == d;
    }
  }

  lemma {:induction false} BasenameOfSlashFree(h: string, name: string)
    requires h == [] || h[|h| - 1] == '/'
    requires forall i :: 0 <= i < |name| ==> name[i] != '/'
    ensures Basename(h + name) == name
    decreases |name|
  {
    if name == [] {
      assert h + name == h;
    } else {
      assert (h + name)[..|h + name| - 1] == h + name[..|name| - 1];
      BasenameOfSlashFree(h, name[..|name| - 1]);
    }
  }
}

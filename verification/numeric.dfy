/**
 * Integer and real arithmetic the scripts rely on: `math.gcd`, `math.lcm`,
 * the hyperperiod fold `lcm(numbers)`, Python's `round` (half to even),
 * `int()` on a float (truncation toward zero), `math.ceil`, `math.floor`
 * and the float `%` operator.
 *
 * Python's `//` and `%` on integers floor; Dafny's `/` and `%` are
 * Euclidean. The two agree whenever the divisor is positive, which is the
 * only way the scripts use them (`hyperperiod // period`, `wcet // 2`).
 */
module Numeric {

  /** Greatest common divisor by Euclid's algorithm (`math.gcd` on naturals). */
  function Gcd(a: nat, b: nat): nat
    decreases b
  {
    if b == 0 then a else Gcd(b, a % b)
  }

  lemma {:induction false} GcdDivides(a: nat, b: nat)
    requires a > 0 || b > 0
    ensures Gcd(a, b) > 0
    ensures a % Gcd(a, b) == 0 && b % Gcd(a, b) == 0
    decreases b
  {
    if b > 0 {
      GcdDivides(b, a % b);
      var g := Gcd(b, a % b);
      var q := a / b;
      assert a == q * b + a % b;
      DividesLinear(g, b, a % b, q);
    }
  }

  /** If g divides x and y then g divides q * x + y. */
  lemma DividesLinear(g: nat, x: int, y: int, q: int)
    requires g > 0 && x % g == 0 && y % g == 0
    ensures (q * x + y) % g == 0
  {
    var x', y' := x / g, y / g;
    assert x == g * x' && y == g * y';
    assert q * x + y == g * (q * x' + y');
    MultipleMod(g, q * x' + y');
  }

  lemma MultipleMod(g: nat, k: int)
    requires g > 0
    ensures (g * k) % g == 0 && (g * k) / g == k
  {
    var q, r := (g * k) / g, (g * k) % g;
    assert g * k == g * q + r && 0 <= r < g;
    var d := k - q;
    assert g * d == r;
    if d >= 1 {
      MulMonotone(g, 1, d);
    } else if d <= -1 {
      MulMonotone(g, d, -1);
    }
  }

  /** Division with remainder is unique: q * b + r with 0 <= r < b has quotient q and remainder r. */
  lemma DivModUnique(q: int, b: int, r: int)
    requires b > 0 && 0 <= r < b
    ensures (q * b + r) / b == q && (q * b + r) % b == r
  {
    var x := q * b + r;
    var q', r' := x / b, x % b;
    assert b * q' + r' == b * q + r;
    var d := q' - q;
    assert b * d == r - r';
    if d >= 1 {
      MulMonotone(b, 1, d);
    } else if d <= -1 {
      MulMonotone(b, d, -1);
    }
  }

  lemma MulMonotone(g: nat, u: int, v: int)
    requires u <= v
    ensures g * u <= g * v
  {
    assert g * v - g * u == g * (v - u);
  }

  /** Bezout coefficients: Gcd(a, b) is an integer combination of a and b. */
  lemma {:induction false} Bezout(a: nat, b: nat) returns (x: int, y: int)
    ensures Gcd(a, b) == a * x + b * y
    decreases b
  {
    if b == 0 {
      x, y := 1, 0;
    } else {
      var x', y' := Bezout(b, a % b);
      var q := a / b;
      assert a % b == a - q * b;
      assert Gcd(a, b) == b * x' + (a - q * b) * y';
      x, y := y', x' - q * y';
      assert b * x' + (a - q * b) * y' == a * y' + b * (x' - q * y');
    }
  }

  /** `math.lcm(a, b)` for positive arguments: `a // gcd(a, b) * b`. */
  function Lcm(a: nat, b: nat): nat
    requires a > 0 && b > 0
  {
    GcdDivides(a, b);
    a / Gcd(a, b) * b
  }

  /**
   * Lcm(a, b) is a positive common multiple of a and b that divides every
   * common multiple of a and b: it is the least common multiple.
   */
  lemma {:induction false} LcmIsLeastCommonMultiple(a: nat, b: nat)
    requires a > 0 && b > 0
    ensures Lcm(a, b) > 0
    ensures Lcm(a, b) % a == 0 && Lcm(a, b) % b == 0
    ensures forall m: int :: m % a == 0 && m % b == 0 ==> m % Lcm(a, b) == 0
  {
    var a', b' := LcmShape(a, b);
    MultipleMod(b, a');
    MultipleMod(a, b');
    var x, y := Bezout(a, b);
    forall m: int | m % a == 0 && m % b == 0 ensures m % Lcm(a, b) == 0 {
      CommonMultipleDivisible(a, b, Gcd(a, b), Lcm(a, b), x, y, m);
    }
  }

  /** With g = Gcd(a, b), a = g * a' and b = g * b', Lcm(a, b) is a' * b = a * b' and a * b = g * Lcm(a, b). */
  lemma LcmShape(a: nat, b: nat) returns (a': int, b': int)
    requires a > 0 && b > 0
    ensures Gcd(a, b) > 0 && a == Gcd(a, b) * a' && b == Gcd(a, b) * b' && a' > 0
    ensures Lcm(a, b) == b * a' && Lcm(a, b) == a * b'
    ensures a * b == Gcd(a, b) * Lcm(a, b)
  {
    GcdDivides(a, b);
    var g := Gcd(a, b);
    a', b' := a / g, b / g;
    assert a == g * a' && b == g * b';
    var l := a' * b;
    assert Lcm(a, b) == l;
    assert l == a * b' by {
      assert a' * (g * b') == (g * a') * b';
    }
    assert a * b == g * l by {
      assert a * b == (g * a') * b == g * (a' * b);
    }
  }

  /** With g == a * x + b * y and a * b == g * l, every common multiple of a and b is a multiple of l. */
  lemma CommonMultipleDivisible(a: int, b: int, g: int, l: int, x: int, y: int, m: int)
    requires a > 0 && b > 0 && g > 0 && l > 0
    requires g == a * x + b * y && a * b == g * l
    requires m % a == 0 && m % b == 0
    ensures m % l == 0
  {
    var p, q := m / a, m / b;
    assert m == a * p && m == b * q;
    assert g * m == a * x * m + b * y * m;
    assert a * x * m == (a * b) * (x * q) by {
      assert a * x * m == a * x * (b * q);
    }
    assert b * y * m == (a * b) * (y * p) by {
      assert b * y * m == b * y * (a * p);
    }
    var k := x * q + y * p;
    assert g * m == (a * b) * k;
    assert (a * b) * k == g * (l * k);
    CancelFactor(g, m, l * k);
    MultipleMod(l, k);
  }

  lemma CancelFactor(g: int, u: int, v: int)
    requires g != 0 && g * u == g * v
    ensures u == v
  {
    assert g * (u - v) == 0;
  }

  /**
   * The hyperperiod fold `lcm(numbers)`: start from numbers[0] and combine
   * each further number with `math.lcm`, left to right.
   */
  function LcmOf(s: seq<int>): (r: nat)
    requires |s| > 0 && forall i :: 0 <= i < |s| ==> s[i] > 0
    ensures r > 0
  {
    if |s| == 1 then s[0]
    else
      var l := LcmOf(s[..|s| - 1]);
      LcmIsLeastCommonMultiple(l, s[|s| - 1]);
      Lcm(l, s[|s| - 1])
  }

  /**
   * Every number divides the hyperperiod, and the hyperperiod divides every
   * common multiple of the numbers.
   */
  lemma {:induction false} LcmOfIsLeastCommonMultiple(s: seq<int>)
    requires |s| > 0 && forall i :: 0 <= i < |s| ==> s[i] > 0
    ensures forall i :: 0 <= i < |s| ==> LcmOf(s) % s[i] == 0
    ensures forall m: int :: (forall i :: 0 <= i < |s| ==> m % s[i] == 0) ==> m % LcmOf(s) == 0
  {
    if |s| > 1 {
      var init := s[..|s| - 1];
      var last := s[|s| - 1];
      LcmOfIsLeastCommonMultiple(init);
      var l := LcmOf(init);
      LcmIsLeastCommonMultiple(l, last);
      var h := Lcm(l, last);
      assert LcmOf(s) == h;
      forall i | 0 <= i < |s| ensures h % s[i] == 0 {
        if i < |s| - 1 {
          assert init[i] == s[i];
          DividesTransitive(s[i], l, h);
        }
      }
      forall m: int | (forall i :: 0 <= i < |s| ==> m % s[i] == 0) ensures m % h == 0 {
        assert forall i :: 0 <= i < |init| ==> m % init[i] == 0 by {
          forall i | 0 <= i < |init| ensures m % init[i] == 0 {
            assert init[i] == s[i];
          }
        }
      }
    }
  }

  lemma DividesTransitive(a: int, b: int, c: int)
    requires a > 0 && b > 0 && b % a == 0 && c % b == 0
    ensures c % a == 0
  {
    var p, q := b / a, c / b;
    assert b == a * p && c == b * q;
    assert c == a * (p * q);
    MultipleMod(a, p * q);
  }

  /** The loop of `lcm(numbers)`: `result = numbers[0]`, then `result = math.lcm(result, num)`. */
  method Hyperperiod(numbers: seq<int>) returns (result: int)
    requires |numbers| > 0 && forall i :: 0 <= i < |numbers| ==> numbers[i] > 0
    ensures result == LcmOf(numbers)
    ensures forall i :: 0 <= i < |numbers| ==> result % numbers[i] == 0
  {
    result := numbers[0];
    var i := 1;
    assert numbers[..1] == [numbers[0]];
    while i < |numbers|
      invariant 1 <= i <= |numbers|
      invariant result == LcmOf(numbers[..i])
    {
      assert numbers[..i + 1][..i] == numbers[..i];
      LcmIsLeastCommonMultiple(result, numbers[i]);
      result := Lcm(result, numbers[i]);
      i := i + 1;
    }
    assert numbers[..i] == numbers;
    LcmOfIsLeastCommonMultiple(numbers);
  }

  /** `math.floor` on a real. */
  function Floor(x: real): int
  {
    x.Floor
  }

  /** `math.ceil` on a real. */
  function Ceil(x: real): (r: int)
    ensures r as real >= x && (r as real) - 1.0 < x
  {
    -((-x).Floor)
  }

  /** `int(x)` on a float: truncation toward zero. */
  function Trunc(x: real): (r: int)
    ensures x >= 0.0 ==> r == x.Floor
    ensures x >= 0.0 ==> 0.0 <= x - r as real < 1.0
  {
    if x >= 0.0 then x.Floor else -((-x).Floor)
  }

  /**
   * Python's `round(x)` on a float: the nearest integer, ties going to the
   * even neighbour.
   */
  function RoundHalfEven(x: real): (r: int)
    ensures x - 0.5 <= r as real <= x + 0.5
    ensures r as real == x - 0.5 ==> r % 2 == 0
    ensures r as real == x + 0.5 ==> r % 2 == 0
  {
    var f := x.Floor;
    var d := x - f as real;
    if d < 0.5 then f
    else if d > 0.5 then f + 1
    else if f % 2 == 0 then f else f + 1
  }

  /** Python's float `%` with a positive divisor: the result has the divisor's sign. */
  function FloatMod(x: real, t: real): (r: real)
    requires t > 0.0
    ensures 0.0 <= r < t
    ensures ((x - r) / t).Floor as real == (x - r) / t
  {
    var q := (x / t).Floor;
    var f := x / t - q as real;
    assert 0.0 <= f < 1.0;
    assert x - q as real * t == f * t;
    assert t - f * t == (1.0 - f) * t;
    assert 0.0 < (1.0 - f) * t;
    assert (x - (x - q as real * t)) / t == q as real;
    x - q as real * t
  }
}

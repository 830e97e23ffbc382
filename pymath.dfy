// Python integer and numeric semantics that differ from Dafny's.
module PyMath {
  import Text

  function Abs(x: int): (r: nat)
    ensures r == x || r == -x
  {
    if x < 0 then -x else x
  }

  function RealAbs(x: real): (r: real)
    ensures r >= 0.0 && (r == x || r == -x)
  {
    if x < 0.0 then -x else x
  }

  lemma DivMod(n: nat, d: nat)
    requires d > 0
    ensures n == (n / d) * d + n % d && 0 <= n % d < d && n / d >= 0
    ensures (n / d) * d >= 0 && (n / d + 1) * d == (n / d) * d + d
  {
  }

  /** Python `int(a / b)`: the quotient truncated toward zero (Dafny's `/` floors for b > 0). */
  function TruncDiv(a: int, b: int): (q: int)
    requires b > 0
    ensures 0 <= a ==> 0 <= q * b <= a < (q + 1) * b
    ensures a < 0 ==> (q - 1) * b < a <= q * b <= 0
  {
    if a >= 0 then
      DivMod(a, b);
      a / b
    else
      DivMod(-a, b);
      var q := -((-a) / b);
      assert q * b == -(((-a) / b) * b);
      assert (q - 1) * b == -(((-a) / b + 1) * b);
      q
  }

  /** Python `round(n / d)` for naturals: nearest integer, ties to the even neighbour. */
  function RoundHalfEven(n: nat, d: nat): (r: nat)
    requires d > 0
    ensures 2 * Abs(r * d - n) <= d
    ensures 2 * Abs(r * d - n) == d ==> r % 2 == 0
  {
    DivMod(n, d);
    var q := n / d;
    var rem := n % d;
    assert q * d - n == -rem;
    assert (q + 1) * d - n == d - rem;
    if 2 * rem < d then q
    else if 2 * rem > d then q + 1
    else if q % 2 == 0 then q
    else q + 1
  }

  /** Python `round(x)` on an exact real: the nearest integer, ties to the even neighbour. */
  function RoundReal(x: real): (r: int)
    ensures -0.5 <= r as real - x <= 0.5
    ensures (r as real - x == 0.5 || x - r as real == 0.5) ==> r % 2 == 0
  {
    var f := x.Floor;
    var frac := x - f as real;
    if frac < 0.5 then f
    else if frac > 0.5 then f + 1
    else if f % 2 == 0 then f
    else f + 1
  }

  /**
   * Python `round(x, 1)` on an exact real: a whole number of tenths, the nearest one to `x`,
   * a tie going to the even number of tenths.
   */
  function RoundTenth(x: real): (r: real)
    ensures (10.0 * r).Floor as real == 10.0 * r
    ensures -0.05 <= r - x <= 0.05
    ensures (r - x == 0.05 || x - r == 0.05) ==> (10.0 * r).Floor % 2 == 0
  {
    RoundReal(10.0 * x) as real / 10.0
  }

  /**
   * Python `round(x, 2)` on an exact real: a whole number of hundredths, the nearest one to
   * `x`, a tie going to the even number of hundredths.
   */
  function RoundHundredth(x: real): (r: real)
    ensures (100.0 * r).Floor as real == 100.0 * r
    ensures -0.005 <= r - x <= 0.005
    ensures (r - x == 0.005 || x - r == 0.005) ==> (100.0 * r).Floor % 2 == 0
  {
    RoundReal(100.0 * x) as real / 100.0
  }

  /** A whole number is its own rounding to two places. */
  lemma RoundHundredthWhole(n: int)
    ensures RoundHundredth(n as real) == n as real
  {
    assert (100.0 * n as real).Floor == 100 * n;
  }

  /**
   * Python `f"{x:.1f}"` on an exact real: the value rounded to tenths, ties to even, written
   * as an optional minus sign (kept for a negative value that rounds to zero), the whole
   * part, a point and one digit.
   */
  function Fixed1(x: real): (r: string)
    ensures |r| >= 3 && r[|r| - 2] == '.' && Text.IsDigit(r[|r| - 1])
    ensures (r[0] == '-') <==> x < 0.0
  {
    var a := Abs(RoundReal(10.0 * x));
    (if x < 0.0 then "-" else "") + Text.NatToString(a / 10) + "." + [Text.DigitChar(a % 10)]
  }

  /** The digits of `Fixed1(x)`, read without its sign and point, are the tenths of `|x|` rounded. */
  lemma Fixed1ReadsBack(x: real)
    ensures
      var r := Fixed1(x);
      var u := if x < 0.0 then r[1..] else r;
      var ds := u[..|u| - 2] + [u[|u| - 1]];
      (forall i :: 0 <= i < |ds| ==> Text.IsDigit(ds[i]))
      && Text.DigitsValue(ds) == Abs(RoundReal(10.0 * x))
  {
    var a := Abs(RoundReal(10.0 * x));
    var w := Text.NatToString(a / 10);
    var u := w + "." + [Text.DigitChar(a % 10)];
    var r := Fixed1(x);
    assert r == (if x < 0.0 then "-" else "") + u;
    assert (if x < 0.0 then r[1..] else r) == u;
    var ds := w + [Text.DigitChar(a % 10)];
    assert u[..|u| - 2] + [u[|u| - 1]] == ds;
    assert ds[..|ds| - 1] == w;
    Text.NatToStringRoundTrip(a / 10);
    assert Text.DigitsValue(ds) == 10 * (a / 10) + a % 10;
  }

  /** Rounding to one decimal keeps a value between two whole bounds within them. */
  lemma RoundTenthWithin(x: real, lo: int, hi: int)
    requires lo as real <= x <= hi as real
    ensures lo as real <= RoundTenth(x) <= hi as real
  {
    var r := RoundReal(10.0 * x);
    assert r as real >= 10.0 * lo as real - 0.5;
    assert r as real <= 10.0 * hi as real + 0.5;
    assert r >= 10 * lo && r <= 10 * hi;
  }

  /** A whole number is its own rounding. */
  lemma RoundTenthWhole(n: int)
    ensures RoundTenth(n as real) == n as real
  {
    assert (10.0 * n as real).Floor == 10 * n;
  }
}

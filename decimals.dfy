/**
 * Fixed-point and integer helpers the simulator relies on.
 *
 * A cosmwasm `Decimal` is an unsigned count of 10^-18 units (its "atomics");
 * the model keeps exactly that count. Multiplying a `Uint128` by a `Decimal`
 * and building a `Decimal` from a ratio both round toward zero.
 */
module Decimals {

  /** Number of atomics in `Decimal::one()`. */
  const FRACTIONAL: nat := 1_000_000_000_000_000_000

  type Decimal = nat

  /** `Decimal::permille(x)`. */
  function Permille(x: nat): (d: Decimal)
    ensures d * 1000 == x * FRACTIONAL
  {
    x * 1_000_000_000_000_000
  }

  /** `Decimal::percent(x)`. */
  function Percent(x: nat): (d: Decimal)
    ensures d * 100 == x * FRACTIONAL
  {
    x * 10_000_000_000_000_000
  }

  /** `Uint128 * Decimal`: the product, rounded down to a whole unit. */
  function MulFloor(x: nat, d: Decimal): (r: nat)
    ensures r * FRACTIONAL <= x * d < (r + 1) * FRACTIONAL
  {
    x * d / FRACTIONAL
  }

  /** `Decimal::from_ratio(num, den)`: num/den, rounded down to a whole atomic. */
  function FromRatio(num: nat, den: nat): (r: Decimal)
    requires den > 0
    ensures r * den <= num * FRACTIONAL < (r + 1) * den
  {
    num * FRACTIONAL / den
  }

  /** `Uint128::isqrt`: the integer square root, rounded down. */
  function Isqrt(n: nat): (r: nat)
    ensures r * r <= n < (r + 1) * (r + 1)
    decreases n
  {
    if n < 2 then n
    else
      var h := Isqrt(n / 4);
      IsqrtDouble(n, h);
      if (2 * h + 1) * (2 * h + 1) <= n then 2 * h + 1 else 2 * h
  }

  /** Doubling the root of n/4 brackets the root of n. */
  lemma IsqrtDouble(n: nat, h: nat)
    requires h * h <= n / 4 < (h + 1) * (h + 1)
    ensures (2 * h) * (2 * h) <= n < (2 * h + 2) * (2 * h + 2)
  {
    var q := n / 4;
    assert n == 4 * q + n % 4;
    assert (2 * h) * (2 * h) == 4 * (h * h);
    assert (2 * h + 2) * (2 * h + 2) == 4 * ((h + 1) * (h + 1));
    assert (h + 1) * (h + 1) >= q + 1;
  }

  /** The floor square root is the only r with r^2 <= n < (r+1)^2. */
  lemma IsqrtUnique(n: nat, r: nat)
    requires r * r <= n < (r + 1) * (r + 1)
    ensures Isqrt(n) == r
  {
    var s := Isqrt(n);
    if s < r {
      assert s + 1 <= r;
      MulMonotone(s + 1, r);
      assert false;
    } else if r < s {
      assert r + 1 <= s;
      MulMonotone(r + 1, s);
      assert false;
    }
  }

  lemma MulMonotone(a: nat, b: nat)
    requires a <= b
    ensures a * a <= b * b
  {
    assert a * a <= a * b <= b * b;
  }

  function DigitChar(d: nat): (c: char)
    requires d < 10
    ensures '0' <= c <= '9'
  {
    (48 + d) as char
  }

  function DigitValue(c: char): (d: nat)
    requires '0' <= c <= '9'
    ensures d < 10
  {
    c as nat - 48
  }

  predicate IsDigits(s: string)
  {
    forall i :: 0 <= i < |s| ==> '0' <= s[i] <= '9'
  }

  /** `format!("{}", n)` for an unsigned integer: decimal digits, no leading zero. */
  function DecimalString(n: nat): (s: string)
    ensures |s| >= 1 && IsDigits(s)
    ensures |s| > 1 ==> s[0] != '0'
    decreases n
  {
    if n < 10 then [DigitChar(n)] else DecimalString(n / 10) + [DigitChar(n % 10)]
  }

  /** Reading a string of decimal digits back as a number. */
  function ParseDecimal(s: string): nat
    requires IsDigits(s)
    decreases |s|
  {
    if s == [] then 0 else ParseDecimal(s[..|s| - 1]) * 10 + DigitValue(s[|s| - 1])
  }

  /** Formatting a number and reading it back gives the number. */
  lemma {:induction false} DecimalStringRoundTrip(n: nat)
    ensures ParseDecimal(DecimalString(n)) == n
    decreases n
  {
    var s := DecimalString(n);
    if n < 10 {
      assert s[..|s| - 1] == [];
    } else {
      DecimalStringRoundTrip(n / 10);
      assert s[..|s| - 1] == DecimalString(n / 10);
    }
  }

  /** So two different numbers never format to the same text. */
  lemma DecimalStringInjective(a: nat, b: nat)
    requires DecimalString(a) == DecimalString(b)
    ensures a == b
  {
    DecimalStringRoundTrip(a);
    DecimalStringRoundTrip(b);
  }

  lemma Cancel(a: nat, b: nat)
    requires b > 0
    ensures a * b / b == a
  {
    var q := a * b / b;
    FloorDiv(a * b, b);
    if q < a {
      MulRightMonotone(q + 1, a, b);
    } else if a < q {
      MulRightMonotone(a + 1, q, b);
    }
  }

  /** Integer division brackets its dividend. */
  lemma FloorDiv(x: nat, d: nat)
    requires d > 0
    ensures (x / d) * d <= x < (x / d + 1) * d
  {
  }

  lemma MulRightMonotone(m: nat, n: nat, b: nat)
    requires m <= n
    ensures m * b <= n * b
  {
  }

  lemma MulLeftMonotone(a: nat, m: nat, n: nat)
    requires m <= n
    ensures a * m <= a * n
  {
  }

  lemma DivMonotone(x: nat, y: nat, d: nat)
    requires d > 0 && x <= y
    ensures x / d <= y / d
  {
    FloorDiv(x, d);
    FloorDiv(y, d);
    if y / d < x / d {
      MulRightMonotone(y / d + 1, x / d, d);
    }
  }
}

/** Integer arithmetic of the two runtimes: JavaScript's `Math.round` of a percentage,
    clamping, and Java's 32-bit `int`. */
module Arith {

  /** JavaScript's `Math.round` on an exact real: the nearest integer, halves rounded up. */
  function JsRound(x: real): int {
    (x + 0.5).Floor
  }

  /** `Math.round(part / whole * 100)` computed exactly on integers as
      `(200 * part + whole) / (2 * whole)`: the integer nearest to `100 * part / whole`,
      halves rounded up. */
  function RoundedPercent(part: nat, whole: nat): (r: nat)
    requires whole > 0
    ensures 2 * whole * r <= 200 * part + whole < 2 * whole * (r + 1)
  {
    var num, den := 200 * part + whole, 2 * whole;
    var q := num / den;
    assert den * q + num % den == num;
    assert 2 * whole * q == den * q;
    q
  }

  /** The integer formula is `Math.round` of the exact ratio. */
  lemma RoundedPercentIsJsRound(part: nat, whole: nat)
    requires whole > 0
    ensures RoundedPercent(part, whole) == JsRound(part as real / whole as real * 100.0)
  {
    var r := RoundedPercent(part, whole);
    var k := 2.0 * whole as real;
    var y := part as real / whole as real * 100.0 + 0.5;
    ScaledRatio(part, whole);
    ScaledInt(whole, r);
    ScaledInt(whole, r + 1);
    RealCancel(k, r as real, y);
    RealCancelStrict(k, y, (r + 1) as real);
  }

  /** Twice the whole times the rounded-up ratio is the integer numerator of `RoundedPercent`. */
  lemma ScaledRatio(part: nat, whole: nat)
    requires whole > 0
    ensures 2.0 * whole as real * (part as real / whole as real * 100.0 + 0.5) == (200 * part + whole) as real
  {
    var w := whole as real;
    assert part as real / w * w == part as real;
  }

  /** Casting commutes with the product `2 * whole * n`. */
  lemma ScaledInt(whole: nat, n: int)
    ensures 2.0 * whole as real * n as real == (2 * whole * n) as real
  {
  }

  lemma RealCancel(k: real, a: real, b: real)
    requires k > 0.0 && k * a <= k * b
    ensures a <= b
  {
    assert k * (b - a) >= 0.0;
  }

  lemma RealCancelStrict(k: real, a: real, b: real)
    requires k > 0.0 && k * a < k * b
    ensures a < b
  {
    assert k * (b - a) > 0.0;
  }

  lemma {:induction false} MulMonotone(k: nat, a: int, b: int)
    requires a <= b
    ensures k * a <= k * b
  {
    if k > 0 {
      MulMonotone(k - 1, a, b);
      assert k * a == (k - 1) * a + a;
      assert k * b == (k - 1) * b + b;
    }
  }

  lemma MulCancelStrict(k: nat, a: int, b: int)
    ensures k * a < k * b ==> a < b
  {
    if b <= a {
      MulMonotone(k, b, a);
    }
  }

  /** A percentage of a part no larger than the whole lies in [0, 100]; no part gives 0 and
      the whole gives 100. */
  lemma RoundedPercentRange(part: nat, whole: nat)
    requires 0 < whole && part <= whole
    ensures 0 <= RoundedPercent(part, whole) <= 100
    ensures part == 0 ==> RoundedPercent(part, whole) == 0
    ensures part == whole ==> RoundedPercent(part, whole) == 100
  {
    var r := RoundedPercent(part, whole);
    var k := 2 * whole;
    assert k * r <= 200 * part + whole < k * (r + 1);
    assert 200 * part + whole < k * 101 by {
      MulMonotone(200, part, whole);
    }
    MulCancelStrict(k, r, 101);
    if part == 0 {
      assert k * r < k * 1;
      MulCancelStrict(k, r, 1);
    }
    if part == whole {
      assert k * 99 < k * 100 <= k * (r + 1) by {
        assert k * 100 == 200 * whole;
      }
      MulCancelStrict(k, 99, r + 1);
    }
  }

  /** A larger part never gives a smaller percentage of the same whole. */
  lemma RoundedPercentMonotone(p: nat, q: nat, whole: nat)
    requires 0 < whole && p <= q
    ensures RoundedPercent(p, whole) <= RoundedPercent(q, whole)
  {
    var a, b := RoundedPercent(p, whole), RoundedPercent(q, whole);
    var k := 2 * whole;
    assert k * a < k * (b + 1);
    MulCancelStrict(k, a, b + 1);
  }

  function Min(a: int, b: int): int { if a <= b then a else b }
  function Max(a: int, b: int): int { if a >= b then a else b }

  /** `Math.max(lo, Math.min(hi, x))`. */
  function Clamp(lo: int, hi: int, x: int): (r: int)
    requires lo <= hi
    ensures lo <= r <= hi
    ensures lo <= x <= hi ==> r == x
  {
    Max(lo, Min(hi, x))
  }

  const INT_MIN: int := -0x8000_0000
  const INT_MAX: int := 0x7FFF_FFFF

  /** Java's `int`. */
  type Int32 = x: int | INT_MIN <= x <= INT_MAX

  /** Java's `int` arithmetic: the result modulo 2^32, read back as a signed value. */
  function Wrap32(x: int): (r: Int32)
    ensures (r - x) % 0x1_0000_0000 == 0
    ensures INT_MIN <= x <= INT_MAX ==> r == x
  {
    (x - INT_MIN) % 0x1_0000_0000 + INT_MIN
  }
}

/**
 * Numbers as the plug-in handles them. A JSON number or a driver value is held in
 * millionths (`Fixed`), and Python's `round(x, n)` is rounding to the nearest multiple
 * of 10^-n with ties going to the even neighbour.
 */
module FixedPoint {

  /** A decimal number scaled by 10^6: 1.5 is 1_500_000. */
  type Fixed = int

  /** The number 1 as a `Fixed`. */
  const One: Fixed := 1_000_000

  /** The decimal places a `Fixed` holds. */
  const Places: nat := 6

  function Pow10(n: nat): (r: nat)
    ensures r >= 1
  {
    if n == 0 then 1 else 10 * Pow10(n - 1)
  }

  function Abs(x: int): (r: nat)
    ensures r == x || r == -x
  {
    if x < 0 then -x else x
  }

  /**
   * x / d rounded to the nearest integer, a tie going to the even one: the
   * quotient Python's `round` produces.
   */
  function RoundDiv(x: int, d: int): (q: int)
    requires d > 0
    ensures 2 * Abs(x - q * d) <= d
    ensures 2 * Abs(x - q * d) == d ==> q % 2 == 0
  {
    var q0, r := x / d, x % d;
    assert x - q0 * d == r;
    assert x - (q0 + 1) * d == r - d;
    if 2 * r < d then q0
    else if 2 * r > d then q0 + 1
    else if q0 % 2 == 0 then q0
    else q0 + 1
  }

  /** Python's `round(x, places)` for a number held in millionths. */
  function Round(x: Fixed, places: nat): (r: Fixed)
    requires places <= Places
    ensures r % Pow10(Places - places) == 0
    ensures 2 * Abs(r - x) <= Pow10(Places - places)
  {
    var step := Pow10(Places - places);
    var q := RoundDiv(x, step);
    assert (q * step) % step == 0 by { MultipleMod(q, step); }
    q * step
  }

  /** `round(x / 1000, 1)`: a reading in base units given in kilo-units to one decimal place. */
  function KiloRound(x: Fixed): (r: Fixed)
    ensures r % 100_000 == 0
    ensures 2 * Abs(1000 * r - x) <= 100_000_000
  {
    var q := RoundDiv(x, 100_000_000);
    assert (q * 100_000) % 100_000 == 0 by { MultipleMod(q, 100_000); }
    q * 100_000
  }

  /** A non-zero multiple of d is at least d away from zero. */
  lemma {:induction false} MultipleAwayFromZero(a: int, d: int)
    requires d > 0 && a != 0
    ensures a > 0 ==> a * d >= d
    ensures a < 0 ==> a * d <= -d
    decreases Abs(a)
  {
    if a > 1 {
      MultipleAwayFromZero(a - 1, d);
      assert a * d == (a - 1) * d + d;
    } else if a < -1 {
      MultipleAwayFromZero(a + 1, d);
      assert a * d == (a + 1) * d - d;
    }
  }

  /** Quotient and remainder are unique. */
  lemma DivModUnique(x: int, d: int, q: int, r: int)
    requires d > 0 && 0 <= r < d && x == q * d + r
    ensures x / d == q && x % d == r
  {
    var q', r' := x / d, x % d;
    assert (q - q') * d == r' - r;
    if q - q' != 0 {
      MultipleAwayFromZero(q - q', d);
    }
  }

  lemma MultipleMod(q: int, d: int)
    requires d > 0
    ensures (q * d) % d == 0
  {
    DivModUnique(q * d, d, q, 0);
  }

  /** An exact multiple of d divides back without rounding. */
  lemma RoundDivExact(k: int, d: int)
    requires d > 0
    ensures RoundDiv(k * d, d) == k
  {
    DivModUnique(k * d, d, k, 0);
  }

  /** RoundDiv picks the truncated quotient or the next one, by the remainder. */
  lemma RoundDivCases(x: int, d: int)
    requires d > 0
    ensures x == (x / d) * d + x % d && 0 <= x % d < d
    ensures var q0, r := x / d, x % d;
      RoundDiv(x, d) == (if 2 * r < d then q0 else if 2 * r > d then q0 + 1 else if q0 % 2 == 0 then q0 else q0 + 1)
  {
  }

  lemma MulSub(a: int, b: int, d: int)
    ensures (a - b) * d == a * d - b * d
  {
  }

  /** Truncating division is monotone in the dividend. */
  lemma QuotientMonotone(x: int, y: int, d: int)
    requires d > 0 && x <= y
    ensures x / d <= y / d
  {
    var qx, qy := x / d, y / d;
    if qx > qy {
      RoundDivCases(x, d);
      RoundDivCases(y, d);
      MultipleAwayFromZero(qx - qy, d);
      MulSub(qx, qy, d);
      assert false;
    }
  }

  /** Rounding is monotone: a larger dividend never rounds to a smaller quotient. */
  lemma RoundDivMonotone(x: int, y: int, d: int)
    requires d > 0 && x <= y
    ensures RoundDiv(x, d) <= RoundDiv(y, d)
  {
    RoundDivCases(x, d);
    RoundDivCases(y, d);
    QuotientMonotone(x, y, d);
    if x / d == y / d {
      assert x % d <= y % d;
    }
  }

  /** Rounding an already rounded number to the same precision leaves it alone. */
  lemma {:induction false} RoundIdempotent(x: Fixed, places: nat)
    requires places <= Places
    ensures Round(Round(x, places), places) == Round(x, places)
  {
    var step := Pow10(Places - places);
    RoundDivExact(RoundDiv(x, step), step);
  }

  /** Rounding keeps the order of readings. */
  lemma RoundMonotone(x: Fixed, y: Fixed, places: nat)
    requires places <= Places && x <= y
    ensures Round(x, places) <= Round(y, places)
  {
    var step := Pow10(Places - places);
    RoundDivMonotone(x, y, step);
    MulMonotone(RoundDiv(x, step), RoundDiv(y, step), step);
  }

  lemma MulMonotone(a: int, b: int, d: int)
    requires a <= b && d > 0
    ensures a * d <= b * d
  {
    MulSub(b, a, d);
  }
}

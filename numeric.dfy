/** Integer versions of the JavaScript Math functions the scripts apply to
    quotients of integers. */
module Numeric {

  function Abs(x: int): nat {
    if x < 0 then -x else x
  }

  function Min(a: int, b: int): int {
    if a <= b then a else b
  }

  function Max(a: int, b: int): int {
    if a >= b then a else b
  }

  /** `Math.round(num / den)`: the integer nearest to the quotient, halves
      rounded up (towards positive infinity, as JavaScript does). */
  function RoundHalfUp(num: int, den: int): (r: int)
    requires den > 0
    ensures 2 * den * r <= 2 * num + den < 2 * den * (r + 1)
  {
    var q := (2 * num + den) / (2 * den);
    DivBounds(2 * num + den, 2 * den);
    q
  }

  /** `Math.ceil(num / den)`: the least integer not below the quotient. */
  function CeilDiv(num: int, den: int): (r: int)
    requires den > 0
    ensures den * (r - 1) < num <= den * r
  {
    var q := (num + den - 1) / den;
    DivBounds(num + den - 1, den);
    q
  }

  /** Euclidean division by a positive divisor brackets the dividend. */
  lemma DivBounds(a: int, b: int)
    requires b > 0
    ensures b * (a / b) <= a < b * (a / b + 1)
  {
  }

  /** Rounding an exact quotient gives the quotient itself. */
  lemma RoundHalfUpExact(k: int, den: int)
    requires den > 0
    ensures RoundHalfUp(k * den, den) == k
  {
    DivUnique(2 * (k * den) + den, 2 * den, k);
  }

  /** The quotient is the one integer whose multiples bracket the dividend. */
  lemma DivUnique(a: int, b: int, q: int)
    requires b > 0 && b * q <= a < b * (q + 1)
    ensures a / b == q
  {
    DivBounds(a, b);
    var r := a / b;
    if r < q {
      MulMono(b, r + 1, q);
    } else if r > q {
      MulMono(b, q + 1, r);
    }
  }

  /** `Math.round(100 * part / whole)` is a percentage when `part` lies in `[0, whole]`. */
  lemma PercentInRange(part: int, whole: int)
    requires 0 <= part <= whole && whole > 0
    ensures 0 <= RoundHalfUp(100 * part, whole) <= 100
  {
    var r := RoundHalfUp(100 * part, whole);
    if r < 0 {
      MulMono(2 * whole, r + 1, 0);
    }
    if r > 100 {
      MulMono(2 * whole, 101, r);
      MulMono(200, part, whole);
    }
  }

  /** `Math.ceil` of a quotient grows with the dividend. */
  lemma CeilDivMono(a: int, b: int, den: int)
    requires den > 0 && a <= b
    ensures CeilDiv(a, den) <= CeilDiv(b, den)
  {
    var ra, rb := CeilDiv(a, den), CeilDiv(b, den);
    if ra > rb {
      MulMono(den, rb, ra - 1);
    }
  }

  lemma MulMono(k: int, a: int, b: int)
    requires k >= 0 && a <= b
    ensures k * a <= k * b
  {
  }

  /** `(part / whole) * 100` for a non-empty piece `part` of a whole: a
      percentage above 0 and at most 100, which is `part` when taken of `whole`. */
  function Percentage(part: int, whole: int): (p: real)
    requires 1 <= part <= whole
    ensures 0.0 < p <= 100.0
    ensures p * whole as real == 100.0 * part as real
  {
    var q := part as real / whole as real;
    assert q * whole as real == part as real;
    q * 100.0
  }
}

/** Integer division facts used by the bucket and tick arithmetic. */
module Arith {

  function Max(a: int, b: int): int { if a < b then b else a }

  function Min(a: int, b: int): int { if a < b then a else b }

  /** Math.ceil(a / b) for a non-negative numerator and a positive divisor. */
  function CeilDiv(a: nat, b: nat): (q: nat)
    requires b > 0
    ensures (q - 1) * b < a <= q * b
  {
    DivModUnique(a + b - 1, b, (a + b - 1) / b, (a + b - 1) % b);
    (a + b - 1) / b
  }

  /** Math.round(num / den) for non-negative operands: the nearest integer, halves rounded up. */
  function RoundHalfUp(num: nat, den: nat): (r: nat)
    requires den > 0
    ensures 2 * den * r <= 2 * num + den < 2 * den * r + 2 * den
  {
    var d := 2 * den;
    DivModUnique(2 * num + den, d, (2 * num + den) / d, (2 * num + den) % d);
    (2 * num + den) / d
  }

  /** A product with a factor of at least one is at least the other factor. */
  lemma MulAtLeast(d: int, b: int)
    requires d >= 1 && b > 0
    ensures d * b >= b
  {
    assert d * b == (d - 1) * b + b;
  }

  /** Multiplication by a natural number is monotone. */
  lemma MulLe(x: int, y: int, b: nat)
    requires x <= y
    ensures x * b <= y * b
  {
    assert y * b == x * b + (y - x) * b;
  }

  /** A strict inequality between multiples of a positive number holds between the factors. */
  lemma MulLtCancel(x: int, y: int, b: int)
    requires b > 0 && x * b < y * b
    ensures x < y
  {
    if y <= x {
      MulLe(y, x, b);
    }
  }

  /** Rounding a quotient that lies between lo and hi gives a value between lo and hi. */
  lemma RoundHalfUpBetween(num: nat, den: nat, lo: nat, hi: nat)
    requires den > 0 && lo * den <= num <= hi * den
    ensures lo <= RoundHalfUp(num, den) <= hi
  {
    var r := RoundHalfUp(num, den);
    MulSucc(hi, 2 * den);
    MulSucc(r, 2 * den);
    assert r * (2 * den) == 2 * den * r;
    assert hi * (2 * den) == 2 * (hi * den);
    assert lo * (2 * den) == 2 * (lo * den);
    MulLtCancel(r, hi + 1, 2 * den);
    MulLtCancel(lo, r + 1, 2 * den);
  }

  /** One more step of width b. */
  lemma MulSucc(n: int, b: int)
    ensures (n + 1) * b == n * b + b
  {
  }

  /** The only multiple of b strictly between -b and b is zero. */
  lemma SmallMultipleIsZero(d: int, b: int)
    requires b > 0 && -b < d * b < b
    ensures d == 0
  {
    if d > 0 {
      MulAtLeast(d, b);
    } else if d < 0 {
      MulAtLeast(-d, b);
    }
  }

  /** Euclidean division is determined by its quotient-remainder equation. */
  lemma DivModUnique(a: int, b: int, q: int, r: int)
    requires b > 0 && 0 <= r < b && a == q * b + r
    ensures a / b == q && a % b == r
  {
    var q', r' := a / b, a % b;
    assert a == q' * b + r';
    assert (q - q') * b == q * b - q' * b;
    SmallMultipleIsZero(q - q', b);
  }

  /** A multiple of b divides back exactly. */
  lemma MulDiv(n: nat, b: nat)
    requires b > 0
    ensures (n * b) / b == n && (n * b) % b == 0
  {
    DivModUnique(n * b, b, n, 0);
  }

  /** If n - 1 whole steps fit in x and n do not, then x / b == n - 1. */
  lemma DivFromBounds(x: nat, b: nat, n: nat)
    requires b > 0 && n > 0 && (n - 1) * b <= x < n * b
    ensures x / b == n - 1
  {
    DivModUnique(x, b, n - 1, x - (n - 1) * b);
  }

  /** (s / b) * b is the largest multiple of b not above s. */
  lemma FloorMultiple(s: nat, b: nat)
    requires b > 0
    ensures 0 <= (s / b) * b <= s < (s / b) * b + b
    ensures ((s / b) * b) % b == 0
  {
    MulDiv(s / b, b);
  }

  /** Every multiple of b that is at most s is at most (s / b) * b. */
  lemma MultipleBelowFloor(k: nat, s: nat, b: nat)
    requires b > 0 && k % b == 0 && k <= s
    ensures k <= (s / b) * b
  {
    var m := (s / b) * b;
    FloorMultiple(s, b);
    if m < k {
      var d := k / b - s / b;
      assert k == (k / b) * b;
      assert d * b == k - m;
      SmallMultipleIsZero(d, b);
    }
  }

  /** Two distinct multiples of b are at least b apart. */
  lemma MultiplesApart(k1: nat, k2: nat, b: nat)
    requires b > 0 && k1 % b == 0 && k2 % b == 0 && k1 < k2
    ensures k1 + b <= k2
  {
    var d := k2 / b - k1 / b;
    assert k1 == (k1 / b) * b && k2 == (k2 / b) * b;
    assert d * b == k2 - k1;
    if k2 - k1 < b {
      SmallMultipleIsZero(d, b);
    }
  }
}

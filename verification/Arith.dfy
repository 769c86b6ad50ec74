/** Powers and congruences over the integers: what the multi-precision proofs rest on. */
module Arith {

  function Pow(b: int, e: nat): int
  {
    if e == 0 then 1 else b * Pow(b, e - 1)
  }

  lemma {:induction false} PowPositive(b: int, e: nat)
    requires b > 0
    ensures Pow(b, e) > 0
  {
    if e > 0 { PowPositive(b, e - 1); }
  }

  lemma PowStep(b: int, e: nat)
    ensures Pow(b, e + 1) == b * Pow(b, e)
  {}

  lemma {:induction false} PowAdd(b: int, x: nat, y: nat)
    ensures Pow(b, x + y) == Pow(b, x) * Pow(b, y)
  {
    if x > 0 {
      PowAdd(b, x - 1, y);
      MulAssoc(b, Pow(b, x - 1), Pow(b, y));
    }
  }

  lemma {:induction false} PowMul(b: int, x: nat, y: nat)
    ensures 0 <= x * y
    ensures Pow(b, x * y) == Pow(Pow(b, x), y)
  {
    MulNonNegative(x, y);
    if y > 0 {
      MulNonNegative(x, y - 1);
      PowMul(b, x, y - 1);
      assert x * y == x + x * (y - 1);
      PowAdd(b, x, x * (y - 1));
    }
  }

  lemma {:induction false} PowMonotone(b: int, x: nat, y: nat)
    requires b > 0 && x <= y
    ensures Pow(b, x) <= Pow(b, y)
    decreases y
  {
    if x < y {
      PowMonotone(b, x, y - 1);
      PowPositive(b, y - 1);
      MulMonotone(1, b, Pow(b, y - 1));
    }
  }

  lemma MulAssoc(a: int, b: int, c: int)
    ensures (a * b) * c == a * (b * c)
  {}

  lemma MulNonNegative(a: int, b: int)
    requires a >= 0 && b >= 0
    ensures a * b >= 0
  {}

  lemma MulMonotone(a: int, b: int, c: int)
    requires a <= b && c >= 0
    ensures a * c <= b * c
  {
    MulNonNegative(b - a, c);
  }

  lemma MulBound(x: int, y: int, b: int)
    requires 0 <= x < b && 0 <= y < b
    ensures 0 <= x * y <= (b - 1) * (b - 1)
  {
    MulNonNegative(x, y);
    MulMonotone(x, b - 1, y);
    MulMonotone(y, b - 1, b - 1);
  }

  /** Quotient and remainder are the only pair that divide. */
  lemma DivModUnique(x: int, q: int, r: int, n: int)
    requires n > 0 && x == q * n + r && 0 <= r < n
    ensures x / n == q && x % n == r
  {
    var d := q - x / n;
    assert x == n * (x / n) + x % n;
    assert d * n == x % n - r;
    if d >= 1 {
      MulMonotone(1, d, n);
    } else if d <= -1 {
      MulMonotone(d, -1, n);
    }
  }

  lemma ModMultiple(a: int, k: int, n: int)
    requires n > 0
    ensures (a + k * n) % n == a % n
  {
    var q := a / n;
    assert a == q * n + a % n;
    assert a + k * n == (q + k) * n + a % n;
    DivModUnique(a + k * n, q + k, a % n, n);
  }

  lemma DivAddMultiple(a: int, k: int, n: int)
    requires n > 0
    ensures (a + k * n) / n == a / n + k
  {
    var q := a / n;
    assert a == q * n + a % n;
    assert a + k * n == (q + k) * n + a % n;
    DivModUnique(a + k * n, q + k, a % n, n);
  }

  lemma DivDiv(x: int, a: int, b: int)
    requires a > 0 && b > 0
    ensures a * b > 0 && x / (a * b) == (x / a) / b
  {
    MulMonotone(1, a, b);
    var y, q := x / a, (x / a) / b;
    assert x == y * a + x % a;
    assert y == q * b + y % b;
    assert (q * b + y % b) * a == q * (a * b) + (y % b) * a;
    MulMonotone(y % b, b - 1, a);
    MulNonNegative(y % b, a);
    DivModUnique(x, q, (y % b) * a + x % a, a * b);
  }

  lemma ModAdd(a: int, b: int, c: int, n: int)
    requires n > 0 && a % n == b % n
    ensures (a + c) % n == (b + c) % n
  {
    var k := a / n - b / n;
    assert a == n * (a / n) + a % n;
    assert b == n * (b / n) + b % n;
    assert a + c == (b + c) + k * n;
    ModMultiple(b + c, k, n);
  }

  lemma ModMul(a: int, b: int, c: int, n: int)
    requires n > 0 && a % n == b % n
    ensures (a * c) % n == (b * c) % n
    ensures (c * a) % n == (c * b) % n
  {
    var k := a / n - b / n;
    assert a == n * (a / n) + a % n;
    assert b == n * (b / n) + b % n;
    assert a == b + k * n;
    assert a * c == b * c + k * n * c;
    assert k * n * c == (k * c) * n;
    ModMultiple(b * c, k * c, n);
  }

  lemma ModMul2(a: int, b: int, c: int, d: int, n: int)
    requires n > 0 && a % n == b % n && c % n == d % n
    ensures (a * c) % n == (b * d) % n
  {
    ModMul(a, b, c, n);
    ModMul(c, d, b, n);
  }

  lemma ModSelf(a: int, n: int)
    requires n > 0
    ensures (a % n) % n == a % n
    ensures 0 <= a < n ==> a % n == a
  {
    DivModUnique(a % n, 0, a % n, n);
    if 0 <= a < n { DivModUnique(a, 0, a, n); }
  }

  /** Congruent residues of the same modulus are equal. */
  lemma ModResidue(a: int, b: int, n: int)
    requires n > 0 && a % n == b % n && 0 <= a < n
    ensures a == b % n
  {
    ModSelf(a, n);
  }

  lemma {:induction false} ModPow(a: int, b: int, e: nat, n: int)
    requires n > 0 && a % n == b % n
    ensures Pow(a, e) % n == Pow(b, e) % n
  {
    if e > 0 {
      ModPow(a, b, e - 1, n);
      ModMul2(a, b, Pow(a, e - 1), Pow(b, e - 1), n);
    }
  }

  /** A factor with an inverse cancels. */
  lemma ModCancel(x: int, y: int, r: int, inverse: int, n: int)
    requires n > 0 && (x * r) % n == (y * r) % n && (r * inverse) % n == 1 % n
    ensures x % n == y % n
  {
    ModMul(x * r, y * r, inverse, n);
    MulAssoc(x, r, inverse);
    MulAssoc(y, r, inverse);
    ModMul(r * inverse, 1, x, n);
    ModMul(r * inverse, 1, y, n);
  }

  /** Powers of two are invertible modulo an odd number: the half of n + 1 undoes each doubling. */
  lemma {:induction false} PowerOfTwoInvertible(k: nat, n: int)
    requires n > 0 && n % 2 == 1
    ensures (Pow(2, k) * Pow((n + 1) / 2, k)) % n == 1 % n
  {
    if k > 0 {
      var h := (n + 1) / 2;
      PowerOfTwoInvertible(k - 1, n);
      var p, q := Pow(2, k - 1), Pow(h, k - 1);
      assert (2 * p) * (h * q) == (2 * h) * (p * q) by { SwapFactors(2, p, h, q); }
      assert 2 * h == 1 + 1 * n;
      ModMultiple(1, 1, n);
      ModMul2(2 * h, 1, p * q, 1, n);
    }
  }

  lemma SwapFactors(a: int, b: int, c: int, d: int)
    ensures (a * b) * (c * d) == (a * c) * (b * d)
  {
    calc {
      (a * b) * (c * d);
      a * (b * (c * d));
      a * (c * (b * d));
      (a * c) * (b * d);
    }
  }
}

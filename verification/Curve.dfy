/**
 * What a step of X25519's ladder computes, on the curve of section 4.1 of RFC
 * 7748: y^2 = x^3 + 486662 x^2 + x over the integers modulo 2^255 - 19.
 */
module Curve {
  import opened Arith
  import opened X25519

  const A: int := 486662

  function Times(mod: int, k: int): int { k * mod }

  /** The same modulo mod: they differ by a multiple of it. */
  ghost predicate Same(mod: int, a: int, b: int) { exists k :: a == b + Times(mod, k) }

  lemma Differs(mod: int, a: int, b: int, k: int)
    requires a == b + k * mod
    ensures Same(mod, a, b)
  {
    assert a == b + Times(mod, k);
  }

  lemma SameParts(mod: int, a: int, b: int, c: int, d: int)
    requires Same(mod, a, b) && Same(mod, c, d)
    ensures Same(mod, a + c, b + d) && Same(mod, a - c, b - d) && Same(mod, a * c, b * d)
  {
    var k :| a == b + Times(mod, k);
    var l :| c == d + Times(mod, l);
    Differs(mod, a + c, b + d, k + l);
    Differs(mod, a - c, b - d, k - l);
    ProductOf(mod, b, d, k, l);
    Differs(mod, a * c, b * d, b * l + k * d + k * (l * mod));
  }

  lemma ProductOf(mod: int, b: int, d: int, k: int, l: int)
    ensures (b + k * mod) * (d + l * mod) == b * d + (b * l + k * d + k * (l * mod)) * mod
  {
    assert b * (l * mod) == (b * l) * mod;
    assert (k * mod) * d == (k * d) * mod;
    assert (k * mod) * (l * mod) == (k * (l * mod)) * mod;
  }

  /** A residue modulo p is the same as its number. */
  lemma Residue(a: int)
    ensures Same(PRIME, a % PRIME, a)
  {
    assert a == PRIME * (a / PRIME) + a % PRIME;
    Differs(PRIME, a % PRIME, a, -(a / PRIME));
  }

  // ------------------------------------------------------------------
  // Polynomials
  // ------------------------------------------------------------------

  lemma SquareSum(x: int, z: int)
    ensures (x + z) * (x + z) == x * x + 2 * (x * z) + z * z
    ensures (x - z) * (x - z) == x * x - 2 * (x * z) + z * z
    ensures (x + z) * (x - z) == x * x - z * z
  {}

  lemma Exchange(a: int, b: int)
    ensures (a * a) * (b * b) == (a * b) * (a * b)
  {
    calc {
      (a * a) * (b * b);
      a * (a * (b * b));
      { assert a * (b * b) == (a * b) * b; }
      a * ((a * b) * b);
      a * (b * (a * b));
      (a * b) * (a * b);
    }
  }

  lemma CrossSum(x: int, z: int, v: int, w: int)
    ensures (v - w) * (x + z) + (v + w) * (x - z) == 2 * (x * v - z * w)
    ensures (v - w) * (x + z) - (v + w) * (x - z) == 2 * (z * v - x * w)
  {
    assert (v - w) * (x + z) == v * x + v * z - w * x - w * z;
    assert (v + w) * (x - z) == v * x - v * z + w * x - w * z;
  }

  lemma Twice(a: int)
    ensures (2 * a) * (2 * a) == 4 * (a * a)
  {}

  lemma TripleForm(x: int, z: int)
    ensures var e := 4 * (x * z);
      (x + z) * (x + z) - (x - z) * (x - z) == e
      && e * ((x + z) * (x + z) + 121665 * e) == e * (x * x + A * (x * z) + z * z)
  {
    SquareSum(x, z);
  }

  // ------------------------------------------------------------------
  // One step of the ladder
  // ------------------------------------------------------------------

  /** The first pair of r is the double of that of s, as the curve has it. */
  ghost predicate Doubles(mod: int, s: Rungs, r: Rungs) {
    var x, z := s.x2, s.z2;
    && Same(mod, r.x2, (x * x - z * z) * (x * x - z * z))
    && Same(mod, r.z2, 4 * (x * z) * (x * x + A * (x * z) + z * z))
  }

  /** The second pair of r is the differential sum of those of s. */
  ghost predicate Adds(mod: int, s: Rungs, u: int, r: Rungs) {
    var x, z, v, w := s.x2, s.z2, s.x3, s.z3;
    && Same(mod, r.x3, 4 * ((x * v - z * w) * (x * v - z * w)))
    && Same(mod, r.z3, u * (4 * ((z * v - x * w) * (z * v - x * w))))
  }

  /** The step's doubling, as the curve has it. */
  lemma RungDouble(s: Rungs, u: int)
    ensures Doubles(PRIME, s, Rung(s, u))
  {
    hide Same;
    var x, z := s.x2, s.z2;
    var a, b := (x + z) % PRIME, (x - z) % PRIME;
    Residue(x + z);
    Residue(x - z);
    var aa, bb := a * a % PRIME, b * b % PRIME;
    Shown(a * a, (x + z) * (x + z), a, a, x + z, x + z);
    Shown(b * b, (x - z) * (x - z), b, b, x - z, x - z);
    Shown(aa * bb, ((x + z) * (x + z)) * ((x - z) * (x - z)), aa, bb, (x + z) * (x + z), (x - z) * (x - z));
    Exchange(x + z, x - z);
    SquareSum(x, z);
    var e := (aa - bb) % PRIME;
    SameParts(PRIME, aa, (x + z) * (x + z), bb, (x - z) * (x - z));
    Reduced(aa - bb, (x + z) * (x + z) - (x - z) * (x - z));
    TripleForm(x, z);
    var f := 4 * (x * z);
    SameRefl(PRIME, 121665);
    Shown(121665 * e, 121665 * f, 121665, e, 121665, f);
    var g := (aa + 121665 * e % PRIME) % PRIME;
    SameParts(PRIME, aa, (x + z) * (x + z), 121665 * e % PRIME, 121665 * f);
    Reduced(aa + 121665 * e % PRIME, (x + z) * (x + z) + 121665 * f);
    Shown(e * g, f * ((x + z) * (x + z) + 121665 * f), e, g, f, (x + z) * (x + z) + 121665 * f);
  }

  lemma SameRefl(mod: int, a: int)
    ensures Same(mod, a, a)
  {
    Differs(mod, a, a, 0);
  }

  lemma Reduced(a: int, b: int)
    requires Same(PRIME, a, b)
    ensures Same(PRIME, a % PRIME, b)
  {
    hide Same;
    Residue(a);
    Follow(PRIME, a % PRIME, a, b);
  }

  lemma Shown(p: int, q: int, a: int, b: int, c: int, d: int)
    requires p == a * b && q == c * d && Same(PRIME, a, c) && Same(PRIME, b, d)
    ensures Same(PRIME, p % PRIME, q)
  {
    hide Same;
    SameParts(PRIME, a, c, b, d);
    Residue(p);
    Follow(PRIME, p % PRIME, p, q);
  }

  /** The step's differential addition. */
  lemma RungAdd(s: Rungs, u: int)
    ensures Adds(PRIME, s, u, Rung(s, u))
  {
    hide Same;
    var x, z, v, w := s.x2, s.z2, s.x3, s.z3;
    var a, b, c, d := (x + z) % PRIME, (x - z) % PRIME, (v + w) % PRIME, (v - w) % PRIME;
    Residue(x + z);
    Residue(x - z);
    Residue(v + w);
    Residue(v - w);
    var da, cb := d * a % PRIME, c * b % PRIME;
    Shown(d * a, (v - w) * (x + z), d, a, v - w, x + z);
    Shown(c * b, (v + w) * (x - z), c, b, v + w, x - z);
    var sum, diff := (da + cb) % PRIME, (da - cb) % PRIME;
    SameParts(PRIME, da, (v - w) * (x + z), cb, (v + w) * (x - z));
    CrossSum(x, z, v, w);
    Reduced(da + cb, 2 * (x * v - z * w));
    Reduced(da - cb, 2 * (z * v - x * w));
    var f, g := 2 * (x * v - z * w), 2 * (z * v - x * w);
    Shown(sum * sum, f * f, sum, sum, f, f);
    Shown(diff * diff, g * g, diff, diff, g, g);
    Twice(x * v - z * w);
    Twice(z * v - x * w);
    SameRefl(PRIME, u);
    var q := 4 * ((z * v - x * w) * (z * v - x * w));
    Shown(u * (diff * diff % PRIME), u * q, u, diff * diff % PRIME, u, q);
  }

  // ------------------------------------------------------------------
  // The curve's points
  // ------------------------------------------------------------------

  function Rhs(x: int): int { x * (x * x + A * x + 1) }

  ghost predicate OnCurve(mod: int, x: int, y: int) { Same(mod, y * y, Rhs(x)) }

  /** x' is where the tangent at (x, y) meets the curve again: m^2 - A - 2x for its slope m, cleared of 2y. */
  ghost predicate Tangent(mod: int, x: int, y: int, x': int) {
    var m := 3 * (x * x) + 2 * (A * x) + 1;
    Same(mod, x' * (4 * (y * y)), m * m - (A + 2 * x) * (4 * (y * y)))
  }

  /** x' is where the line through both points meets the curve again: m^2 - A - x - v for its slope m, cleared of v - x. */
  ghost predicate Chord(mod: int, x: int, y: int, v: int, w: int, x': int) {
    var d := (v - x) * (v - x);
    Same(mod, x' * d, (w - y) * (w - y) - (A + x + v) * d)
  }

  lemma TangentPolynomial(x: int)
    ensures var m := 3 * (x * x) + 2 * (A * x) + 1; m * m - (A + 2 * x) * (4 * Rhs(x)) == (x * x - 1) * (x * x - 1)
  {
    var q := x * x;
    var r := x * q;
    assert Rhs(x) == r + A * q + x by { assert x * (q + A * x + 1) == x * q + A * (x * x) + x; }
    assert (A + 2 * x) * (4 * Rhs(x)) == 4 * A * r + 4 * A * A * q + 4 * A * x + 8 * (x * r) + 8 * A * (x * q) + 8 * q;
    assert x * r == q * q;
    var m := 3 * q + 2 * (A * x) + 1;
    assert m * m == 9 * (q * q) + 12 * A * (q * x) + 4 * A * A * q + 6 * q + 4 * A * x + 1;
  }

  lemma TangentLaw(mod: int, x: int, y: int, x': int)
    requires OnCurve(mod, x, y) && Tangent(mod, x, y, x')
    ensures Same(mod, x' * (4 * Rhs(x)), (x * x - 1) * (x * x - 1))
  {
    hide Same, Rhs;
    var m, f, g := 3 * (x * x) + 2 * (A * x) + 1, 4 * (y * y), 4 * Rhs(x);
    SameRefl(mod, 4);
    SameParts(mod, 4, 4, y * y, Rhs(x));
    SameRefl(mod, x');
    SameParts(mod, x', x', f, g);
    SameRefl(mod, A + 2 * x);
    SameParts(mod, A + 2 * x, A + 2 * x, f, g);
    SameRefl(mod, m * m);
    SameParts(mod, m * m, m * m, (A + 2 * x) * f, (A + 2 * x) * g);
    TangentPolynomial(x);
    SameTrans(mod, x' * g, x' * f, m * m - (A + 2 * x) * f, m * m - (A + 2 * x) * g);
  }

  lemma SameTrans(mod: int, a: int, b: int, c: int, d: int)
    requires Same(mod, b, a) && Same(mod, b, c) && Same(mod, c, d)
    ensures Same(mod, a, d)
  {
    hide Same;
    Turnabout(mod, b, a);
    Follow(mod, a, b, c);
    Follow(mod, a, c, d);
  }

  /** x : z stands for the affine coordinate c. */
  ghost predicate Stands(mod: int, x: int, z: int, c: int) { Same(mod, x, c * z) }

  lemma ProjectivePolynomial(c: int, z: int)
    ensures var x, n := c * z, z * z;
      && (x * x - z * z) * (x * x - z * z) == (n * n) * ((c * c - 1) * (c * c - 1))
      && 4 * (x * z) * (x * x + A * (x * z) + z * z) == (n * n) * (4 * Rhs(c))
  {
    var x, n, q := c * z, z * z, c * c;
    assert x * x == q * n by { Exchange(c, z); }
    assert x * z == c * n;
    assert x * x - z * z == n * (q - 1) by { assert q * n - n == n * (q - 1); }
    Exchange(n, q - 1);
    var k := q + A * c + 1;
    assert x * x + A * (x * z) + z * z == n * k by { assert q * n + A * (c * n) + n == n * k; }
    Regroup(c, n, k);
  }

  lemma Regroup(c: int, n: int, k: int)
    ensures 4 * (c * n) * (n * k) == (n * n) * (4 * (c * k))
  {
    assert (c * n) * (n * k) == (n * n) * (c * k) by {
      assert (c * n) * (n * k) == c * (n * (n * k));
      assert n * (n * k) == (n * n) * k;
      assert c * ((n * n) * k) == (n * n) * (c * k);
    }
    assert 4 * (c * n) * (n * k) == 4 * ((c * n) * (n * k));
  }

  /** The same polynomials in x and z, for any x that stands for c. */
  lemma ProjectiveSame(mod: int, x: int, z: int, c: int)
    requires Stands(mod, x, z, c)
    ensures var n := z * z;
      && Same(mod, (x * x - z * z) * (x * x - z * z), (n * n) * ((c * c - 1) * (c * c - 1)))
      && Same(mod, 4 * (x * z) * (x * x + A * (x * z) + z * z), (n * n) * (4 * Rhs(c)))
  {
    hide Same, Rhs;
    var v := c * z;
    SameParts(mod, x, v, x, v);
    SameRefl(mod, z * z);
    SameParts(mod, x * x, v * v, z * z, z * z);
    SameParts(mod, x * x - z * z, v * v - z * z, x * x - z * z, v * v - z * z);
    SameRefl(mod, z);
    SameParts(mod, x, v, z, z);
    SameRefl(mod, A);
    SameParts(mod, A, A, x * z, v * z);
    SameParts(mod, x * x, v * v, A * (x * z), A * (v * z));
    SameParts(mod, x * x + A * (x * z), v * v + A * (v * z), z * z, z * z);
    SameRefl(mod, 4);
    SameParts(mod, 4, 4, x * z, v * z);
    SameParts(mod, 4 * (x * z), 4 * (v * z), x * x + A * (x * z) + z * z, v * v + A * (v * z) + z * z);
    ProjectivePolynomial(c, z);
  }

  /** A step doubles: for a point of the curve, the first pair stands for the tangent's other point. */
  lemma RungIsDouble(mod: int, s: Rungs, r: Rungs, x: int, y: int, x': int)
    requires Doubles(mod, s, r) && Stands(mod, s.x2, s.z2, x) && OnCurve(mod, x, y) && Tangent(mod, x, y, x')
    ensures Stands(mod, r.x2, r.z2, x')
  {
    hide Same, Rhs, Tangent, OnCurve;
    ProjectiveSame(mod, s.x2, s.z2, x);
    TangentLaw(mod, x, y, x');
    var n := s.z2 * s.z2;
    var k, f, g := n * n, (x * x - 1) * (x * x - 1), 4 * Rhs(x);
    Proportional(mod, r.x2, r.z2, k, f, g, x',
      (s.x2 * s.x2 - s.z2 * s.z2) * (s.x2 * s.x2 - s.z2 * s.z2),
      4 * (s.x2 * s.z2) * (s.x2 * s.x2 + A * (s.x2 * s.z2) + s.z2 * s.z2));
  }

  lemma Proportional(mod: int, p: int, q: int, k: int, f: int, g: int, r: int, p': int, q': int)
    requires Same(mod, p, p') && Same(mod, p', k * f) && Same(mod, q, q') && Same(mod, q', k * g) && Same(mod, r * g, f)
    ensures Same(mod, p, r * q)
  {
    hide Same;
    Follow(mod, q, q', k * g);
    Follow(mod, p, p', k * f);
    SameRefl(mod, k);
    SameRefl(mod, r);
    SameParts(mod, k, k, r * g, f);
    SameParts(mod, r, r, q, k * g);
    Turned(r, k, g);
    Follow(mod, r * q, k * (r * g), k * f);
    Meet(mod, p, r * q, k * f);
  }

  lemma Turned(r: int, k: int, g: int)
    ensures r * (k * g) == k * (r * g)
  {}

  lemma Turnabout(mod: int, a: int, b: int)
    requires Same(mod, a, b)
    ensures Same(mod, b, a)
  {
    var k :| a == b + Times(mod, k);
    Differs(mod, b, a, -k);
  }

  lemma Follow(mod: int, a: int, b: int, c: int)
    requires Same(mod, a, b) && Same(mod, b, c)
    ensures Same(mod, a, c)
  {
    var k :| a == b + Times(mod, k);
    var l :| b == c + Times(mod, l);
    Differs(mod, a, c, k + l);
  }

  lemma Meet(mod: int, a: int, b: int, c: int)
    requires Same(mod, a, c) && Same(mod, b, c)
    ensures Same(mod, a, b)
  {
    var k :| a == c + Times(mod, k);
    var l :| b == c + Times(mod, l);
    Differs(mod, a, b, k - l);
  }

  // Two points, and their difference.

  /** The two chords through (x, y) and (v, +-w), multiplied. */
  lemma ChordPolynomial(x: int, v: int)
    ensures var d, f, g := (v - x) * (v - x), Rhs(x), Rhs(v);
      var h := f + g - (A + x + v) * d;
      h * h - 4 * (f * g) == ((x * v - 1) * (x * v - 1)) * d
  {
    var s, p := x + v, x * v;
    ChordSum(x, v);
    ChordProduct(x, v);
    ChordFinal(s, p);
    assert (v - x) * (v - x) == s * s - 4 * p by { SquareSum(v, x); }
  }

  lemma RhsParts(x: int)
    ensures Rhs(x) == x * (x * x) + A * (x * x) + x
  {
    Spread(x, x * x, A * x, 1);
    Turned(x, A, x);
  }

  lemma Spread(k: int, a: int, b: int, c: int)
    ensures k * (a + b + c) == k * a + k * b + k * c
  {}

  lemma TimesSquare(x: int, v: int)
    ensures x * ((v - x) * (v - x)) == x * (x * x) - 2 * (x * (x * v)) + v * (x * v)
    ensures v * ((v - x) * (v - x)) == v * (v * v) - 2 * (v * (x * v)) + x * (x * v)
  {
    SquareSum(v, x);
    Spread(x, v * v, -2 * (v * x), x * x);
    Spread(v, v * v, -2 * (v * x), x * x);
    assert x * (v * v) == v * (x * v);
    assert v * (x * x) == x * (x * v);
    assert x * (-2 * (v * x)) == -2 * (x * (x * v));
    assert v * (-2 * (v * x)) == -2 * (v * (x * v));
  }

  /** f + g - (A + x + v)(v - x)^2 in the sum s and product p of the coordinates. */
  lemma ChordSum(x: int, v: int)
    ensures var s, p := x + v, x * v; Rhs(x) + Rhs(v) - (A + x + v) * ((v - x) * (v - x)) == 2 * (A * p) + s * (1 + p)
  {
    hide Rhs;
    var d, p := (v - x) * (v - x), x * v;
    RhsParts(x);
    RhsParts(v);
    TimesSquare(x, v);
    Spread(d, A, x, v);
    SquareSum(v, x);
    SumTimes(x, v, p);
  }

  lemma SumTimes(x: int, v: int, p: int)
    ensures (x + v) * (1 + p) == x + v + x * p + v * p
  {}

  lemma ChordProduct(x: int, v: int)
    ensures var s, p := x + v, x * v; Rhs(x) * Rhs(v) == p * ((p - 1) * (p - 1) + s * s + A * (s * (p + 1)) + A * A * p)
  {
    var s, p, a, b := x + v, x * v, x * x + A * x + 1, v * v + A * v + 1;
    FourFactors(x, a, v, b);
    FactorsProduct(x, v);
  }

  lemma FactorsProduct(x: int, v: int)
    ensures var s, p := x + v, x * v;
      (x * x + A * x + 1) * (v * v + A * v + 1) == (p - 1) * (p - 1) + s * s + A * (s * (p + 1)) + A * A * p
  {
    var p, q, r := x * v, x * x, v * v;
    Spread(v * v + A * v + 1, x * x, A * x, 1);
    RowOne(q, v);
    RowTwo(x, v);
    Exchange(x, v);
    SquareSum(x, v);
    SquareSum(p, 1);
    SumTimes(x, v, p);
    Turned(v, x, x);
  }

  lemma RowOne(q: int, v: int)
    ensures (v * v + A * v + 1) * q == q * (v * v) + A * (v * q) + q
  {
    Spread(q, v * v, A * v, 1);
    Turned(q, A, v);
  }

  lemma RowTwo(x: int, v: int)
    ensures (v * v + A * v + 1) * (A * x) == A * (v * (x * v)) + A * A * (x * v) + A * x
  {
    Spread(A * x, v * v, A * v, 1);
    assert (A * x) * (v * v) == A * (v * (x * v)) by { assert x * (v * v) == v * (x * v); }
    assert (A * x) * (A * v) == A * A * (x * v);
  }

  lemma FourFactors(x: int, a: int, v: int, b: int)
    ensures (x * a) * (v * b) == (x * v) * (a * b)
  {
    assert (x * a) * (v * b) == x * (a * (v * b));
    assert a * (v * b) == v * (a * b);
    assert x * (v * (a * b)) == (x * v) * (a * b);
  }

  lemma ChordFinal(s: int, p: int)
    ensures var h := 2 * (A * p) + s * (1 + p);
      h * h - 4 * (p * ((p - 1) * (p - 1) + s * s + A * (s * (p + 1)) + A * A * p)) == ((p - 1) * (p - 1)) * (s * s - 4 * p)
  {
    var m, t, r := (p - 1) * (p - 1), s * s, s * (1 + p);
    SquareSum(2 * (A * p), r);
    Twice(A * p);
    Exchange(A, p);
    Exchange(s, 1 + p);
    Four(p, m, t, A * r, A * A * p);
    Turned(p, A, r);
    Turned(p, A * A, p);
    SquareSum(p, 1);
    assert (2 * (A * p)) * r == 2 * (A * (p * r));
    Last(m, t, p);
  }

  lemma Four(p: int, a: int, b: int, c: int, d: int)
    ensures p * (a + b + c + d) == p * a + p * b + p * c + p * d
  {}

  /** (1 + p)^2 is (p - 1)^2 + 4p. */
  lemma Last(m: int, t: int, p: int)
    requires m == p * p - 2 * p + 1
    ensures t * ((1 + p) * (1 + p)) - 4 * (p * m) - 4 * (p * t) == m * (t - 4 * p)
  {
    assert (1 + p) * (1 + p) == m + 4 * p;
    assert t * (m + 4 * p) == t * m + 4 * (t * p);
    assert m * (t - 4 * p) == m * t - 4 * (m * p);
  }

  lemma TwoChords(y: int, w: int, k: int)
    ensures ((w - y) * (w - y) - k) * ((-w - y) * (-w - y) - k) == (y * y + w * w - k) * (y * y + w * w - k) - 4 * ((y * y) * (w * w))
  {
    SquareSum(w, y);
    SquareSum(-w, y);
    assert -w * -w == w * w && -w * y == -(w * y);
    var h, c := y * y + w * w - k, 2 * (w * y);
    SquareSum(h, c);
    Twice(w * y);
    Exchange(w, y);
  }

  /** The sum's coordinate times the difference's: what x-only addition rests on. */
  lemma ChordLaw(mod: int, x: int, y: int, v: int, w: int, x': int, u: int, i: int)
    requires OnCurve(mod, x, y) && OnCurve(mod, v, w) && Chord(mod, x, y, v, w, x') && Chord(mod, x, y, v, -w, u)
    requires Same(mod, i * ((v - x) * (v - x)), 1)
    ensures Same(mod, x' * (u * ((v - x) * (v - x))), (x * v - 1) * (x * v - 1))
  {
    hide Same, Rhs;
    var d, q := (v - x) * (v - x), (x * v - 1) * (x * v - 1);
    var k := (A + x + v) * d;
    var a, b := (w - y) * (w - y) - k, (-w - y) * (-w - y) - k;
    SameParts(mod, x' * d, a, u * d, b);
    TwoChords(y, w, k);
    var h, j := y * y + w * w - k, Rhs(x) + Rhs(v) - k;
    SameParts(mod, y * y, Rhs(x), w * w, Rhs(v));
    SameRefl(mod, k);
    SameParts(mod, y * y + w * w, Rhs(x) + Rhs(v), k, k);
    SameParts(mod, h, j, h, j);
    SameRefl(mod, 4);
    SameParts(mod, 4, 4, (y * y) * (w * w), Rhs(x) * Rhs(v));
    SameParts(mod, h * h, j * j, 4 * ((y * y) * (w * w)), 4 * (Rhs(x) * Rhs(v)));
    ChordPolynomial(x, v);
    Follow(mod, (x' * d) * (u * d), a * b, q * d);
    Divided(mod, x', u, d, q, i);
  }

  lemma Divided(mod: int, x': int, u: int, d: int, q: int, i: int)
    requires Same(mod, (x' * d) * (u * d), q * d) && Same(mod, i * d, 1)
    ensures Same(mod, x' * (u * d), q)
  {
    hide Same;
    SameRefl(mod, i);
    SameParts(mod, i, i, (x' * d) * (u * d), q * d);
    var r := x' * (u * d);
    assert (x' * d) * (u * d) == r * d by { Regrouped(x', d, u * d); }
    Turned(i, r, d);
    Turned(i, q, d);
    SameRefl(mod, r);
    SameRefl(mod, q);
    SameParts(mod, r, r, i * d, 1);
    SameParts(mod, q, q, i * d, 1);
    Cancel(mod, r * (i * d), q * (i * d), r, q);
  }

  lemma Regrouped(a: int, d: int, e: int)
    ensures (a * d) * e == (a * e) * d
  {}

  lemma Cancel(mod: int, a: int, b: int, r: int, q: int)
    requires Same(mod, a, b) && Same(mod, a, r * 1) && Same(mod, b, q * 1)
    ensures Same(mod, r, q)
  {
    hide Same;
    Turnabout(mod, a, r);
    Follow(mod, r, a, b);
    Follow(mod, r, b, q);
  }

  lemma PairPolynomial(c: int, z: int, e: int, t: int)
    ensures var n := z * t;
      && (c * z) * (e * t) - z * t == n * (c * e - 1)
      && z * (e * t) - (c * z) * t == n * (e - c)
  {
    var n := z * t;
    FourFactors(c, z, e, t);
    assert (c * e) * n - n == n * (c * e - 1);
    Turned(z, e, t);
    assert (c * z) * t == c * n && e * n - c * n == n * (e - c);
  }

  lemma PairSame(mod: int, x: int, z: int, v: int, t: int, c: int, e: int, u: int)
    requires Stands(mod, x, z, c) && Stands(mod, v, t, e)
    ensures var k := 4 * ((z * t) * (z * t));
      && Same(mod, 4 * ((x * v - z * t) * (x * v - z * t)), k * ((c * e - 1) * (c * e - 1)))
      && Same(mod, u * (4 * ((z * v - x * t) * (z * v - x * t))), k * (u * ((e - c) * (e - c))))
  {
    hide Same;
    var a, b, n := c * z, e * t, z * t;
    SameParts(mod, x, a, v, b);
    SameRefl(mod, n);
    SameParts(mod, x * v, a * b, n, n);
    SameRefl(mod, z);
    SameRefl(mod, t);
    SameParts(mod, z, z, v, b);
    SameParts(mod, x, a, t, t);
    SameParts(mod, z * v, z * b, x * t, a * t);
    PairPolynomial(c, z, e, t);
    Fourfold(mod, x * v - n, n, c * e - 1);
    Fourfold(mod, z * v - x * t, n, e - c);
    SameRefl(mod, u);
    SameParts(mod, u, u, 4 * ((z * v - x * t) * (z * v - x * t)), (4 * (n * n)) * ((e - c) * (e - c)));
    Turned(u, 4 * (n * n), (e - c) * (e - c));
  }

  lemma Fourfold(mod: int, a: int, n: int, b: int)
    requires Same(mod, a, n * b)
    ensures Same(mod, 4 * (a * a), (4 * (n * n)) * (b * b))
  {
    hide Same;
    SameParts(mod, a, n * b, a, n * b);
    SameRefl(mod, 4);
    SameParts(mod, 4, 4, a * a, (n * b) * (n * b));
    Exchange(n, b);
    assert 4 * ((n * n) * (b * b)) == (4 * (n * n)) * (b * b);
  }

  /** A step adds: for two points whose difference has coordinate u, the second pair stands for their sum. */
  lemma RungIsSum(mod: int, s: Rungs, u: int, r: Rungs, x: int, y: int, v: int, w: int, x': int, i: int)
    requires Adds(mod, s, u, r) && Stands(mod, s.x2, s.z2, x) && Stands(mod, s.x3, s.z3, v) && OnCurve(mod, x, y) && OnCurve(mod, v, w)
    requires Chord(mod, x, y, v, w, x') && Chord(mod, x, y, v, -w, u) && Same(mod, i * ((v - x) * (v - x)), 1)
    ensures Stands(mod, r.x3, r.z3, x')
  {
    hide Same, Rhs, Chord, OnCurve;
    PairSame(mod, s.x2, s.z2, s.x3, s.z3, x, v, u);
    ChordLaw(mod, x, y, v, w, x', u, i);
    var n := s.z2 * s.z3;
    Proportional(mod, r.x3, r.z3, 4 * (n * n), (x * v - 1) * (x * v - 1), u * ((v - x) * (v - x)), x',
      4 * ((s.x2 * s.x3 - n) * (s.x2 * s.x3 - n)),
      u * (4 * ((s.z2 * s.x3 - s.x2 * s.z3) * (s.z2 * s.x3 - s.x2 * s.z3))));
  }

  // ------------------------------------------------------------------
  // The ladder
  // ------------------------------------------------------------------

  /** Coordinates of the multiples of a point, and inverses of (x(m + 1) - x(m))^2. */
  datatype Multiples = Multiples(x: nat -> int, y: nat -> int, inverse: nat -> int)

  /** m + (m + 1), whose difference is the point itself. */
  ghost predicate SumAt(mod: int, p: Multiples, u: int, m: nat) {
    var d := (p.x(m + 1) - p.x(m)) * (p.x(m + 1) - p.x(m));
    && Chord(mod, p.x(m), p.y(m), p.x(m + 1), p.y(m + 1), p.x(2 * m + 1))
    && Chord(mod, p.x(m), p.y(m), p.x(m + 1), -p.y(m + 1), u) && Same(mod, p.inverse(m) * d, 1)
  }

  /** The multiples 1 to n of a point with coordinate u, by the curve's tangents and chords, none exceptional. */
  ghost predicate MultiplesOf(mod: int, p: Multiples, u: int, n: nat) {
    && p.x(1) == u
    && (forall m | 1 <= m <= n :: OnCurve(mod, p.x(m), p.y(m)))
    && (forall m | 1 <= m && 2 * m <= n :: Tangent(mod, p.x(m), p.y(m), p.x(2 * m)))
    && (forall m | 1 <= m && 2 * m + 1 <= n :: SumAt(mod, p, u, m))
  }

  /** The pairs stand for the m-th multiple and the next; the zeroth is at infinity. */
  ghost predicate At(mod: int, p: Multiples, u: int, s: Rungs, m: nat) {
    && (if m == 0 then Same(mod, s.z2, 0) else Stands(mod, s.x2, s.z2, p.x(m)))
    && Stands(mod, s.x3, s.z3, p.x(m + 1))
  }

  lemma ChordTurned(mod: int, x: int, y: int, v: int, w: int, x': int)
    ensures Chord(mod, x, y, v, w, x') <==> Chord(mod, v, w, x, y, x')
    ensures Chord(mod, x, y, v, -w, x') <==> Chord(mod, v, w, x, -y, x')
  {
    assert (v - x) * (v - x) == (x - v) * (x - v);
    assert (w - y) * (w - y) == (y - w) * (y - w);
    assert -w - y == -y - w;
  }

  /** Adding the point at infinity to a point of coordinate u, at difference u. */
  lemma SumWithInfinity(mod: int, x: int, z: int, v: int, t: int, u: int)
    requires Stands(mod, x, z, u) && Same(mod, t, 0)
    ensures var n := z * v; var k := 4 * (n * n);
      && Same(mod, 4 * ((x * v - z * t) * (x * v - z * t)), k * (u * u)) && Same(mod, u * (4 * ((z * v - x * t) * (z * v - x * t))), k * u)
  {
    hide Same;
    var n := z * v;
    SameRefl(mod, v);
    SameParts(mod, x, u * z, v, v);
    SameRefl(mod, z);
    SameParts(mod, z, z, t, 0);
    SameParts(mod, x * v, (u * z) * v, z * t, 0);
    assert (u * z) * v - z * 0 == n * u;
    Fourfold(mod, x * v - z * t, n, u);
    SameRefl(mod, x);
    SameParts(mod, x, x, t, 0);
    SameRefl(mod, n);
    SameParts(mod, n, n, x * t, 0);
    assert n - x * 0 == n * 1;
    Fourfold(mod, n - x * t, n, 1);
    SameRefl(mod, u);
    SameParts(mod, u, u, 4 * ((n - x * t) * (n - x * t)), (4 * (n * n)) * (1 * 1));
    Turned(u, 4 * (n * n), 1 * 1);
    assert u * ((4 * (n * n)) * (1 * 1)) == (4 * (n * n)) * u;
  }

  lemma InfinityPair(mod: int, s: Rungs, u: int, r: Rungs)
    requires Adds(mod, s, u, r) && Stands(mod, s.x2, s.z2, u) && Same(mod, s.z3, 0)
    ensures Stands(mod, r.x3, r.z3, u)
  {
    hide Same;
    SumWithInfinity(mod, s.x2, s.z2, s.x3, s.z3, u);
    var n := s.z2 * s.x3;
    SameRefl(mod, u * u);
    Proportional(mod, r.x3, r.z3, 4 * (n * n), u * u, u, u,
      4 * ((s.x2 * s.x3 - s.z2 * s.z3) * (s.x2 * s.x3 - s.z2 * s.z3)),
      u * (4 * ((s.z2 * s.x3 - s.x2 * s.z3) * (s.z2 * s.x3 - s.x2 * s.z3))));
  }

  /** Twice the point at infinity. */
  lemma InfinityDoubled(mod: int, s: Rungs, r: Rungs)
    requires Doubles(mod, s, r) && Same(mod, s.z2, 0)
    ensures Same(mod, r.z2, 0)
  {
    hide Same;
    var x, z := s.x2, s.z2;
    SameRefl(mod, x);
    SameParts(mod, x, x, z, 0);
    SameRefl(mod, 4);
    SameParts(mod, 4, 4, x * z, x * 0);
    var k := x * x + A * (x * z) + z * z;
    SameRefl(mod, k);
    SameParts(mod, 4 * (x * z), 4 * (x * 0), k, k);
    assert 4 * (x * 0) * k == 0;
    Follow(mod, r.z2, 4 * (x * z) * k, 0);
  }

  lemma StepZero(mod: int, p: Multiples, u: int, s: Rungs, r: Rungs, m: nat, n: nat)
    requires Doubles(mod, s, r) && Adds(mod, s, u, r) && MultiplesOf(mod, p, u, n) && At(mod, p, u, s, m) && 2 * m + 1 <= n
    ensures At(mod, p, u, r, 2 * m)
  {
    hide Same, Doubles, Adds, Tangent, Chord, OnCurve, Stands;
    if m == 0 {
      InfinityDoubled(mod, s, r);
      InfinityTurned(mod, s, u, r);
    } else {
      assert SumAt(mod, p, u, m) && OnCurve(mod, p.x(m), p.y(m)) && OnCurve(mod, p.x(m + 1), p.y(m + 1));
      assert Tangent(mod, p.x(m), p.y(m), p.x(2 * m));
      RungIsDouble(mod, s, r, p.x(m), p.y(m), p.x(2 * m));
      RungIsSum(mod, s, u, r, p.x(m), p.y(m), p.x(m + 1), p.y(m + 1), p.x(2 * m + 1), p.inverse(m));
    }
  }

  /** The sum is the same whichever pair comes first. */
  lemma InfinityTurned(mod: int, s: Rungs, u: int, r: Rungs)
    requires Adds(mod, s, u, r) && Stands(mod, s.x3, s.z3, u) && Same(mod, s.z2, 0)
    ensures Stands(mod, r.x3, r.z3, u)
  {
    hide Same;
    SumWithInfinity(mod, s.x3, s.z3, s.x2, s.z2, u);
    var x, z, v, w := s.x2, s.z2, s.x3, s.z3;
    assert v * x - w * z == x * v - z * w;
    var e := w * x - v * z;
    assert z * v - x * w == -e;
    assert -e * -e == e * e;
    var n := w * x;
    SameRefl(mod, u * u);
    Proportional(mod, r.x3, r.z3, 4 * (n * n), u * u, u, u, 4 * ((x * v - z * w) * (x * v - z * w)), u * (4 * (e * e)));
  }

  lemma StepOne(mod: int, p: Multiples, u: int, s: Rungs, r: Rungs, m: nat, n: nat)
    requires Doubles(mod, s.Swapped(), r) && Adds(mod, s.Swapped(), u, r) && MultiplesOf(mod, p, u, n) && At(mod, p, u, s, m) && 2 * m + 2 <= n
    ensures At(mod, p, u, r.Swapped(), 2 * m + 1)
  {
    hide Same, Doubles, Adds, Tangent, Chord, OnCurve, Stands;
    var o := s.Swapped();
    assert OnCurve(mod, p.x(m + 1), p.y(m + 1));
    assert Tangent(mod, p.x(m + 1), p.y(m + 1), p.x(2 * (m + 1)));
    RungIsDouble(mod, o, r, p.x(m + 1), p.y(m + 1), p.x(2 * m + 2));
    if m == 0 {
      InfinityPair(mod, o, u, r);
    } else {
      assert SumAt(mod, p, u, m) && OnCurve(mod, p.x(m), p.y(m));
      var x, y, v, w := p.x(m), p.y(m), p.x(m + 1), p.y(m + 1);
      ChordTurned(mod, x, y, v, w, p.x(2 * m + 1));
      ChordTurned(mod, x, y, v, w, u);
      assert (v - x) * (v - x) == (x - v) * (x - v);
      RungIsSum(mod, o, u, r, v, w, x, y, p.x(2 * m + 1), p.inverse(m));
    }
  }

  /** The bits of k from t on, and one more. */
  function Prefix(k: nat, t: nat): (m: nat)
    ensures m <= k
  {
    PowPositive(2, t);
    DivSmaller(k, Pow(2, t));
    k / Pow(2, t)
  }

  lemma DivSmaller(k: nat, d: int)
    requires d >= 1
    ensures 0 <= k / d <= k
  {
    assert k == d * (k / d) + k % d;
    if k / d > k {
      MulMonotone(1, d, k / d);
    }
  }

  lemma PrefixStep(k: nat, t: nat)
    ensures Prefix(k, t) == 2 * Prefix(k, t + 1) + Bit(k, t)
  {
    PowPositive(2, t);
    PowStep(2, t);
    DivDiv(k, Pow(2, t), 2);
    assert Pow(2, t) * 2 == Pow(2, t + 1);
  }

  lemma {:induction false} LadderAt(p: Multiples, u: int, k: nat, t: nat)
    requires MultiplesOf(PRIME, p, u, k + 1) && t <= 255 && k < Pow(2, 255)
    ensures At(PRIME, p, u, Ladder(k, u, t), Prefix(k, t))
    decreases 255 - t
  {
    hide MultiplesOf, Rung, Pow, Doubles, Adds;
    if t == 255 {
      LadderStart(p, u, k);
    } else {
      LadderAt(p, u, k, t + 1);
      PrefixStep(k, t);
      var m, s := Prefix(k, t + 1), Ladder(k, u, t + 1);
      if Bit(k, t) == 1 {
        RungDouble(s.Swapped(), u);
        RungAdd(s.Swapped(), u);
        StepOne(PRIME, p, u, s, Rung(s.Swapped(), u), m, k + 1);
      } else {
        RungDouble(s, u);
        RungAdd(s, u);
        StepZero(PRIME, p, u, s, Rung(s, u), m, k + 1);
      }
    }
  }

  lemma LadderStart(p: Multiples, u: int, k: nat)
    requires MultiplesOf(PRIME, p, u, k + 1) && k < Pow(2, 255)
    ensures At(PRIME, p, u, Ladder(k, u, 255), Prefix(k, 255))
  {
    hide Pow, Same, OnCurve, Tangent, SumAt;
    PowPositive(2, 255);
    DivModUnique(k, 0, k, Pow(2, 255));
    SameRefl(PRIME, 0);
    SameRefl(PRIME, u);
  }

  /**
   * Section 5 of RFC 7748: for a point of the curve with coordinate u, none of
   * whose multiples up to k + 1 is exceptional, the ladder ends with a pair that
   * stands for the coordinate of its k-th multiple.
   */
  lemma LadderIsMultiple(p: Multiples, u: int, k: nat)
    requires MultiplesOf(PRIME, p, u, k + 1) && 0 < k < Pow(2, 255)
    ensures Stands(PRIME, Ladder(k, u, 0).x2, Ladder(k, u, 0).z2, p.x(k))
  {
    hide MultiplesOf, Ladder;
    LadderAt(p, u, k, 0);
    assert Pow(2, 0) == 1;
  }

  /** What Shared puts out: that coordinate, times z^(p - 1), which is one wherever z has an inverse. */
  lemma SharedIsMultiple(p: Multiples, u: int, k: nat)
    requires MultiplesOf(PRIME, p, u, k + 1) && 0 < k < Pow(2, 255)
    ensures var s := Ladder(k, u, 0);
      Same(PRIME, s.x2 * (Pow(s.z2, PRIME - 2) % PRIME), p.x(k) * Pow(s.z2, PRIME - 1))
  {
    hide MultiplesOf, Ladder, Same, Pow;
    LadderIsMultiple(p, u, k);
    var s := Ladder(k, u, 0);
    var e := Pow(s.z2, PRIME - 2);
    Residue(e);
    SameParts(PRIME, s.x2, p.x(k) * s.z2, e % PRIME, e);
    PowStep(s.z2, PRIME - 2);
    assert (p.x(k) * s.z2) * e == p.x(k) * (s.z2 * e);
  }
}

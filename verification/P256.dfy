/** net/p256.rs: four-limb Montgomery arithmetic for the field and the scalars, and windowed multiplication. */
module P256 {
  import opened Arith
  import opened Bits
  import opened Limbs
  import Rsa

  /** The modulus, −m⁻¹ mod 2⁶⁴, and R² mod m for R = 2²⁵⁶. */
  datatype Modulus = Modulus(m: seq<Word>, inv: Word, r2: seq<Word>) {
    ghost predicate Valid() {
      && |m| == |r2| == 4
      && (m[0] * inv + 1) % BASE == 0
      && Value(m) % 2 == 1 && Value(m) > 2
      && Value(r2) == Pow(BASE, 4) * Pow(BASE, 4) % Value(m)
    }

    /** Reduced, as every Montgomery operand must be. */
    ghost predicate Holds(a: seq<Word>) {
      |a| == |m| && Value(a) < Value(m)
    }
  }

  const P: Modulus := Modulus(
    [0xffffffffffffffff, 0x00000000ffffffff, 0x0000000000000000, 0xffffffff00000001],
    1,
    [0x0000000000000003, 0xfffffffbffffffff, 0xfffffffffffffffe, 0x00000004fffffffd])

  const N: Modulus := Modulus(
    [0xf3b9cac2fc632551, 0xbce6faada7179e84, 0xffffffffffffffff, 0xffffffff00000000],
    0xccd1c8aaee00bc4f,
    [0x83244c95be79eea2, 0x4699799c49bd6fa6, 0x2845b2392b6bec59, 0x66e12d94f3d95620])

  lemma FourLimbs(s: seq<Word>)
    requires |s| == 4
    ensures Value(s) == s[0] as int + (s[1] as int) * 0x1_0000_0000_0000_0000
                      + (s[2] as int) * 0x1_0000_0000_0000_0000_0000_0000_0000_0000
                      + (s[3] as int) * 0x1_0000_0000_0000_0000_0000_0000_0000_0000_0000_0000_0000_0000
  {
    assert s[..4] == s && s[..0] == [];
    ValueSnoc(s, 0);
    ValueSnoc(s, 1);
    ValueSnoc(s, 2);
    ValueSnoc(s, 3);
    assert Pow(BASE, 1) == BASE;
    assert Pow(BASE, 2) == BASE * BASE;
    assert Pow(BASE, 3) == BASE * Pow(BASE, 2);
  }

  /** The written constants are what they are said to be: −p⁻¹, −n⁻¹ and R² for both moduli. */
  lemma ModuliValid()
    ensures P.Valid() && N.Valid()
  {
    FourLimbs(P.m);
    FourLimbs(P.r2);
    FourLimbs(N.m);
    FourLimbs(N.r2);
    assert Pow(BASE, 2) == BASE * BASE;
    PowAdd(BASE, 2, 2);
  }

  function Adc(a: Word, b: Word, carry: Word): (r: (Word, Word))
    ensures r.0 + r.1 * BASE == a + b + carry
    ensures carry <= 1 ==> r.1 <= 1
  {
    var t: Wide := a + b + carry;
    (t % BASE, t / BASE)
  }

  function Sbb(a: Word, b: Word, borrow: Word): (r: (Word, Word))
    requires borrow <= 1
    ensures r.1 <= 1 && r.0 - r.1 * BASE == a - b - borrow
  {
    var t := (a - (b + borrow)) % 0x1_0000_0000_0000_0000_0000_0000_0000_0000;
    (t % BASE, t / 0x8000_0000_0000_0000_0000_0000_0000_0000)
  }

  /** `sub_raw`: a − b and the final borrow. */
  method SubRaw(a: seq<Word>, b: seq<Word>) returns (out: seq<Word>, borrow: Word)
    requires |a| == |b| == 4
    ensures |out| == 4 && borrow <= 1
    ensures Value(out) == Value(a) - Value(b) + borrow * Pow(BASE, 4)
  {
    out, borrow := [0, 0, 0, 0], 0;
    for i := 0 to 4
      invariant |out| == 4 && borrow <= 1
      invariant Value(out[..i]) == Value(a[..i]) - Value(b[..i]) + borrow * Pow(BASE, i)
    {
      var (d, c) := Sbb(a[i], b[i], borrow);
      SubStep(a, b, out, i, d, borrow, c);
      out, borrow := out[i := d], c;
    }
    assert out[..4] == out && a[..4] == a && b[..4] == b;
  }

  method AddRaw(a: seq<Word>, b: seq<Word>) returns (out: seq<Word>, carry: Word)
    requires |a| == |b| == 4
    ensures |out| == 4 && carry <= 1
    ensures Value(out) == Value(a) + Value(b) - carry * Pow(BASE, 4)
  {
    out, carry := [0, 0, 0, 0], 0;
    for i := 0 to 4
      invariant |out| == 4 && carry <= 1
      invariant Value(out[..i]) == Value(a[..i]) + Value(b[..i]) - carry * Pow(BASE, i)
    {
      var (d, c) := Adc(a[i], b[i], carry);
      AddStep(a, b, out, i, d, carry, c);
      out, carry := out[i := d], c;
    }
    assert out[..4] == out && a[..4] == a && b[..4] == b;
  }

  lemma SubStep(a: seq<Word>, b: seq<Word>, out: seq<Word>, i: nat, d: Word, c: int, c': int)
    requires |a| == |b| == |out| && i < |a|
    requires Value(out[..i]) == Value(a[..i]) - Value(b[..i]) + c * Pow(BASE, i)
    requires d - c' * BASE == a[i] - b[i] - c
    ensures Value(out[i := d][..i + 1]) == Value(a[..i + 1]) - Value(b[..i + 1]) + c' * Pow(BASE, i + 1)
  {
    hide Value, Pow;
    assert out[i := d][..i] == out[..i];
    ValueSnoc(out[i := d], i);
    ValueSnoc(a, i);
    ValueSnoc(b, i);
    Distribute4(a[i], b[i], c, c' * BASE, Pow(BASE, i));
    MulAssoc(c', BASE, Pow(BASE, i));
    PowStep(BASE, i);
  }

  lemma AddStep(a: seq<Word>, b: seq<Word>, out: seq<Word>, i: nat, d: Word, c: int, c': int)
    requires |a| == |b| == |out| && i < |a|
    requires Value(out[..i]) == Value(a[..i]) + Value(b[..i]) - c * Pow(BASE, i)
    requires d + c' * BASE == a[i] + b[i] + c
    ensures Value(out[i := d][..i + 1]) == Value(a[..i + 1]) + Value(b[..i + 1]) - c' * Pow(BASE, i + 1)
  {
    hide Value, Pow;
    assert out[i := d][..i] == out[..i];
    ValueSnoc(out[i := d], i);
    ValueSnoc(a, i);
    ValueSnoc(b, i);
    Distribute4(a[i], c' * BASE, 0 - c, b[i], Pow(BASE, i));
    MulAssoc(c', BASE, Pow(BASE, i));
    PowStep(BASE, i);
  }

  /** `select`: a under a mask of ones, b under a mask of zeros. */
  function Select(mask: Word, a: seq<Word>, b: seq<Word>): (r: seq<Word>)
    requires |a| == |b| == 4 && (mask == 0 || mask == BASE - 1)
    ensures r == if mask == 0 then b else a
  {
    BaseIsPower();
    AndOnes(a[0], 64);
    AndOnes(a[1], 64);
    AndOnes(a[2], 64);
    AndOnes(a[3], 64);
    AndOnes(b[0], 64);
    AndOnes(b[1], 64);
    AndOnes(b[2], 64);
    AndOnes(b[3], 64);
    [SelectWord(mask, a[0], b[0]), SelectWord(mask, a[1], b[1]), SelectWord(mask, a[2], b[2]), SelectWord(mask, a[3], b[3])]
  }

  function SelectWord(mask: Word, a: Word, b: Word): (r: Word)
    requires mask == 0 || mask == BASE - 1
    ensures r == if mask == 0 then b else a
  {
    BaseIsPower();
    AndOnes(a, 64);
    AndOnes(b, 64);
    Or(And(a, mask), And(b, BASE - 1 - mask))
  }

  /** `reduce`: value + carry·2²⁵⁶ less m at most once. */
  method Reduce(f: Modulus, value: seq<Word>, carry: Word) returns (out: seq<Word>)
    requires f.Valid() && |value| == 4 && carry <= 1
    requires Value(value) + carry * Pow(BASE, 4) < 2 * Value(f.m)
    ensures f.Holds(out) && Value(out) == (Value(value) + carry * Pow(BASE, 4)) % Value(f.m)
  {
    hide Value, Pow, And, Xor;
    var less, borrow := SubRaw(value, f.m);
    KeepBit(borrow, carry);
    var keep := (0 - And(borrow, Xor(carry, 1))) % BASE;
    out := Select(keep, value, less);
    ValueBound(value);
    ValueBound(less);
    ValueBound(f.m);
    ReduceCases(Value(value), carry, Value(less), borrow, Value(f.m), Pow(BASE, 4));
  }

  lemma KeepBit(borrow: Word, carry: Word)
    requires borrow <= 1 && carry <= 1
    ensures And(borrow, Xor(carry, 1)) == if borrow == 1 && carry == 0 then 1 else 0
  {}

  lemma ReduceCases(v: int, c: int, less: int, borrow: int, m: int, p: int)
    requires 0 <= v < p && 0 <= less < p && 0 < m < p && 0 <= c <= 1 && 0 <= borrow <= 1
    requires v + c * p < 2 * m && less == v - m + borrow * p
    ensures borrow == 1 && c == 0 ==> v < m && v == (v + c * p) % m
    ensures borrow == 0 || c == 1 ==> 0 <= less < m && less == (v + c * p) % m
  {
    if borrow == 1 && c == 0 {
      ModSelf(v, m);
    } else {
      assert less == v + c * p - m;
      DivModUnique(v + c * p, 1, less, m);
    }
  }

  /** `add`. */
  method Add(f: Modulus, a: seq<Word>, b: seq<Word>) returns (out: seq<Word>)
    requires f.Valid() && f.Holds(a) && f.Holds(b)
    ensures f.Holds(out) && Value(out) == (Value(a) + Value(b)) % Value(f.m)
  {
    var sum, carry := AddRaw(a, b);
    out := Reduce(f, sum, carry);
  }

  /** `sub`. */
  method Sub(f: Modulus, a: seq<Word>, b: seq<Word>) returns (out: seq<Word>)
    requires f.Valid() && f.Holds(a) && f.Holds(b)
    ensures f.Holds(out) && Value(out) == (Value(a) - Value(b)) % Value(f.m)
  {
    hide Value, Pow;
    var d, borrow := SubRaw(a, b);
    var zero: seq<Word> := [0, 0, 0, 0];
    var back := Select((0 - borrow) % BASE, f.m, zero);
    ValueZeros(zero);
    var carry;
    out, carry := AddRaw(d, back);
    ValueBound(a);
    ValueBound(b);
    ValueBound(d);
    ValueBound(out);
    ValueBound(f.m);
    SubCases(Value(a), Value(b), Value(d), borrow, Value(out), carry, Value(f.m), Pow(BASE, 4));
  }

  lemma SubCases(a: int, b: int, d: int, borrow: int, out: int, carry: int, m: int, p: int)
    requires 0 <= a < m < p && 0 <= b < m && 0 <= d < p && 0 <= out < p && 0 <= borrow <= 1 && 0 <= carry <= 1
    requires d == a - b + borrow * p && out == d + (if borrow == 0 then 0 else m) - carry * p
    ensures 0 <= out < m && out == (a - b) % m
  {
    assert borrow * p == 0 || borrow * p == p;
    assert carry * p == 0 || carry * p == p;
    assert out == a - b + (if borrow == 0 then 0 else m);
    DivModUnique(a - b, -borrow, out, m);
  }

  /** `mul` (CIOS): its rows are those of the general product; only the last reduction differs. */
  method Mul(f: Modulus, a: seq<Word>, b: seq<Word>) returns (out: seq<Word>)
    requires f.Valid() && f.Holds(a) && |b| == 4
    ensures f.Holds(out)
    ensures Value(out) * Pow(BASE, 4) % Value(f.m) == Value(a) * Value(b) % Value(f.m)
  {
    hide Value, Pow;
    var t := new Word[6](_ => 0);
    ghost var m := Value(f.m);
    ValueBound(a);
    Rsa.RowsStart(t[..5], Value(a), b, m);
    for i := 0 to 4
      invariant Rsa.Rows(Value(t[..5]), Value(a), b, m, i)
    {
      ghost var before := Value(t[..5]);
      Rsa.AccumulateRow(t, a, b[i]);
      ghost var q := Rsa.ReduceRow(t, f.m, f.inv);
      ValueBound(t[..5]);
      Rsa.RowKeeps(before, Value(t[..5]), Value(a), b, m, i, q);
    }
    assert b[..4] == b;
    ghost var v := Value(t[..5]);
    ValueSnoc(t[..], 4);
    assert t[..][..4] == t[..4] && t[..][..5] == t[..5];
    ValueBound(t[..4]);
    ValueBound(f.m);
    Rsa.TopLimbSmall(t[4], Value(t[..4]), m, Pow(BASE, 4));
    out := Reduce(f, t[..4], t[4]);
    ModSelf(v, m);
    ModMul(v % m, v, Pow(BASE, 4), m);
  }

  /** `encode`: into Montgomery form. */
  method Encode(f: Modulus, a: seq<Word>) returns (out: seq<Word>)
    requires f.Valid() && f.Holds(a)
    ensures f.Holds(out) && Rsa.InForm(Value(out), Value(a), f.m)
  {
    out := Mul(f, a, f.r2);
    Rsa.EntersForm(Value(a), Value(f.r2), Value(out), f.m);
  }

  lemma One(one: seq<Word>)
    requires one == [1, 0, 0, 0]
    ensures Value(one) == 1
  {
    FourLimbs(one);
  }

  /** `decode`: out of Montgomery form. */
  method Decode(f: Modulus, a: seq<Word>, ghost v: int) returns (out: seq<Word>)
    requires f.Valid() && f.Holds(a) && Rsa.InForm(Value(a), v, f.m)
    ensures f.Holds(out) && Value(out) == v % Value(f.m)
  {
    var one: seq<Word> := [1, 0, 0, 0];
    One(one);
    out := Mul(f, a, one);
    ValueBound(out);
    Rsa.LeavesForm(Value(out), Value(a), v, f.m);
  }

  /** A field of w bits at bit r of limb i is the same field of the whole number. */
  lemma LimbField(s: seq<Word>, i: nat, r: nat, w: nat)
    requires i < |s| && r + w <= 64
    ensures Pow(2, r) > 0 && Pow(2, w) > 0 && Pow(2, 64 * i + r) > 0
    ensures s[i] / Pow(2, r) % Pow(2, w) == Value(s) / Pow(2, 64 * i + r) % Pow(2, w)
  {
    BaseIsPower();
    PowMul(2, 64, i);
    PowAdd(2, 64 * i, r);
    PowPositive(2, 64 * i);
    PowPositive(2, r);
    PowPositive(2, 64 * i + r);
    DivDiv(Value(s), Pow(2, 64 * i), Pow(2, r));
    var high := LimbSplit(s, i);
    FieldOfLow(s[i], high, r, w);
  }

  /** What is left of a number above its first i limbs: the next limb, then multiples of 2⁶⁴. */
  lemma {:induction false} LimbSplit(s: seq<Word>, i: nat) returns (high: int)
    requires i < |s|
    ensures Pow(BASE, i) > 0 && Value(s) / Pow(BASE, i) == (s[i] as int) + high * BASE
  {
    var n := |s| - 1;
    var p, x: int := Pow(BASE, i), s[n];
    PowPositive(BASE, i);
    if i == n {
      high := 0;
      ValueBound(s[..n]);
      DivModUnique(Value(s), x, Value(s[..n]), p);
    } else {
      var h := LimbSplit(s[..n], i);
      var g := Pow(BASE, n - i - 1);
      PowAdd(BASE, n - i, i);
      MulAssoc(x, BASE * g, p);
      DivAddMultiple(Value(s[..n]), x * (BASE * g), p);
      high := h + x * g;
      assert high * BASE == h * BASE + x * (BASE * g);
    }
  }

  /** `invert`: a^(m − 2) in Montgomery form, by the 256 bits of m − 2. */
  method Invert(f: Modulus, a: seq<Word>, ghost v: int) returns (r: seq<Word>)
    requires f.Valid() && f.Holds(a) && Rsa.InForm(Value(a), v, f.m)
    ensures f.Holds(r) && Value(r) == Pow(v, Value(f.m) - 2) * Pow(BASE, 4) % Value(f.m)
  {
    var one, two: seq<Word> := [1, 0, 0, 0], [2, 0, 0, 0];
    One(one);
    FourLimbs(two);
    var e, borrow := SubRaw(f.m, two);
    ValueBound(e);
    ValueBound(f.m);
    ghost var x := Value(e);
    r := Encode(f, one);
    TopOfExponent(x);
    var bit := 256;
    while bit > 0
      invariant 0 <= bit <= 256 && f.Holds(r)
      invariant Pow(2, bit) > 0 && x / Pow(2, bit) >= 0 && Rsa.InForm(Value(r), Pow(v, x / Pow(2, bit)), f.m)
    {
      bit := bit - 1;
      r := InvertStep(f, a, e, bit, r, v);
    }
    DivModUnique(x, x, 0, 1);
    ValueBound(r);
    DivModUnique(Value(r), 0, Value(r), Value(f.m));
  }

  method InvertStep(f: Modulus, a: seq<Word>, e: seq<Word>, bit: nat, r0: seq<Word>, ghost v: int) returns (r: seq<Word>)
    requires f.Valid() && f.Holds(a) && Rsa.InForm(Value(a), v, f.m) && |e| == 4 && bit < 256 && f.Holds(r0)
    requires Value(e) >= 0 && Pow(2, bit + 1) > 0 && Value(e) / Pow(2, bit + 1) >= 0
    requires Rsa.InForm(Value(r0), Pow(v, Value(e) / Pow(2, bit + 1)), f.m)
    ensures f.Holds(r) && Pow(2, bit) > 0 && Value(e) / Pow(2, bit) >= 0
    ensures Rsa.InForm(Value(r), Pow(v, Value(e) / Pow(2, bit)), f.m)
  {
    ghost var x := Value(e);
    Rsa.HalvePower(x, bit);
    ghost var h := x / Pow(2, bit + 1);
    r := Mul(f, r0, r0);
    Rsa.ProductInForm(Value(r0), Value(r0), Value(r), Pow(v, h), Pow(v, h), f.m);
    PowAdd(v, h, h);
    LimbField(e, bit / 64, bit % 64, 1);
    assert 64 * (bit / 64) + bit % 64 == bit && Pow(2, 1) == 2;
    if e[bit / 64] / Pow(2, bit % 64) % 2 == 1 {
      ghost var y := Value(r);
      r := Mul(f, r, a);
      Rsa.ProductInForm(y, Value(a), Value(r), Pow(v, 2 * h), v, f.m);
      assert Pow(v, 2 * h) * v == Pow(v, 2 * h + 1);
    }
  }

  lemma TopOfExponent(x: int)
    requires 0 <= x < Pow(BASE, 4)
    ensures Pow(2, 256) > 0 && x / Pow(2, 256) == 0
  {
    BaseIsPower();
    PowMul(2, 64, 4);
    PowPositive(2, 256);
    DivModUnique(x, 0, x, Pow(2, 256));
  }

  // ---------------------------------------------------------------- windowed multiplication

  /** Points with an addition, read through `view` (projective coordinates name a point in many ways) as elements of
      a set with an associative operation. The curve's group law is the hypothesis here, not a result. */
  ghost predicate GroupLaw<T(!new), G(!new)>(add: (T, T) -> T, infinity: T, view: T -> G, op: (G, G) -> G)
  {
    && (forall p, q {:trigger add(p, q)} :: view(add(p, q)) == op(view(p), view(q)))
    && (forall x, y, z {:trigger op(op(x, y), z)} :: op(op(x, y), z) == op(x, op(y, z)))
    && (forall x :: op(view(infinity), x) == x && op(x, view(infinity)) == x)
  }

  /** k-fold addition. */
  function Times<G>(op: (G, G) -> G, zero: G, k: nat, x: G): G
  {
    if k == 0 then zero else op(Times(op, zero, k - 1, x), x)
  }

  lemma {:induction false} TimesAdd<T(!new), G(!new)>(add: (T, T) -> T, infinity: T, view: T -> G, op: (G, G) -> G, j: nat, k: nat, x: G)
    requires GroupLaw(add, infinity, view, op)
    ensures var zero := view(infinity); op(Times(op, zero, j, x), Times(op, zero, k, x)) == Times(op, zero, j + k, x)
  {
    if k > 0 { TimesAdd(add, infinity, view, op, j, k - 1, x); }
  }

  /** `digit`: the 4-bit digit of k at a window. */
  function Digit(k: seq<Word>, window: nat): (d: nat)
    requires |k| == 4 && window < 64
    ensures d < 16 && Pow(2, 4 * window) > 0 && d == Value(k) / Pow(2, 4 * window) % 16
  {
    LimbField(k, window / 16, window % 16 * 4, 4);
    assert 64 * (window / 16) + window % 16 * 4 == 4 * window && Pow(2, 4) == 16;
    AndMask(k[window / 16] / Pow(2, window % 16 * 4), 4);
    And(k[window / 16] / Pow(2, window % 16 * 4), 15)
  }

  /** `multiply`: for every scalar of four limbs, the sixteen-entry table and four doublings per digit make the
      k-fold sum. */
  method Multiply<T(!new), G(!new)>(k: seq<Word>, p: T, infinity: T, add: (T, T) -> T, ghost view: T -> G, ghost op: (G, G) -> G)
    returns (acc: T)
    requires |k| == 4 && GroupLaw(add, infinity, view, op)
    ensures Value(k) >= 0 && view(acc) == Times(op, view(infinity), Value(k), view(p))
  {
    ghost var zero, x, v := view(infinity), view(p), Value(k);
    ValueBound(k);
    var table := Table(p, infinity, add, view, op);
    acc := infinity;
    TopOfExponent(v);
    var window := 64;
    while window > 0
      invariant 0 <= window <= 64
      invariant Pow(2, 4 * window) > 0 && v / Pow(2, 4 * window) >= 0
      invariant view(acc) == Times(op, zero, v / Pow(2, 4 * window), x)
    {
      window := window - 1;
      acc := NextWindow(acc, table, k, window, p, infinity, add, view, op);
    }
    DivModUnique(v, v, 0, 1);
  }

  /** One digit: four doublings and a table entry. */
  method NextWindow<T(!new), G(!new)>(acc0: T, table: seq<T>, k: seq<Word>, window: nat, ghost p: T, infinity: T, add: (T, T) -> T, ghost view: T -> G, ghost op: (G, G) -> G)
    returns (acc: T)
    requires |k| == 4 && window < 64 && GroupLaw(add, infinity, view, op) && Value(k) >= 0
    requires |table| == 16 && forall j :: 0 <= j < 16 ==> view(table[j]) == Times(op, view(infinity), j, view(p))
    requires Pow(2, 4 * window + 4) > 0 && Value(k) / Pow(2, 4 * window + 4) >= 0
    requires view(acc0) == Times(op, view(infinity), Value(k) / Pow(2, 4 * window + 4), view(p))
    ensures Pow(2, 4 * window) > 0 && Value(k) / Pow(2, 4 * window) >= 0
    ensures view(acc) == Times(op, view(infinity), Value(k) / Pow(2, 4 * window), view(p))
  {
    ghost var n := Value(k) / Pow(2, 4 * window + 4);
    acc := FourDoublings(acc0, infinity, add, view, op, n, view(p));
    var d := Digit(k, window);
    WindowStep(Value(k), window);
    TimesAdd(add, infinity, view, op, n * 16, d, view(p));
    acc := add(acc, table[d]);
  }

  /** The multiples 0·p to 15·p. */
  method Table<T(!new), G(!new)>(p: T, infinity: T, add: (T, T) -> T, ghost view: T -> G, ghost op: (G, G) -> G)
    returns (table: seq<T>)
    requires GroupLaw(add, infinity, view, op)
    ensures |table| == 16 && forall j :: 0 <= j < 16 ==> view(table[j]) == Times(op, view(infinity), j, view(p))
  {
    table := seq(16, _ => infinity);
    for i := 1 to 16
      invariant |table| == 16
      invariant forall j :: 0 <= j < i ==> view(table[j]) == Times(op, view(infinity), j, view(p))
    {
      table := table[i := add(table[i - 1], p)];
    }
  }

  method FourDoublings<T(!new), G(!new)>(p: T, infinity: T, add: (T, T) -> T, ghost view: T -> G, ghost op: (G, G) -> G, ghost n: nat, ghost x: G)
    returns (acc: T)
    requires GroupLaw(add, infinity, view, op) && view(p) == Times(op, view(infinity), n, x)
    ensures view(acc) == Times(op, view(infinity), n * 16, x)
  {
    acc := p;
    ghost var m := n;
    for i := 0 to 4
      invariant m == n * [1, 2, 4, 8, 16][i] && view(acc) == Times(op, view(infinity), m, x)
    {
      TimesAdd(add, infinity, view, op, m, m, x);
      acc := add(acc, acc);
      m := m + m;
    }
  }

  lemma WindowStep(v: nat, w: nat)
    ensures Pow(2, 4 * w) > 0 && Pow(2, 4 * w + 4) > 0
    ensures v / Pow(2, 4 * w) == 16 * (v / Pow(2, 4 * w + 4)) + v / Pow(2, 4 * w) % 16
  {
    PowPositive(2, 4 * w);
    PowAdd(2, 4 * w, 4);
    assert Pow(2, 4) == 16;
    DivDiv(v, Pow(2, 4 * w), 16);
  }
}

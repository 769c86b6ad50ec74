/** net/rsa.rs: Montgomery products over any number of limbs, and the RSA public operation built on them. */
module Rsa {
  import opened Arith
  import opened Bits
  import opened Limbs
  import opened Options

  /** Modulus limbs, modulus length in bytes, exponent. */
  datatype PublicKey = PublicKey(n: seq<Word>, len: nat, e: Word) {
    ghost predicate Valid() {
      && n != [] && |n| == (len + 7) / 8
      && 1 < Value(n) < Pow(256, len)
      && Value(n) % 2 == 1
      && e % 2 == 1
    }
  }

  /** `s` without its leading zero bytes. */
  function Strip(s: seq<Byte>): (r: seq<Byte>)
    ensures BigEndian(r) == BigEndian(s)
    ensures r != [] ==> r[0] != 0
  {
    if s == [] || s[0] != 0 then s
    else
      assert s == [0] + s[1..];
      BigEndianConcat([0], s[1..]);
      Strip(s[1..])
  }

  /** `PublicKey::new`: keys of 128 to 1024 bytes, odd modulus, odd exponent of at most 64 bits. */
  method NewKey(modulus: seq<Byte>, exponent: seq<Byte>) returns (key: Option<PublicKey>)
    ensures key.Some? <==>
      && 128 <= |Strip(modulus)| <= 1024 && |Strip(exponent)| <= 8
      && BigEndian(modulus) % 2 == 1 && BigEndian(exponent) % 2 == 1
    ensures key.Some? ==> key.value.Valid() && Value(key.value.n) == BigEndian(modulus) && key.value.e == BigEndian(exponent)
  {
    var n, e := Strip(modulus), Strip(exponent);
    if n == [] || e == [] || !(128 <= |n| <= 1024) || |e| > 8 || n[|n| - 1] % 2 == 0 || e[|e| - 1] % 2 == 0 {
      return None;
    }
    KeyNumbers(n, e);
    var limbs := FromBytes(n, (|n| + 7) / 8);
    key := Some(PublicKey(limbs, |n|, BigEndian(e)));
  }

  lemma KeyNumbers(n: seq<Byte>, e: seq<Byte>)
    requires |n| >= 2 && n[0] != 0 && e != [] && |e| <= 8
    ensures var p := Pow(BASE, (|n| + 7) / 8); p > 0 && BigEndian(n) % p == BigEndian(n)
    ensures 1 < BigEndian(n) < Pow(256, |n|) && 0 <= BigEndian(e) < BASE
    ensures BigEndian(n) % 2 == n[|n| - 1] % 2 && BigEndian(e) % 2 == e[|e| - 1] % 2
  {
    FitsLimbs(n, (|n| + 7) / 8);
    BigEndianBound(n);
    BigEndianBound(e);
    BaseIsPower();
    PowMonotone(256, |e|, 8);
    LeadingByte(n);
  }

  lemma LeadingByte(s: seq<Byte>)
    requires |s| >= 2 && s[0] != 0
    ensures BigEndian(s) >= 256
  {
    assert s == [s[0]] + s[1..];
    BigEndianConcat([s[0]], s[1..]);
    BigEndianBound(s[1..]);
    PowMonotone(256, 1, |s| - 1);
    MulMonotone(1, s[0], Pow(256, |s| - 1));
  }

  // ---------------------------------------------------------------- −n⁻¹ mod 2⁶⁴

  /** One Newton step with wrapping arithmetic: it doubles the bits of n that x inverts. */
  function NewtonStep(n: Word, x: Word): Word
  {
    x * ((2 - n * x % BASE) % BASE) % BASE
  }

  function NewtonSteps(n: Word, k: nat): Word
  {
    if k == 0 then 1 else NewtonStep(n, NewtonSteps(n, k - 1))
  }

  function NegatedInverse(n: Word): Word
  {
    (BASE - NewtonSteps(n, 6)) % BASE
  }

  lemma NewtonDoubles(n: Word, x: Word, m: int)
    requires m > 0 && BASE % (m * m) == 0 && n * x % m == 1 % m
    ensures m * m > 0
    ensures n * NewtonStep(n, x) % (m * m) == 1 % (m * m)
  {
    var y, mm := n * x, m * m;
    assert mm > 0 by { MulMonotone(1, m, m); }
    var k := y / m - 1 / m;
    assert y == m * (y / m) + y % m && 1 == m * (1 / m) + 1 % m;
    assert y == 1 + k * m;
    // The wrapped step agrees with x(2 − nx) modulo m².
    WrapTwice(n, x, mm);
    NewtonIdentity(k, m);
    ModMultiple(1, -(k * k), mm);
  }

  lemma NewtonIdentity(k: int, m: int)
    ensures (1 + k * m) * (2 - (1 + k * m)) == 1 + (-(k * k)) * (m * m)
  {
    var d := k * m;
    assert (1 + d) * (1 - d) == 1 - d * d;
    SwapFactors(k, m, k, m);
  }

  lemma WrapTwice(n: Word, x: Word, mm: int)
    requires mm > 0 && BASE % mm == 0
    ensures n * NewtonStep(n, x) % mm == (n * x) * (2 - n * x) % mm
  {
    var y := n * x;
    var a := (2 - y % BASE) % BASE;
    WrapKeeps(y, mm);
    WrapKeeps(2 - y % BASE, mm);
    WrapKeeps(x * a, mm);
    ModSub(2, y % BASE, y, mm);
    ModMul(a, 2 - y, x, mm);
    ModMul(NewtonStep(n, x), x * (2 - y), n, mm);
    MulAssoc(n, x, 2 - y);
  }

  lemma WrapKeeps(v: int, mm: int)
    requires mm > 0 && BASE % mm == 0
    ensures (v % BASE) % mm == v % mm
  {
    var t := BASE / mm;
    assert BASE == t * mm;
    assert v == BASE * (v / BASE) + v % BASE;
    MulAssoc(v / BASE, t, mm);
    ModMultiple(v % BASE, (v / BASE) * t, mm);
  }

  lemma ModSub(c: int, a: int, b: int, n: int)
    requires n > 0 && a % n == b % n
    ensures (c - a) % n == (c - b) % n
  {
    ModMul(a, b, -1, n);
    ModAdd(-a, -b, c, n);
  }

  /** Six steps invert every odd word: 1, 2, 4, … 64 bits. */
  lemma NegatedInverseCorrect(n: Word)
    requires n % 2 == 1
    ensures (n * NegatedInverse(n) + 1) % BASE == 0
  {
    assert n * NewtonSteps(n, 0) % 2 == 1 % 2;
    NewtonDoubles(n, NewtonSteps(n, 0), 0x2);
    NewtonDoubles(n, NewtonSteps(n, 1), 0x4);
    NewtonDoubles(n, NewtonSteps(n, 2), 0x10);
    NewtonDoubles(n, NewtonSteps(n, 3), 0x100);
    NewtonDoubles(n, NewtonSteps(n, 4), 0x1_0000);
    NewtonDoubles(n, NewtonSteps(n, 5), 0x1_0000_0000);
    NegatedProduct(n, NewtonSteps(n, 6));
  }

  lemma NegatedProduct(n: Word, x: Word)
    requires n * x % BASE == 1
    ensures (n * ((BASE - x) % BASE) + 1) % BASE == 0
  {
    var y: int := BASE - x;
    ModSelf(y, BASE);
    ModMul(y % BASE, y, n, BASE);
    ModAdd(n * (y % BASE), n * y, 1, BASE);
    assert n * y + 1 == (1 - n * x) + n * BASE;
    ModMultiple(1 - n * x, n, BASE);
    ModSub(1, n * x, 1, BASE);
  }

  // ---------------------------------------------------------------- R² mod n

  function ShiftLeft(x: seq<Word>): (r: seq<Word>)
    ensures |r| == |x|
  {
    if x == [] then []
    else
      var k := |x| - 1;
      var carry := if k == 0 then 0 else TopBit(x[k - 1]);
      ShiftLeft(x[..k]) + [ShiftedWord(carry, x[k])]
  }

  function ShiftedWord(carry: Word, w: Word): (r: Word)
    requires carry <= 1
    ensures r == 2 * w % BASE + carry
  {
    OrDisjoint(carry, w * 2 % BASE / 2, 1);
    Or(carry, w * 2 % BASE)
  }

  /** The bit a doubled word carries out. */
  function TopBit(w: Word): (r: Word)
    ensures r <= 1 && 2 * w % BASE == 2 * w - r * BASE
  {
    w / 0x8000_0000_0000_0000
  }

  lemma {:induction false} ShiftLeftValue(x: seq<Word>)
    requires x != []
    ensures Value(ShiftLeft(x)) == 2 * Value(x) - TopBit(x[|x| - 1]) * Pow(BASE, |x|)
  {
    var k := |x| - 1;
    var r := ShiftLeft(x);
    assert r[..k] == ShiftLeft(x[..k]);
    var w, top: int := x[k], TopBit(x[k]);
    if k > 0 {
      ShiftLeftValue(x[..k]);
      ShiftArithmetic(w, top, TopBit(x[k - 1]), Pow(BASE, k));
    } else {
      assert x[..0] == [] && r[..0] == [];
      ShiftArithmetic(w, top, 0, Pow(BASE, k));
    }
  }

  lemma ShiftArithmetic(w: int, top: int, c: int, p: int)
    ensures (2 * w - top * BASE + c) * p == 2 * (w * p) - top * (BASE * p) + c * p
  {
    MulAssoc(top, BASE, p);
  }

  /** `double`. */
  method Double(x: seq<Word>, n: seq<Word>) returns (out: seq<Word>)
    requires |x| == |n| && n != [] && Value(x) < Value(n)
    ensures |out| == |n| && Value(n) > 0 && Value(out) == 2 * Value(x) % Value(n)
  {
    hide Value, Pow, Less, ShiftLeft;
    var l := |n|;
    var shifted := ShiftLeft(x);
    var buf := Buffer(shifted);
    var top := TopBit(x[l - 1]) == 1;
    Shifted(x, n);
    if top || !Less(buf[..], n) {
      var borrow := Subtract(buf, n);
      assert buf[..][..l] == buf[..] && shifted[..l] == shifted && n[..l] == n;
      ValueBound(buf[..]);
      ReducedOnce(2 * Value(x), if top then 1 else 0, Value(shifted), Value(buf[..]), borrow, Value(n), Pow(BASE, l));
    }
    out := buf[..];
  }

  lemma Shifted(x: seq<Word>, n: seq<Word>)
    requires |x| == |n| && n != [] && Value(x) < Value(n)
    ensures var top := TopBit(x[|x| - 1]);
            && 0 < Value(n) < Pow(BASE, |n|)
            && 0 <= Value(ShiftLeft(x)) < Pow(BASE, |n|)
            && 2 * Value(x) == Value(ShiftLeft(x)) + top * Pow(BASE, |n|)
            && (top == 1 || !Less(ShiftLeft(x), n) ==> Value(n) <= 2 * Value(x) < 2 * Value(n))
            && (top == 0 && Less(ShiftLeft(x), n) ==> Value(ShiftLeft(x)) == 2 * Value(x) % Value(n))
  {
    ShiftLeftValue(x);
    ValueBound(x);
    ValueBound(n);
    ValueBound(ShiftLeft(x));
    LessIsLess(ShiftLeft(x), n);
    ShiftedCases(Value(x), Value(ShiftLeft(x)), TopBit(x[|x| - 1]), Value(n), Pow(BASE, |n|));
  }

  lemma ShiftedCases(x: int, s: int, top: int, n: int, p: int)
    requires 0 <= x < n < p && 0 <= s < p && 0 <= top <= 1 && s == 2 * x - top * p
    ensures top == 1 || s >= n ==> n <= 2 * x < 2 * n
    ensures top == 0 && s < n ==> s == 2 * x % n
  {
    assert top == 0 || top * p == p;
    ModSelf(2 * x, n);
  }

  /** A number below 2n, kept as a top bit and l limbs, loses n by one subtraction that ignores the borrow. */
  lemma ReducedOnce(v: int, top: int, low: int, out: int, borrow: bool, n: int, p: int)
    requires 0 < n < p && 0 <= top <= 1 && n <= v < 2 * n
    requires v == low + top * p && 0 <= low < p && 0 <= out < p
    requires out == low - n + (if borrow then p else 0)
    ensures out == v - n == v % n
  {
    DivModUnique(v, 1, v - n, n);
  }

  method RSquared(n: seq<Word>) returns (r2: seq<Word>)
    requires n != [] && Value(n) > 1
    ensures |r2| == |n| && Value(r2) < Value(n)
    ensures Value(r2) == Pow(BASE, |n|) * Pow(BASE, |n|) % Value(n)
  {
    var l := |n|;
    r2 := FromBytes([1], l);
    PowMonotone(BASE, 1, l);
    assert BigEndian([1]) == 1;
    ModSelf(1, Pow(BASE, l));
    ModSelf(1, Value(n));
    var i := 0;
    while i < 128 * l
      invariant 0 <= i <= 128 * l
      invariant |r2| == l && Value(r2) < Value(n) && Value(r2) == Pow(2, i) % Value(n)
    {
      ValueBound(r2);
      ModSelf(Pow(2, i), Value(n));
      ModMul(Value(r2), Pow(2, i), 2, Value(n));
      r2 := Double(r2, n);
      i := i + 1;
    }
    BaseIsPower();
    PowMul(2, 64, l);
    PowAdd(2, 64 * l, 64 * l);
  }

  // ---------------------------------------------------------------- the Montgomery product

  /** The multiply row of CIOS: t ← t + a·bi, the limb above t's top overwritten by the carry. */
  method AccumulateRow(t: array<Word>, a: seq<Word>, bi: Word)
    requires t.Length == |a| + 2
    modifies t
    ensures Value(t[..]) == old(Value(t[..|a| + 1])) + Value(a) * bi
    ensures t[|a| + 1] <= 1
  {
    hide Value, Pow;
    var l := |a|;
    ghost var before := t[..];
    ValueNone(before);
    ValueNone(a);
    var c: Wide := 0;
    var j := 0;
    while j < l
      invariant 0 <= j <= l
      invariant Accumulated(t[..], before, a, bi, j, c)
    {
      ghost var now := t[..];
      RowStep(now, before, a, bi, j, c);
      c := c + t[j] + a[j] * bi;
      t[j], c := c % BASE, c / BASE;
      assert t[..] == now[j := t[j]];
      j := j + 1;
    }
    ghost var now := t[..];
    RowEnd(now, before, a, bi, c);
    c := c + t[l];
    t[l], t[l + 1] := c % BASE, c / BASE;
    assert t[..] == now[..l] + [t[l], t[l + 1]];
    assert before[..l + 1] == old(t[..l + 1]);
  }

  ghost predicate Accumulated(t: seq<Word>, before: seq<Word>, a: seq<Word>, bi: Word, j: nat, c: int)
  {
    && |t| == |before| == |a| + 2 && j <= |a| && 0 <= c < BASE
    && Value(t[..j]) + c * Pow(BASE, j) == Value(before[..j]) + Value(a[..j]) * bi
    && t[j..] == before[j..]
  }

  lemma RowStep(t: seq<Word>, before: seq<Word>, a: seq<Word>, bi: Word, j: nat, c: int)
    requires Accumulated(t, before, a, bi, j, c) && j < |a|
    ensures var sum := c + t[j] + a[j] * bi;
            0 <= sum < BASE * BASE && Accumulated(t[j := sum % BASE], before, a, bi, j + 1, sum / BASE)
  {
    hide Value, Pow;
    MulBound(a[j], bi, BASE);
    var sum: int := c + t[j] + a[j] * bi;
    var t' := t[j := sum % BASE];
    assert t[j] == before[j] by { assert t[j] == t[j..][0]; }
    assert t'[..j] == t[..j] && t'[j + 1..] == before[j + 1..] by { assert t'[j + 1..] == t[j..][1..]; }
    ValueSnoc(t', j);
    ValueSnoc(before, j);
    ValueSnoc(a, j);
    PowStep(BASE, j);
    RowArithmetic(Value(t[..j]), c, sum, Value(before[..j]), Value(a[..j]), before[j], a[j], bi, Pow(BASE, j));
  }

  lemma RowArithmetic(v: int, c: int, sum: int, tv: int, av: int, t: int, a: int, bi: int, p: int)
    requires v + c * p == tv + av * bi && sum == c + t + a * bi
    ensures v + (sum % BASE) * p + (sum / BASE) * (BASE * p) == tv + t * p + (av + a * p) * bi
  {
    CarryOut(sum, p);
    assert sum * p == c * p + t * p + (a * bi) * p;
    assert (a * bi) * p == (a * p) * bi;
    assert (av + a * p) * bi == av * bi + (a * p) * bi;
  }

  lemma RowEnd(t: seq<Word>, before: seq<Word>, a: seq<Word>, bi: Word, c: int)
    requires Accumulated(t, before, a, bi, |a|, c)
    ensures var l := |a|;
            var sum := c + t[l];
            Value(t[..l] + [sum % BASE, sum / BASE]) == Value(before[..l + 1]) + Value(a) * bi
  {
    var l := |a|;
    var sum: int := c + t[l];
    assert t[l] == before[l] by { assert t[l] == t[l..][0]; }
    assert 0 <= sum / BASE <= 1;
    var w, v, b: int := Value(before[..l]) + Value(a) * bi, Value(t[..l]), before[l];
    assert v + c * Pow(BASE, l) == w by { assert a[..l] == a; }
    RowTop(v, c, sum, w, b, Pow(BASE, l));
    ValueTwo(t[..l], sum % BASE, sum / BASE);
    ValueSnoc(before, l);
    assert |t[..l]| == l;
  }

  lemma RowTop(v: int, c: int, sum: int, w: int, b: int, p: int)
    requires v + c * p == w && sum == c + b
    ensures v + (sum % BASE) * p + (sum / BASE) * (BASE * p) == w + b * p
  {
    CarryOut(sum, p);
    assert sum * p == c * p + b * p;
  }

  lemma CarryOut(sum: int, p: int)
    ensures (sum % BASE) * p + (sum / BASE) * (BASE * p) == sum * p
  {
    assert sum == BASE * (sum / BASE) + sum % BASE;
    MulAssoc(sum / BASE, BASE, p);
  }

  /** The reduction row: t ← (t + q·n) / 2⁶⁴, exact because q cancels the lowest limb. */
  method ReduceRow(t: array<Word>, n: seq<Word>, inv: Word) returns (ghost q: Word)
    requires n != [] && t.Length == |n| + 2 && t[|n| + 1] <= 1
    requires (n[0] * inv + 1) % BASE == 0
    modifies t
    ensures BASE * Value(t[..|n| + 1]) == old(Value(t[..])) + q * Value(n)
  {
    hide Value, Pow;
    var l := |n|;
    ghost var before := t[..];
    var m: Word := t[0] * inv % BASE;
    q := m;
    ReduceFirst(before, n, inv);
    var c: Wide := (t[0] + m * n[0]) / BASE;
    var j := 1;
    while j < l
      invariant 1 <= j <= l
      invariant Reduced(t[..], before, n, q, j, c)
    {
      ghost var now := t[..];
      ReduceStep(now, before, n, q, j, c);
      c := c + t[j] + m * n[j];
      t[j - 1], c := c % BASE, c / BASE;
      assert t[..] == now[j - 1 := t[j - 1]];
      j := j + 1;
    }
    ghost var now := t[..];
    ReduceEnd(now, before, n, q, c);
    c := c + t[l];
    t[l - 1], t[l] := c % BASE, t[l + 1] + c / BASE;
    assert t[..l + 1] == now[..l - 1] + [t[l - 1], t[l]];
  }

  ghost predicate Reduced(t: seq<Word>, before: seq<Word>, n: seq<Word>, q: Word, j: nat, c: int)
  {
    && |t| == |before| == |n| + 2 && 1 <= j <= |n| && 0 <= c < BASE
    && BASE * Value(t[..j - 1]) + c * Pow(BASE, j) == Value(before[..j]) + q * Value(n[..j])
    && t[j..] == before[j..]
  }

  lemma ReduceFirst(t: seq<Word>, n: seq<Word>, inv: Word)
    requires n != [] && |t| == |n| + 2 && (n[0] * inv + 1) % BASE == 0
    ensures var q := t[0] * inv % BASE;
            0 <= t[0] + q * n[0] < BASE * BASE && Reduced(t, t, n, q, 1, (t[0] + q * n[0]) / BASE)
  {
    var q := t[0] * inv % BASE;
    MulBound(q, n[0], BASE);
    LowLimbCancels(t[0], inv, n[0]);
    assert t[..1] == [t[0]] && n[..1] == [n[0]] && [t[0]][..0] == [] && [n[0]][..0] == [];
    assert Value([t[0]]) == t[0] && Value([n[0]]) == n[0] && Pow(BASE, 1) == BASE;
  }

  lemma ReduceStep(t: seq<Word>, before: seq<Word>, n: seq<Word>, q: Word, j: nat, c: int)
    requires j < |n| && Reduced(t, before, n, q, j, c)
    ensures var sum := c + t[j] + q * n[j];
            0 <= sum < BASE * BASE && Reduced(t[j - 1 := sum % BASE], before, n, q, j + 1, sum / BASE)
  {
    hide Value, Pow;
    MulBound(q, n[j], BASE);
    var sum: int := c + t[j] + q * n[j];
    var t' := t[j - 1 := sum % BASE];
    assert t[j] == before[j] by { assert t[j] == t[j..][0]; }
    assert t'[..j - 1] == t[..j - 1] && t'[j + 1..] == before[j + 1..] by { assert t'[j + 1..] == t[j..][1..]; }
    ValueSnoc(t', j - 1);
    ValueSnoc(before, j);
    ValueSnoc(n, j);
    ReduceArithmetic(Value(t[..j - 1]), c, sum, Value(before[..j]), Value(n[..j]), before[j], n[j], q, j);
  }

  lemma ReduceEnd(t: seq<Word>, before: seq<Word>, n: seq<Word>, q: Word, c: int)
    requires n != [] && Reduced(t, before, n, q, |n|, c) && before[|n| + 1] <= 1
    ensures var l := |n|;
            var sum := c + t[l];
            && t[l + 1] + sum / BASE <= 2
            && BASE * Value(t[..l - 1] + [sum % BASE, t[l + 1] + sum / BASE]) == Value(before) + q * Value(n)
  {
    hide Value, Pow;
    var l := |n|;
    assert t[l] == before[l] && t[l + 1] == before[l + 1] by { assert t[l] == t[l..][0] && t[l + 1] == t[l..][1]; }
    var sum: int := c + t[l];
    assert t[l + 1] + sum / BASE <= 2;
    assert n[..l] == n && before[..l + 2] == before;
    ValueTwo(t[..l - 1], sum % BASE, t[l + 1] + sum / BASE);
    ValueSnoc(before, l);
    ValueSnoc(before, l + 1);
    ReduceTop(Value(t[..l - 1]), c, sum, Value(before[..l]), q * Value(n), before[l], before[l + 1], l);
  }

  lemma LowLimbCancels(t0: Word, inv: Word, n0: Word)
    requires (n0 * inv + 1) % BASE == 0
    ensures (t0 + (t0 * inv % BASE) * n0) / BASE * BASE == t0 + (t0 * inv % BASE) * n0
  {
    var q, w := t0 * inv % BASE, t0 * inv;
    assert w == BASE * (w / BASE) + q;
    var k, u := (n0 * inv + 1) / BASE, w / BASE;
    assert n0 * inv + 1 == k * BASE;
    assert t0 + q * n0 == (t0 * k - u * n0) * BASE + 0 by {
      assert q * n0 == w * n0 - (BASE * u) * n0;
      assert w * n0 == t0 * (n0 * inv);
      assert t0 * (n0 * inv) == t0 * (k * BASE) - t0;
      MulAssoc(t0, k, BASE);
      assert (BASE * u) * n0 == (u * n0) * BASE;
    }
    DivModUnique(t0 + q * n0, t0 * k - u * n0, 0, BASE);
  }

  lemma ReduceArithmetic(v: int, c: int, sum: int, tv: int, nv: int, t: int, n: int, q: int, j: nat)
    requires j >= 1 && BASE * v + c * Pow(BASE, j) == tv + q * nv && sum == c + t + q * n
    ensures BASE * (v + (sum % BASE) * Pow(BASE, j - 1)) + (sum / BASE) * Pow(BASE, j + 1)
         == tv + t * Pow(BASE, j) + q * (nv + n * Pow(BASE, j))
  {
    var p := Pow(BASE, j);
    CarryOut(sum, p);
    ShiftedDigit(v, sum % BASE, j);
    assert sum * p == c * p + t * p + (q * n) * p;
    MulAssoc(q, n, p);
    MulDistributes(q, nv, n * p);
  }

  lemma ShiftedDigit(v: int, d: int, j: nat)
    requires j >= 1
    ensures BASE * (v + d * Pow(BASE, j - 1)) == BASE * v + d * Pow(BASE, j)
  {
    var p := Pow(BASE, j - 1);
    assert BASE * (d * p) == d * (BASE * p);
  }

  lemma ReduceTop(v: int, c: int, sum: int, tv: int, qn: int, tl: int, top: int, l: nat)
    requires l >= 1 && BASE * v + c * Pow(BASE, l) == tv + qn && sum == c + tl
    ensures BASE * (v + (sum % BASE) * Pow(BASE, l - 1) + (top + sum / BASE) * Pow(BASE, l))
         == tv + tl * Pow(BASE, l) + top * Pow(BASE, l + 1) + qn
  {
    var p, k := Pow(BASE, l), sum / BASE;
    CarryOut(sum, p);
    ShiftedDigit(v, sum % BASE, l);
    assert BASE * ((top + k) * p) == top * (BASE * p) + k * (BASE * p);
    assert sum * p == c * p + tl * p;
  }

  /** What i rows of the product have reached. */
  ghost predicate Rows(t: int, a: int, b: seq<Word>, n: int, i: nat)
  {
    && i <= |b| && n > 0
    && 0 <= t < 2 * n
    && t * Pow(BASE, i) % n == a * Value(b[..i]) % n
  }

  lemma RowKeeps(t: int, t': int, a: int, b: seq<Word>, n: int, i: nat, q: Word)
    requires i < |b| && Rows(t, a, b, n, i) && 0 <= a < n && t' >= 0
    requires BASE * t' == t + a * b[i] + q * n
    ensures Rows(t', a, b, n, i + 1)
  {
    var p := Pow(BASE, i);
    var d, qq: int := b[i], q;
    StaysBelow(t, t', a, d, qq, n);
    ValueSnoc(b, i);
    RowProduct(t, t', a * d, qq, n, p);
    ModMultiple(t * p + (a * d) * p, qq * p, n);
    ModAdd(t * p, a * Value(b[..i]), (a * d) * p, n);
    MulAssoc(a, d, p);
    MulDistributes(a, Value(b[..i]), d * p);
  }

  lemma StaysBelow(t: int, t': int, a: int, d: int, q: int, n: int)
    requires 0 <= t < 2 * n && 0 <= a < n && 0 <= d < BASE && 0 <= q < BASE
    requires BASE * t' == t + a * d + q * n
    ensures t' < 2 * n
  {
    MulMonotone(a, n, d);
    MulMonotone(d, BASE - 1, n);
    MulMonotone(q, BASE - 1, n);
  }

  lemma RowProduct(t: int, t': int, ad: int, q: int, n: int, p: int)
    requires BASE * t' == t + ad + q * n
    ensures t' * (BASE * p) == (t * p + ad * p) + (q * p) * n
  {
    assert t' * (BASE * p) == (BASE * t') * p;
    assert (q * n) * p == (q * p) * n;
    assert (t + ad + q * n) * p == t * p + ad * p + (q * n) * p;
  }

  lemma MulDistributes(a: int, b: int, c: int)
    ensures a * (b + c) == a * b + a * c
  {}

  /** `montgomery`: a·b·R⁻¹ mod n for any limb count, with every carry inside its width. */
  method Montgomery(a: seq<Word>, b: seq<Word>, n: seq<Word>, inv: Word) returns (out: seq<Word>)
    requires n != [] && |a| == |b| == |n| && Value(a) < Value(n)
    requires (n[0] * inv + 1) % BASE == 0
    ensures |out| == |n| && 0 <= Value(out) < Value(n)
    ensures Value(out) * Pow(BASE, |n|) % Value(n) == Value(a) * Value(b) % Value(n)
  {
    hide Value, Pow, Less;
    var l := |n|;
    var t := new Word[l + 2](_ => 0);
    ValueBound(a);
    ValueBound(n);
    RowsStart(t[..l + 1], Value(a), b, Value(n));
    var i := 0;
    while i < l
      invariant 0 <= i <= l
      invariant Rows(Value(t[..l + 1]), Value(a), b, Value(n), i)
    {
      ghost var before := Value(t[..l + 1]);
      AccumulateRow(t, a, b[i]);
      ghost var q := ReduceRow(t, n, inv);
      ValueBound(t[..l + 1]);
      RowKeeps(before, Value(t[..l + 1]), Value(a), b, Value(n), i, q);
      i := i + 1;
    }
    assert b[..l] == b;
    out := LastSubtraction(t, n, Value(t[..l + 1]));
  }

  lemma RowsStart(t: seq<Word>, a: int, b: seq<Word>, n: int)
    requires (forall i :: 0 <= i < |t| ==> t[i] == 0) && n > 0
    ensures Rows(Value(t), a, b, n, 0)
  {
    ValueZeros(t);
    assert b[..0] == [];
  }

  /** The end of the product: one subtraction brings a number below 2n below n. */
  method LastSubtraction(t: array<Word>, n: seq<Word>, ghost v: int) returns (out: seq<Word>)
    requires n != [] && t.Length == |n| + 2 && v == Value(t[..|n| + 1]) < 2 * Value(n)
    modifies t
    ensures |out| == |n| && 0 <= Value(out) < Value(n)
    ensures Value(out) * Pow(BASE, |n|) % Value(n) == v * Pow(BASE, |n|) % Value(n)
  {
    hide Value, Pow, Less;
    var l := |n|;
    ghost var before := t[..];
    ValueSnoc(before, l);
    assert before[..l] == t[..l] && before[..l + 1] == t[..l + 1];
    ValueBound(t[..l]);
    ValueBound(n);
    TopLimbSmall(t[l], Value(t[..l]), Value(n), Pow(BASE, l));
    LessIsLess(t[..l], n);
    if t[l] != 0 || !Less(t[..l], n) {
      var borrow := Subtract(t, n);
      assert t[..][..l] == t[..l] && n[..l] == n;
      ValueBound(t[..l]);
      ReducedOnce(v, before[l], Value(before[..l]), Value(t[..l]), borrow, Value(n), Pow(BASE, l));
      ModSelf(v, Value(n));
      ModMul(v % Value(n), v, Pow(BASE, l), Value(n));
    }
    out := t[..l];
  }

  lemma TopLimbSmall(top: Word, low: int, n: int, p: int)
    requires 0 < n < p && 0 <= low && low + top * p < 2 * n
    ensures top <= 1
  {
    if top >= 2 { MulMonotone(2, top, p); }
  }

  // ---------------------------------------------------------------- sᵉ mod n

  /** `x` is `v` in Montgomery form. */
  ghost predicate InForm(x: int, v: int, n: seq<Word>)
  {
    Value(n) > 0 && x % Value(n) == v * Pow(BASE, |n|) % Value(n)
  }

  lemma Cancel(x: int, y: int, n: seq<Word>)
    requires Value(n) > 0 && Value(n) % 2 == 1
    requires x * Pow(BASE, |n|) % Value(n) == y * Pow(BASE, |n|) % Value(n)
    ensures x % Value(n) == y % Value(n)
  {
    var m := Value(n);
    BaseIsPower();
    PowMul(2, 64, |n|);
    PowerOfTwoInvertible(64 * |n|, m);
    ModCancel(x, y, Pow(BASE, |n|), Pow((m + 1) / 2, 64 * |n|), m);
  }

  lemma ProductInForm(x: int, y: int, z: int, v: int, w: int, n: seq<Word>)
    requires Value(n) > 0 && Value(n) % 2 == 1 && InForm(x, v, n) && InForm(y, w, n)
    requires z * Pow(BASE, |n|) % Value(n) == x * y % Value(n)
    ensures InForm(z, v * w, n)
  {
    var m, r := Value(n), Pow(BASE, |n|);
    ModMul2(x, v * r, y, w * r, m);
    SwapFactors(v, r, w, r);
    MulAssoc(v * w, r, r);
    Cancel(z, v * w * r, n);
  }

  function Log2(e: nat): (k: nat)
    requires e > 0
    ensures Pow(2, k) > 0 && e / Pow(2, k) == 1
  {
    if e == 1 then 0
    else
      var k := Log2(e / 2);
      HalvePower(e, k);
      k + 1
  }

  lemma HalvePower(e: nat, k: nat)
    ensures Pow(2, k) > 0 && Pow(2, k + 1) > 0
    ensures e / Pow(2, k + 1) == (e / 2) / Pow(2, k)
    ensures e / Pow(2, k) == 2 * (e / Pow(2, k + 1)) + e / Pow(2, k) % 2
  {
    PowPositive(2, k);
    DivDiv(e, 2, Pow(2, k));
    DivDiv(e, Pow(2, k), 2);
  }

  /** Square-and-multiply in Montgomery form, from the exponent's second bit down. */
  method Exponentiate(base: seq<Word>, e: Word, n: seq<Word>, inv: Word, ghost s: int) returns (acc: seq<Word>)
    requires n != [] && |base| == |n| && Value(base) < Value(n) && Value(n) % 2 == 1 && e > 0
    requires (n[0] * inv + 1) % BASE == 0 && InForm(Value(base), s, n)
    ensures |acc| == |n| && Value(acc) < Value(n) && InForm(Value(acc), Pow(s, e), n)
  {
    acc := base;
    var bit := Log2(e);
    assert Pow(s, 1) == s;
    while bit > 0
      invariant |acc| == |n| && Value(acc) < Value(n)
      invariant Pow(2, bit) > 0 && e / Pow(2, bit) >= 0 && InForm(Value(acc), Pow(s, e / Pow(2, bit)), n)
    {
      bit := bit - 1;
      HalvePower(e, bit);
      ghost var x, h := Value(acc), e / Pow(2, bit + 1);
      acc := Montgomery(acc, acc, n, inv);
      ProductInForm(x, x, Value(acc), Pow(s, h), Pow(s, h), n);
      PowAdd(s, h, h);
      if e / Pow(2, bit) % 2 == 1 {
        ghost var y := Value(acc);
        acc := Montgomery(acc, base, n, inv);
        ProductInForm(y, Value(base), Value(acc), Pow(s, 2 * h), s, n);
        assert Pow(s, 2 * h) * s == Pow(s, 2 * h + 1);
      }
    }
    DivModUnique(e, e, 0, 1);
  }

  /** `open`: exactly the len-byte big-endian encoding of sigᵉ mod n (RFC 8017, section 5.2.2), refused unless the
      signature has the key's length and represents a number below the modulus. */
  method Open(key: PublicKey, sig: seq<Byte>) returns (em: Option<seq<Byte>>)
    requires key.Valid()
    ensures em.Some? <==> |sig| == key.len && BigEndian(sig) < Value(key.n)
    ensures em.Some? ==> |em.value| == key.len && BigEndian(em.value) == Pow(BigEndian(sig), key.e) % Value(key.n)
  {
    var n, l := key.n, |key.n|;
    var s := FromBytes(sig, l);
    LessIsLess(s, n);
    if |sig| != key.len || !Less(s, n) {
      if |sig| == key.len { FitsLimbs(sig, l); }
      return None;
    }
    FitsLimbs(sig, l);
    var out := Power(s, key.e, n);
    LimbBytesValue(out);
    DropLeading(LimbBytes(out), 8 * l - key.len);
    em := Some(LimbBytes(out)[8 * l - key.len..]);
  }

  /** The arithmetic of `open`: into Montgomery form, sᵉ, and out again. */
  method Power(s: seq<Word>, e: Word, n: seq<Word>) returns (out: seq<Word>)
    requires n != [] && |s| == |n| && Value(s) < Value(n) && Value(n) > 1 && Value(n) % 2 == 1 && e > 0
    ensures |out| == |n| && Value(out) == Pow(Value(s), e) % Value(n)
  {
    ghost var v := Value(s);
    ValueParity(n);
    var inv := NegatedInverse(n[0]);
    NegatedInverseCorrect(n[0]);
    var r2 := RSquared(n);
    var base := Montgomery(s, r2, n, inv);
    EntersForm(v, Value(r2), Value(base), n);
    var acc := Exponentiate(base, e, n, inv, v);
    var one := FromBytes([1], |n|);
    FitsLimbs([1], |n|);
    assert BigEndian([1]) == 1;
    out := Montgomery(acc, one, n, inv);
    LeavesForm(Value(out), Value(acc), Pow(v, e), n);
  }

  lemma LeavesForm(out: int, acc: int, v: int, n: seq<Word>)
    requires Value(n) % 2 == 1 && InForm(acc, v, n) && 0 <= out < Value(n)
    requires out * Pow(BASE, |n|) % Value(n) == acc * 1 % Value(n)
    ensures out == v % Value(n)
  {
    Cancel(out, v, n);
    ModResidue(out, v, Value(n));
  }

  lemma FitsLimbs(bytes: seq<Byte>, l: nat)
    requires |bytes| <= 8 * l
    ensures Pow(BASE, l) > 0 && BigEndian(bytes) % Pow(BASE, l) == BigEndian(bytes)
  {
    BigEndianBound(bytes);
    BaseIsPower();
    PowMul(256, 8, l);
    PowMonotone(256, |bytes|, 8 * l);
    PowPositive(BASE, l);
    ModSelf(BigEndian(bytes), Pow(BASE, l));
  }

  lemma EntersForm(v: int, r2: int, base: int, n: seq<Word>)
    requires Value(n) > 0 && Value(n) % 2 == 1
    requires r2 == Pow(BASE, |n|) * Pow(BASE, |n|) % Value(n)
    requires base * Pow(BASE, |n|) % Value(n) == v * r2 % Value(n)
    ensures InForm(base, v, n)
  {
    var r, m := Pow(BASE, |n|), Value(n);
    ModSelf(r * r, m);
    ModMul(r2, r * r, v, m);
    MulAssoc(v, r, r);
    Cancel(base, v * r, n);
  }

  lemma DropLeading(s: seq<Byte>, k: nat)
    requires k <= |s| && BigEndian(s) < Pow(256, |s| - k)
    ensures BigEndian(s[k..]) == BigEndian(s)
  {
    assert s == s[..k] + s[k..];
    BigEndianConcat(s[..k], s[k..]);
    BigEndianBound(s[..k]);
    BigEndianBound(s[k..]);
    if BigEndian(s[..k]) > 0 { MulMonotone(1, BigEndian(s[..k]), Pow(256, |s| - k)); }
  }

  /** The answer is unique: no other len-byte string encodes the same residue. */
  lemma OpenUnique(key: PublicKey, sig: seq<Byte>, em: seq<Byte>, other: seq<Byte>)
    requires key.Valid() && |em| == |other| == key.len
    requires BigEndian(em) == Pow(BigEndian(sig), key.e) % Value(key.n) == BigEndian(other)
    ensures em == other
  {
    BigEndianInjective(em, other);
  }
}

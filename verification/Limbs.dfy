/** Little-endian 64-bit limbs and big-endian bytes as numbers. */
module Limbs {
  import opened Arith
  import opened Bits

  const BASE: int := 0x1_0000_0000_0000_0000

  type Word = x: int | 0 <= x < 0x1_0000_0000_0000_0000
  type Wide = x: int | 0 <= x < 0x1_0000_0000_0000_0000_0000_0000_0000_0000
  type Byte = x: int | 0 <= x < 256

  /** The number a sequence of limbs stands for. */
  function Value(s: seq<Word>): int
  {
    if s == [] then 0 else Value(s[..|s| - 1]) + s[|s| - 1] * Pow(BASE, |s| - 1)
  }

  lemma {:induction false} ValueBound(s: seq<Word>)
    ensures 0 <= Value(s) < Pow(BASE, |s|)
  {
    PowPositive(BASE, |s|);
    if s != [] {
      var k := |s| - 1;
      ValueBound(s[..k]);
      PowPositive(BASE, k);
      MulNonNegative(s[k], Pow(BASE, k));
      MulMonotone(s[k], BASE - 1, Pow(BASE, k));
    }
  }

  lemma ValueSnoc(s: seq<Word>, j: nat)
    requires j < |s|
    ensures Value(s[..j + 1]) == Value(s[..j]) + s[j] * Pow(BASE, j)
  {
    assert s[..j + 1][..j] == s[..j];
  }

  lemma ValueNone(s: seq<Word>)
    ensures Value(s[..0]) == 0
  {}

  lemma ValueTwo(s: seq<Word>, x: Word, y: Word)
    ensures Value(s + [x, y]) == Value(s) + x * Pow(BASE, |s|) + y * Pow(BASE, |s| + 1)
  {
    assert (s + [x, y])[..|s| + 1] == s + [x];
    assert (s + [x])[..|s|] == s;
    assert Value(s + [x]) == Value(s) + x * Pow(BASE, |s|);
  }

  lemma {:induction false} ValueZeros(s: seq<Word>)
    requires forall i :: 0 <= i < |s| ==> s[i] == 0
    ensures Value(s) == 0
  {
    if s != [] { ValueZeros(s[..|s| - 1]); }
  }

  lemma {:induction false} ValueUpdate(s: seq<Word>, k: nat, v: Word)
    requires k < |s|
    ensures Value(s[k := v]) == Value(s) + (v - s[k]) * Pow(BASE, k)
  {
    var t, n := s[k := v], |s| - 1;
    if k == n {
      assert t[..n] == s[..n];
      assert (v - s[k]) * Pow(BASE, k) == v * Pow(BASE, k) - s[k] * Pow(BASE, k);
    } else {
      ValueUpdate(s[..n], k, v);
      assert t[..n] == s[..n][k := v];
    }
  }

  lemma {:induction false} ValueParity(s: seq<Word>)
    requires s != []
    ensures Value(s) % 2 == s[0] % 2
    ensures Value(s) % BASE == s[0]
  {
    var n := |s| - 1;
    if n == 0 {
      assert s[..0] == [];
      assert Value(s) == s[0];
    } else {
      ValueParity(s[..n]);
      var p := s[n] * Pow(BASE, n - 1);
      assert s[n] * Pow(BASE, n) == p * BASE;
      ModMultiple(Value(s[..n]), p, BASE);
      assert p * BASE == (p * 0x8000_0000_0000_0000) * 2;
      ModMultiple(Value(s[..n]), p * 0x8000_0000_0000_0000, 2);
    }
  }

  /** The order of limbs from the top is the order of the numbers. */
  predicate Less(a: seq<Word>, b: seq<Word>)
    requires |a| == |b|
  {
    if a == [] then false
    else
      var k := |a| - 1;
      if a[k] != b[k] then a[k] < b[k] else Less(a[..k], b[..k])
  }

  lemma {:induction false} LessIsLess(a: seq<Word>, b: seq<Word>)
    requires |a| == |b|
    ensures Less(a, b) <==> Value(a) < Value(b)
  {
    if a != [] {
      var k := |a| - 1;
      LessIsLess(a[..k], b[..k]);
      if a[k] < b[k] { TopLimbDecides(a, b); }
      if b[k] < a[k] { TopLimbDecides(b, a); }
    }
  }

  lemma TopLimbDecides(a: seq<Word>, b: seq<Word>)
    requires |a| == |b| && a != [] && a[|a| - 1] < b[|a| - 1]
    ensures Value(a) < Value(b)
  {
    var k := |a| - 1;
    ValueBound(a[..k]);
    ValueBound(b[..k]);
    MulMonotone(a[k] + 1, b[k], Pow(BASE, k));
    assert (a[k] + 1) * Pow(BASE, k) == a[k] * Pow(BASE, k) + Pow(BASE, k);
  }

  /** The number big-endian bytes stand for. */
  function BigEndian(s: seq<Byte>): int
  {
    if s == [] then 0 else 256 * BigEndian(s[..|s| - 1]) + s[|s| - 1]
  }

  lemma {:induction false} BigEndianBound(s: seq<Byte>)
    ensures 0 <= BigEndian(s) < Pow(256, |s|)
  {
    if s != [] { BigEndianBound(s[..|s| - 1]); }
  }

  lemma {:induction false} BigEndianConcat(s: seq<Byte>, t: seq<Byte>)
    ensures BigEndian(s + t) == BigEndian(s) * Pow(256, |t|) + BigEndian(t)
  {
    if t == [] {
      assert s + t == s;
    } else {
      var k := |t| - 1;
      BigEndianConcat(s, t[..k]);
      assert (s + t)[..|s + t| - 1] == s + t[..k];
      assert 256 * (BigEndian(s) * Pow(256, k)) == BigEndian(s) * Pow(256, k + 1) by {
        MulAssoc(BigEndian(s), 256, Pow(256, k));
        MulAssoc(256, BigEndian(s), Pow(256, k));
      }
    }
  }

  /** Bytes of the same length standing for the same number are the same bytes. */
  lemma {:induction false} BigEndianInjective(s: seq<Byte>, t: seq<Byte>)
    requires |s| == |t| && BigEndian(s) == BigEndian(t)
    ensures s == t
  {
    if s != [] {
      var k := |s| - 1;
      BigEndianInjective(s[..k], t[..k]);
      assert s == s[..k] + [s[k]] && t == t[..k] + [t[k]];
    }
  }

  lemma BaseIsPower()
    ensures BASE == Pow(256, 8) == Pow(2, 64)
  {
    assert Pow(2, 8) == 256 by { assert Pow(2, 4) == 16; PowAdd(2, 4, 4); }
    assert Pow(256, 4) == 0x1_0000_0000 by { assert Pow(256, 2) == 0x1_0000; PowAdd(256, 2, 2); }
    PowAdd(256, 4, 4);
    PowMul(2, 8, 8);
  }

  /** The low k bytes of w, big-endian; a word has eight. */
  function BytesOf(w: nat, k: nat): (r: seq<Byte>)
    ensures |r| == k
  {
    if k == 0 then [] else BytesOf(w / 256, k - 1) + [w % 256]
  }

  lemma {:induction false} BytesOfValue(w: nat, k: nat)
    requires w < Pow(256, k)
    ensures BigEndian(BytesOf(w, k)) == w
  {
    if k > 0 {
      BytesOfValue(w / 256, k - 1);
      var s := BytesOf(w, k);
      assert s[..k - 1] == BytesOf(w / 256, k - 1);
    }
  }

  /** The limbs, highest first, as bytes. */
  function LimbBytes(s: seq<Word>): (r: seq<Byte>)
    ensures |r| == 8 * |s|
  {
    if s == [] then [] else BytesOf(s[|s| - 1], 8) + LimbBytes(s[..|s| - 1])
  }

  lemma {:induction false} LimbBytesValue(s: seq<Word>)
    ensures BigEndian(LimbBytes(s)) == Value(s)
  {
    if s != [] {
      var k := |s| - 1;
      LimbBytesValue(s[..k]);
      BaseIsPower();
      BytesOfValue(s[k], 8);
      BigEndianConcat(BytesOf(s[k], 8), LimbBytes(s[..k]));
      PowMul(256, 8, k);
    }
  }

  /** `limbs` of rsa.rs: big-endian bytes into l limbs, higher bytes dropped. */
  method FromBytes(bytes: seq<Byte>, l: nat) returns (out: seq<Word>)
    ensures |out| == l
    ensures Pow(BASE, l) > 0 && Value(out) == BigEndian(bytes) % Pow(BASE, l)
  {
    var n := |bytes|;
    var need := (n + 7) / 8;
    var buf := new Word[if l > need then l else need](_ => 0);
    ValueZeros(buf[..]);
    var i := 0;
    while i < n
      invariant 0 <= i <= n
      invariant Placed(buf[..], bytes, i)
    {
      var b, k := bytes[n - 1 - i], i / 8;
      ghost var before := buf[..];
      PlaceByte(before, bytes, i);
      buf[k] := Or(buf[k], b * Pow(2, 8 * (i % 8)) % BASE);
      assert buf[..] == before[k := buf[k]];
      i := i + 1;
    }
    assert bytes[n - n..] == bytes;
    PowPositive(BASE, l);
    ValueTruncate(buf[..], l);
    out := buf[..l];
    assert out == buf[..][..l];
  }

  /** The last i bytes are in place and nothing is above them. */
  ghost predicate Placed(s: seq<Word>, bytes: seq<Byte>, i: nat)
  {
    && i <= |bytes| <= 8 * |s|
    && Value(s) == BigEndian(bytes[|bytes| - i..])
    && (forall k :: 0 <= k < |s| && 8 * k >= i ==> s[k] == 0)
    && (i % 8 != 0 ==> s[i / 8] < Pow(256, i % 8))
  }

  lemma PlaceByte(s: seq<Word>, bytes: seq<Byte>, i: nat)
    requires Placed(s, bytes, i) && i < |bytes|
    ensures BASE > 0 && bytes[|bytes| - 1 - i] * Pow(2, 8 * (i % 8)) % BASE >= 0
    ensures var v := Or(s[i / 8], bytes[|bytes| - 1 - i] * Pow(2, 8 * (i % 8)) % BASE);
            v < BASE && Placed(s[i / 8 := v], bytes, i + 1)
  {
    var b, k, r := bytes[|bytes| - 1 - i], i / 8, i % 8;
    OrByte(s[k], b, r);
    ByteShift(b, r);
    var v := s[k] + b * Pow(256, r);
    ValueUpdate(s, k, v);
    PrependByte(bytes, i);
    assert r == 7 || ((i + 1) / 8 == k && (i + 1) % 8 == r + 1);
    assert r == 7 ==> (i + 1) % 8 == 0;
  }

  lemma ByteShift(b: Byte, r: nat)
    requires r < 8
    ensures Pow(2, 8 * r) == Pow(256, r)
    ensures 0 <= b * Pow(256, r) < BASE
    ensures b * Pow(256, r) % BASE == b * Pow(256, r)
  {
    assert Pow(2, 8) == 256 by { assert Pow(2, 4) == 16; PowAdd(2, 4, 4); }
    PowMul(2, 8, r);
    BaseIsPower();
    PowMonotone(256, r + 1, 8);
    PowPositive(256, r);
    MulNonNegative(b, Pow(256, r));
    MulMonotone(b, 255, Pow(256, r));
    ModSelf(b * Pow(256, r), BASE);
  }

  lemma OrByte(w: Word, b: Byte, r: nat)
    requires r < 8 && w < Pow(256, r)
    ensures b * Pow(256, r) % BASE >= 0
    ensures Or(w, b * Pow(2, 8 * r) % BASE) == w + b * Pow(256, r) < Pow(256, r + 1)
    ensures Pow(256, r + 1) <= BASE
  {
    ByteShift(b, r);
    OrDisjoint(w, b, 8 * r);
    MulMonotone(b, 255, Pow(256, r));
    BaseIsPower();
    PowMonotone(256, r + 1, 8);
  }

  lemma PrependByte(bytes: seq<Byte>, i: nat)
    requires i < |bytes|
    ensures BigEndian(bytes[|bytes| - i - 1..])
         == BigEndian(bytes[|bytes| - i..]) + bytes[|bytes| - 1 - i] * Pow(256, i % 8) * Pow(BASE, i / 8)
  {
    var n := |bytes|;
    var b := bytes[n - 1 - i];
    assert bytes[n - i - 1..] == [b] + bytes[n - i..];
    BigEndianConcat([b], bytes[n - i..]);
    assert BigEndian([b]) == b;
    BaseIsPower();
    PowMul(256, 8, i / 8);
    PowAdd(256, i % 8, 8 * (i / 8));
    MulAssoc(b, Pow(256, i % 8), Pow(BASE, i / 8));
  }

  lemma {:induction false} ValueTruncate(s: seq<Word>, l: nat)
    requires l <= |s|
    ensures Pow(BASE, l) > 0 && Value(s[..l]) == Value(s) % Pow(BASE, l)
  {
    PowPositive(BASE, l);
    var p := Pow(BASE, l);
    if l == |s| {
      assert s[..l] == s;
      ValueBound(s);
      ModSelf(Value(s), p);
    } else {
      var k := |s| - 1;
      ValueTruncate(s[..k], l);
      assert s[..k][..l] == s[..l];
      PowAdd(BASE, k - l, l);
      MulAssoc(s[k], Pow(BASE, k - l), p);
      ModMultiple(Value(s[..k]), s[k] * Pow(BASE, k - l), p);
    }
  }

  /** A fresh buffer holding `s`. */
  method Buffer(s: seq<Word>) returns (a: array<Word>)
    ensures fresh(a) && a[..] == s
  {
    a := new Word[|s|](i requires 0 <= i < |s| => s[i]);
  }

  /** `subtract`: a − b in place over b's limbs; the borrow says whether it went below zero. */
  method Subtract(a: array<Word>, b: seq<Word>) returns (borrow: bool)
    requires |b| <= a.Length
    modifies a
    ensures Subtracted(a[..], old(a[..]), b, |b|, borrow)
  {
    hide Value, Pow;
    borrow := false;
    ghost var before := a[..];
    ValueNone(before);
    ValueNone(b);
    var i := 0;
    while i < |b|
      invariant 0 <= i <= |b|
      invariant Subtracted(a[..], before, b, i, borrow)
    {
      ghost var now, was := a[..], borrow;
      var d1, b1 := (a[i] - b[i]) % BASE, a[i] < b[i];
      var y := if borrow then 1 else 0;
      var d2, b2 := (d1 - y) % BASE, d1 < y;
      a[i], borrow := d2, b1 || b2;
      assert a[..] == now[i := d2];
      BorrowStep(now, before, b, i, was);
      i := i + 1;
    }
  }

  /** The first i limbs of b are taken from a, up to the borrow. */
  ghost predicate Subtracted(a: seq<Word>, before: seq<Word>, b: seq<Word>, i: nat, borrow: bool)
  {
    && i <= |b| <= |a| == |before|
    && Value(a[..i]) == Value(before[..i]) - Value(b[..i]) + (if borrow then Pow(BASE, i) else 0)
    && a[i..] == before[i..]
  }

  lemma BorrowStep(a: seq<Word>, before: seq<Word>, b: seq<Word>, i: nat, borrow: bool)
    requires i < |b| && Subtracted(a, before, b, i, borrow)
    ensures var y := if borrow then 1 else 0;
            var d1 := (a[i] - b[i]) % BASE;
            var d2 := (d1 - y) % BASE;
            Subtracted(a[i := d2], before, b, i + 1, a[i] < b[i] || d1 < y)
  {
    hide Value, Pow;
    var y: int := if borrow then 1 else 0;
    var d1 := (a[i] - b[i]) % BASE;
    var d2 := (d1 - y) % BASE;
    var out: int := if a[i] < b[i] || d1 < y then BASE else 0;
    assert d2 == a[i] - b[i] - y + out;
    var a' := a[i := d2];
    assert a[i] == before[i] by { assert a[i] == a[i..][0]; }
    assert a'[..i] == a[..i] && a'[i + 1..] == before[i + 1..] by { assert a'[i + 1..] == a[i..][1..]; }
    ValueSnoc(a', i);
    ValueSnoc(before, i);
    ValueSnoc(b, i);
    Distribute4(a[i], b[i], y, out, Pow(BASE, i));
    PowStep(BASE, i);
  }

  lemma Distribute4(x: int, y: int, z: int, w: int, p: int)
    ensures (x - y - z + w) * p == x * p - y * p - z * p + w * p
  {}

  /** Multiples of 2⁶⁴ do not reach a field inside the word. */
  lemma FieldOfLow(x: int, h: int, r: nat, w: nat)
    requires r + w <= 64
    ensures Pow(2, r) > 0 && Pow(2, w) > 0
    ensures (x + h * BASE) / Pow(2, r) % Pow(2, w) == x / Pow(2, r) % Pow(2, w)
  {
    PowPositive(2, r);
    PowPositive(2, w);
    var q, m, g := Pow(2, r), Pow(2, w), Pow(2, 64 - r - w);
    BaseIsPower();
    PowAdd(2, w, 64 - r - w);
    PowAdd(2, r, 64 - r);
    assert BASE == q * (m * g);
    Rearrange(h, q, m, g);
    DivAddMultiple(x, (h * g) * m, q);
    ModMultiple(x / q, h * g, m);
  }

  lemma Rearrange(h: int, q: int, m: int, g: int)
    ensures h * (q * (m * g)) == ((h * g) * m) * q
  {
    assert h * (q * (m * g)) == (h * (m * g)) * q;
    assert h * (m * g) == (h * g) * m;
  }

  /** The number little-endian bytes stand for. */
  function LittleEndian(s: seq<Byte>): int
  {
    if s == [] then 0 else s[0] + 256 * LittleEndian(s[1..])
  }

  lemma {:induction false} LittleEndianBound(s: seq<Byte>)
    ensures 0 <= LittleEndian(s) < Pow(256, |s|)
  {
    if s != [] { LittleEndianBound(s[1..]); }
  }

  lemma {:induction false} LittleEndianConcat(s: seq<Byte>, t: seq<Byte>)
    ensures LittleEndian(s + t) == LittleEndian(s) + Pow(256, |s|) * LittleEndian(t)
  {
    if s == [] {
      assert s + t == t;
    } else {
      LittleEndianConcat(s[1..], t);
      assert (s + t)[1..] == s[1..] + t;
      MulAssoc(256, Pow(256, |s| - 1), LittleEndian(t));
    }
  }

  /** The low k bytes of w, little-endian. */
  function LittleBytes(w: nat, k: nat): (r: seq<Byte>)
    ensures |r| == k
  {
    if k == 0 then [] else [w % 256] + LittleBytes(w / 256, k - 1)
  }

  lemma {:induction false} LittleBytesValue(w: nat, k: nat)
    requires w < Pow(256, k)
    ensures LittleEndian(LittleBytes(w, k)) == w
  {
    if k > 0 {
      LittleBytesValue(w / 256, k - 1);
      assert LittleBytes(w, k)[1..] == LittleBytes(w / 256, k - 1);
    }
  }

  lemma LittleCut(s: seq<Byte>, k: nat)
    requires k <= |s|
    ensures Pow(256, k) > 0
    ensures LittleEndian(s[..k]) == LittleEndian(s) % Pow(256, k)
    ensures LittleEndian(s[k..]) == LittleEndian(s) / Pow(256, k)
  {
    assert s == s[..k] + s[k..];
    LittleEndianConcat(s[..k], s[k..]);
    LittleEndianBound(s[..k]);
    var low, high, p := LittleEndian(s[..k]), LittleEndian(s[k..]), Pow(256, k);
    assert |s[..k]| == k;
    assert LittleEndian(s) == low + p * high;
    assert p * high == high * p;
    DivModUnique(high * p + low, high, low, p);
  }

  /** A slice of little-endian bytes is that part of the number. */
  lemma LittleSlice(s: seq<Byte>, i: nat, k: nat)
    requires i + k <= |s|
    ensures Pow(256, i) > 0 && Pow(256, k) > 0
    ensures LittleEndian(s[i..i + k]) == LittleEndian(s) / Pow(256, i) % Pow(256, k)
  {
    LittleCut(s, i);
    LittleCut(s[i..], k);
    assert s[i..][..k] == s[i..i + k];
  }
}

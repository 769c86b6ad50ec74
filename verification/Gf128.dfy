/**
 * The field GF(2^128) of GCM: the shift-and-add product that NIST SP 800-38D
 * defines, and the laws that GHASH rests on. A block is the big-endian number
 * of its sixteen bytes, so that its top bit is the coefficient of x^0.
 */
module Gf128 {
  type Block = bv128

  const ONE: Block := 0x8000_0000_0000_0000_0000_0000_0000_0000
  const R: Block := 0xe100_0000_0000_0000_0000_0000_0000_0000

  function Add(a: Block, b: Block): Block { a ^ b }

  function Half(v: Block): Block { v >> 1 }

  function Twice(v: Block): Block { v << 1 }

  predicate Odd(v: Block) { v & 1 == 1 }

  predicate Leads(x: Block) { x & 0x8000_0000_0000_0000_0000_0000_0000_0000 != 0 }

  /** v times x, reduced modulo x^128 + x^7 + x^2 + x + 1. */
  function XTimes(v: Block): Block {
    if Odd(v) then Add(Half(v), R) else Half(v)
  }

  /** v when the leading bit of x is set, and zero otherwise. */
  function Leading(x: Block, v: Block): Block {
    if Leads(x) then v else 0
  }

  /** Sums v, v·x, v·x^2, ... over the leading n bits of x. */
  function MulBits(x: Block, v: Block, n: nat): Block
    decreases n
  {
    if n == 0 then 0 else Add(Leading(x, v), MulBits(Twice(x), XTimes(v), n - 1))
  }

  /** Section 6.3 of NIST SP 800-38D: the product of two blocks. */
  function Mul(x: Block, y: Block): Block {
    MulBits(x, y, 128)
  }

  function XPow(v: Block, k: nat): Block
    decreases k
  {
    if k == 0 then v else XPow(XTimes(v), k - 1)
  }

  function Shl(x: Block, k: nat): Block
    decreases k
  {
    if k == 0 then x else Shl(Twice(x), k - 1)
  }

  // ------------------------------------------------------------------
  // Bits
  // ------------------------------------------------------------------

  lemma AddCommutes(a: Block, b: Block)
    ensures Add(a, b) == Add(b, a)
  {}

  lemma AddIsXor(a: Block, b: Block)
    ensures Add(a, b) == a ^ b
  {}

  lemma XorAssociates(a: Block, b: Block, c: Block)
    ensures Add(a ^ b, c) == Add(a, b ^ c)
  {}

  lemma AddAssociates(a: Block, b: Block, c: Block)
    ensures Add(Add(a, b), c) == Add(a, Add(b, c))
  {
    hide Add;
    XorAssociates(a, b, c);
    AddIsXor(a, b);
    AddIsXor(b, c);
  }

  lemma AddZero(a: Block)
    ensures Add(a, 0) == a && Add(0, a) == a && Add(a, a) == 0
  {}

  lemma AddSwap(a: Block, b: Block, c: Block, d: Block)
    ensures Add(Add(a, b), Add(c, d)) == Add(Add(a, c), Add(b, d))
  {
    hide Add;
    AddAssociates(a, b, Add(c, d));
    AddAssociates(b, c, d);
    AddCommutes(b, c);
    AddAssociates(c, b, d);
    AddAssociates(a, c, Add(b, d));
  }

  lemma ShiftXor(v: Block, w: Block)
    ensures (v ^ w) >> 1 == Add(v >> 1, w >> 1)
    ensures (v ^ w) << 1 == Add(v << 1, w << 1)
  {}

  lemma HalfAdd(v: Block, w: Block)
    ensures Half(Add(v, w)) == Add(Half(v), Half(w))
  {
    hide Add;
    ShiftXor(v, w);
    AddIsXor(v, w);
  }

  lemma TwiceAdd(v: Block, w: Block)
    ensures Twice(Add(v, w)) == Add(Twice(v), Twice(w))
  {
    hide Add;
    ShiftXor(v, w);
    AddIsXor(v, w);
  }

  lemma LowBit(v: Block)
    ensures v & 1 == 0 || v & 1 == 1
  {}

  lemma LowXor(v: Block, w: Block)
    ensures (v ^ w) & 1 == (v & 1) ^ (w & 1)
  {}

  lemma OddAdd(v: Block, w: Block)
    ensures Odd(Add(v, w)) == (Odd(v) != Odd(w))
  {
    LowBit(v);
    LowBit(w);
    LowXor(v, w);
  }

  lemma TopBit(v: Block)
    ensures v & 0x8000_0000_0000_0000_0000_0000_0000_0000 == 0 || v & 0x8000_0000_0000_0000_0000_0000_0000_0000 == 0x8000_0000_0000_0000_0000_0000_0000_0000
  {}

  lemma TopXor(v: Block, w: Block)
    ensures (v ^ w) & 0x8000_0000_0000_0000_0000_0000_0000_0000
         == (v & 0x8000_0000_0000_0000_0000_0000_0000_0000) ^ (w & 0x8000_0000_0000_0000_0000_0000_0000_0000)
  {}

  lemma LeadsAdd(v: Block, w: Block)
    ensures Leads(Add(v, w)) == (Leads(v) != Leads(w))
  {
    TopBit(v);
    TopBit(w);
    TopXor(v, w);
  }

  // ------------------------------------------------------------------
  // The product is linear in both operands and commutes with x
  // ------------------------------------------------------------------

  lemma XTimesAdd(v: Block, w: Block)
    ensures XTimes(Add(v, w)) == Add(XTimes(v), XTimes(w))
  {
    hide Add, Half, Odd;
    OddAdd(v, w);
    HalfAdd(v, w);
    var a, b := Half(v), Half(w);
    AddSwap(a, R, b, R);
    AddZero(R);
    AddZero(Add(a, b));
    AddAssociates(a, b, R);
    AddAssociates(a, R, b);
    AddCommutes(R, b);
  }

  lemma LeadingAdd(x: Block, y: Block, v: Block)
    ensures Leading(Add(x, y), v) == Add(Leading(x, v), Leading(y, v))
  {
    hide Add, Leads;
    LeadsAdd(x, y);
    if Leads(x) || Leads(y) {
      AddZero(v);
    } else {
      AddZero(0);
    }
  }

  lemma LeadingAddRight(x: Block, v: Block, w: Block)
    ensures Leading(x, Add(v, w)) == Add(Leading(x, v), Leading(x, w))
  {
    hide Add, Leads;
    AddZero(0);
  }

  lemma XTimesZero()
    ensures XTimes(0) == 0
  {}

  lemma {:induction false} MulBitsAddRight(x: Block, v: Block, w: Block, n: nat)
    ensures MulBits(x, Add(v, w), n) == Add(MulBits(x, v, n), MulBits(x, w, n))
    decreases n
  {
    hide XTimes, Leading, Add, Twice;
    if n == 0 {
      AddZero(0);
    } else {
      XTimesAdd(v, w);
      LeadingAddRight(x, v, w);
      MulBitsAddRight(Twice(x), XTimes(v), XTimes(w), n - 1);
      AddSwap(Leading(x, v), Leading(x, w), MulBits(Twice(x), XTimes(v), n - 1), MulBits(Twice(x), XTimes(w), n - 1));
    }
  }

  lemma {:induction false} MulBitsAddLeft(x: Block, y: Block, v: Block, n: nat)
    ensures MulBits(Add(x, y), v, n) == Add(MulBits(x, v, n), MulBits(y, v, n))
    decreases n
  {
    hide XTimes, Leading, Add, Twice;
    if n == 0 {
      AddZero(0);
    } else {
      LeadingAdd(x, y, v);
      TwiceAdd(x, y);
      MulBitsAddLeft(Twice(x), Twice(y), XTimes(v), n - 1);
      AddSwap(Leading(x, v), Leading(y, v), MulBits(Twice(x), XTimes(v), n - 1), MulBits(Twice(y), XTimes(v), n - 1));
    }
  }

  lemma {:induction false} MulBitsXTimes(x: Block, v: Block, n: nat)
    ensures MulBits(x, XTimes(v), n) == XTimes(MulBits(x, v, n))
    decreases n
  {
    hide XTimes, Add, Twice, Leads;
    XTimesZero();
    if n > 0 {
      MulBitsXTimes(Twice(x), XTimes(v), n - 1);
      XTimesAdd(Leading(x, v), MulBits(Twice(x), XTimes(v), n - 1));
    }
  }

  lemma {:induction false} MulBitsXPow(x: Block, v: Block, n: nat, k: nat)
    ensures MulBits(x, XPow(v, k), n) == XPow(MulBits(x, v, n), k)
    decreases k
  {
    hide XTimes, MulBits;
    if k > 0 {
      MulBitsXPow(x, XTimes(v), n, k - 1);
      MulBitsXTimes(x, v, n);
    }
  }

  /** The leading m bits, then the n after them. */
  lemma {:induction false} MulBitsSplit(x: Block, v: Block, m: nat, n: nat)
    ensures MulBits(x, v, m + n) == Add(MulBits(x, v, m), MulBits(Shl(x, m), XPow(v, m), n))
    decreases m
  {
    hide XTimes, Leading, Add, Twice;
    if m == 0 {
      AddZero(MulBits(x, v, n));
    } else {
      MulBitsSplit(Twice(x), XTimes(v), m - 1, n);
      AddAssociates(Leading(x, v), MulBits(Twice(x), XTimes(v), m - 1), MulBits(Shl(x, m), XPow(v, m), n));
    }
  }

  lemma {:induction false} ShlSum(x: Block, m: nat, n: nat)
    ensures Shl(x, m + n) == Shl(Shl(x, m), n)
    decreases m
  {
    hide Twice;
    if m > 0 {
      ShlSum(Twice(x), m - 1, n);
    }
  }

  lemma {:induction false} XPowSum(v: Block, m: nat, n: nat)
    ensures XPow(v, m + n) == XPow(XPow(v, m), n)
    decreases m
  {
    hide XTimes;
    if m > 0 {
      XPowSum(XTimes(v), m - 1, n);
    }
  }

  // ------------------------------------------------------------------
  // Shifts by a power of two
  // ------------------------------------------------------------------

  /** Multiplying v by x n times needs no reduction. */
  predicate EvenFor(v: Block, n: nat)
    decreases n
  {
    n == 0 || (!Odd(v) && EvenFor(XTimes(v), n - 1))
  }

  lemma {:induction false} EvenForSum(v: Block, m: nat, n: nat)
    ensures EvenFor(v, m + n) == (EvenFor(v, m) && EvenFor(XPow(v, m), n))
    decreases m
  {
    hide XTimes, Odd;
    if m > 0 {
      EvenForSum(XTimes(v), m - 1, n);
    }
  }

  lemma Shl1(v: Block)
    ensures Shl(v, 1) == v << 1
  {
    assert Shl(v, 1) == Shl(Twice(v), 0);
  }

  lemma ShlTwice(v: Block, w: Block, u: Block, k: nat)
    requires Shl(v, k) == w && Shl(w, k) == u
    ensures Shl(v, 2 * k) == u
  {
    ShlSum(v, k, k);
  }

  lemma Even1(v: Block)
    requires v & 0x1 == 0
    ensures EvenFor(v, 1) && XPow(v, 1) == v >> 1
  {
    assert XPow(v, 1) == XPow(XTimes(v), 0);
  }

  lemma Shl2(v: Block)
    ensures Shl(v, 2) == v << 2
  {
    hide Shl;
    Shl1(v);
    Shl1(v << 1);
    ShlTwice(v, v << 1, (v << 1) << 1, 1);
  }

  lemma Even2(v: Block)
    requires v & 0x3 == 0
    ensures EvenFor(v, 2) && XPow(v, 2) == v >> 2
  {
    hide XPow, EvenFor;
    assert v & 0x1 == 0 && (v >> 1) & 0x1 == 0;
    XPowSum(v, 1, 1);
    EvenForSum(v, 1, 1);
    Even1(v);
    Even1(v >> 1);
  }

  lemma Shl4(v: Block)
    ensures Shl(v, 4) == v << 4
  {
    hide Shl;
    Shl2(v);
    Shl2(v << 2);
    ShlTwice(v, v << 2, (v << 2) << 2, 2);
  }

  lemma Even4(v: Block)
    requires v & 0xf == 0
    ensures EvenFor(v, 4) && XPow(v, 4) == v >> 4
  {
    hide XPow, EvenFor;
    assert v & 0x3 == 0 && (v >> 2) & 0x3 == 0;
    XPowSum(v, 2, 2);
    EvenForSum(v, 2, 2);
    Even2(v);
    Even2(v >> 2);
  }

  lemma Shl8(v: Block)
    ensures Shl(v, 8) == v << 8
  {
    hide Shl;
    Shl4(v);
    Shl4(v << 4);
    ShlTwice(v, v << 4, (v << 4) << 4, 4);
  }

  lemma Even8(v: Block)
    requires v & 0xff == 0
    ensures EvenFor(v, 8) && XPow(v, 8) == v >> 8
  {
    hide XPow, EvenFor;
    assert v & 0xf == 0 && (v >> 4) & 0xf == 0;
    XPowSum(v, 4, 4);
    EvenForSum(v, 4, 4);
    Even4(v);
    Even4(v >> 4);
  }

  lemma Shl16(v: Block)
    ensures Shl(v, 16) == v << 16
  {
    hide Shl;
    Shl8(v);
    Shl8(v << 8);
    ShlTwice(v, v << 8, (v << 8) << 8, 8);
  }

  lemma Even16(v: Block)
    requires v & 0xffff == 0
    ensures EvenFor(v, 16) && XPow(v, 16) == v >> 16
  {
    hide XPow, EvenFor;
    assert v & 0xff == 0 && (v >> 8) & 0xff == 0;
    XPowSum(v, 8, 8);
    EvenForSum(v, 8, 8);
    Even8(v);
    Even8(v >> 8);
  }

  lemma Shl32(v: Block)
    ensures Shl(v, 32) == v << 32
  {
    hide Shl;
    Shl16(v);
    Shl16(v << 16);
    ShlTwice(v, v << 16, (v << 16) << 16, 16);
  }

  lemma Even32(v: Block)
    requires v & 0xffffffff == 0
    ensures EvenFor(v, 32) && XPow(v, 32) == v >> 32
  {
    hide XPow, EvenFor;
    assert v & 0xffff == 0 && (v >> 16) & 0xffff == 0;
    XPowSum(v, 16, 16);
    EvenForSum(v, 16, 16);
    Even16(v);
    Even16(v >> 16);
  }

  lemma Shl64(v: Block)
    ensures Shl(v, 64) == v << 64
  {
    hide Shl;
    Shl32(v);
    Shl32(v << 32);
    ShlTwice(v, v << 32, (v << 32) << 32, 32);
  }

  lemma Even64(v: Block)
    requires v & 0xffffffffffffffff == 0
    ensures EvenFor(v, 64) && XPow(v, 64) == v >> 64
  {
    hide XPow, EvenFor;
    assert v & 0xffffffff == 0 && (v >> 32) & 0xffffffff == 0;
    XPowSum(v, 32, 32);
    EvenForSum(v, 32, 32);
    Even32(v);
    Even32(v >> 32);
  }

  lemma ShlAll(x: Block)
    ensures Shl(x, 128) == 0
  {
    hide Shl;
    ShlSum(x, 64, 64);
    Shl64(x);
    Shl64(x << 64);
  }

  /** x^127 is the last bit and x^128 is R. */
  lemma UnitPowers()
    ensures EvenFor(ONE, 127) && XPow(ONE, 127) == 1
    ensures XPow(ONE, 128) == R
  {
    hide Shl, XPow, EvenFor;
    XPowSum(ONE, 64, 63); EvenForSum(ONE, 64, 63); Even64(ONE);
    var a: Block := ONE >> 64;
    XPowSum(a, 32, 31); EvenForSum(a, 32, 31); Even32(a);
    var b: Block := a >> 32;
    XPowSum(b, 16, 15); EvenForSum(b, 16, 15); Even16(b);
    var c: Block := b >> 16;
    XPowSum(c, 8, 7); EvenForSum(c, 8, 7); Even8(c);
    var d: Block := c >> 8;
    XPowSum(d, 4, 3); EvenForSum(d, 4, 3); Even4(d);
    var e: Block := d >> 4;
    XPowSum(e, 2, 1); EvenForSum(e, 2, 1); Even2(e);
    Even1(e >> 2);
    XPowSum(ONE, 127, 1);
    XPowOne(1);
  }

  lemma XPowOne(v: Block)
    ensures XPow(v, 1) == XTimes(v)
  {
    assert XPow(v, 1) == XPow(XTimes(v), 0);
  }

  // ------------------------------------------------------------------
  // A commutative ring
  // ------------------------------------------------------------------

  lemma DropTop(x: Block)
    requires x & 0x8000_0000_0000_0000_0000_0000_0000_0000 == 0x8000_0000_0000_0000_0000_0000_0000_0000
    ensures Add(ONE, Half(Twice(x))) == x
  {}

  lemma DropNone(x: Block)
    requires x & 0x8000_0000_0000_0000_0000_0000_0000_0000 == 0
    ensures Half(Twice(x)) == x
  {}

  lemma TwiceEven(x: Block)
    ensures !Odd(Twice(x))
  {}

  lemma DropLeading(x: Block)
    ensures Add(Leading(x, ONE), Half(Twice(x))) == x
  {
    hide Add, Half, Twice;
    TopBit(x);
    if Leads(x) {
      DropTop(x);
    } else {
      DropNone(x);
      AddZero(x);
    }
  }

  lemma {:induction false} TopBits(x: Block, n: nat)
    requires Shl(x, n) == 0
    ensures MulBits(x, ONE, n) == x
    decreases n
  {
    hide Add, Twice, Half, Odd, Leading;
    if n > 0 {
      TopBits(Twice(x), n - 1);
      MulBitsXTimes(Twice(x), ONE, n - 1);
      DropLeading(x);
      TwiceEven(x);
    }
  }

  /** One on the right. */
  lemma MulOneRight(x: Block)
    ensures Mul(x, ONE) == x
  {
    hide MulBits, Shl;
    ShlAll(x);
    TopBits(x, 128);
  }

  lemma {:induction false} MulBitsZero(v: Block, n: nat)
    ensures MulBits(0, v, n) == 0
    decreases n
  {
    hide XTimes, Add;
    if n > 0 {
      MulBitsZero(XTimes(v), n - 1);
      AddZero(0);
    }
  }

  lemma UnitBits()
    ensures Leads(ONE) && Twice(ONE) == 0
  {}

  /** One on the left. */
  lemma MulOneLeft(c: Block)
    ensures Mul(ONE, c) == c
  {
    hide XTimes, Add, Twice, Leads;
    UnitBits();
    MulBitsZero(XTimes(c), 127);
    AddZero(c);
  }

  lemma LastBit(y: Block)
    requires !Odd(y)
    ensures !Leads(y << 64 << 32 << 16 << 8 << 4 << 2 << 1)
  {}

  lemma EvenLastBit(y: Block)
    requires !Odd(y)
    ensures !Leads(Shl(y, 127))
  {
    hide Shl, Leads, Odd;
    LastBit(y);
    ShlSum(y, 64, 63); Shl64(y);
    var a := y << 64;
    ShlSum(a, 32, 31); Shl32(a);
    var b := a << 32;
    ShlSum(b, 16, 15); Shl16(b);
    var c := b << 16;
    ShlSum(c, 8, 7); Shl8(c);
    var d := c << 8;
    ShlSum(d, 4, 3); Shl4(d);
    var e := d << 4;
    ShlSum(e, 2, 1); Shl2(e);
    Shl1(e << 2);
  }

  lemma HalfBits(y: Block)
    requires !Odd(y)
    ensures !Leads(Half(y)) && Twice(Half(y)) == y
  {}

  lemma MulBitsOne(x: Block, v: Block)
    ensures MulBits(x, v, 1) == Leading(x, v)
  {
    hide Leading, Add;
    assert MulBits(Twice(x), XTimes(v), 0) == 0;
    AddZero(Leading(x, v));
  }

  /** Halving an even left operand multiplies the product by x. */
  lemma MulHalf(y: Block, c: Block)
    requires !Odd(y)
    ensures Mul(Half(y), c) == XTimes(Mul(y, c))
  {
    hide XTimes, Add, Twice, Leads, Half, Odd, Shl, XPow;
    var w := XTimes(c);
    HalfBits(y);
    AddZero(MulBits(y, w, 127));
    assert Mul(Half(y), c) == MulBits(y, w, 127);
    MulBitsSplit(y, w, 127, 1);
    EvenLastBit(y);
    MulBitsOne(Shl(y, 127), XPow(w, 127));
    assert Mul(y, w) == MulBits(y, w, 127);
    MulBitsXTimes(y, c, 128);
  }

  lemma {:induction false} MulPower(v: Block, c: Block, n: nat)
    requires EvenFor(v, n)
    ensures Mul(XPow(v, n), c) == XPow(Mul(v, c), n)
    decreases n
  {
    hide Mul, Odd, Half;
    if n > 0 {
      MulHalf(v, c);
      MulPower(XTimes(v), c, n - 1);
    }
  }

  /** 1 + x + x^2 + x^7 applied to c. */
  function Fold(c: Block): Block {
    Add(Add(c, XTimes(c)), Add(XPow(c, 2), XPow(c, 7)))
  }

  lemma FoldOne()
    ensures Fold(ONE) == R
    ensures EvenFor(ONE, 1) && EvenFor(ONE, 2) && EvenFor(ONE, 7)
  {
    XPowSum(ONE, 4, 3); EvenForSum(ONE, 4, 3); Even4(ONE);
    var d: Block := ONE >> 4;
    XPowSum(d, 2, 1); EvenForSum(d, 2, 1); Even2(d);
    Even1(d >> 2);
    Even2(ONE);
    Even1(ONE);
  }

  lemma MulFold(x: Block, v: Block)
    ensures Mul(x, Fold(v)) == Fold(Mul(x, v))
  {
    hide Add, XTimes, XPow, MulBits;
    MulBitsAddRight(x, Add(v, XTimes(v)), Add(XPow(v, 2), XPow(v, 7)), 128);
    MulBitsAddRight(x, v, XTimes(v), 128);
    MulBitsAddRight(x, XPow(v, 2), XPow(v, 7), 128);
    MulBitsXTimes(x, v, 128);
    MulBitsXPow(x, v, 128, 2);
    MulBitsXPow(x, v, 128, 7);
  }

  /** x^128 = 1 + x + x^2 + x^7. */
  lemma Reduction(c: Block)
    ensures XPow(c, 128) == Fold(c) == Mul(R, c)
  {
    hide Add, XTimes, XPow, MulBits, EvenFor, Fold;
    UnitPowers();
    FoldOne();
    MulOneRight(c);
    MulBitsXPow(c, ONE, 128, 128);
    MulFold(c, ONE);
    FoldLeft(c);
  }

  lemma FoldLeft(c: Block)
    ensures Mul(Fold(ONE), c) == Fold(c)
  {
    hide Add, XTimes, XPow, MulBits, EvenFor;
    FoldOne();
    MulOneLeft(c);
    MulBitsAddLeft(Add(ONE, XTimes(ONE)), Add(XPow(ONE, 2), XPow(ONE, 7)), c, 128);
    MulBitsAddLeft(ONE, XTimes(ONE), c, 128);
    MulBitsAddLeft(XPow(ONE, 2), XPow(ONE, 7), c, 128);
    XPowOne(ONE);
    XPowOne(c);
    MulPower(ONE, c, 1);
    MulPower(ONE, c, 2);
    MulPower(ONE, c, 7);
  }

  lemma OddParts(x: Block)
    requires Odd(x)
    ensures !Odd(Add(x, 1)) && Half(Add(x, 1)) == Half(x) && x == Add(Add(x, 1), 1)
  {
    hide Add;
    OddAdd(x, 1);
    HalfAdd(x, 1);
    AddZero(Half(x));
    AddAssociates(x, 1, 1);
    AddZero(1);
    AddZero(x);
  }

  /** Multiplying the left operand by x multiplies the product by x. */
  lemma MulXTimes(x: Block, c: Block)
    ensures Mul(XTimes(x), c) == XTimes(Mul(x, c))
  {
    hide Add, XPow, MulBits, EvenFor, Fold, Odd, Half;
    if !Odd(x) {
      MulHalf(x, c);
    } else {
      hide XTimes;
      var y := Add(x, 1);
      OddParts(x);
      MulHalf(y, c);
      assert XTimes(x) == Add(Half(y), R) by { XTimesOdd(x); }
      MulBitsAddLeft(Half(y), R, c, 128);
      MulBitsAddLeft(y, 1, c, 128);
      XTimesAdd(Mul(y, c), Mul(1, c));
      UnitPowers();
      MulPower(ONE, c, 127);
      MulOneLeft(c);
      XPowSum(c, 127, 1);
      XPowOne(XPow(c, 127));
      Reduction(c);
    }
  }

  lemma XTimesOdd(x: Block)
    requires Odd(x)
    ensures XTimes(x) == Add(Half(x), R)
  {}

  lemma {:induction false} MulBitsMul(x: Block, y: Block, z: Block, n: nat)
    ensures Mul(MulBits(x, y, n), z) == MulBits(x, Mul(y, z), n)
    decreases n
  {
    hide Add, XTimes, Twice, Leads, Mul;
    MulZeroLeft(z);
    if n > 0 {
      MulXTimes(y, z);
      MulBitsMul(Twice(x), XTimes(y), z, n - 1);
      MulAddLeft(Leading(x, y), MulBits(Twice(x), XTimes(y), n - 1), z);
    }
  }

  lemma {:induction false} MulMulBits(y: Block, x: Block, v: Block, n: nat)
    ensures Mul(y, MulBits(x, v, n)) == MulBits(x, Mul(y, v), n)
    decreases n
  {
    hide Add, XTimes, Twice, Leads, Mul;
    MulZeroRight(y);
    if n > 0 {
      MulXTimesRight(y, v);
      MulMulBits(y, Twice(x), XTimes(v), n - 1);
      MulAddRight(y, Leading(x, v), MulBits(Twice(x), XTimes(v), n - 1));
    }
  }

  lemma MulXTimesRight(x: Block, c: Block)
    ensures Mul(x, XTimes(c)) == XTimes(Mul(x, c))
  {
    MulBitsXTimes(x, c, 128);
  }

  lemma MulZeroLeft(z: Block)
    ensures Mul(0, z) == 0
  {
    MulBitsZero(z, 128);
  }

  lemma MulZeroRight(y: Block)
    ensures Mul(y, 0) == 0
  {
    hide MulBits, Add;
    MulBitsAddRight(y, 0, 0, 128);
    AddZero(0);
    AddZero(Mul(y, 0));
  }

  lemma MulAddLeft(x: Block, y: Block, z: Block)
    ensures Mul(Add(x, y), z) == Add(Mul(x, z), Mul(y, z))
  {
    MulBitsAddLeft(x, y, z, 128);
  }

  lemma MulAddRight(x: Block, y: Block, z: Block)
    ensures Mul(x, Add(y, z)) == Add(Mul(x, y), Mul(x, z))
  {
    MulBitsAddRight(x, y, z, 128);
  }

  lemma MulAssociates(x: Block, y: Block, z: Block)
    ensures Mul(Mul(x, y), z) == Mul(x, Mul(y, z))
  {
    hide MulBits;
    MulBitsMul(x, y, z, 128);
  }

  lemma MulCommutes(x: Block, y: Block)
    ensures Mul(x, y) == Mul(y, x)
  {
    hide MulBits;
    MulMulBits(y, x, ONE, 128);
    MulOneRight(x);
    MulOneRight(y);
  }
}

/**
 * The multiplication of net/aes_gcm.rs: four 64-bit carry-less products whose
 * 256-bit sum is shifted left by one and folded twice. It equals the product
 * that NIST SP 800-38D defines bit by bit.
 */
module Clmul {
  import G = Gf128
  type Block = G.Block
  type Wide = bv256

  function Sum(v: Wide, w: Wide): Wide { v ^ w }

  function Down(v: Wide): Wide { v >> 1 }

  predicate Odd(v: Wide) { v & 1 == 1 }

  function Leading(x: Block, v: Wide): Wide {
    if G.Leads(x) then v else 0
  }

  /** Sums v, v / 2, v / 4, ... over the leading n bits of x, without carries. */
  function Poly(x: Block, v: Wide, n: nat): Wide
    decreases n
  {
    if n == 0 then 0 else Sum(Leading(x, v), Poly(G.Twice(x), Down(v), n - 1))
  }

  function DownBy(v: Wide, k: nat): Wide
    decreases k
  {
    if k == 0 then v else DownBy(Down(v), k - 1)
  }

  /** The last n bits of v are clear. */
  predicate EvenFor(v: Wide, n: nat)
    decreases n
  {
    n == 0 || (!Odd(v) && EvenFor(Down(v), n - 1))
  }

  // ------------------------------------------------------------------
  // Bits
  // ------------------------------------------------------------------

  lemma SumIsXor(a: Wide, b: Wide)
    ensures Sum(a, b) == a ^ b
  {}

  lemma SumCommutes(a: Wide, b: Wide)
    ensures Sum(a, b) == Sum(b, a)
  {}

  lemma SumXor(a: Wide, b: Wide, c: Wide)
    ensures Sum(a ^ b, c) == Sum(a, b ^ c)
  {}

  lemma SumAssociates(a: Wide, b: Wide, c: Wide)
    ensures Sum(Sum(a, b), c) == Sum(a, Sum(b, c))
  {
    hide Sum;
    SumXor(a, b, c);
    SumIsXor(a, b);
    SumIsXor(b, c);
  }

  lemma SumZero(a: Wide)
    ensures Sum(a, 0) == a && Sum(0, a) == a
  {}

  lemma SumSwap(a: Wide, b: Wide, c: Wide, d: Wide)
    ensures Sum(Sum(a, b), Sum(c, d)) == Sum(Sum(a, c), Sum(b, d))
  {
    hide Sum;
    SumAssociates(a, b, Sum(c, d));
    SumAssociates(b, c, d);
    SumCommutes(b, c);
    SumAssociates(c, b, d);
    SumAssociates(a, c, Sum(b, d));
  }

  lemma DownXor(v: Wide, w: Wide)
    ensures (v ^ w) >> 1 == Sum(v >> 1, w >> 1)
  {}

  lemma DownSum(v: Wide, w: Wide)
    ensures Down(Sum(v, w)) == Sum(Down(v), Down(w))
  {
    hide Sum;
    DownXor(v, w);
    SumIsXor(v, w);
  }

  lemma {:induction false} DownBySum(v: Wide, m: nat, n: nat)
    ensures DownBy(v, m + n) == DownBy(DownBy(v, m), n)
    decreases m
  {
    hide Down;
    if m > 0 {
      DownBySum(Down(v), m - 1, n);
    }
  }

  lemma {:induction false} EvenForSum(v: Wide, m: nat, n: nat)
    ensures EvenFor(v, m + n) == (EvenFor(v, m) && EvenFor(DownBy(v, m), n))
    decreases m
  {
    hide Down, Odd;
    if m > 0 {
      EvenForSum(Down(v), m - 1, n);
    }
  }

  lemma Clear1(v: Wide)
    requires v & 0x1 == 0
    ensures EvenFor(v, 1) && DownBy(v, 1) == v >> 1
  {
    assert DownBy(v, 1) == DownBy(Down(v), 0);
  }

  lemma Clear2(v: Wide)
    requires v & 0x3 == 0
    ensures EvenFor(v, 2) && DownBy(v, 2) == v >> 2
  {
    hide DownBy, EvenFor;
    assert v & 0x1 == 0 && (v >> 1) & 0x1 == 0;
    DownBySum(v, 1, 1);
    EvenForSum(v, 1, 1);
    Clear1(v);
    Clear1(v >> 1);
  }

  lemma Clear4(v: Wide)
    requires v & 0xf == 0
    ensures EvenFor(v, 4) && DownBy(v, 4) == v >> 4
  {
    hide DownBy, EvenFor;
    assert v & 0x3 == 0 && (v >> 2) & 0x3 == 0;
    DownBySum(v, 2, 2);
    EvenForSum(v, 2, 2);
    Clear2(v);
    Clear2(v >> 2);
  }

  lemma Clear8(v: Wide)
    requires v & 0xff == 0
    ensures EvenFor(v, 8) && DownBy(v, 8) == v >> 8
  {
    hide DownBy, EvenFor;
    assert v & 0xf == 0 && (v >> 4) & 0xf == 0;
    DownBySum(v, 4, 4);
    EvenForSum(v, 4, 4);
    Clear4(v);
    Clear4(v >> 4);
  }

  lemma Clear16(v: Wide)
    requires v & 0xffff == 0
    ensures EvenFor(v, 16) && DownBy(v, 16) == v >> 16
  {
    hide DownBy, EvenFor;
    assert v & 0xff == 0 && (v >> 8) & 0xff == 0;
    DownBySum(v, 8, 8);
    EvenForSum(v, 8, 8);
    Clear8(v);
    Clear8(v >> 8);
  }

  lemma Clear32(v: Wide)
    requires v & 0xffffffff == 0
    ensures EvenFor(v, 32) && DownBy(v, 32) == v >> 32
  {
    hide DownBy, EvenFor;
    assert v & 0xffff == 0 && (v >> 16) & 0xffff == 0;
    DownBySum(v, 16, 16);
    EvenForSum(v, 16, 16);
    Clear16(v);
    Clear16(v >> 16);
  }

  lemma Clear64(v: Wide)
    requires v & 0xffffffffffffffff == 0
    ensures EvenFor(v, 64) && DownBy(v, 64) == v >> 64
  {
    hide DownBy, EvenFor;
    assert v & 0xffffffff == 0 && (v >> 32) & 0xffffffff == 0;
    DownBySum(v, 32, 32);
    EvenForSum(v, 32, 32);
    Clear32(v);
    Clear32(v >> 32);
  }

  // ------------------------------------------------------------------
  // Sums of shifted copies
  // ------------------------------------------------------------------

  lemma {:induction false} PolySum(x: Block, v: Wide, w: Wide, n: nat)
    ensures Poly(x, Sum(v, w), n) == Sum(Poly(x, v, n), Poly(x, w, n))
    decreases n
  {
    hide Sum, Down, G.Twice, G.Leads;
    SumZero(0);
    if n > 0 {
      DownSum(v, w);
      PolySum(G.Twice(x), Down(v), Down(w), n - 1);
      SumSwap(Leading(x, v), Leading(x, w), Poly(G.Twice(x), Down(v), n - 1), Poly(G.Twice(x), Down(w), n - 1));
    }
  }

  lemma {:induction false} PolySplit(x: Block, v: Wide, m: nat, n: nat)
    ensures Poly(x, v, m + n) == Sum(Poly(x, v, m), Poly(G.Shl(x, m), DownBy(v, m), n))
    decreases m
  {
    hide Down, Leading, Sum, G.Twice;
    if m == 0 {
      SumZero(Poly(x, v, n));
    } else {
      PolySplit(G.Twice(x), Down(v), m - 1, n);
      SumAssociates(Leading(x, v), Poly(G.Twice(x), Down(v), m - 1), Poly(G.Shl(x, m), DownBy(v, m), n));
    }
  }

  // ------------------------------------------------------------------
  // The reduction
  // ------------------------------------------------------------------

  function Masked(x: Block, m: Block): Block { x & m }
  function Up31(x: Block): Block { x << 31 }
  function Up30(x: Block): Block { x << 30 }
  function Up25(x: Block): Block { x << 25 }
  function Down1(x: Block): Block { x >> 1 }
  function Down2(x: Block): Block { x >> 2 }
  function Down7(x: Block): Block { x >> 7 }
  function Up96(x: Block): Block { x << 96 }
  function Down32(x: Block): Block { x >> 32 }

  /** Each 32-bit lane shifted left, or right. */
  function LaneUp31(x: Block): Block { Masked(Up31(x), 0x80000000_80000000_80000000_80000000) }
  function LaneUp30(x: Block): Block { Masked(Up30(x), 0xc0000000_c0000000_c0000000_c0000000) }
  function LaneUp25(x: Block): Block { Masked(Up25(x), 0xfe000000_fe000000_fe000000_fe000000) }
  function LaneDown1(x: Block): Block { Masked(Down1(x), 0x7fffffff_7fffffff_7fffffff_7fffffff) }
  function LaneDown2(x: Block): Block { Masked(Down2(x), 0x3fffffff_3fffffff_3fffffff_3fffffff) }
  function LaneDown7(x: Block): Block { Masked(Down7(x), 0x01ffffff_01ffffff_01ffffff_01ffffff) }

  function Fold(lo: Block): Block {
    G.Add(G.Add(LaneUp31(lo), LaneUp30(lo)), LaneUp25(lo))
  }

  function Back(lo: Block): Block {
    G.Add(G.Add(LaneDown1(lo), LaneDown2(lo)), LaneDown7(lo))
  }

  function Folded(lo: Block): Block {
    G.Add(lo, Up96(Fold(lo)))
  }

  /** What the low half of the doubled product adds to the high half. */
  function Tail(lo: Block): Block {
    G.Add(Folded(lo), G.Add(Back(Folded(lo)), Down32(Fold(lo))))
  }

  lemma MaskXor(v: Block, w: Block, m: Block)
    ensures (v ^ w) & m == G.Add(v & m, w & m)
  {}

  lemma MaskAdd(v: Block, w: Block, m: Block)
    ensures Masked(G.Add(v, w), m) == G.Add(Masked(v, m), Masked(w, m))
  {
    hide G.Add;
    MaskXor(v, w, m);
    G.AddIsXor(v, w);
  }

  lemma Up31Xor(v: Block, w: Block)
    ensures (v ^ w) << 31 == G.Add(v << 31, w << 31)
  {}

  lemma Up31Add(v: Block, w: Block)
    ensures Up31(G.Add(v, w)) == G.Add(Up31(v), Up31(w))
  {
    hide G.Add;
    Up31Xor(v, w);
    G.AddIsXor(v, w);
  }

  lemma Up30Xor(v: Block, w: Block)
    ensures (v ^ w) << 30 == G.Add(v << 30, w << 30)
  {}

  lemma Up30Add(v: Block, w: Block)
    ensures Up30(G.Add(v, w)) == G.Add(Up30(v), Up30(w))
  {
    hide G.Add;
    Up30Xor(v, w);
    G.AddIsXor(v, w);
  }

  lemma Up25Xor(v: Block, w: Block)
    ensures (v ^ w) << 25 == G.Add(v << 25, w << 25)
  {}

  lemma Up25Add(v: Block, w: Block)
    ensures Up25(G.Add(v, w)) == G.Add(Up25(v), Up25(w))
  {
    hide G.Add;
    Up25Xor(v, w);
    G.AddIsXor(v, w);
  }

  lemma Down1Xor(v: Block, w: Block)
    ensures (v ^ w) >> 1 == G.Add(v >> 1, w >> 1)
  {}

  lemma Down1Add(v: Block, w: Block)
    ensures Down1(G.Add(v, w)) == G.Add(Down1(v), Down1(w))
  {
    hide G.Add;
    Down1Xor(v, w);
    G.AddIsXor(v, w);
  }

  lemma Down2Xor(v: Block, w: Block)
    ensures (v ^ w) >> 2 == G.Add(v >> 2, w >> 2)
  {}

  lemma Down2Add(v: Block, w: Block)
    ensures Down2(G.Add(v, w)) == G.Add(Down2(v), Down2(w))
  {
    hide G.Add;
    Down2Xor(v, w);
    G.AddIsXor(v, w);
  }

  lemma Down7Xor(v: Block, w: Block)
    ensures (v ^ w) >> 7 == G.Add(v >> 7, w >> 7)
  {}

  lemma Down7Add(v: Block, w: Block)
    ensures Down7(G.Add(v, w)) == G.Add(Down7(v), Down7(w))
  {
    hide G.Add;
    Down7Xor(v, w);
    G.AddIsXor(v, w);
  }

  lemma Up96Xor(v: Block, w: Block)
    ensures (v ^ w) << 96 == G.Add(v << 96, w << 96)
  {}

  lemma Up96Add(v: Block, w: Block)
    ensures Up96(G.Add(v, w)) == G.Add(Up96(v), Up96(w))
  {
    hide G.Add;
    Up96Xor(v, w);
    G.AddIsXor(v, w);
  }

  lemma Down32Xor(v: Block, w: Block)
    ensures (v ^ w) >> 32 == G.Add(v >> 32, w >> 32)
  {}

  lemma Down32Add(v: Block, w: Block)
    ensures Down32(G.Add(v, w)) == G.Add(Down32(v), Down32(w))
  {
    hide G.Add;
    Down32Xor(v, w);
    G.AddIsXor(v, w);
  }

  lemma Add3(a: Block, b: Block, c: Block, x: Block, y: Block, z: Block)
    ensures G.Add(G.Add(G.Add(a, x), G.Add(b, y)), G.Add(c, z)) == G.Add(G.Add(G.Add(a, b), c), G.Add(G.Add(x, y), z))
  {
    hide G.Add;
    G.AddSwap(a, x, b, y);
    G.AddSwap(G.Add(a, b), G.Add(x, y), c, z);
  }

  lemma FoldAdd(v: Block, w: Block)
    ensures Fold(G.Add(v, w)) == G.Add(Fold(v), Fold(w))
  {
    hide G.Add, Up31, Up30, Up25, Masked;
    Up31Add(v, w);
    MaskAdd(Up31(v), Up31(w), 0x80000000_80000000_80000000_80000000);
    Up30Add(v, w);
    MaskAdd(Up30(v), Up30(w), 0xc0000000_c0000000_c0000000_c0000000);
    Up25Add(v, w);
    MaskAdd(Up25(v), Up25(w), 0xfe000000_fe000000_fe000000_fe000000);
    Add3(LaneUp31(v), LaneUp30(v), LaneUp25(v), LaneUp31(w), LaneUp30(w), LaneUp25(w));
  }

  lemma BackAdd(v: Block, w: Block)
    ensures Back(G.Add(v, w)) == G.Add(Back(v), Back(w))
  {
    hide G.Add, Down1, Down2, Down7, Masked;
    Down1Add(v, w);
    MaskAdd(Down1(v), Down1(w), 0x7fffffff_7fffffff_7fffffff_7fffffff);
    Down2Add(v, w);
    MaskAdd(Down2(v), Down2(w), 0x3fffffff_3fffffff_3fffffff_3fffffff);
    Down7Add(v, w);
    MaskAdd(Down7(v), Down7(w), 0x01ffffff_01ffffff_01ffffff_01ffffff);
    Add3(LaneDown1(v), LaneDown2(v), LaneDown7(v), LaneDown1(w), LaneDown2(w), LaneDown7(w));
  }

  lemma FoldedAdd(v: Block, w: Block)
    ensures Folded(G.Add(v, w)) == G.Add(Folded(v), Folded(w))
  {
    hide G.Add, Fold, Up96;
    FoldAdd(v, w);
    Up96Add(Fold(v), Fold(w));
    G.AddSwap(v, w, Up96(Fold(v)), Up96(Fold(w)));
  }

  lemma TailAdd(v: Block, w: Block)
    ensures Tail(G.Add(v, w)) == G.Add(Tail(v), Tail(w))
  {
    hide G.Add, Fold, Back, Folded, Down32;
    FoldAdd(v, w);
    FoldedAdd(v, w);
    BackAdd(Folded(v), Folded(w));
    Down32Add(Fold(v), Fold(w));
    G.AddSwap(Back(Folded(v)), Back(Folded(w)), Down32(Fold(v)), Down32(Fold(w)));
    G.AddSwap(Folded(v), Folded(w), G.Add(Back(Folded(v)), Down32(Fold(v))), G.Add(Back(Folded(w)), Down32(Fold(w))));
  }

  lemma TailConstants()
    ensures Tail(G.ONE) == G.R && Tail(0) == 0
  {}

  // Lane shifts plus the bits that cross lanes are whole shifts.

  lemma Cross1(lo: Block)
    ensures G.Add(LaneDown1(lo), Down32(LaneUp31(lo))) == Down1(lo)
  {}

  lemma Cross2(lo: Block)
    ensures G.Add(LaneDown2(lo), Down32(LaneUp30(lo))) == Down2(lo)
  {}

  lemma Cross7(lo: Block)
    ensures G.Add(LaneDown7(lo), Down32(LaneUp25(lo))) == Down7(lo)
  {}

  function Spread(z: Block): Block {
    G.Add(G.Add(Down1(z), Down2(z)), Down7(z))
  }

  lemma Crossed(lo: Block)
    ensures G.Add(Back(lo), Down32(Fold(lo))) == Spread(lo)
  {
    hide G.Add, Down32, LaneDown1, LaneDown2, LaneDown7, LaneUp31, LaneUp30, LaneUp25, Down1, Down2, Down7;
    Cross1(lo);
    Cross2(lo);
    Cross7(lo);
    Down32Add(G.Add(LaneUp31(lo), LaneUp30(lo)), LaneUp25(lo));
    Down32Add(LaneUp31(lo), LaneUp30(lo));
    Add3(LaneDown1(lo), LaneDown2(lo), LaneDown7(lo), Down32(LaneUp31(lo)), Down32(LaneUp30(lo)), Down32(LaneUp25(lo)));
  }

  lemma FoldOnce(lo: Block)
    ensures Fold(Up96(Fold(lo))) == 0
  {
    Up96Fold(lo);
  }

  lemma Up96Fold(lo: Block)
    ensures Up96(Fold(lo)) == (lo << 127) ^ (lo << 126) ^ (lo << 121)
  {}

  /** Without lanes: fold the low bits in once, then add three shifts. */
  lemma TailIsSpread(lo: Block)
    ensures Tail(lo) == G.Add(Folded(lo), Spread(Folded(lo)))
  {
    hide G.Add, Fold, Back, Spread, Up96, Down32;
    FoldAdd(lo, Up96(Fold(lo)));
    FoldOnce(lo);
    G.AddZero(Fold(lo));
    Crossed(Folded(lo));
  }

  predicate Halves(x: Block) { Tail(G.Half(x)) == G.XTimes(Tail(x)) }

  lemma HalvesAdd(x: Block, y: Block)
    requires Halves(x) && Halves(y)
    ensures Halves(G.Add(x, y))
  {
    hide G.Add, Tail, G.Half, G.XTimes;
    G.HalfAdd(x, y);
    TailAdd(x, y);
    TailAdd(G.Half(x), G.Half(y));
    G.XTimesAdd(Tail(x), Tail(y));
  }

  lemma Halves4()
    ensures Halves(4)
  {}

  lemma Halves8()
    ensures Halves(8)
  {}

  lemma Halves16()
    ensures Halves(16)
  {}

  lemma Halves32()
    ensures Halves(32)
  {}

  lemma Halves64()
    ensures Halves(64)
  {}

  lemma Halves128()
    ensures Halves(128)
  {}

  lemma NothingFolded(z: Block)
    requires z & 0x7f == 0
    ensures Folded(z) == z
  {
    hide Fold, G.Add, Up96;
    Up96Fold(z);
    G.AddZero(z);
    assert (z << 127) ^ (z << 126) ^ (z << 121) == 0;
  }

  lemma ShiftsCommute(z: Block)
    ensures (z >> 1) >> 1 == G.Half(Down1(z)) == Down1(G.Half(z))
    ensures (z >> 2) >> 1 == G.Half(Down2(z)) == Down2(G.Half(z))
    ensures (z >> 7) >> 1 == G.Half(Down7(z)) == Down7(G.Half(z))
  {}

  lemma ShiftsEven(z: Block)
    requires z & 0xff == 0
    ensures !G.Odd(z) && !G.Odd(Down1(z)) && !G.Odd(Down2(z)) && !G.Odd(Down7(z))
  {}

  lemma SpreadHalf(z: Block)
    requires z & 0xff == 0
    ensures G.XTimes(G.Add(z, Spread(z))) == G.Add(G.Half(z), Spread(G.Half(z)))
  {
    hide G.Add, Down1, Down2, Down7, G.Half, G.Odd;
    var a, b, c := Down1(z), Down2(z), Down7(z);
    ShiftsEven(z);
    ShiftsCommute(z);
    G.OddAdd(a, b);
    G.OddAdd(G.Add(a, b), c);
    G.OddAdd(z, Spread(z));
    G.HalfAdd(z, Spread(z));
    G.HalfAdd(G.Add(a, b), c);
    G.HalfAdd(a, b);
  }

  lemma HalvesHigh(z: Block)
    requires z & 0xff == 0
    ensures Halves(z)
  {
    hide G.Add, Folded, Tail, Spread, G.XTimes;
    TailIsSpread(z);
    TailIsSpread(G.Half(z));
    NothingFolded(z);
    assert z & 0x7f == 0 && (z >> 1) & 0x7f == 0;
    NothingFolded(z >> 1);
    SpreadHalf(z);
  }

  lemma SingleBits(lo: Block)
    ensures lo & 4 == 0 || lo & 4 == 4
    ensures lo & 8 == 0 || lo & 8 == 8
    ensures lo & 16 == 0 || lo & 16 == 16
    ensures lo & 32 == 0 || lo & 32 == 32
    ensures lo & 64 == 0 || lo & 64 == 64
    ensures lo & 128 == 0 || lo & 128 == 128
  {}

  function Rest(lo: Block): Block { lo & 0xffffffff_ffffffff_ffffffff_ffffff00 }

  lemma RestClear(lo: Block)
    ensures Rest(lo) & 0xff == 0
  {}

  lemma Assembled(lo: Block)
    requires lo & 3 == 0
    ensures lo == Rest(lo) ^ (lo & 4) ^ (lo & 8) ^ (lo & 16) ^ (lo & 32) ^ (lo & 64) ^ (lo & 128)
  {}

  /** Halving the low half multiplies what it adds by x. */
  lemma TailHalf(lo: Block)
    requires lo & 3 == 0
    ensures Tail(G.Half(lo)) == G.XTimes(Tail(lo))
  {
    hide Tail, G.Add, G.Half, G.XTimes, Rest;
    SingleBits(lo);
    Halves4(); Halves8(); Halves16(); Halves32(); Halves64(); Halves128();
    HalvesHigh(0);
    RestClear(lo);
    HalvesHigh(Rest(lo));
    var a := G.Add(Rest(lo), lo & 4);
    HalvesAdd(Rest(lo), lo & 4);
    var b := G.Add(a, lo & 8);
    HalvesAdd(a, lo & 8);
    var c := G.Add(b, lo & 16);
    HalvesAdd(b, lo & 16);
    var d := G.Add(c, lo & 32);
    HalvesAdd(c, lo & 32);
    var e := G.Add(d, lo & 64);
    HalvesAdd(d, lo & 64);
    HalvesAdd(e, lo & 128);
    assert G.Add(e, lo & 128) == lo by { AssembledAdd(lo); }
  }

  lemma AssembledAdd(lo: Block)
    requires lo & 3 == 0
    ensures G.Add(G.Add(G.Add(G.Add(G.Add(G.Add(Rest(lo), lo & 4), lo & 8), lo & 16), lo & 32), lo & 64), lo & 128) == lo
  {
    Assembled(lo);
  }

  // ------------------------------------------------------------------
  // The reduction of a 256-bit product
  // ------------------------------------------------------------------

  function High(v: Wide): Block { (v >> 128) as bv128 }

  function Low(v: Wide): Block { (v & 0xffffffff_ffffffff_ffffffff_ffffffff) as bv128 }

  function Up(v: Wide): Wide { v << 1 }

  predicate TopClear(v: Wide) { v >> 255 == 0 }

  /** The high half of the doubled product plus what its low half folds into. */
  function Reduced(v: Wide): Block {
    G.Add(High(Up(v)), Tail(Low(Up(v))))
  }

  lemma HalvesXor(v: Wide, w: Wide)
    ensures ((v ^ w) >> 128) as bv128 == G.Add((v >> 128) as bv128, (w >> 128) as bv128)
  {}

  lemma HighSum(v: Wide, w: Wide)
    ensures High(Sum(v, w)) == G.Add(High(v), High(w))
  {
    hide Sum, G.Add;
    HalvesXor(v, w);
    SumIsXor(v, w);
  }

  lemma LowXor(v: Wide, w: Wide)
    ensures Low(v ^ w) == G.Add(Low(v), Low(w))
  {}

  lemma LowSum(v: Wide, w: Wide)
    ensures Low(Sum(v, w)) == G.Add(Low(v), Low(w))
  {
    hide Sum, G.Add;
    LowXor(v, w);
    SumIsXor(v, w);
  }

  lemma UpXor(v: Wide, w: Wide)
    ensures (v ^ w) << 1 == Sum(v << 1, w << 1)
  {}

  lemma UpSum(v: Wide, w: Wide)
    ensures Up(Sum(v, w)) == Sum(Up(v), Up(w))
  {
    hide Sum;
    UpXor(v, w);
    SumIsXor(v, w);
  }

  lemma ReducedSum(v: Wide, w: Wide)
    ensures Reduced(Sum(v, w)) == G.Add(Reduced(v), Reduced(w))
  {
    hide Sum, G.Add, High, Low, Up, Tail;
    UpSum(v, w);
    HighSum(Up(v), Up(w));
    LowSum(Up(v), Up(w));
    TailAdd(Low(Up(v)), Low(Up(w)));
    G.AddSwap(High(Up(v)), High(Up(w)), Tail(Low(Up(v))), Tail(Low(Up(w))));
  }

  lemma ReducedZero()
    ensures Reduced(0) == 0
  {
    hide Tail;
    TailConstants();
  }

  function Placed(b: Block): Wide { (b as bv256) << 127 }

  lemma ReducedPlaced(b: Block)
    ensures Reduced(Placed(b)) == b
  {
    hide Tail, G.Add;
    TailConstants();
    G.AddZero(b);
  }

  function Carry(h: Block): Block { h << 127 }

  lemma UpDown(v: Wide)
    requires !Odd(v)
    ensures Up(Down(v)) == v
  {}

  lemma DownHigh(v: Wide)
    requires TopClear(v)
    ensures High(v) == G.Half(High(Up(v)))
  {}

  lemma UpLow(v: Wide)
    requires !Odd(v)
    ensures Low(Up(v)) & 3 == 0
  {}

  lemma DownLow(v: Wide)
    ensures Low(v) == G.Add(G.Half(Low(Up(v))), Carry(High(Up(v))))
  {}

  lemma CarryBit(h: Block)
    ensures Carry(h) == if G.Odd(h) then G.ONE else 0
  {}

  lemma CarryOut(h: Block)
    ensures G.Add(G.Half(h), Tail(Carry(h))) == G.XTimes(h)
  {
    hide Tail, G.Add, G.Half, Carry, G.Odd;
    CarryBit(h);
    TailConstants();
    G.AddZero(G.Half(h));
  }

  /** Moving the product down one bit multiplies its reduction by x. */
  lemma ReducedDown(v: Wide)
    requires !Odd(v) && TopClear(v)
    ensures Reduced(Down(v)) == G.XTimes(Reduced(v))
  {
    hide Tail, G.Add, Up, Down, High, Low, Odd, TopClear, G.XTimes, G.Half, Carry;
    var h, l := High(Up(v)), Low(Up(v));
    UpDown(v);
    DownHigh(v);
    UpLow(v);
    DownLow(v);
    TailAdd(G.Half(l), Carry(h));
    TailHalf(l);
    CarryOut(h);
    G.XTimesAdd(h, Tail(l));
    G.AddCommutes(Tail(G.Half(l)), Tail(Carry(h)));
    G.AddAssociates(G.Half(h), Tail(Carry(h)), Tail(G.Half(l)));
  }

  lemma TopClearDown(v: Wide)
    ensures TopClear(Down(v))
  {}

  lemma ReducedLeading(x: Block, v: Wide)
    ensures Reduced(Leading(x, v)) == G.Leading(x, Reduced(v))
  {
    hide Reduced, G.Leads;
    ReducedZero();
  }

  /** Reducing a sum of shifted copies is the standard's product of the reduced operand. */
  lemma {:induction false} ReducedPoly(x: Block, v: Wide, n: nat)
    requires TopClear(v) && EvenFor(v, if n > 0 then n - 1 else 0)
    ensures Reduced(Poly(x, v, n)) == G.MulBits(x, Reduced(v), n)
    decreases n
  {
    hide Sum, Down, G.Twice, Leading, G.Leading, Odd, TopClear, G.Add, G.XTimes, Reduced;
    if n == 0 {
      ReducedZero();
    } else {
      ReducedSum(Leading(x, v), Poly(G.Twice(x), Down(v), n - 1));
      ReducedLeading(x, v);
      TopClearDown(v);
      if n > 1 {
        ReducedDown(v);
      }
      ReducedPoly(G.Twice(x), Down(v), n - 1);
    }
  }

  // ------------------------------------------------------------------
  // Four 64-bit products
  // ------------------------------------------------------------------

  function LowHalf(a: Block): bv64 { (a & 0xffffffff_ffffffff) as bv64 }

  function HighHalf(a: Block): bv64 { (a >> 64) as bv64 }

  /** x in the leading half of a block. */
  function Lead(x: bv64): Block { (x as bv128) << 64 }

  function Base(y: bv64): Wide { (y as bv256) << 63 }

  /** The instruction's carry-less product: y shifted to each set bit of x, summed without carries. */
  function Clmul(x: bv64, y: bv64): Block {
    Low(Poly(Lead(x), Base(y), 64))
  }

  function Widen(a: Block): Wide { a as bv256 }

  function Up64(v: Wide): Wide { v << 64 }

  predicate Small(v: Wide) { v >> 192 == 0 }

  lemma BaseBits(y: bv64)
    ensures Base(y) & 0xffff_ffff == 0 && High(Base(y)) == 0 && Small(Base(y)) && Small(Up64(Base(y)))
    ensures Up64(Base(y)) & 0xffff_ffff_ffff_ffff == 0
    ensures (Base(y) >> 32) & 0xffff == 0
    ensures ((Base(y) >> 32) >> 16) & 0xff == 0
    ensures (((Base(y) >> 32) >> 16) >> 8) & 0xf == 0
    ensures ((((Base(y) >> 32) >> 16) >> 8) >> 4) & 3 == 0
    ensures (((((Base(y) >> 32) >> 16) >> 8) >> 4) >> 2) & 1 == 0
  {}

  lemma BaseEven(y: bv64)
    ensures EvenFor(Base(y), 63) && EvenFor(Up64(Base(y)), 63)
  {
    hide EvenFor, DownBy, Base, Up64, High, Small;
    BaseBits(y);
    var a := Base(y);
    EvenForSum(a, 32, 31); Clear32(a);
    var b := a >> 32;
    EvenForSum(b, 16, 15); Clear16(b);
    var c := b >> 16;
    EvenForSum(c, 8, 7); Clear8(c);
    var d := c >> 8;
    EvenForSum(d, 4, 3); Clear4(d);
    var e := d >> 4;
    EvenForSum(e, 2, 1); Clear2(e);
    Clear1(e >> 2);
    Clear64(Up64(a));
    EvenForSum(Up64(a), 63, 1);
  }

  lemma Up64Xor(v: Wide, w: Wide)
    ensures (v ^ w) << 64 == Sum(v << 64, w << 64)
  {}

  lemma Up64Sum(v: Wide, w: Wide)
    ensures Up64(Sum(v, w)) == Sum(Up64(v), Up64(w))
  {
    hide Sum;
    Up64Xor(v, w);
    SumIsXor(v, w);
  }

  lemma LowBit(v: Wide)
    ensures v & 1 == 0 || v & 1 == 1
  {}

  lemma ShiftsMeet(v: Wide)
    requires v & 1 == 0 && v >> 192 == 0
    ensures Down(v << 64) == Up64(v >> 1)
  {}

  lemma ShiftNames(v: Wide)
    ensures Down(v) == v >> 1 && Up64(v) == v << 64
  {}

  lemma Up64Down(v: Wide)
    requires !Odd(v) && Small(v)
    ensures Down(Up64(v)) == Up64(Down(v))
  {
    hide Down, Up64;
    LowBit(v);
    ShiftsMeet(v);
    ShiftNames(v);
  }

  lemma Up64Leading(x: Block, v: Wide)
    ensures Leading(x, Up64(v)) == Up64(Leading(x, v))
  {
    hide G.Leads;
    if !G.Leads(x) {
      Up64Zero();
    }
  }

  lemma SmallDown(v: Wide)
    requires Small(v)
    ensures Small(Down(v))
  {}

  lemma Up64Zero()
    ensures Up64(0) == 0
  {}

  lemma {:induction false} PolyUp64(x: Block, v: Wide, n: nat)
    requires Small(v) && EvenFor(v, if n > 0 then n - 1 else 0)
    ensures Poly(x, Up64(v), n) == Up64(Poly(x, v, n))
    decreases n
  {
    hide Sum, Down, G.Twice, Leading, Odd, Small, Up64;
    if n == 0 {
      Up64Zero();
    } else {
      Up64Leading(x, v);
      Up64Sum(Leading(x, v), Poly(G.Twice(x), Down(v), n - 1));
      SmallDown(v);
      PolyUp64(G.Twice(x), Down(v), n - 1);
      if n > 1 {
        Up64Down(v);
      } else {
        assert Poly(G.Twice(x), Down(Up64(v)), 0) == Poly(G.Twice(x), Up64(Down(v)), 0);
      }
    }
  }

  lemma HighDown(v: Wide)
    requires High(v) == 0
    ensures High(Down(v)) == 0
  {}

  lemma HighZero()
    ensures High(0) == 0
  {}

  lemma {:induction false} PolyNarrow(x: Block, v: Wide, n: nat)
    requires High(v) == 0
    ensures High(Poly(x, v, n)) == 0
    decreases n
  {
    hide Sum, Down, G.Twice, G.Leads, High, G.Add;
    HighZero();
    if n > 0 {
      HighDown(v);
      PolyNarrow(G.Twice(x), Down(v), n - 1);
      HighSum(Leading(x, v), Poly(G.Twice(x), Down(v), n - 1));
      G.AddZero(0);
    }
  }

  lemma Narrow(v: Wide)
    requires High(v) == 0
    ensures Widen(Low(v)) == v
  {}

  /** The instruction loses no bit. */
  lemma ClmulWhole(x: bv64, y: bv64)
    ensures Widen(Clmul(x, y)) == Poly(Lead(x), Base(y), 64)
  {
    hide Poly, High, Low, Base, Lead, Widen;
    BaseBits(y);
    PolyNarrow(Lead(x), Base(y), 64);
    Narrow(Poly(Lead(x), Base(y), 64));
  }

  lemma LeadingSumLeft(x: Block, y: Block, v: Wide)
    ensures Leading(G.Add(x, y), v) == Sum(Leading(x, v), Leading(y, v))
  {
    hide G.Add, G.Leads, Sum;
    G.LeadsAdd(x, y);
    if G.Leads(x) && G.Leads(y) {
      SumSelf(v);
    } else if G.Leads(x) || G.Leads(y) {
      SumZero(v);
    } else {
      SumZero(0);
    }
  }

  lemma SumSelf(v: Wide)
    ensures Sum(v, v) == 0
  {}

  lemma {:induction false} PolyLeft(x: Block, y: Block, v: Wide, n: nat)
    ensures Poly(G.Add(x, y), v, n) == Sum(Poly(x, v, n), Poly(y, v, n))
    decreases n
  {
    hide Sum, Down, G.Twice, Leading, G.Add;
    if n == 0 {
      SumZero(0);
    } else {
      LeadingSumLeft(x, y, v);
      G.TwiceAdd(x, y);
      PolyLeft(G.Twice(x), G.Twice(y), Down(v), n - 1);
      SumSwap(Leading(x, v), Leading(y, v), Poly(G.Twice(x), Down(v), n - 1), Poly(G.Twice(y), Down(v), n - 1));
    }
  }

  /** Bits moved n places down no longer lead. */
  lemma {:induction false} PolyNone(y: Block, v: Wide, n: nat)
    requires G.EvenFor(y, n)
    ensures Poly(G.XPow(y, n), v, n) == 0
    decreases n
  {
    hide Sum, Down, G.Twice, G.Leads, G.Odd, G.Half, G.XPow, G.EvenFor;
    if n > 0 {
      G.EvenForSum(y, n - 1, 1);
      G.XPowSum(y, n - 1, 1);
      var z := G.XPow(y, n - 1);
      G.XPowOne(z);
      EvenForOne(z);
      G.HalfBits(z);
      PolyNone(y, Down(v), n - 1);
      SumZero(0);
    }
  }

  lemma EvenForOne(z: Block)
    ensures G.EvenFor(z, 1) == !G.Odd(z)
  {
    assert G.EvenFor(G.XTimes(z), 0);
  }

  function Trail(x: bv64): Block { x as bv128 }

  lemma Halved(a: Block)
    ensures a == G.Add(Lead(HighHalf(a)), Trail(LowHalf(a)))
  {}

  lemma Halved64(a: Block)
    ensures a << 64 == Lead(LowHalf(a))
  {}

  lemma LeadDown(x: bv64)
    ensures G.EvenFor(Lead(x), 64) && G.XPow(Lead(x), 64) == Trail(x)
  {
    hide G.EvenFor, G.XPow;
    assert Lead(x) & 0xffff_ffff_ffff_ffff == 0;
    G.Even64(Lead(x));
  }

  /** Only the leading half counts in the first 64 steps. */
  lemma PolyTop(a: Block, v: Wide)
    ensures Poly(a, v, 64) == Poly(Lead(HighHalf(a)), v, 64)
  {
    hide Poly, Lead, Trail, HighHalf, LowHalf, G.Add, G.EvenFor, G.XPow, Sum;
    Halved(a);
    var y := Lead(LowHalf(a));
    LeadDown(LowHalf(a));
    PolyNone(y, v, 64);
    PolyLeft(Lead(HighHalf(a)), Trail(LowHalf(a)), v, 64);
    SumZero(Poly(Lead(HighHalf(a)), v, 64));
  }

  // ------------------------------------------------------------------
  // The multiplication
  // ------------------------------------------------------------------

  /** The unreduced product, as low, middle and high terms. */
  datatype Terms = Terms(lo: Block, mid: Block, hi: Block)

  function Product(a: Block, b: Block): Terms {
    Terms(
      Clmul(LowHalf(a), LowHalf(b)),
      G.Add(Clmul(LowHalf(a), HighHalf(b)), Clmul(HighHalf(a), LowHalf(b))),
      Clmul(HighHalf(a), HighHalf(b)))
  }

  function Left1(x: Block): Block { (x << 1) & 0xfffffffe_fffffffe_fffffffe_fffffffe }

  function Right31(x: Block): Block { (x >> 31) & 0x00000001_00000001_00000001_00000001 }

  function DoubledLow(lo: Block): Block { Left1(lo) | (Right31(lo) << 32) }

  function DoubledHigh(lo: Block, hi: Block): Block { (Left1(hi) | (Right31(hi) << 32)) | (Right31(lo) >> 96) }

  function BytesUp8(x: Block): Block { x << 64 }

  function BytesDown8(x: Block): Block { x >> 64 }

  function JoinLow(t: Terms): Block { G.Add(t.lo, BytesUp8(t.mid)) }

  function JoinHigh(t: Terms): Block { G.Add(t.hi, BytesDown8(t.mid)) }

  function Reduce(t: Terms): Block {
    G.Add(DoubledHigh(JoinLow(t), JoinHigh(t)), Tail(DoubledLow(JoinLow(t))))
  }

  function Multiply(a: Block, b: Block): Block {
    Reduce(Product(a, b))
  }

  function Up128(v: Wide): Wide { v << 128 }

  /** The 256-bit number that three terms stand for. */
  function Joined(t: Terms): Wide {
    Sum(Sum(Up128(Widen(t.hi)), Widen(t.lo)), Up64(Widen(t.mid)))
  }

  lemma DoubledLowIs(v: Wide)
    ensures Low(Up(v)) == DoubledLow(Low(v))
  {}

  lemma DoubledHighIs(v: Wide)
    ensures High(Up(v)) == DoubledHigh(Low(v), High(v))
  {}

  lemma WidenHalves(a: Block)
    ensures High(Widen(a)) == 0 && Low(Widen(a)) == a
  {}

  lemma Up128Halves(a: Block)
    ensures High(Up128(Widen(a))) == a && Low(Up128(Widen(a))) == 0
  {}

  lemma Up64Halves(a: Block)
    ensures High(Up64(Widen(a))) == BytesDown8(a) && Low(Up64(Widen(a))) == BytesUp8(a)
  {}

  lemma JoinedHalves(t: Terms)
    ensures Low(Joined(t)) == JoinLow(t) && High(Joined(t)) == JoinHigh(t)
  {
    hide Low, High, Widen, Up64, Up128, Sum, G.Add, BytesUp8, BytesDown8;
    Up128Halves(t.hi);
    WidenHalves(t.lo);
    Up64Halves(t.mid);
    var h, l, m := Up128(Widen(t.hi)), Widen(t.lo), Up64(Widen(t.mid));
    LowSum(h, l);
    HighSum(h, l);
    LowSum(Sum(h, l), m);
    HighSum(Sum(h, l), m);
    G.AddZero(t.hi);
    G.AddZero(t.lo);
  }

  lemma ReduceJoined(t: Terms)
    ensures Reduce(t) == Reduced(Joined(t))
  {
    hide Low, High, Up, Tail, G.Add, Joined, DoubledLow, DoubledHigh, JoinLow, JoinHigh;
    DoubledLowIs(Joined(t));
    DoubledHighIs(Joined(t));
    JoinedHalves(t);
  }

  lemma PlacedParts(b: Block)
    ensures Placed(b) == Sum(Up64(Up64(Base(HighHalf(b)))), Up64(Base(LowHalf(b))))
  {}

  lemma PlacedLower(b: Block)
    ensures Placed(b) >> 64 == Sum(Up64(Base(HighHalf(b))), Base(LowHalf(b)))
  {}

  lemma PlacedBits(b: Block)
    ensures Placed(b) & 0xffff_ffff_ffff_ffff == 0
    ensures TopClear(Placed(b))
  {}

  lemma PlacedDown(b: Block)
    ensures EvenFor(Placed(b), 64)
    ensures DownBy(Placed(b), 64) == Sum(Up64(Base(HighHalf(b))), Base(LowHalf(b)))
  {
    hide Placed, DownBy, EvenFor, Sum, Up64, Base, HighHalf, LowHalf;
    PlacedBits(b);
    Clear64(Placed(b));
    PlacedLower(b);
  }

  lemma Up64Twice(v: Wide)
    ensures Up64(Up64(v)) == Up128(v)
  {}

  /** The four products at their places: a 64-bit half of a times all of b. */
  lemma HalfProduct(x: bv64, b: Block)
    ensures Poly(Lead(x), Sum(Up64(Base(HighHalf(b))), Base(LowHalf(b))), 64)
         == Sum(Up64(Widen(Clmul(x, HighHalf(b)))), Widen(Clmul(x, LowHalf(b))))
    ensures Poly(Lead(x), Placed(b), 64)
         == Sum(Up128(Widen(Clmul(x, HighHalf(b)))), Up64(Widen(Clmul(x, LowHalf(b)))))
  {
    hide Poly, Sum, Up64, Base, HighHalf, LowHalf, Lead, Placed, Widen, Clmul, Up128, EvenFor, Small, High;
    var h, l := HighHalf(b), LowHalf(b);
    var p := Lead(x);
    ClmulWhole(x, h);
    ClmulWhole(x, l);
    BaseBits(h);
    BaseBits(l);
    BaseEven(h);
    BaseEven(l);
    PolySum(p, Up64(Base(h)), Base(l), 64);
    PolyUp64(p, Base(h), 64);
    PlacedParts(b);
    PolySum(p, Up64(Up64(Base(h))), Up64(Base(l)), 64);
    PolyUp64(p, Base(l), 64);
    PolyUp64(p, Up64(Base(h)), 64);
    Up64Twice(Widen(Clmul(x, h)));
  }

  lemma WidenXor(a: Block, b: Block)
    ensures (a ^ b) as bv256 == Sum(a as bv256, b as bv256)
  {}

  lemma WidenAdd(a: Block, b: Block)
    ensures Widen(G.Add(a, b)) == Sum(Widen(a), Widen(b))
  {
    hide Sum, G.Add;
    WidenXor(a, b);
    G.AddIsXor(a, b);
  }

  lemma Regroup(a: Wide, b: Wide, c: Wide, d: Wide)
    ensures Sum(Sum(a, b), Sum(c, d)) == Sum(Sum(a, d), Sum(c, b))
  {
    hide Sum;
    SumCommutes(c, d);
    SumSwap(a, b, d, c);
    SumCommutes(b, c);
  }

  /** The three terms stand for the carry-less product of the whole operands. */
  lemma ProductJoined(a: Block, b: Block)
    ensures Joined(Product(a, b)) == Poly(a, Placed(b), 128)
  {
    hide Poly, Sum, Up64, Up128, Widen, Clmul, HighHalf, LowHalf, Lead, Placed, G.Add, G.Shl, DownBy, EvenFor;
    var ah, al, bh, bl := HighHalf(a), LowHalf(a), HighHalf(b), LowHalf(b);
    PolySplit(a, Placed(b), 64, 64);
    G.Shl64(a);
    Halved64(a);
    PlacedDown(b);
    PolyTop(a, Placed(b));
    HalfProduct(ah, b);
    HalfProduct(al, b);
    WidenAdd(Clmul(al, bh), Clmul(ah, bl));
    Up64Sum(Widen(Clmul(al, bh)), Widen(Clmul(ah, bl)));
    Regroup(Up128(Widen(Clmul(ah, bh))), Up64(Widen(Clmul(ah, bl))), Up64(Widen(Clmul(al, bh))), Widen(Clmul(al, bl)));
  }

  lemma PlacedEven(b: Block)
    ensures EvenFor(Placed(b), 127)
  {
    hide Placed, EvenFor, DownBy, Base, Up64, HighHalf, LowHalf, Sum;
    EvenForSum(Placed(b), 64, 63);
    PlacedDown(b);
    BaseEven(HighHalf(b));
    BaseEven(LowHalf(b));
    EvenSum(Up64(Base(HighHalf(b))), Base(LowHalf(b)), 63);
  }

  lemma OddXor(v: Wide, w: Wide)
    ensures (v ^ w) & 1 == (v & 1) ^ (w & 1)
  {}

  lemma OddSum(v: Wide, w: Wide)
    requires !Odd(v) && !Odd(w)
    ensures !Odd(Sum(v, w))
  {
    LowBit(v);
    LowBit(w);
    OddXor(v, w);
  }

  lemma {:induction false} EvenSum(v: Wide, w: Wide, n: nat)
    requires EvenFor(v, n) && EvenFor(w, n)
    ensures EvenFor(Sum(v, w), n)
    decreases n
  {
    hide Sum, Odd, Down;
    if n > 0 {
      OddSum(v, w);
      DownSum(v, w);
      EvenSum(Down(v), Down(w), n - 1);
    }
  }

  /** multiply is the product of section 6.3 of NIST SP 800-38D. */
  lemma MultiplyCorrect(a: Block, b: Block)
    ensures Multiply(a, b) == G.Mul(a, b)
  {
    hide Reduce, Product, Poly, Placed, G.MulBits, EvenFor, TopClear, Reduced, Joined;
    ReduceJoined(Product(a, b));
    ProductJoined(a, b);
    PlacedBits(b);
    PlacedEven(b);
    ReducedPoly(a, Placed(b), 128);
    ReducedPlaced(b);
  }

  function Xor3(t: Terms, u: Terms): Terms {
    Terms(G.Add(t.lo, u.lo), G.Add(t.mid, u.mid), G.Add(t.hi, u.hi))
  }

  lemma Up128Xor(v: Wide, w: Wide)
    ensures (v ^ w) << 128 == Sum(v << 128, w << 128)
  {}

  lemma Up128Sum(v: Wide, w: Wide)
    ensures Up128(Sum(v, w)) == Sum(Up128(v), Up128(w))
  {
    hide Sum;
    Up128Xor(v, w);
    SumIsXor(v, w);
  }

  lemma JoinedXor3(t: Terms, u: Terms)
    ensures Joined(Xor3(t, u)) == Sum(Joined(t), Joined(u))
  {
    hide G.Add, Sum, Widen, Up64, Up128;
    WidenAdd(t.hi, u.hi);
    WidenAdd(t.lo, u.lo);
    WidenAdd(t.mid, u.mid);
    Up128Sum(Widen(t.hi), Widen(u.hi));
    Up64Sum(Widen(t.mid), Widen(u.mid));
    SumSwap(Up128(Widen(t.hi)), Up128(Widen(u.hi)), Widen(t.lo), Widen(u.lo));
    SumSwap(Sum(Up128(Widen(t.hi)), Widen(t.lo)), Sum(Up128(Widen(u.hi)), Widen(u.lo)), Up64(Widen(t.mid)), Up64(Widen(u.mid)));
  }

  /** One reduction of a sum is the sum of the reductions. */
  lemma ReduceXor3(t: Terms, u: Terms)
    ensures Reduce(Xor3(t, u)) == G.Add(Reduce(t), Reduce(u))
  {
    hide G.Add, Sum, Joined, Reduced, Reduce, Xor3;
    ReduceJoined(t);
    ReduceJoined(u);
    ReduceJoined(Xor3(t, u));
    JoinedXor3(t, u);
    ReducedSum(Joined(t), Joined(u));
  }

  lemma ReduceNone()
    ensures Reduce(Terms(0, 0, 0)) == 0
  {
    hide Tail;
    TailConstants();
  }
}

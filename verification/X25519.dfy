/** net/x25519.rs: GF(2²⁵⁵ − 19) in five 51-bit limbs and the Montgomery ladder of RFC 7748. */
module X25519 {
  import opened Arith
  import opened Bits
  import opened Limbs

  const W: int := 0x8_0000_0000_0000
  const PRIME: int := 0x7fff_ffff_ffff_ffff_ffff_ffff_ffff_ffff_ffff_ffff_ffff_ffff_ffff_ffff_ffff_ffed

  type Fe = f: seq<Word> | |f| == 5 witness [0, 0, 0, 0, 0]

  /** The number five limbs stand for. */
  function Val(f: Fe): int
  {
    (f[0] as int) + (f[1] as int) * 0x8_0000_0000_0000 + (f[2] as int) * 0x40_0000_0000_0000_0000_0000_0000
      + (f[3] as int) * 0x200_0000_0000_0000_0000_0000_0000_0000_0000_0000
      + (f[4] as int) * 0x1000_0000_0000_0000_0000_0000_0000_0000_0000_0000_0000_0000_0000
  }

  /** The field element they stand for. */
  function Field(f: Fe): int
  {
    Val(f) % PRIME
  }

  ghost predicate Below(f: Fe, bound: int)
  {
    forall i :: 0 <= i < 5 ==> f[i] < bound
  }

  /** What multiplication and carrying leave; what one addition of such makes. */
  ghost predicate Tight(f: Fe) { Below(f, 0x8_0000_0010_0000) }
  ghost predicate Loose(f: Fe) { Below(f, 0x20_0000_0000_0000) }

  /** One step of the carry chain: limb i keeps 51 bits and gives the rest to the next. */
  function CarryStep(h: Fe, i: nat): (r: Fe)
    requires i < 4 && h[i] / W + h[i + 1] < BASE
    ensures r[i] < W && r[i + 1] == h[i + 1] + h[i] / W
    ensures forall j :: 0 <= j < 5 && j != i && j != i + 1 ==> r[j] == h[j]
    ensures Val(r) == Val(h)
  {
    assert h[i] == W * (h[i] / W) + h[i] % W;
    assert i == 0 || i == 1 || i == 2 || i == 3;
    var up := h[i + 1 := h[i + 1] + h[i] / W];
    up[i := h[i] % W]
  }

  /** Limb j after j steps: what it held and a carry of at most `extra`. */
  ghost predicate Chained(h: Fe, f: Fe, i: nat, extra: int)
  {
    && i <= 4 && Val(h) == Val(f)
    && (forall j :: 0 <= j < i ==> h[j] < W)
    && h[i] <= f[i] + extra
    && (forall j :: i < j < 5 ==> h[j] == f[j])
  }

  /** `carry`: one pass, the overflow of the top limb folded back as 2²⁵⁵ = 19. Limbs below 2⁵⁴ come out tight; limbs
      already within 51 bits but for the lowest come out at most 18 over. */
  method Carry(f: Fe) returns (h: Fe)
    requires Below(f, 0x40_0000_0000_0000)
    ensures Field(h) == Field(f)
    ensures h[0] < W + 152 && h[1] < W && h[2] < W && h[3] < W && h[4] < W
    ensures f[0] < 2 * W && f[1] < W && f[2] < W && f[3] < W && f[4] < W ==> h[0] < W + 19
  {
    h := Chain(f);
    h := FoldTop(h, h[4] / W);
  }

  method Chain(f: Fe) returns (h: Fe)
    requires Below(f, 0x40_0000_0000_0000)
    ensures Chained(h, f, 4, 8)
    ensures f[0] < 2 * W && f[1] < W && f[2] < W && f[3] < W && f[4] < W ==> Chained(h, f, 4, 1)
  {
    h := f;
    ghost var extra := if f[0] < 2 * W && f[1] < W && f[2] < W && f[3] < W && f[4] < W then 1 else 8;
    for i := 0 to 4
      invariant Chained(h, f, i, extra)
    {
      h := CarryStep(h, i);
    }
  }

  function FoldTop(h: Fe, top: Word): (r: Fe)
    requires top == h[4] / W && h[0] < W && top <= 8
    ensures Field(r) == Field(h)
    ensures r[0] == h[0] + 19 * top && r[4] == h[4] % W && r[1] == h[1] && r[2] == h[2] && r[3] == h[3]
  {
    var low := h[0 := h[0] + 19 * top];
    var r := low[4 := h[4] % W];
    assert h[4] == W * top + h[4] % W;
    ghost var k: int := top;
    assert Val(r) == Val(h) + (-k) * PRIME;
    ModMultiple(Val(h), -k, PRIME);
    r
  }

  // ---------------------------------------------------------------- field operations

  /** `add`. */
  function Add(a: Fe, b: Fe): (r: Fe)
    requires Tight(a) && Tight(b)
    ensures Loose(r) && Field(r) == (Field(a) + Field(b)) % PRIME
  {
    var r: Fe := [a[0] + b[0], a[1] + b[1], a[2] + b[2], a[3] + b[3], a[4] + b[4]];
    assert Val(r) == Val(a) + Val(b);
    FieldSum(Val(a), Val(b));
    r
  }

  lemma FieldSum(a: int, b: int)
    ensures (a + b) % PRIME == (a % PRIME + b % PRIME) % PRIME
    ensures (a - b) % PRIME == (a % PRIME - b % PRIME) % PRIME
  {
    ModSelf(a, PRIME);
    ModSelf(b, PRIME);
    ModAdd(a, a % PRIME, b, PRIME);
    ModAdd(b, b % PRIME, a % PRIME, PRIME);
    ModMul(b, b % PRIME, -1, PRIME);
    ModAdd(a, a % PRIME, -b, PRIME);
    ModAdd(-b, -(b % PRIME), a % PRIME, PRIME);
  }

  lemma FieldProduct(a: int, b: int)
    ensures (a * b) % PRIME == ((a % PRIME) * (b % PRIME)) % PRIME
  {
    ModSelf(a, PRIME);
    ModSelf(b, PRIME);
    ModMul2(a, a % PRIME, b, b % PRIME, PRIME);
  }

  const TWO_P: Fe := [0xfffffffffffda, 0xffffffffffffe, 0xffffffffffffe, 0xffffffffffffe, 0xffffffffffffe]

  /** `sub`: kept positive by adding 2p, which a tight subtrahend never exceeds. */
  method Sub(a: Fe, b: Fe) returns (r: Fe)
    requires Loose(a) && Tight(b)
    ensures Tight(r) && Loose(r) && Field(r) == (Field(a) - Field(b)) % PRIME
  {
    var d := Difference(a, b);
    r := Carry(d);
  }

  function Difference(a: Fe, b: Fe): (r: Fe)
    requires Loose(a) && Tight(b)
    ensures Below(r, 0x40_0000_0000_0000) && Field(r) == (Field(a) - Field(b)) % PRIME
  {
    var r: Fe := [a[0] + TWO_P[0] - b[0], a[1] + TWO_P[1] - b[1], a[2] + TWO_P[2] - b[2], a[3] + TWO_P[3] - b[3], a[4] + TWO_P[4] - b[4]];
    assert Val(r) == (Val(a) - Val(b)) + 2 * PRIME;
    ModMultiple(Val(a) - Val(b), 2, PRIME);
    FieldSum(Val(a), Val(b));
    r
  }

  /** The low 51 bits of a wide sum, through its low 64. */
  function Low(x: Wide): (r: Word)
    ensures r < 0x8_0000_0000_0000
  {
    LowBits(x);
    And(x % BASE, W - 1)
  }

  lemma LowBits(x: Wide)
    ensures And(x % BASE, W - 1) == x % W
  {
    hide And, Pow;
    PowerOfTwo51();
    AndMask(x % BASE, 51);
    assert x % BASE % W == x % W;
  }

  lemma PowerOfTwo51()
    ensures Pow(2, 51) == W
  {
    assert Pow(2, 3) == 8 && Pow(2, 4) == 16;
    PowAdd(2, 4, 4);
    PowAdd(2, 8, 8);
    PowAdd(2, 16, 16);
    PowAdd(2, 32, 16);
    PowAdd(2, 48, 3);
  }

  /** A 128-bit product of loose limbs, and one with its second factor times 19. */
  function M(x: int, y: int): (r: int)
    requires 0 <= x < 0x20_0000_0000_0000 && 0 <= y < 0x20_0000_0000_0000
    ensures r == x * y && 0 <= r <= 0x400_0000_0000_0000_0000_0000_0000
  {
    MulNonNegative(x, y);
    MulMonotone(x, 0x20_0000_0000_0000, y);
    x * y
  }

  function M19(x: int, y: int): (r: int)
    requires 0 <= x < 0x20_0000_0000_0000 && 0 <= y < 0x20_0000_0000_0000
    ensures r == 19 * M(x, y) && 0 <= r < 0x4c00_0000_0000_0000_0000_0000_0000
  {
    var y19: Word := y * 19;
    MulAssoc(x, y, 19);
    x * y19
  }

  /** Within 114 of its 128 bits. */
  ghost predicate Column(r: int)
  {
    0 <= r < 0x4_0000_0000_0000_0000_0000_0000_0000
  }

  function Column0(a: Fe, b: Fe): (r: int)
    requires Loose(a) && Loose(b)
    ensures Column(r)
  {
    M(a[0], b[0]) + M19(a[1], b[4]) + M19(a[2], b[3]) + M19(a[3], b[2]) + M19(a[4], b[1])
  }

  function Column1(a: Fe, b: Fe): (r: int)
    requires Loose(a) && Loose(b)
    ensures Column(r)
  {
    M(a[0], b[1]) + M(a[1], b[0]) + M19(a[2], b[4]) + M19(a[3], b[3]) + M19(a[4], b[2])
  }

  function Column2(a: Fe, b: Fe): (r: int)
    requires Loose(a) && Loose(b)
    ensures Column(r)
  {
    M(a[0], b[2]) + M(a[1], b[1]) + M(a[2], b[0]) + M19(a[3], b[4]) + M19(a[4], b[3])
  }

  function Column3(a: Fe, b: Fe): (r: int)
    requires Loose(a) && Loose(b)
    ensures Column(r)
  {
    M(a[0], b[3]) + M(a[1], b[2]) + M(a[2], b[1]) + M(a[3], b[0]) + M19(a[4], b[4])
  }

  function Column4(a: Fe, b: Fe): (r: int)
    requires Loose(a) && Loose(b)
    ensures Column(r)
  {
    M(a[0], b[4]) + M(a[1], b[3]) + M(a[2], b[2]) + M(a[3], b[1]) + M(a[4], b[0])
  }

  /** The five column sums of a product, columns 5 to 8 folded back times 19. */
  function Columns(a: Fe, b: Fe): (r: (int, int, int, int, int))
    requires Loose(a) && Loose(b)
    ensures Column(r.0) && Column(r.1) && Column(r.2) && Column(r.3) && Column(r.4)
  {
    (Column0(a, b), Column1(a, b), Column2(a, b), Column3(a, b), Column4(a, b))
  }

  function ColumnsVal(r: (int, int, int, int, int)): int
  {
    r.0 + r.1 * 0x8_0000_0000_0000 + r.2 * 0x40_0000_0000_0000_0000_0000_0000 + r.3 * 0x200_0000_0000_0000_0000_0000_0000_0000_0000_0000 + r.4 * 0x1000_0000_0000_0000_0000_0000_0000_0000_0000_0000_0000_0000_0000
  }

  /** The products of every limb of one factor with one limb of the other. */
  datatype Row = Row(x0: int, x1: int, x2: int, x3: int, x4: int) {
    function Val(): int { x0 + x1 * 0x8_0000_0000_0000 + x2 * 0x40_0000_0000_0000_0000_0000_0000 + x3 * 0x200_0000_0000_0000_0000_0000_0000_0000_0000_0000 + x4 * 0x1000_0000_0000_0000_0000_0000_0000_0000_0000_0000_0000_0000_0000 }
  }

  function RowOf(a: Fe, y: int): (r: Row)
    requires Loose(a) && 0 <= y < 0x20_0000_0000_0000
    ensures r.Val() == Val(a) * y
  {
    ScaleLimbs(a[0], a[1], a[2], a[3], a[4], y);
    Row(M(a[0], y), M(a[1], y), M(a[2], y), M(a[3], y), M(a[4], y))
  }

  lemma ScaleLimbs(a0: int, a1: int, a2: int, a3: int, a4: int, y: int)
    ensures (a0 + a1 * 0x8_0000_0000_0000 + a2 * 0x40_0000_0000_0000_0000_0000_0000 + a3 * 0x200_0000_0000_0000_0000_0000_0000_0000_0000_0000 + a4 * 0x1000_0000_0000_0000_0000_0000_0000_0000_0000_0000_0000_0000_0000) * y
         == a0 * y + (a1 * y) * 0x8_0000_0000_0000 + (a2 * y) * 0x40_0000_0000_0000_0000_0000_0000 + (a3 * y) * 0x200_0000_0000_0000_0000_0000_0000_0000_0000_0000 + (a4 * y) * 0x1000_0000_0000_0000_0000_0000_0000_0000_0000_0000_0000_0000_0000
  {}

  function Folded(r0: Row, r1: Row, r2: Row, r3: Row, r4: Row): (int, int, int, int, int)
  {
    (r0.x0 + 19 * r4.x1 + 19 * r3.x2 + 19 * r2.x3 + 19 * r1.x4,
     r1.x0 + r0.x1 + 19 * r4.x2 + 19 * r3.x3 + 19 * r2.x4,
     r2.x0 + r1.x1 + r0.x2 + 19 * r4.x3 + 19 * r3.x4,
     r3.x0 + r2.x1 + r1.x2 + r0.x3 + 19 * r4.x4,
     r4.x0 + r3.x1 + r2.x2 + r1.x3 + r0.x4)
  }

  /** Folding the rows into columns takes away a multiple of p. */
  lemma FoldRows(r0: Row, r1: Row, r2: Row, r3: Row, r4: Row) returns (k: int)
    ensures r0.Val() + r1.Val() * 0x8_0000_0000_0000 + r2.Val() * 0x40_0000_0000_0000_0000_0000_0000 + r3.Val() * 0x200_0000_0000_0000_0000_0000_0000_0000_0000_0000 + r4.Val() * 0x1000_0000_0000_0000_0000_0000_0000_0000_0000_0000_0000_0000_0000
         == ColumnsVal(Folded(r0, r1, r2, r3, r4)) + k * PRIME
  {
    k := (r4.x1 + r3.x2 + r2.x3 + r1.x4) + (r4.x2 + r3.x3 + r2.x4) * 0x8_0000_0000_0000 + (r4.x3 + r3.x4) * 0x40_0000_0000_0000_0000_0000_0000 + r4.x4 * 0x200_0000_0000_0000_0000_0000_0000_0000_0000_0000;
  }

  lemma ColumnsAreFolded(a: Fe, b: Fe)
    requires Loose(a) && Loose(b)
    ensures Columns(a, b) == Folded(RowOf(a, b[0]), RowOf(a, b[1]), RowOf(a, b[2]), RowOf(a, b[3]), RowOf(a, b[4]))
  {}

  /** The columns carry the product. */
  lemma ColumnsProduct(a: Fe, b: Fe) returns (k: int)
    requires Loose(a) && Loose(b)
    ensures Val(a) * Val(b) == ColumnsVal(Columns(a, b)) + k * PRIME
  {
    ColumnsAreFolded(a, b);
    k := RowsProduct(Val(a), b, RowOf(a, b[0]), RowOf(a, b[1]), RowOf(a, b[2]), RowOf(a, b[3]), RowOf(a, b[4]));
  }

  lemma RowsProduct(v: int, b: Fe, r0: Row, r1: Row, r2: Row, r3: Row, r4: Row) returns (k: int)
    requires r0.Val() == v * b[0] && r1.Val() == v * b[1] && r2.Val() == v * b[2] && r3.Val() == v * b[3] && r4.Val() == v * b[4]
    ensures v * Val(b) == ColumnsVal(Folded(r0, r1, r2, r3, r4)) + k * PRIME
  {
    k := FoldRows(r0, r1, r2, r3, r4);
    ScaleLimbs(b[0], b[1], b[2], b[3], b[4], v);
  }

  /** What a column sends to the next. */
  function High(x: Wide): (r: Wide)
    ensures x < 0x8_0000_0000_0000_0000_0000_0000_0000 ==> r < 0x1_0000_0000_0000_0000
    ensures x < 0x40_0000_0000_0000_0000 ==> r < 0x10_0000
  {
    x / W
  }

  /** The last carries of `mul`, on columns that already took what the ones below sent. */
  function Settle(r0: int, r1: int, r2: int, r3: int, r4: int): (r: Fe)
    requires 0 <= r0 < 0x8_0000_0000_0000_0000_0000_0000_0000 && 0 <= r1 < 0x8_0000_0000_0000_0000_0000_0000_0000
    requires 0 <= r2 < 0x8_0000_0000_0000_0000_0000_0000_0000 && 0 <= r3 < 0x8_0000_0000_0000_0000_0000_0000_0000
    requires 0 <= r4 < 0x8_0000_0000_0000_0000_0000_0000_0000
    ensures Tight(r)
    ensures var h0 := Low(r0) + High(r4) * 19;
      r[0] == Low(h0) && r[1] == Low(r1) + High(h0) && r[2] == Low(r2) && r[3] == Low(r3) && r[4] == Low(r4)
  {
    var h0 := Low(r0) + High(r4) * 19;
    assert High(h0) < 0x10_0000;
    [Low(h0), Low(r1) + High(h0), Low(r2), Low(r3), Low(r4)]
  }

  lemma SettleValue(r0: int, s1: int, s2: int, s3: int, s4: int, c0: int, c1: int, c2: int, c3: int, c4: int, c5: int,
      l0: int, l1: int, l2: int, l3: int, l4: int, l5: int)
    requires c0 * 0x8_0000_0000_0000 + l0 == r0 && c1 * 0x8_0000_0000_0000 + l1 == s1 + c0 && c2 * 0x8_0000_0000_0000 + l2 == s2 + c1
    requires c3 * 0x8_0000_0000_0000 + l3 == s3 + c2 && c4 * 0x8_0000_0000_0000 + l4 == s4 + c3 && c5 * 0x8_0000_0000_0000 + l5 == l0 + c4 * 19
    ensures l5 + (l1 + c5) * 0x8_0000_0000_0000 + l2 * 0x40_0000_0000_0000_0000_0000_0000 + l3 * 0x200_0000_0000_0000_0000_0000_0000_0000_0000_0000 + l4 * 0x1000_0000_0000_0000_0000_0000_0000_0000_0000_0000_0000_0000_0000
         == r0 + s1 * 0x8_0000_0000_0000 + s2 * 0x40_0000_0000_0000_0000_0000_0000 + s3 * 0x200_0000_0000_0000_0000_0000_0000_0000_0000_0000 + s4 * 0x1000_0000_0000_0000_0000_0000_0000_0000_0000_0000_0000_0000_0000 + (-c4) * PRIME
  {}

  /** `mul`. */
  function Mul(a: Fe, b: Fe): (r: Fe)
    requires Loose(a) && Loose(b)
    ensures Tight(r) && Loose(r) && Field(r) == (Field(a) * Field(b)) % PRIME
  {
    var c := Columns(a, b);
    var r := Carried(c);
    MulValue(a, b, c, r);
    r
  }

  function Carried(c: (int, int, int, int, int)): (r: Fe)
    requires Column(c.0) && Column(c.1) && Column(c.2) && Column(c.3) && Column(c.4)
    ensures Tight(r) && Loose(r)
  {
    var r1 := c.1 + High(c.0);
    var r2 := c.2 + High(r1);
    var r3 := c.3 + High(r2);
    var r4 := c.4 + High(r3);
    Settle(c.0, r1, r2, r3, r4)
  }

  lemma MulValue(a: Fe, b: Fe, c: (int, int, int, int, int), r: Fe)
    requires Loose(a) && Loose(b) && c == Columns(a, b)
    requires r == Carried(c)
    ensures Field(r) == (Field(a) * Field(b)) % PRIME
  {
    hide Columns, Carried;
    var top := CarriedValue(c);
    ReducedProduct(a, b, r, top);
  }

  /** The carries of `mul` leave the number of the columns but for a multiple of p. */
  lemma CarriedValue(c: (int, int, int, int, int)) returns (top: int)
    requires Column(c.0) && Column(c.1) && Column(c.2) && Column(c.3) && Column(c.4)
    ensures Val(Carried(c)) == ColumnsVal(c) + (-top) * PRIME
  {
    hide High, Low, Settle;
    var k0 := HighLow(c.0);
    var r1 := c.1 + k0;
    var k1 := HighLow(r1);
    var r2 := c.2 + k1;
    var k2 := HighLow(r2);
    var r3 := c.3 + k2;
    var k3 := HighLow(r3);
    var r4 := c.4 + k3;
    top := HighLow(r4);
    var h0 := Low(c.0) + top * 19;
    var k5 := HighLow(h0);
    SettleValue(c.0, c.1, c.2, c.3, c.4, k0, k1, k2, k3, top, k5, Low(c.0), Low(r1), Low(r2), Low(r3), Low(r4), Low(h0));
    var r := Settle(c.0, r1, r2, r3, r4);
    assert r[0] == Low(h0) && r[1] == Low(r1) + k5 && r[2] == Low(r2) && r[3] == Low(r3) && r[4] == Low(r4);
    assert Carried(c) == r;
  }

  lemma HighLow(x: int) returns (k: int)
    requires 0 <= x < 0x8_0000_0000_0000_0000_0000_0000_0000
    ensures k == High(x) && 0 <= k < 0x1_0000_0000_0000_0000 && k * 0x8_0000_0000_0000 + Low(x) == x
  {
    k := High(x);
    LowBits(x);
  }

  lemma ReducedProduct(a: Fe, b: Fe, r: Fe, top: int)
    requires Loose(a) && Loose(b) && Val(r) == ColumnsVal(Columns(a, b)) + (-top) * PRIME
    ensures Field(r) == (Field(a) * Field(b)) % PRIME
  {
    hide Columns, ColumnsVal, Val;
    var v := ColumnsVal(Columns(a, b));
    ModMultiple(v, -top, PRIME);
    var k := ColumnsProduct(a, b);
    ModMultiple(v, k, PRIME);
    FieldProduct(Val(a), Val(b));
  }

  // ---------------------------------------------------------------- inversion

  /** `square`: the square, `times` times over. */
  function Square(a: Fe, times: nat): (r: Fe)
    requires Tight(a)
    ensures Tight(r)
  {
    if times == 0 then a else var x := Square(a, times - 1); Mul(x, x)
  }

  /** `r` holds zᵉ. */
  ghost predicate Holds(r: Fe, z: int, e: nat)
  {
    Tight(r) && Field(r) == Pow(z, e) % PRIME
  }

  lemma MulHolds(a: Fe, b: Fe, z: int, i: nat, j: nat)
    requires Holds(a, z, i) && Holds(b, z, j)
    ensures Holds(Mul(a, b), z, i + j)
  {
    hide Mul;
    PowAdd(z, i, j);
    FieldProduct(Pow(z, i), Pow(z, j));
  }

  lemma {:induction false} SquareHolds(a: Fe, times: nat, z: int, e: nat)
    requires Holds(a, z, e)
    ensures 0 <= e * Pow(2, times) && Holds(Square(a, times), z, e * Pow(2, times))
  {
    hide Mul;
    PowPositive(2, times);
    MulNonNegative(e, Pow(2, times));
    if times > 0 {
      SquareHolds(a, times - 1, z, e);
      var k, x := e * Pow(2, times - 1), Square(a, times - 1);
      assert e * Pow(2, times) == k + k;
      MulHolds(x, x, z, k, k);
    }
  }

  /** `invert`: the addition chain. */
  function Invert(z: Fe): (r: Fe)
    requires Tight(z)
    ensures Tight(r)
  {
    var z2 := Square(z, 1);
    var z9 := Mul(Square(z2, 2), z);
    var z11 := Mul(z9, z2);
    var z_5 := Mul(Square(z11, 1), z9);
    var z_10 := Mul(Square(z_5, 5), z_5);
    var z_20 := Mul(Square(z_10, 10), z_10);
    var z_40 := Mul(Square(z_20, 20), z_20);
    var z_50 := Mul(Square(z_40, 10), z_10);
    var z_100 := Mul(Square(z_50, 50), z_50);
    var z_200 := Mul(Square(z_100, 100), z_100);
    var z_250 := Mul(Square(z_200, 50), z_50);
    Mul(Square(z_250, 5), z11)
  }

  /** A link of the chain: n squarings of 2ʲ − 1 and one product. */
  lemma Link(a: Fe, b: Fe, z: int, i: nat, n: nat, j: nat)
    requires Holds(a, z, i) && Holds(b, z, j)
    ensures 0 <= i * Pow(2, n) && Holds(Mul(Square(a, n), b), z, i * Pow(2, n) + j)
  {
    hide Mul;
    SquareHolds(a, n, z, i);
    MulHolds(Square(a, n), b, z, i * Pow(2, n), j);
  }

  lemma ChainPowers()
    ensures Pow(2, 1) == 2 && Pow(2, 2) == 4 && Pow(2, 5) == 0x20 && Pow(2, 10) == 0x400 && Pow(2, 20) == 0x10_0000
    ensures Pow(2, 50) == 0x4_0000_0000_0000 && Pow(2, 100) == 0x10_0000_0000_0000_0000_0000_0000
  {
    assert Pow(2, 5) == 2 * (2 * (2 * Pow(2, 2)));
    PowAdd(2, 5, 5);
    PowAdd(2, 10, 10);
    PowAdd(2, 20, 20);
    PowAdd(2, 40, 10);
    PowAdd(2, 50, 50);
  }

  /** The chain ends at z^(p − 2). */
  lemma InvertPower(z: Fe)
    requires Tight(z)
    ensures Field(Invert(z)) == Pow(Field(z), PRIME - 2) % PRIME
  {
    hide Mul;
    var f := Field(z);
    assert Pow(f, 1) == f;
    ModSelf(f, PRIME);
    assert Holds(z, f, 1);
    ChainPowers();
    var z2 := Square(z, 1);
    SquareHolds(z, 1, f, 1);
    var z9 := Mul(Square(z2, 2), z);
    Link(z2, z, f, 2, 2, 1);
    var z11 := Mul(z9, z2);
    MulHolds(z9, z2, f, 9, 2);
    var z_5 := Mul(Square(z11, 1), z9);
    Link(z11, z9, f, 11, 1, 9);
    var z_10 := Mul(Square(z_5, 5), z_5);
    Link(z_5, z_5, f, 0x1f, 5, 0x1f);
    InvertTail(z_10, z_5, z11, f);
  }

  lemma InvertTail(z_10: Fe, z_5: Fe, z11: Fe, f: int)
    requires Holds(z_10, f, 0x3ff) && Holds(z11, f, 11)
    ensures var z_20 := Mul(Square(z_10, 10), z_10);
      var z_40 := Mul(Square(z_20, 20), z_20);
      var z_50 := Mul(Square(z_40, 10), z_10);
      var z_100 := Mul(Square(z_50, 50), z_50);
      var z_200 := Mul(Square(z_100, 100), z_100);
      var z_250 := Mul(Square(z_200, 50), z_50);
      Holds(Mul(Square(z_250, 5), z11), f, PRIME - 2)
  {
    hide Mul;
    ChainPowers();
    var z_20 := Mul(Square(z_10, 10), z_10);
    Link(z_10, z_10, f, 0x3ff, 10, 0x3ff);
    var z_40 := Mul(Square(z_20, 20), z_20);
    Link(z_20, z_20, f, 0xf_ffff, 20, 0xf_ffff);
    var z_50 := Mul(Square(z_40, 10), z_10);
    Link(z_40, z_10, f, 0xff_ffff_ffff, 10, 0x3ff);
    var z_100 := Mul(Square(z_50, 50), z_50);
    Link(z_50, z_50, f, 0x3_ffff_ffff_ffff, 50, 0x3_ffff_ffff_ffff);
    var z_200 := Mul(Square(z_100, 100), z_100);
    Link(z_100, z_100, f, 0xf_ffff_ffff_ffff_ffff_ffff_ffff, 100, 0xf_ffff_ffff_ffff_ffff_ffff_ffff);
    var z_250 := Mul(Square(z_200, 50), z_50);
    Link(z_200, z_50, f, 0xff_ffff_ffff_ffff_ffff_ffff_ffff_ffff_ffff_ffff_ffff_ffff_ffff, 50, 0x3_ffff_ffff_ffff);
    Link(z_250, z11, f, 0x3ff_ffff_ffff_ffff_ffff_ffff_ffff_ffff_ffff_ffff_ffff_ffff_ffff_ffff_ffff_ffff, 5, 11);
  }

  // ---------------------------------------------------------------- the ladder

  /** The ladder's four field elements. */
  datatype Rungs = Rungs(x2: int, z2: int, x3: int, z3: int) {
    function Swapped(): Rungs { Rungs(x3, z3, x2, z2) }
  }

  /** One step of section 5 of RFC 7748, between its conditional swaps. */
  function Rung(s: Rungs, u: int): Rungs
  {
    var a := (s.x2 + s.z2) % PRIME;
    var aa := a * a % PRIME;
    var b := (s.x2 - s.z2) % PRIME;
    var bb := b * b % PRIME;
    var e := (aa - bb) % PRIME;
    var c := (s.x3 + s.z3) % PRIME;
    var d := (s.x3 - s.z3) % PRIME;
    var da := d * a % PRIME;
    var cb := c * b % PRIME;
    var sum := (da + cb) % PRIME;
    var diff := (da - cb) % PRIME;
    Rungs(aa * bb % PRIME, e * ((aa + 121665 * e % PRIME) % PRIME) % PRIME, sum * sum % PRIME, u * (diff * diff % PRIME) % PRIME)
  }

  /** The ladder by definition: at each bit of k from 254 down to t, a step on the pair as it stands for 0, and on the
      pair exchanged for 1. */
  function Ladder(k: nat, u: int, t: nat): Rungs
    requires t <= 255
    decreases 255 - t
  {
    if t == 255 then Rungs(1, 0, u, 1)
    else
      var s := Ladder(k, u, t + 1);
      if Bit(k, t) == 1 then Rung(s.Swapped(), u).Swapped() else Rung(s, u)
  }

  function Bit(k: nat, t: nat): (b: nat)
    ensures b <= 1
  {
    PowPositive(2, t);
    k / Pow(2, t) % 2
  }

  function View(x2: Fe, z2: Fe, x3: Fe, z3: Fe): Rungs
  {
    Rungs(Field(x2), Field(z2), Field(x3), Field(z3))
  }

  lemma Constant(x: Word)
    requires x < W
    ensures var f: Fe := [x, 0, 0, 0, 0]; Tight(f) && Loose(f) && Field(f) == x
  {
    var f: Fe := [x, 0, 0, 0, 0];
    assert Val(f) == x;
    ModSelf(x, PRIME);
  }

  /** The body of the loop between the swaps: every operand meets its operation's bound. */
  method LimbRung(x2: Fe, z2: Fe, x3: Fe, z3: Fe, u: Fe) returns (x2': Fe, z2': Fe, x3': Fe, z3': Fe)
    requires Tight(x2) && Tight(z2) && Tight(x3) && Tight(z3) && Tight(u)
    requires Loose(x2) && Loose(x3) && Loose(u)
    ensures Tight(x2') && Tight(z2') && Tight(x3') && Tight(z3')
    ensures View(x2', z2', x3', z3') == Rung(View(x2, z2, x3, z3), Field(u))
  {
    hide Mul, Add, Val, Field, Below, Loose, Tight;
    var a := Add(x2, z2);
    var aa := Mul(a, a);
    var b := Sub(x2, z2);
    var bb := Mul(b, b);
    var e := Sub(aa, bb);
    var c := Add(x3, z3);
    var d := Sub(x3, z3);
    var da := Mul(d, a);
    var cb := Mul(c, b);
    var sum := Add(da, cb);
    x3' := Mul(sum, sum);
    var diff := Sub(da, cb);
    z3' := Mul(u, Mul(diff, diff));
    x2' := Mul(aa, bb);
    var small: Fe := [121665, 0, 0, 0, 0];
    Constant(121665);
    z2' := Mul(e, Add(aa, Mul(small, e)));
  }

  /** `swap`: masks of all ones or all zeros exchange two elements or leave them. */
  method Swap(choice: Word, a: Fe, b: Fe) returns (a': Fe, b': Fe)
    requires choice <= 1
    ensures choice == 0 ==> a' == a && b' == b
    ensures choice == 1 ==> a' == b && b' == a
  {
    a', b' := a, b;
    var mask := (0 - choice) % BASE;
    for i := 0 to 5
      invariant forall j :: i <= j < 5 ==> a'[j] == a[j] && b'[j] == b[j]
      invariant forall j :: 0 <= j < i && choice == 0 ==> a'[j] == a[j] && b'[j] == b[j]
      invariant forall j :: 0 <= j < i && choice == 1 ==> a'[j] == b[j] && b'[j] == a[j]
    {
      MaskedSwap(choice, a'[i], b'[i]);
      var t := And(mask, Xor(a'[i], b'[i]));
      a' := a'[i := Xor(a'[i], t)];
      b' := b'[i := Xor(b'[i], t)];
    }
  }

  lemma AndZero(x: nat)
    ensures And(0, x) == 0
  {}

  lemma XorZero(x: nat)
    ensures Xor(x, 0) == x
  {}

  lemma MaskedSwap(choice: Word, x: Word, y: Word)
    requires choice <= 1
    ensures var t := And((0 - choice) % BASE, Xor(x, y));
      && Xor(x, t) == (if choice == 1 then y else x)
      && Xor(y, t) == (if choice == 1 then x else y)
  {
    hide Xor, And, Pow;
    BaseIsPower();
    XorBound(x, y, 64);
    AndOnes(Xor(x, y), 64);
    AndZero(Xor(x, y));
    XorZero(x);
    XorZero(y);
    XorCancel(x, y);
    XorCancel(y, x);
    XorCommutes(x, y);
  }

  // ---------------------------------------------------------------- bytes

  /** The word of eight little-endian bytes at `i`. */
  function WordAt(b: seq<Byte>, i: nat): (w: Word)
    requires i + 8 <= |b|
    ensures Pow(256, i) > 0 && w == LittleEndian(b) / Pow(256, i) % BASE
  {
    LittleSlice(b, i, 8);
    BaseIsPower();
    LittleEndian(b[i..i + 8])
  }

  /** 51 bits of the word at byte i, from its bit r. */
  function LimbAt(b: seq<Byte>, i: nat, r: nat): (w: Word)
    requires i + 8 <= |b| && r <= 13
    ensures Pow(2, 8 * i + r) > 0 && w == LittleEndian(b) / Pow(2, 8 * i + r) % 0x8_0000_0000_0000
  {
    var x := WordAt(b, i);
    PowPositive(2, r);
    FieldAt(LittleEndian(b), x, i, r);
    AndMask(x / Pow(2, r), 51);
    And(x / Pow(2, r), W - 1)
  }

  lemma FieldAt(v: int, x: Word, i: nat, r: nat)
    requires r <= 13 && Pow(256, i) > 0 && x == v / Pow(256, i) % BASE
    ensures Pow(2, 51) == W && Pow(2, r) > 0 && Pow(2, 8 * i + r) > 0
    ensures x / Pow(2, r) % W == v / Pow(2, 8 * i + r) % W
  {
    PowerOfTwo51();
    PowPositive(2, r);
    PowPositive(2, 8 * i + r);
    assert Pow(2, 8) == 256 by { assert Pow(2, 4) == 16; PowAdd(2, 4, 4); }
    PowMul(2, 8, i);
    PowAdd(2, 8 * i, r);
    DivDiv(v, Pow(256, i), Pow(2, r));
    var y := v / Pow(256, i);
    assert y == x + (y / BASE) * BASE;
    FieldOfLow(x, y / BASE, r, 51);
  }

  /** `decode`. */
  function Decode(b: seq<Byte>): Fe
    requires |b| == 32
  {
    [LimbAt(b, 0, 0), LimbAt(b, 6, 3), LimbAt(b, 12, 6), LimbAt(b, 19, 1), LimbAt(b, 24, 12)]
  }

  /** The number of the 32 bytes but for their top bit, in limbs of 51 bits. */
  lemma DecodeCorrect(b: seq<Byte>)
    requires |b| == 32
    ensures Tight(Decode(b)) && Loose(Decode(b))
    ensures Val(Decode(b)) == LittleEndian(b) % 0x8000_0000_0000_0000_0000_0000_0000_0000_0000_0000_0000_0000_0000_0000_0000_0000
  {
    hide LimbAt, LittleEndian, Pow;
    DecodePowers();
    DecodeValue(LittleEndian(b));
  }

  lemma DecodePowers()
    ensures Pow(2, 0) == 1 && Pow(2, 51) == 0x8_0000_0000_0000 && Pow(2, 102) == 0x40_0000_0000_0000_0000_0000_0000
    ensures Pow(2, 153) == 0x200_0000_0000_0000_0000_0000_0000_0000_0000_0000
    ensures Pow(2, 204) == 0x1000_0000_0000_0000_0000_0000_0000_0000_0000_0000_0000_0000_0000
  {
    PowerOfTwo51();
    PowAdd(2, 51, 51);
    PowAdd(2, 102, 51);
    PowAdd(2, 153, 51);
  }

  lemma DecodeValue(v: int)
    ensures v % 0x8_0000_0000_0000
      + (v / 0x8_0000_0000_0000 % 0x8_0000_0000_0000) * 0x8_0000_0000_0000
      + (v / 0x40_0000_0000_0000_0000_0000_0000 % 0x8_0000_0000_0000) * 0x40_0000_0000_0000_0000_0000_0000
      + (v / 0x200_0000_0000_0000_0000_0000_0000_0000_0000_0000 % 0x8_0000_0000_0000) * 0x200_0000_0000_0000_0000_0000_0000_0000_0000_0000
      + (v / 0x1000_0000_0000_0000_0000_0000_0000_0000_0000_0000_0000_0000_0000 % 0x8_0000_0000_0000) * 0x1000_0000_0000_0000_0000_0000_0000_0000_0000_0000_0000_0000_0000
      == v % 0x8000_0000_0000_0000_0000_0000_0000_0000_0000_0000_0000_0000_0000_0000_0000_0000
  {
    var a := v / 0x8_0000_0000_0000;
    DivDiv(v, 0x8_0000_0000_0000, 0x8_0000_0000_0000);
    DivDiv(v, 0x40_0000_0000_0000_0000_0000_0000, 0x8_0000_0000_0000);
    DivDiv(v, 0x200_0000_0000_0000_0000_0000_0000_0000_0000_0000, 0x8_0000_0000_0000);
    DivDiv(v, 0x1000_0000_0000_0000_0000_0000_0000_0000_0000_0000_0000_0000_0000, 0x8_0000_0000_0000);
  }

  /** `encode` up to its bytes: the canonical limbs of a field element. */
  method Canonical(f: Fe) returns (h: Fe)
    requires Loose(f)
    ensures Below(h, W) && Val(h) == Field(f)
  {
    hide Quotient;
    h := Carry(f);
    h := Carry(h);
    var q := Quotient(h);
    ghost var before := h;
    h := h[0 := h[0] + 19 * q];
    ghost var g := h;
    assert Val(g) == Val(before) + 19 * (q as int);
    assert 0 <= Val(before) < 2 * PRIME;
    h := Chain(h);
    CanonicalTop(g, h, q, f);
    h := h[4 := h[4] % W];
  }

  /** Whether a number below 2p reaches p: the carry out of h + 19. */
  function Quotient(h: Fe): (q: Word)
    requires h[0] < W + 19 && h[1] < W && h[2] < W && h[3] < W && h[4] < W
    ensures q == if Val(h) >= PRIME then 1 else 0
  {
    var q0 := (h[0] + 19) / W;
    var q1 := (h[1] + q0) / W;
    var q2 := (h[2] + q1) / W;
    var q3 := (h[3] + q2) / W;
    (h[4] + q3) / W
  }

  lemma CanonicalTop(g: Fe, h: Fe, q: Word, f: Fe)
    requires Chained(h, g, 4, 8) && q <= 1
    requires Val(g) < 2 * PRIME + 19 && (if q == 1 then Val(g) - 19 >= PRIME else Val(g) < PRIME)
    requires (Val(g) - 19 * q) % PRIME == Field(f) && 0 <= Val(g) - 19 * q < 2 * PRIME
    ensures h[4] / W == q && Val(h) - q * 0x8000_0000_0000_0000_0000_0000_0000_0000_0000_0000_0000_0000_0000_0000_0000_0000 == Field(f)
  {
    if q == 1 {
      DivModUnique(Val(g) - 19, 1, Val(g) - 19 - PRIME, PRIME);
    } else {
      ModSelf(Val(g), PRIME);
    }
  }

  /** `encode`: the 32 little-endian bytes of the element's residue below p, and of no other number. */
  method Encode(f: Fe) returns (out: seq<Byte>)
    requires Loose(f)
    ensures |out| == 32 && LittleEndian(out) == Field(f)
  {
    var h := Canonical(f);
    var w0 := Joined(h[0], h[1], 0, 51);
    var w1 := Joined(h[1], h[2], 13, 38);
    var w2 := Joined(h[2], h[3], 26, 25);
    var w3 := Joined(h[3], h[4], 39, 12);
    out := LittleBytes(w0, 8) + LittleBytes(w1, 8) + LittleBytes(w2, 8) + LittleBytes(w3, 8);
    FourWords(w0, w1, w2, w3);
    WordsValue(h);
  }

  /** The high bits of one limb and the low bits of the next in a word. */
  function Joined(x: Word, y: Word, drop: nat, shift: nat): (w: Word)
    requires drop + shift == 51 && x < W && y < W
    ensures Pow(2, drop) > 0 && w == x / Pow(2, drop) + (y * Pow(2, shift)) % BASE
  {
    PowPositive(2, drop);
    JoinedDisjoint(x, y, drop, shift);
    Or(x / Pow(2, drop), y * Pow(2, shift) % BASE)
  }

  lemma JoinedDisjoint(x: Word, y: Word, drop: nat, shift: nat)
    requires drop + shift == 51 && x < W && y < W
    ensures Pow(2, drop) > 0 && Pow(2, shift) > 0
    ensures Or(x / Pow(2, drop), y * Pow(2, shift) % BASE) == x / Pow(2, drop) + y * Pow(2, shift) % BASE < BASE
  {
    hide Pow, Or;
    PowPositive(2, drop);
    PowPositive(2, shift);
    PowerOfTwo51();
    BaseIsPower();
    PowAdd(2, drop, shift);
    PowAdd(2, 64 - shift, shift);
    PowPositive(2, 64 - shift);
    ShiftedLow(y, Pow(2, shift), Pow(2, 64 - shift));
    HighPart(x, Pow(2, drop), Pow(2, shift));
    OrDisjoint(x / Pow(2, drop), y % Pow(2, 64 - shift), shift);
  }

  lemma ShiftedLow(y: int, s: int, m: int)
    requires y >= 0 && s > 0 && m > 0 && m * s == BASE
    ensures y * s % BASE == (y % m) * s <= BASE - s
  {
    var z := y % m;
    assert y == m * (y / m) + z;
    assert (m * (y / m)) * s == (y / m) * (m * s);
    assert y * s == (y / m) * BASE + z * s;
    MulMonotone(z, m - 1, s);
    MulNonNegative(z, s);
    DivModUnique(y * s, y / m, z * s, BASE);
  }

  lemma HighPart(x: int, d: int, s: int)
    requires d > 0 && s > 0 && 0 <= x < d * s
    ensures 0 <= x / d < s
  {
    assert x == d * (x / d) + x % d;
    if x / d >= s { MulMonotone(s, x / d, d); }
  }

  lemma FourWords(w0: Word, w1: Word, w2: Word, w3: Word)
    ensures LittleEndian(LittleBytes(w0, 8) + LittleBytes(w1, 8) + LittleBytes(w2, 8) + LittleBytes(w3, 8))
         == w0 + (w1 as int) * 0x1_0000_0000_0000_0000 + (w2 as int) * 0x1_0000_0000_0000_0000_0000_0000_0000_0000
          + (w3 as int) * 0x1_0000_0000_0000_0000_0000_0000_0000_0000_0000_0000_0000_0000
  {
    hide LittleEndian, LittleBytes, Pow;
    WordPowers();
    var a, b, c, d := LittleBytes(w0, 8), LittleBytes(w1, 8), LittleBytes(w2, 8), LittleBytes(w3, 8);
    LittleBytesValue(w0, 8);
    LittleBytesValue(w1, 8);
    LittleBytesValue(w2, 8);
    LittleBytesValue(w3, 8);
    LittleEndianConcat(a, b);
    LittleEndianConcat(a + b, c);
    LittleEndianConcat(a + b + c, d);
    assert |a + b| == 16 && |a + b + c| == 24;
  }

  lemma WordPowers()
    ensures Pow(256, 8) == 0x1_0000_0000_0000_0000 && Pow(256, 16) == 0x1_0000_0000_0000_0000_0000_0000_0000_0000
    ensures Pow(256, 24) == 0x1_0000_0000_0000_0000_0000_0000_0000_0000_0000_0000_0000_0000
  {
    hide Pow;
    BaseIsPower();
    PowAdd(256, 8, 8);
    PowAdd(256, 16, 8);
  }

  lemma WordsValue(h: Fe)
    requires Below(h, W)
    ensures Joined(h[0], h[1], 0, 51) + (Joined(h[1], h[2], 13, 38) as int) * 0x1_0000_0000_0000_0000
      + (Joined(h[2], h[3], 26, 25) as int) * 0x1_0000_0000_0000_0000_0000_0000_0000_0000
      + (Joined(h[3], h[4], 39, 12) as int) * 0x1_0000_0000_0000_0000_0000_0000_0000_0000_0000_0000_0000_0000 == Val(h)
  {
    hide Joined;
    ShiftPowers();
    WordsSum(h[0], h[1], h[2], h[3], h[4]);
  }

  lemma ShiftPowers()
    ensures Pow(2, 0) == 1 && Pow(2, 12) == 0x1000 && Pow(2, 13) == 0x2000 && Pow(2, 25) == 0x200_0000 && Pow(2, 26) == 0x400_0000
    ensures Pow(2, 38) == 0x40_0000_0000 && Pow(2, 39) == 0x80_0000_0000 && Pow(2, 51) == 0x8_0000_0000_0000
  {
    assert Pow(2, 3) == 8;
    PowAdd(2, 3, 3);
    PowAdd(2, 6, 6);
    PowAdd(2, 12, 1);
    PowAdd(2, 12, 13);
    PowAdd(2, 13, 13);
    PowAdd(2, 13, 25);
    PowAdd(2, 13, 26);
    PowAdd(2, 13, 38);
  }

  lemma WordsSum(a: int, b: int, c: int, d: int, e: int)
    requires 0 <= a < 0x8_0000_0000_0000 && 0 <= b < 0x8_0000_0000_0000 && 0 <= c < 0x8_0000_0000_0000
    requires 0 <= d < 0x8_0000_0000_0000 && 0 <= e < 0x8_0000_0000_0000
    ensures (a + b * 0x8_0000_0000_0000 % 0x1_0000_0000_0000_0000)
      + (b / 0x2000 + c * 0x40_0000_0000 % 0x1_0000_0000_0000_0000) * 0x1_0000_0000_0000_0000
      + (c / 0x400_0000 + d * 0x200_0000 % 0x1_0000_0000_0000_0000) * 0x1_0000_0000_0000_0000_0000_0000_0000_0000
      + (d / 0x80_0000_0000 + e * 0x1000 % 0x1_0000_0000_0000_0000) * 0x1_0000_0000_0000_0000_0000_0000_0000_0000_0000_0000_0000_0000
      == a + b * 0x8_0000_0000_0000 + c * 0x40_0000_0000_0000_0000_0000_0000
      + d * 0x200_0000_0000_0000_0000_0000_0000_0000_0000_0000 + e * 0x1000_0000_0000_0000_0000_0000_0000_0000_0000_0000_0000_0000_0000
  {
    assert b * 0x8_0000_0000_0000 % 0x1_0000_0000_0000_0000 == (b % 0x2000) * 0x8_0000_0000_0000;
    assert c * 0x40_0000_0000 % 0x1_0000_0000_0000_0000 == (c % 0x400_0000) * 0x40_0000_0000;
    assert d * 0x200_0000 % 0x1_0000_0000_0000_0000 == (d % 0x80_0000_0000) * 0x200_0000;
    assert e * 0x1000 % 0x1_0000_0000_0000_0000 == e * 0x1000;
  }

  // ---------------------------------------------------------------- x25519

  /** The scalar as section 5 of RFC 7748 reads it: bits 0 to 2 clear, bit 254 set, bit 255 clear. */
  function Clamp(v: int): int
  {
    0x4000_0000_0000_0000_0000_0000_0000_0000_0000_0000_0000_0000_0000_0000_0000_0000
      + v / 8 * 8 % 0x4000_0000_0000_0000_0000_0000_0000_0000_0000_0000_0000_0000_0000_0000_0000_0000
  }

  function ClampBytes(scalar: seq<Byte>): (k: seq<Byte>)
    requires |scalar| == 32
    ensures |k| == 32 && LittleEndian(k) == Clamp(LittleEndian(scalar))
  {
    FirstByte(scalar[0]);
    LastByte(scalar[31]);
    var k := [And(scalar[0], 0xf8)] + scalar[1..31] + [Or(And(scalar[31], 127), 64)];
    ClampValue(scalar);
    k
  }

  lemma FirstByte(x: Byte)
    ensures And(x, 0xf8) == x / 8 * 8
  {
    AndUnfold(x, 0xf8);
    AndUnfold(x / 2, 0x7c);
    AndUnfold(x / 2 / 2, 0x3e);
    assert x / 2 / 2 / 2 == x / 8;
    assert Pow(2, 5) == 32;
    AndOnes(x / 8, 5);
  }

  lemma LastByte(x: Byte)
    ensures Or(And(x, 127), 64) == 64 + x % 64
  {
    hide Or, And;
    assert Pow(2, 3) == 8;
    PowAdd(2, 3, 3);
    assert Pow(2, 7) == 128;
    AndMask(x, 7);
    OrBit(x % 128, 6);
  }

  lemma ClampValue(s: seq<Byte>)
    requires |s| == 32
    ensures LittleEndian([s[0] / 8 * 8] + s[1..31] + [64 + s[31] % 64]) == Clamp(LittleEndian(s))
  {
    hide LittleEndian, Pow, Clamp;
    var mid := LittleEndian(s[1..31]);
    assert s == [s[0]] + s[1..31] + [s[31]];
    Sandwich(s[0], s[1..31], s[31]);
    Sandwich(s[0] / 8 * 8, s[1..31], 64 + s[31] % 64);
    LittleEndianBound(s[1..31]);
    Power30();
    ClampNumber(s[0], mid, s[31]);
  }

  lemma ClampNumber(a: int, m: int, b: int)
    requires 0 <= a < 256 && 0 <= b < 256
    requires 0 <= m < 0x1_0000_0000_0000_0000_0000_0000_0000_0000_0000_0000_0000_0000_0000_0000_0000
    ensures a / 8 * 8 + 256 * m + 0x100_0000_0000_0000_0000_0000_0000_0000_0000_0000_0000_0000_0000_0000_0000_0000 * (64 + b % 64)
         == Clamp(a + 256 * m + 0x100_0000_0000_0000_0000_0000_0000_0000_0000_0000_0000_0000_0000_0000_0000_0000 * b)
  {
    var v := a + 256 * m + 0x100_0000_0000_0000_0000_0000_0000_0000_0000_0000_0000_0000_0000_0000_0000_0000 * b;
    var low := a / 8 * 8 + 256 * m + 0x100_0000_0000_0000_0000_0000_0000_0000_0000_0000_0000_0000_0000_0000_0000_0000 * (b % 64);
    assert v / 8 * 8 == (b / 64) * 0x4000_0000_0000_0000_0000_0000_0000_0000_0000_0000_0000_0000_0000_0000_0000_0000 + low;
    DivModUnique(v / 8 * 8, b / 64, low, 0x4000_0000_0000_0000_0000_0000_0000_0000_0000_0000_0000_0000_0000_0000_0000_0000);
  }

  lemma Power30()
    ensures Pow(256, 30) == 0x1_0000_0000_0000_0000_0000_0000_0000_0000_0000_0000_0000_0000_0000_0000_0000
  {
    BaseIsPower();
    PowAdd(256, 8, 8);
    PowAdd(256, 16, 8);
    assert Pow(256, 3) == 0x100_0000;
    PowAdd(256, 3, 3);
    PowAdd(256, 24, 6);
  }

  lemma Sandwich(a: Byte, m: seq<Byte>, b: Byte)
    requires |m| == 30
    ensures LittleEndian([a] + m + [b]) == a + 256 * LittleEndian(m) + 256 * (Pow(256, 30) * b)
  {
    LittleEndianConcat([a], m);
    LittleEndianConcat([a] + m, [b]);
    assert LittleEndian([a]) == a && LittleEndian([b]) == b && Pow(256, 1) == 256;
    assert Pow(256, 31) == 256 * Pow(256, 30);
  }

  lemma ByteBit(k: seq<Byte>, t: nat)
    requires |k| == 32 && t < 256
    ensures LittleEndian(k) >= 0 && Pow(2, t % 8) > 0
    ensures k[t / 8] / Pow(2, t % 8) % 2 == Bit(LittleEndian(k), t)
  {
    LittleEndianBound(k);
    var i, r, v := t / 8, t % 8, LittleEndian(k);
    LittleSlice(k, i, 1);
    assert k[i..i + 1] == [k[i]] && LittleEndian([k[i]]) == k[i] && Pow(256, 1) == 256;
    PowPositive(2, r);
    assert Pow(2, 8) == 256 by { assert Pow(2, 4) == 16; PowAdd(2, 4, 4); }
    PowMul(2, 8, i);
    PowAdd(2, 8 * i, r);
    DivDiv(v, Pow(256, i), Pow(2, r));
    var y := v / Pow(256, i);
    assert y == k[i] + (y / 256) * 256;
    BitOfLow(k[i], y / 256, r);
  }

  lemma BitOfLow(x: int, h: int, r: nat)
    requires r < 8
    ensures Pow(2, r) > 0 && (x + h * 256) / Pow(2, r) % 2 == x / Pow(2, r) % 2
  {
    PowPositive(2, r);
    assert Pow(2, 8) == 256 by { assert Pow(2, 4) == 16; PowAdd(2, 4, 4); }
    PowAdd(2, r, 8 - r);
    var q, g := Pow(2, r), Pow(2, 7 - r);
    assert Pow(2, 8 - r) == 2 * g;
    assert 256 == q * (2 * g);
    Rearrange(h, q, 2, g);
    DivAddMultiple(x, (h * g) * 2, q);
    ModMultiple(x / q, h * g, 2);
  }

  /** What the limbs hold before the step at bit t: the ladder's pair, exchanged when the last bit was 1. */
  ghost predicate AtBit(s: Rungs, swapped: Word, k: nat, u: int, t: nat)
  {
    t <= 255 && swapped <= 1 && s == if swapped == 1 then Ladder(k, u, t).Swapped() else Ladder(k, u, t)
  }

  /** The 255 steps, the swap of each deferred to the next. */
  method Climb(k: seq<Byte>, u: Fe) returns (x2: Fe, z2: Fe)
    requires |k| == 32 && Tight(u) && Loose(u)
    ensures Tight(x2) && Tight(z2) && LittleEndian(k) >= 0
    ensures var s := Ladder(LittleEndian(k), Field(u), 0); Field(x2) == s.x2 && Field(z2) == s.z2
  {
    hide Val, Field, LittleEndian, Bit, Rung;
    LittleEndianBound(k);
    ghost var n, f := LittleEndian(k), Field(u);
    Constant(0);
    Constant(1);
    var x3, z3: Fe := u, [1, 0, 0, 0, 0];
    x2, z2 := [1, 0, 0, 0, 0], [0, 0, 0, 0, 0];
    var swapped: Word := 0;
    var t := 255;
    while t > 0
      invariant 0 <= t <= 255 && Tight(x2) && Tight(z2) && Tight(x3) && Tight(z3)
      invariant AtBit(View(x2, z2, x3, z3), swapped, n, f, t)
    {
      t := t - 1;
      PowPositive(2, t % 8);
      var bit: Word := k[t / 8] / Pow(2, t % 8) % 2;
      ByteBit(k, t);
      var exchange := Xor(swapped, bit);
      x2, x3 := Swap(exchange, x2, x3);
      z2, z3 := Swap(exchange, z2, z3);
      swapped := bit;
      x2, z2, x3, z3 := LimbRung(x2, z2, x3, z3, u);
    }
    x2, x3 := Swap(swapped, x2, x3);
    z2, z3 := Swap(swapped, z2, z3);
  }

  /** `x25519`: the u-coordinate the ladder of RFC 7748 computes, x₂ · z₂^(p − 2), for every scalar and every point,
      the point's top bit ignored; all limb arithmetic in range. */
  method Shared(scalar: seq<Byte>, point: seq<Byte>) returns (out: seq<Byte>)
    requires |scalar| == |point| == 32
    ensures |out| == 32
    ensures var k := Clamp(LittleEndian(scalar));
      var u := LittleEndian(point) % 0x8000_0000_0000_0000_0000_0000_0000_0000_0000_0000_0000_0000_0000_0000_0000_0000 % PRIME;
      && k >= 0
      && var s := Ladder(k, u, 0); LittleEndian(out) == s.x2 * (Pow(s.z2, PRIME - 2) % PRIME) % PRIME
  {
    hide Ladder, Val, Mul, Invert, Decode, LittleEndian, Pow;
    var k := ClampBytes(scalar);
    var u := Decode(point);
    DecodeCorrect(point);
    var x2, z2 := Climb(k, u);
    InvertPower(z2);
    out := Encode(Mul(x2, Invert(z2)));
  }
}

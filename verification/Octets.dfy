/** Sixteen-byte blocks as numbers, most significant byte first. */
module Octets {
  import Arith
  import G = Gf128

  type Block = G.Block
  type Octet = bv8
  type Bytes = seq<Octet>
  type Word = bv32

  function Word0(b: Block): Word { ((b >> 96) & 0xffff_ffff) as bv32 }
  function Word1(b: Block): Word { ((b >> 64) & 0xffff_ffff) as bv32 }
  function Word2(b: Block): Word { ((b >> 32) & 0xffff_ffff) as bv32 }
  function Word3(b: Block): Word { ((b) & 0xffff_ffff) as bv32 }

  function Octet0(w: Word): Octet { (w >> 24) as Octet }
  function Octet1(w: Word): Octet { ((w >> 16) & 0xff) as Octet }
  function Octet2(w: Word): Octet { ((w >> 8) & 0xff) as Octet }
  function Octet3(w: Word): Octet { (w & 0xff) as Octet }

  function FromWord(w: Word): (s: Bytes)
    ensures |s| == 4
  {
    [Octet0(w), Octet1(w), Octet2(w), Octet3(w)]
  }

  function ToWord(a: Octet, b: Octet, c: Octet, d: Octet): Word {
    ((a as Word) << 24) | ((b as Word) << 16) | ((c as Word) << 8) | (d as Word)
  }

  function ToWords(a: Word, b: Word, c: Word, d: Word): Block {
    ((a as Block) << 96) | ((b as Block) << 64) | ((c as Block) << 32) | (d as Block)
  }

  /** The big-endian bytes of a block, and back. */
  function FromBlock(b: Block): (s: Bytes)
    ensures |s| == 16
  {
    FromWord(Word0(b)) + FromWord(Word1(b)) + FromWord(Word2(b)) + FromWord(Word3(b))
  }

  function ToBlock(s: Bytes): Block
    requires |s| == 16
  {
    ToWords(
      ToWord(s[0], s[1], s[2], s[3]), ToWord(s[4], s[5], s[6], s[7]),
      ToWord(s[8], s[9], s[10], s[11]), ToWord(s[12], s[13], s[14], s[15]))
  }

  lemma WordsPlaced(a: Word, b: Word, c: Word, d: Word)
    ensures var w := ToWords(a, b, c, d); Word0(w) == a && Word1(w) == b && Word2(w) == c && Word3(w) == d
  {}

  lemma OctetsPlaced(a: Octet, b: Octet, c: Octet, d: Octet)
    ensures FromWord(ToWord(a, b, c, d)) == [a, b, c, d]
  {}

  lemma FromTo(s: Bytes)
    requires |s| == 16
    ensures FromBlock(ToBlock(s)) == s
  {
    hide Word0, Word1, Word2, Word3, FromWord, ToWord, ToWords;
    WordsPlaced(
      ToWord(s[0], s[1], s[2], s[3]), ToWord(s[4], s[5], s[6], s[7]),
      ToWord(s[8], s[9], s[10], s[11]), ToWord(s[12], s[13], s[14], s[15]));
    OctetsPlaced(s[0], s[1], s[2], s[3]);
    OctetsPlaced(s[4], s[5], s[6], s[7]);
    OctetsPlaced(s[8], s[9], s[10], s[11]);
    OctetsPlaced(s[12], s[13], s[14], s[15]);
  }

  function XorWord(v: Word, w: Word): Word { v ^ w }

  function Xor(a: Octet, b: Octet): Octet { a ^ b }

  lemma Octet0Xor(v: Word, w: Word)
    ensures Octet0(v ^ w) == Xor((v >> 24) as Octet, (w >> 24) as Octet)
  {}

  lemma Octet1Xor(v: Word, w: Word)
    ensures Octet1(v ^ w) == Xor(((v >> 16) & 0xff) as Octet, ((w >> 16) & 0xff) as Octet)
  {}

  lemma Octet2Xor(v: Word, w: Word)
    ensures Octet2(v ^ w) == Xor(((v >> 8) & 0xff) as Octet, ((w >> 8) & 0xff) as Octet)
  {}

  lemma Octet3Xor(v: Word, w: Word)
    ensures Octet3(v ^ w) == Xor((v & 0xff) as Octet, (w & 0xff) as Octet)
  {}

  lemma FromXorWord(v: Word, w: Word)
    ensures FromWord(XorWord(v, w)) == [Xor(Octet0(v), Octet0(w)), Xor(Octet1(v), Octet1(w)), Xor(Octet2(v), Octet2(w)), Xor(Octet3(v), Octet3(w))]
  {
    hide Xor;
    Octet0Xor(v, w);
    Octet1Xor(v, w);
    Octet2Xor(v, w);
    Octet3Xor(v, w);
  }

  lemma WordXor(v: Word, w: Word, i: nat)
    requires i < 4
    ensures FromWord(XorWord(v, w))[i] == Xor(FromWord(v)[i], FromWord(w)[i])
  {
    hide Xor, Octet0, Octet1, Octet2, Octet3, XorWord;
    FromXorWord(v, w);
  }

  lemma Word0Xor(a: Block, b: Block)
    ensures (((a ^ b) >> 96) & 0xffff_ffff) as bv32 == XorWord(((a >> 96) & 0xffff_ffff) as bv32, ((b >> 96) & 0xffff_ffff) as bv32)
  {}

  lemma Word0Add(a: Block, b: Block)
    ensures Word0(G.Add(a, b)) == XorWord(Word0(a), Word0(b))
  {
    hide G.Add, XorWord;
    Word0Xor(a, b);
    G.AddIsXor(a, b);
  }

  lemma Word1Xor(a: Block, b: Block)
    ensures (((a ^ b) >> 64) & 0xffff_ffff) as bv32 == XorWord(((a >> 64) & 0xffff_ffff) as bv32, ((b >> 64) & 0xffff_ffff) as bv32)
  {}

  lemma Word1Add(a: Block, b: Block)
    ensures Word1(G.Add(a, b)) == XorWord(Word1(a), Word1(b))
  {
    hide G.Add, XorWord;
    Word1Xor(a, b);
    G.AddIsXor(a, b);
  }

  lemma Word2Xor(a: Block, b: Block)
    ensures (((a ^ b) >> 32) & 0xffff_ffff) as bv32 == XorWord(((a >> 32) & 0xffff_ffff) as bv32, ((b >> 32) & 0xffff_ffff) as bv32)
  {}

  lemma Word2Add(a: Block, b: Block)
    ensures Word2(G.Add(a, b)) == XorWord(Word2(a), Word2(b))
  {
    hide G.Add, XorWord;
    Word2Xor(a, b);
    G.AddIsXor(a, b);
  }

  lemma Word3Xor(a: Block, b: Block)
    ensures (((a ^ b)) & 0xffff_ffff) as bv32 == XorWord(((a) & 0xffff_ffff) as bv32, ((b) & 0xffff_ffff) as bv32)
  {}

  lemma Word3Add(a: Block, b: Block)
    ensures Word3(G.Add(a, b)) == XorWord(Word3(a), Word3(b))
  {
    hide G.Add, XorWord;
    Word3Xor(a, b);
    G.AddIsXor(a, b);
  }

  lemma FromAdd(a: Block, b: Block, i: nat)
    requires i < 16
    ensures FromBlock(G.Add(a, b))[i] == Xor(FromBlock(a)[i], FromBlock(b)[i])
  {
    hide Word0, Word1, Word2, Word3, FromWord, XorWord, G.Add, Xor;
    if i < 4 {
      Word0Add(a, b);
      WordXor(Word0(a), Word0(b), i);
    } else if i < 8 {
      Word1Add(a, b);
      WordXor(Word1(a), Word1(b), i - 4);
    } else if i < 12 {
      Word2Add(a, b);
      WordXor(Word2(a), Word2(b), i - 8);
    } else {
      Word3Add(a, b);
      WordXor(Word3(a), Word3(b), i - 12);
    }
  }

  // ------------------------------------------------------------------
  // Numbers as big-endian bytes
  // ------------------------------------------------------------------

  function Scale(k: nat): nat {
    if k == 0 then 1 else 256 * Scale(k - 1)
  }

  function Nibble(k: nat): Octet
    requires k < 16
  {
    if k == 0 then 0 else if k == 1 then 1 else if k == 2 then 2 else if k == 3 then 3 else if k == 4 then 4 else
    if k == 5 then 5 else if k == 6 then 6 else if k == 7 then 7 else if k == 8 then 8 else if k == 9 then 9 else
    if k == 10 then 10 else if k == 11 then 11 else if k == 12 then 12 else if k == 13 then 13 else if k == 14 then 14 else 15
  }

  function ToOctet(x: nat): Octet
    requires x < 256
  {
    (Nibble(x / 16) << 4) | Nibble(x % 16)
  }

  /** x in n big-endian bytes, without what does not fit. */
  function Be(x: nat, n: nat): (s: Bytes)
    ensures |s| == n
    decreases n
  {
    if n == 0 then [] else Be(x / 256, n - 1) + [ToOctet(x % 256)]
  }

  lemma NibbleInjective(j: nat, k: nat)
    requires j < 16 && k < 16
    ensures Nibble(j) & 0xf0 == 0
    ensures Nibble(j) == Nibble(k) ==> j == k
  {}

  lemma NibblesJoined(a: Octet, b: Octet, c: Octet, d: Octet)
    requires a & 0xf0 == 0 && b & 0xf0 == 0 && c & 0xf0 == 0 && d & 0xf0 == 0
    requires (a << 4) | b == (c << 4) | d
    ensures a == c && b == d
  {}

  lemma OctetInjective(x: nat, y: nat)
    requires x < 256 && y < 256 && ToOctet(x) == ToOctet(y)
    ensures x == y
  {
    hide Nibble;
    NibbleInjective(x / 16, y / 16);
    NibbleInjective(y / 16, x / 16);
    NibbleInjective(x % 16, y % 16);
    NibbleInjective(y % 16, x % 16);
    NibblesJoined(Nibble(x / 16), Nibble(x % 16), Nibble(y / 16), Nibble(y % 16));
  }

  lemma {:induction false} BeInjective(x: nat, y: nat, n: nat)
    requires x < Scale(n) && y < Scale(n)
    requires Be(x, n) == Be(y, n)
    ensures x == y
    decreases n
  {
    if n > 0 {
      var s, t := Be(x, n), Be(y, n);
      hide ToOctet;
      assert s[n - 1] == ToOctet(x % 256) && t[n - 1] == ToOctet(y % 256);
      OctetInjective(x % 256, y % 256);
      assert s[..n - 1] == Be(x / 256, n - 1);
      assert t[..n - 1] == Be(y / 256, n - 1);
      BeInjective(x / 256, y / 256, n - 1);
    }
  }

  function FromNibble(o: Octet): (k: nat)
    ensures k < 16
  {
    if o == 0 then 0 else if o == 1 then 1 else if o == 2 then 2 else if o == 3 then 3 else if o == 4 then 4 else
    if o == 5 then 5 else if o == 6 then 6 else if o == 7 then 7 else if o == 8 then 8 else if o == 9 then 9 else
    if o == 10 then 10 else if o == 11 then 11 else if o == 12 then 12 else if o == 13 then 13 else if o == 14 then 14 else 15
  }

  function FromOctet(o: Octet): (x: nat)
    ensures x < 256
  {
    16 * FromNibble(o >> 4) + FromNibble(o & 0xf)
  }

  lemma FromToNibble(k: nat)
    requires k < 16
    ensures FromNibble(Nibble(k)) == k
  {}

  lemma Nibbles(a: Octet, b: Octet)
    requires a & 0xf0 == 0 && b & 0xf0 == 0
    ensures ((a << 4) | b) >> 4 == a && ((a << 4) | b) & 0xf == b
  {}

  lemma FromToOctet(x: nat)
    requires x < 256
    ensures FromOctet(ToOctet(x)) == x
  {
    hide Nibble, FromNibble;
    NibbleInjective(x / 16, x / 16);
    NibbleInjective(x % 16, x % 16);
    Nibbles(Nibble(x / 16), Nibble(x % 16));
    FromToNibble(x / 16);
    FromToNibble(x % 16);
  }

  /** Bytes read as a number, the first the most significant. */
  function BeValue(s: Bytes): nat {
    if s == [] then 0 else 256 * BeValue(s[..|s| - 1]) + FromOctet(s[|s| - 1])
  }

  /** The bytes of x read back as x, when it fits. */
  lemma {:induction false} BeReads(x: nat, n: nat)
    requires x < Scale(n)
    ensures BeValue(Be(x, n)) == x
    decreases n
  {
    hide ToOctet, FromOctet, BeValue;
    if n == 0 {
      BeNothing();
    } else {
      FromToOctet(x % 256);
      BeReads(x / 256, n - 1);
      BeLast(Be(x, n), Be(x / 256, n - 1), ToOctet(x % 256));
    }
  }

  lemma {:induction false} BeJoined(a: Bytes, b: Bytes)
    ensures BeValue(a + b) == BeValue(a) * Scale(|b|) + BeValue(b)
    decreases |b|
  {
    hide FromOctet, BeValue;
    if b == [] {
      assert a + b == a;
      BeNothing();
    } else {
      var init, last := b[..|b| - 1], b[|b| - 1];
      BeLast(a + b, a + init, last);
      BeLast(b, init, last);
      BeJoined(a, init);
      Pull(BeValue(a), Scale(|init|));
      assert Scale(|b|) == 256 * Scale(|init|);
    }
  }

  lemma BeLast(s: Bytes, init: Bytes, last: Octet)
    requires s == init + [last]
    ensures BeValue(s) == 256 * BeValue(init) + FromOctet(last)
  {
    hide FromOctet;
    assert s[..|s| - 1] == init;
  }

  lemma BeNothing()
    ensures BeValue([]) == 0
  {}

  lemma Pull(a: nat, k: nat)
    ensures a * (256 * k) == 256 * (a * k)
  {}

  lemma ScalePositive(k: nat)
    ensures Scale(k) > 0
  {}

  /** Byte i of n: the digit of x in base 256 at that place. */
  lemma {:induction false} BeByte(x: nat, n: nat, i: nat)
    requires i < n
    ensures Scale(n - 1 - i) > 0 && FromOctet(Be(x, n)[i]) == x / Scale(n - 1 - i) % 256
    decreases n
  {
    hide ToOctet, FromOctet;
    ScalePositive(n - 1 - i);
    if i == n - 1 {
      FromToOctet(x % 256);
    } else {
      BeByte(x / 256, n - 1, i);
      assert Be(x, n)[i] == Be(x / 256, n - 1)[i];
      var d := Scale(n - 2 - i);
      assert Scale(n - 1 - i) == 256 * d;
      Arith.DivDiv(x, 256, d);
    }
  }
}

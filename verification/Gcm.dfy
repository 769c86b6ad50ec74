/**
 * AES-GCM streaming (net/aes_gcm.rs): the counter keystream and the running
 * GHASH of a message that arrives in pieces, against the definition of
 * section 7 of NIST SP 800-38D. The block cipher is any function on blocks.
 */
module Gcm {
  import G = Gf128
  import C = Clmul
  import opened Octets

  type Cipher = Block -> Block

  const TAG: nat := 16
  const MAX_MESSAGE: nat := 68_719_476_704
  const COUNTERS: nat := 0x1_0000_0000

  // ------------------------------------------------------------------
  // The definition
  // ------------------------------------------------------------------

  function CounterBlock(nonce: Bytes, counter: nat): Block
    requires |nonce| == 12
  {
    ToBlock(nonce + Be(counter, 4))
  }

  /** Keystream byte i of the message: the counter starts at two. */
  function Pad(enc: Cipher, nonce: Bytes, i: nat): Octet
    requires |nonce| == 12
  {
    FromBlock(enc(CounterBlock(nonce, 2 + i / 16)))[i % 16]
  }

  /** Section 6.5: data from position at on, under the counter keystream. */
  function Crypt(enc: Cipher, nonce: Bytes, at: nat, data: Bytes): (r: Bytes)
    requires |nonce| == 12
    ensures |r| == |data|
  {
    seq(|data|, i requires 0 <= i < |data| => Xor(data[i], Pad(enc, nonce, at + i)))
  }

  /** Section 6.4: the hash of the whole blocks of data, one after another. */
  function Ghash(h: Block, acc: Block, data: Bytes): Block
    decreases |data|
  {
    if |data| < 16 then acc else Ghash(h, G.Mul(G.Add(acc, ToBlock(data[..16])), h), data[16..])
  }

  function Zeros(n: nat): (z: Bytes)
    ensures |z| == n
  {
    seq(n, _ => 0)
  }

  function Gap(n: nat): nat { (16 - n % 16) % 16 }

  /** data filled with zeros to a whole number of blocks. */
  function Padded(data: Bytes): (r: Bytes)
    ensures |r| % 16 == 0
  {
    GapOf(|data|);
    data + Zeros(Gap(|data|))
  }

  function Lengths(aad: nat, len: nat): (r: Bytes)
    ensures |r| == 16
  {
    Be(8 * aad, 8) + Be(8 * len, 8)
  }

  /** The last block hashed, as a number: the bits of associated data above those of ciphertext. */
  lemma LengthsValue(aad: nat, len: nat)
    requires 8 * aad < 0x1_0000_0000_0000_0000 && 8 * len < 0x1_0000_0000_0000_0000
    ensures BeValue(Lengths(aad, len)) == 0x1_0000_0000_0000_0000 * (8 * aad) + 8 * len
  {
    hide Be, BeValue;
    assert Scale(8) == 0x1_0000_0000_0000_0000;
    BeReads(8 * aad, 8);
    BeReads(8 * len, 8);
    BeJoined(Be(8 * aad, 8), Be(8 * len, 8));
  }

  /** Section 5.2.1.2 of SP 800-38D, for a nonce of 96 bits: the nonce, then the counter as a number. */
  lemma CounterValue(nonce: Bytes, counter: nat)
    requires |nonce| == 12 && counter < COUNTERS
    ensures var b := FromBlock(CounterBlock(nonce, counter)); b[..12] == nonce && BeValue(b[12..]) == counter
  {
    hide Be, BeValue, ToBlock, FromBlock;
    var b := nonce + Be(counter, 4);
    FromTo(b);
    assert Scale(4) == COUNTERS;
    BeReads(counter, 4);
    assert b[12..] == Be(counter, 4);
  }

  /** Section 7.1: the tag of a ciphertext. */
  function Tag(enc: Cipher, nonce: Bytes, aad: Bytes, cipher: Bytes): (r: Bytes)
    requires |nonce| == 12
    ensures |r| == TAG
  {
    var s := Ghash(enc(0), 0, Padded(aad) + Padded(cipher) + Lengths(|aad|, |cipher|));
    FromBlock(G.Add(s, enc(CounterBlock(nonce, 1))))
  }

  function Sealed(enc: Cipher, nonce: Bytes, aad: Bytes, plain: Bytes): Bytes
    requires |nonce| == 12
  {
    var cipher := Crypt(enc, nonce, 0, plain);
    cipher + Tag(enc, nonce, aad, cipher)
  }

  // ------------------------------------------------------------------
  // The definition's own properties
  // ------------------------------------------------------------------

  lemma XorTwice(a: Octet, b: Octet)
    ensures Xor(Xor(a, b), b) == a
  {}

  /** Decrypting is encrypting again. */
  lemma CryptTwice(enc: Cipher, nonce: Bytes, at: nat, data: Bytes)
    requires |nonce| == 12
    ensures Crypt(enc, nonce, at, Crypt(enc, nonce, at, data)) == data
  {
    hide Xor, Pad;
    var once := Crypt(enc, nonce, at, data);
    var twice := Crypt(enc, nonce, at, once);
    forall i | 0 <= i < |data| ensures twice[i] == data[i] {
      XorTwice(data[i], Pad(enc, nonce, at + i));
    }
  }

  /** A message cut in two is the same message. */
  lemma CryptSplit(enc: Cipher, nonce: Bytes, at: nat, x: Bytes, y: Bytes)
    requires |nonce| == 12
    ensures Crypt(enc, nonce, at, x + y) == Crypt(enc, nonce, at, x) + Crypt(enc, nonce, at + |x|, y)
  {
    hide Xor, Pad;
    var whole, first, second := Crypt(enc, nonce, at, x + y), Crypt(enc, nonce, at, x), Crypt(enc, nonce, at + |x|, y);
    assert |whole| == |first + second|;
    forall i | 0 <= i < |x + y| ensures whole[i] == (first + second)[i] {
      if i >= |x| {
        assert at + |x| + (i - |x|) == at + i;
      }
    }
  }

  lemma {:induction false} GhashAppend(h: Block, acc: Block, x: Bytes, y: Bytes)
    requires |x| % 16 == 0
    ensures Ghash(h, acc, x + y) == Ghash(h, Ghash(h, acc, x), y)
    decreases |x|
  {
    hide G.Mul, G.Add, ToBlock;
    if |x| == 0 {
      assert x + y == y;
    } else {
      assert (x + y)[..16] == x[..16];
      assert (x + y)[16..] == x[16..] + y;
      GhashAppend(h, G.Mul(G.Add(acc, ToBlock(x[..16])), h), x[16..], y);
    }
  }

  lemma GhashOne(h: Block, acc: Block, b: Bytes)
    requires |b| == 16
    ensures Ghash(h, acc, b) == G.Mul(G.Add(acc, ToBlock(b)), h)
  {
    hide G.Mul, G.Add, ToBlock;
    assert b[..16] == b;
    assert Ghash(h, G.Mul(G.Add(acc, ToBlock(b)), h), b[16..]) == G.Mul(G.Add(acc, ToBlock(b)), h);
  }

  // ------------------------------------------------------------------
  // Counters
  // ------------------------------------------------------------------

  /** Different counters give different blocks, and so does the tag's. */
  lemma CountersDiffer(nonce: Bytes, c: nat, d: nat)
    requires |nonce| == 12 && c < COUNTERS && d < COUNTERS && c != d
    ensures CounterBlock(nonce, c) != CounterBlock(nonce, d)
  {
    hide ToBlock, FromBlock, Be;
    if CounterBlock(nonce, c) == CounterBlock(nonce, d) {
      FromTo(nonce + Be(c, 4));
      FromTo(nonce + Be(d, 4));
      assert (nonce + Be(c, 4))[12..] == Be(c, 4);
      assert (nonce + Be(d, 4))[12..] == Be(d, 4);
      assert Scale(4) == COUNTERS;
      BeInjective(c, d, 4);
    }
  }

  /**
   * No keystream block of a message up to MAX_MESSAGE is another one's, nor
   * the block that masks the tag.
   */
  lemma PadsDiffer(nonce: Bytes, i: nat, j: nat)
    requires |nonce| == 12 && i < MAX_MESSAGE && j < MAX_MESSAGE
    ensures 2 + i / 16 < COUNTERS
    ensures CounterBlock(nonce, 2 + i / 16) != CounterBlock(nonce, 1)
    ensures i / 16 != j / 16 ==> CounterBlock(nonce, 2 + i / 16) != CounterBlock(nonce, 2 + j / 16)
  {
    hide CounterBlock;
    CountersDiffer(nonce, 2 + i / 16, 1);
    if i / 16 != j / 16 {
      CountersDiffer(nonce, 2 + i / 16, 2 + j / 16);
    }
  }

  // ------------------------------------------------------------------
  // The key
  // ------------------------------------------------------------------

  /** The block cipher under one key and the hash key's first eight powers. */
  datatype Key = Key(enc: Cipher, powers: seq<Block>)

  function HPow(h: Block, n: nat): Block {
    if n == 0 then G.ONE else G.Mul(HPow(h, n - 1), h)
  }

  predicate KeyValid(k: Key) {
    |k.powers| == 8 && forall i | 0 <= i < 8 :: k.powers[i] == HPow(k.enc(0), i + 1)
  }

  method Expand(enc: Cipher) returns (k: Key)
    ensures k.enc == enc && KeyValid(k)
  {
    hide G.Mul, C.Multiply, HPow;
    var h := enc(0);
    HPowOne(h);
    var powers := [h, h, h, h, h, h, h, h];
    for i := 1 to 8
      invariant |powers| == 8
      invariant forall j | 0 <= j < i :: powers[j] == HPow(h, j + 1)
    {
      C.MultiplyCorrect(powers[i - 1], h);
      HPowNext(h, i);
      powers := powers[i := C.Multiply(powers[i - 1], h)];
    }
    k := Key(enc, powers);
  }

  lemma HPowNext(h: Block, n: nat)
    ensures HPow(h, n + 1) == G.Mul(HPow(h, n), h)
  {}

  lemma HPowOne(h: Block)
    ensures HPow(h, 1) == h
  {
    hide G.Mul;
    assert HPow(h, 0) == G.ONE;
    G.MulOneLeft(h);
  }

  /**
   * One more block of the fold: multiplying the running hash by the powers
   * that are still to come.
   */
  lemma FoldStep(h: Block, acc: Block, c: Block, n: nat)
    ensures G.Add(G.Mul(acc, HPow(h, n + 1)), G.Mul(c, HPow(h, n + 1))) == G.Mul(G.Mul(G.Add(acc, c), h), HPow(h, n))
  {
    hide G.Mul, G.Add, HPow;
    HPowNext(h, n);
    G.MulAddLeft(acc, c, HPow(h, n + 1));
    G.MulCommutes(HPow(h, n), h);
    G.MulAssociates(G.Add(acc, c), h, HPow(h, n));
  }

  lemma FoldFirst(h: Block, acc: Block, c: Block, n: nat)
    ensures G.Mul(G.Add(acc, c), HPow(h, n + 1)) == G.Mul(G.Mul(G.Add(acc, c), h), HPow(h, n))
  {
    hide G.Mul, G.Add, HPow;
    HPowNext(h, n);
    G.MulCommutes(HPow(h, n), h);
    G.MulAssociates(G.Add(acc, c), h, HPow(h, n));
  }

  lemma FoldLast(h: Block, acc: Block)
    ensures G.Mul(acc, HPow(h, 0)) == acc
  {
    hide G.Mul;
    G.MulOneRight(acc);
  }

  // ------------------------------------------------------------------
  // One message in flight
  // ------------------------------------------------------------------

  function Whole(n: nat): (r: nat)
    ensures r <= n
  {
    n - n % 16
  }

  function StreamHash(enc: Cipher, aad: Bytes, done: Bytes): Block {
    Ghash(enc(0), 0, Padded(aad) + done[..Whole(|done|)])
  }

  function PadBlock(enc: Cipher, nonce: Bytes, n: nat): (r: Bytes)
    requires |nonce| == 12
    ensures |r| == 16
  {
    FromBlock(enc(CounterBlock(nonce, 2 + n)))
  }

  /** The counter and the partly used block after done bytes of ciphertext. */
  predicate Partial(enc: Cipher, nonce: Bytes, done: Bytes, counter: nat, keystream: Bytes, cipher: Bytes, used: nat)
    requires |nonce| == 12 && |keystream| == 16 && |cipher| == 16 && used <= 16
  {
    && |done| % 16 == used % 16
    && counter == 1 + |done| / 16 + (if used < 16 then 1 else 0)
    && (used < 16 ==>
          && keystream == PadBlock(enc, nonce, |done| / 16)
          && cipher[..used] == done[Whole(|done|)..])
  }

  lemma HashWhole(enc: Cipher, aad: Bytes, done: Bytes, b: Bytes)
    requires |done| % 16 == 0 && |b| == 16
    ensures StreamHash(enc, aad, done + b) == G.Mul(G.Add(StreamHash(enc, aad, done), ToBlock(b)), enc(0))
  {
    hide G.Mul, G.Add, ToBlock, Ghash, Padded;
    var a := Padded(aad);
    assert (done + b)[..Whole(|done + b|)] == done + b;
    assert done[..Whole(|done|)] == done;
    assert a + (done + b) == (a + done) + b;
    GhashAppend(enc(0), 0, a + done, b);
    GhashOne(enc(0), Ghash(enc(0), 0, a + done), b);
  }

  lemma HashPart(enc: Cipher, aad: Bytes, done: Bytes, b: Bytes)
    requires |done| % 16 + |b| < 16
    ensures StreamHash(enc, aad, done + b) == StreamHash(enc, aad, done)
  {
    assert Whole(|done + b|) == Whole(|done|);
    assert (done + b)[..Whole(|done|)] == done[..Whole(|done|)];
  }

  /** One more byte of a partly used block that stays partly used. */
  lemma ByteKept(enc: Cipher, nonce: Bytes, done: Bytes, counter: nat, keystream: Bytes, cipher: Bytes, used: nat, c: Octet)
    requires |nonce| == 12 && |keystream| == 16 && |cipher| == 16
    requires used < 15 && Partial(enc, nonce, done, counter, keystream, cipher, used)
    ensures Partial(enc, nonce, done + [c], counter, keystream, cipher[used := c], used + 1)
  {
    hide PadBlock;
    var next := done + [c];
    assert |next| / 16 == |done| / 16 && Whole(|next|) == Whole(|done|);
    assert next[Whole(|next|)..] == done[Whole(|done|)..] + [c];
    assert cipher[used := c][..used + 1] == cipher[..used] + [c];
  }

  /** The last byte of a block completes it. */
  lemma ByteCompletes(enc: Cipher, nonce: Bytes, done: Bytes, counter: nat, keystream: Bytes, cipher: Bytes, c: Octet)
    requires |nonce| == 12 && |keystream| == 16 && |cipher| == 16
    requires Partial(enc, nonce, done, counter, keystream, cipher, 15)
    ensures Partial(enc, nonce, done + [c], counter, keystream, cipher[15 := c], 16)
    ensures done + [c] == done[..Whole(|done|)] + cipher[15 := c]
  {
    hide PadBlock;
    assert |done + [c]| / 16 == |done| / 16 + 1;
    assert done == done[..Whole(|done|)] + done[Whole(|done|)..];
    assert cipher[15 := c] == cipher[..15] + [c];
  }

  lemma ByteHash(enc: Cipher, aad: Bytes, done: Bytes, block: Bytes, c: Octet)
    requires |done| % 16 == 15 && |block| == 16
    requires done + [c] == done[..Whole(|done|)] + block
    ensures StreamHash(enc, aad, done + [c]) == G.Mul(G.Add(StreamHash(enc, aad, done), ToBlock(block)), enc(0))
  {
    hide G.Mul, G.Add, ToBlock, Ghash, Padded;
    var d := done[..Whole(|done|)];
    HashWhole(enc, aad, d, block);
    assert d[..Whole(|d|)] == d;
  }

  lemma PadAt(enc: Cipher, nonce: Bytes, at: nat, i: nat)
    requires |nonce| == 12 && at % 16 + i < 16
    ensures Pad(enc, nonce, at + i) == PadBlock(enc, nonce, at / 16)[at % 16 + i]
  {
    hide FromBlock, CounterBlock;
    assert (at + i) / 16 == at / 16 && (at + i) % 16 == at % 16 + i;
  }

  lemma CryptAt(enc: Cipher, nonce: Bytes, at: nat, data: Bytes, i: nat)
    requires |nonce| == 12 && i < |data|
    ensures Crypt(enc, nonce, at, data)[i] == Xor(data[i], Pad(enc, nonce, at + i))
  {
    hide Xor, Pad;
  }

  lemma BlockCrypt(enc: Cipher, nonce: Bytes, at: nat, input: Bytes)
    requires |nonce| == 12 && at % 16 == 0 && |input| == 16
    ensures FromBlock(G.Add(enc(CounterBlock(nonce, 2 + at / 16)), ToBlock(input))) == Crypt(enc, nonce, at, input)
  {
    hide G.Add, ToBlock, FromBlock, CounterBlock, Xor, Pad, Crypt;
    var k := enc(CounterBlock(nonce, 2 + at / 16));
    var r := FromBlock(G.Add(k, ToBlock(input)));
    var w := Crypt(enc, nonce, at, input);
    FromTo(input);
    forall i | 0 <= i < 16 ensures r[i] == w[i] {
      FromAdd(k, ToBlock(input), i);
      XorCommutes(FromBlock(k)[i], input[i]);
      PadAt(enc, nonce, at, i);
      CryptAt(enc, nonce, at, input, i);
    }
  }

  lemma XorCommutes(a: Octet, b: Octet)
    ensures Xor(a, b) == Xor(b, a)
  {}

  /** What enters the hash: the ciphertext, whichever side of the cipher it is on. */
  function Hashed(input: Bytes, output: Bytes, decrypt: bool): Bytes {
    if decrypt then input else output
  }

  /** One byte through a partly used block. */
  lemma ByteStep(enc: Cipher, nonce: Bytes, aad: Bytes, done: Bytes, counter: nat, keystream: Bytes, cipher: Bytes, used: nat, input: Octet, c: Octet)
    requires |nonce| == 12 && |keystream| == 16 && |cipher| == 16
    requires used < 16 && Partial(enc, nonce, done, counter, keystream, cipher, used)
    ensures [Xor(input, keystream[used])] == Crypt(enc, nonce, |done|, [input])
    ensures Partial(enc, nonce, done + [c], counter, keystream, cipher[used := c], used + 1)
    ensures StreamHash(enc, aad, done + [c])
         == if used == 15 then G.Mul(G.Add(StreamHash(enc, aad, done), ToBlock(cipher[used := c])), enc(0)) else StreamHash(enc, aad, done)
  {
    hide G.Mul, G.Add, StreamHash, Xor, ToBlock, PadBlock, Crypt, Pad;
    PadAt(enc, nonce, |done|, 0);
    CryptAt(enc, nonce, |done|, [input], 0);
    if used < 15 {
      ByteKept(enc, nonce, done, counter, keystream, cipher, used, c);
      HashPart(enc, aad, done, [c]);
    } else {
      ByteCompletes(enc, nonce, done, counter, keystream, cipher, c);
      ByteHash(enc, aad, done, cipher[15 := c], c);
    }
  }

  /** Output and hashed bytes after src[start..i], and with the next n bytes. */
  predicate Produced(enc: Cipher, nonce: Bytes, was: Bytes, done: Bytes, src: Bytes, start: nat, i: nat, out: Bytes, decrypt: bool)
    requires |nonce| == 12
  {
    && start <= i <= |src|
    && |done| == |was| + i - start
    && out == Crypt(enc, nonce, |was|, src[start..i])
    && done == was + Hashed(src[start..i], out, decrypt)
  }

  lemma ProducedMore(enc: Cipher, nonce: Bytes, was: Bytes, done: Bytes, src: Bytes, start: nat, i: nat, out: Bytes, decrypt: bool, j: nat, more: Bytes)
    requires |nonce| == 12 && Produced(enc, nonce, was, done, src, start, i, out, decrypt) && i <= j <= |src|
    requires more == Crypt(enc, nonce, |done|, src[i..j])
    ensures Produced(enc, nonce, was, done + Hashed(src[i..j], more, decrypt), src, start, j, out + more, decrypt)
  {
    hide Crypt;
    assert src[start..j] == src[start..i] + src[i..j];
    CryptSplit(enc, nonce, |was|, src[start..i], src[i..j]);
  }

  /** A whole block when no block is partly used. */
  lemma BlockStep(enc: Cipher, nonce: Bytes, aad: Bytes, done: Bytes, counter: nat, keystream: Bytes, cipher: Bytes, b: Bytes)
    requires |nonce| == 12 && |keystream| == 16 && |cipher| == 16 && |b| == 16
    requires Partial(enc, nonce, done, counter, keystream, cipher, 16)
    ensures |done| % 16 == 0 && counter == 1 + |done| / 16
    ensures Partial(enc, nonce, done + b, counter + 1, keystream, cipher, 16)
    ensures StreamHash(enc, aad, done + b) == G.Mul(G.Add(StreamHash(enc, aad, done), ToBlock(b)), enc(0))
  {
    hide G.Mul, G.Add, StreamHash, ToBlock;
    HashWhole(enc, aad, done, b);
  }

  lemma WholeBlocks(enc: Cipher, nonce: Bytes, done: Bytes, counter: nat, keystream: Bytes, cipher: Bytes)
    requires |nonce| == 12 && |keystream| == 16 && |cipher| == 16
    requires Partial(enc, nonce, done, counter, keystream, cipher, 16)
    ensures |done| % 16 == 0 && counter == 1 + |done| / 16
  {}

  /** A keystream block is drawn and none of it used. */
  lemma FreshBlock(enc: Cipher, nonce: Bytes, done: Bytes, counter: nat, keystream: Bytes, cipher: Bytes)
    requires |nonce| == 12 && |keystream| == 16 && |cipher| == 16
    requires Partial(enc, nonce, done, counter, keystream, cipher, 16)
    ensures counter == 1 + |done| / 16
    ensures Partial(enc, nonce, done, counter + 1, PadBlock(enc, nonce, |done| / 16), cipher, 0)
  {
    hide PadBlock;
    assert done[Whole(|done|)..] == [];
  }

  lemma NextFits(done: nat, left: nat)
    requires left > 0 && done + left <= MAX_MESSAGE
    ensures (1 + done / 16 + 1) % COUNTERS == 2 + done / 16
  {}

  /** The first k blocks of the eight: their keystream, and the fold that awaits the other powers. */
  predicate Eighth(key: Key, nonce: Bytes, aad: Bytes, was: Bytes, done: Bytes, src: Bytes, at: nat, out: Bytes, decrypt: bool, k: nat, sum: C.Terms)
    requires |nonce| == 12 && k <= 8
  {
    && |was| % 16 == 0
    && Produced(key.enc, nonce, was, done, src, at, at + 16 * k, out, decrypt)
    && C.Reduce(sum) == if k == 0 then 0 else G.Mul(StreamHash(key.enc, aad, done), HPow(key.enc(0), 8 - k))
  }

  lemma FoldedBlock(key: Key, aad: Bytes, was: Bytes, done: Bytes, k: nat, sum: C.Terms, b: Bytes, c: Block)
    requires KeyValid(key) && |done| % 16 == 0 && k < 8 && |b| == 16
    requires C.Reduce(sum) == if k == 0 then 0 else G.Mul(StreamHash(key.enc, aad, done), HPow(key.enc(0), 8 - k))
    requires c == if k == 0 then G.Add(ToBlock(b), StreamHash(key.enc, aad, done)) else ToBlock(b)
    ensures C.Reduce(C.Xor3(sum, C.Product(c, key.powers[7 - k]))) == G.Mul(StreamHash(key.enc, aad, done + b), HPow(key.enc(0), 7 - k))
  {
    hide G.Mul, G.Add, ToBlock, StreamHash, HPow, C.Reduce, C.Xor3, C.Product;
    var h, acc, x := key.enc(0), StreamHash(key.enc, aad, done), ToBlock(b);
    assert key.powers[7 - k] == HPow(h, 7 - k + 1);
    C.ReduceXor3(sum, C.Product(c, key.powers[7 - k]));
    C.MultiplyCorrect(c, key.powers[7 - k]);
    HashWhole(key.enc, aad, done, b);
    if k == 0 {
      G.AddZero(G.Mul(c, key.powers[7 - k]));
      G.AddCommutes(x, acc);
      FoldFirst(h, acc, x, 7 - k);
    } else {
      FoldStep(h, acc, x, 7 - k);
    }
  }

  lemma EighthStep(key: Key, nonce: Bytes, aad: Bytes, was: Bytes, done: Bytes, src: Bytes, at: nat, out: Bytes, decrypt: bool, k: nat, sum: C.Terms, more: Bytes, c: Block)
    requires |nonce| == 12 && k < 8 && KeyValid(key) && at + 16 * k + 16 <= |src|
    requires Eighth(key, nonce, aad, was, done, src, at, out, decrypt, k, sum)
    requires var input := src[at + 16 * k..at + 16 * k + 16];
      && more == Crypt(key.enc, nonce, |done|, input)
      && c == if k == 0 then G.Add(ToBlock(Hashed(input, more, decrypt)), StreamHash(key.enc, aad, was)) else ToBlock(Hashed(input, more, decrypt))
    ensures var next := done + Hashed(src[at + 16 * k..at + 16 * k + 16], more, decrypt);
      Eighth(key, nonce, aad, was, next, src, at, out + more, decrypt, k + 1, C.Xor3(sum, C.Product(c, key.powers[7 - k])))
  {
    hide G.Mul, G.Add, ToBlock, StreamHash, HPow, C.Reduce, C.Xor3, C.Product, Crypt;
    var input := src[at + 16 * k..at + 16 * k + 16];
    if k == 0 {
      assert src[at..at] == [];
      assert done == was;
    }
    FoldedBlock(key, aad, was, done, k, sum, Hashed(input, more, decrypt), c);
    ProducedMore(key.enc, nonce, was, done, src, at, at + 16 * k, out, decrypt, at + 16 * k + 16, more);
  }

  lemma EighthStart(key: Key, nonce: Bytes, aad: Bytes, done: Bytes, src: Bytes, at: nat, decrypt: bool)
    requires |nonce| == 12 && at <= |src| && |done| % 16 == 0
    ensures Eighth(key, nonce, aad, done, done, src, at, [], decrypt, 0, C.Terms(0, 0, 0))
  {
    hide C.Reduce;
    C.ReduceNone();
    assert src[at..at] == [];
  }

  lemma EighthEnd(key: Key, nonce: Bytes, aad: Bytes, was: Bytes, done: Bytes, src: Bytes, at: nat, out: Bytes, decrypt: bool, sum: C.Terms, counter: nat, keystream: Bytes, cipher: Bytes)
    requires |nonce| == 12 && |keystream| == 16 && |cipher| == 16
    requires Eighth(key, nonce, aad, was, done, src, at, out, decrypt, 8, sum)
    requires Partial(key.enc, nonce, was, counter, keystream, cipher, 16)
    ensures Produced(key.enc, nonce, was, done, src, at, at + 128, out, decrypt)
    ensures C.Reduce(sum) == StreamHash(key.enc, aad, done)
    ensures Partial(key.enc, nonce, done, counter + 8, keystream, cipher, 16)
  {
    hide G.Mul, C.Reduce, StreamHash, HPow, Crypt, PadBlock;
    FoldLast(key.enc(0), StreamHash(key.enc, aad, done));
    assert |done| == |was| + 128;
  }

  lemma KeyShape(key: Key)
    requires KeyValid(key)
    ensures |key.powers| == 8
  {}

  lemma {:induction false} GhashChunk(h: Block, aad: Bytes, k: nat)
    requires 16 * k < |aad|
    ensures var n := if 16 * k + 16 <= |aad| then 16 else |aad| - 16 * k;
      var b := aad[16 * k..16 * k + n] + Zeros(16 - n);
      && 16 * k + 16 <= |Padded(aad)|
      && Ghash(h, 0, Padded(aad)[..16 * k + 16]) == G.Mul(G.Add(Ghash(h, 0, Padded(aad)[..16 * k]), ToBlock(b)), h)
  {
    hide G.Mul, G.Add, ToBlock, Ghash;
    var p := Padded(aad);
    var n := if 16 * k + 16 <= |aad| then 16 else |aad| - 16 * k;
    var b := aad[16 * k..16 * k + n] + Zeros(16 - n);
    assert |p| >= 16 * k + 16;
    assert p[16 * k..16 * k + 16] == b;
    assert p[..16 * k + 16] == p[..16 * k] + b;
    GhashAppend(h, 0, p[..16 * k], b);
    GhashOne(h, Ghash(h, 0, p[..16 * k]), b);
  }

  /** Produced composes: from the start to i, then from i to j. */
  lemma ProducedTail(enc: Cipher, nonce: Bytes, was: Bytes, mid: Bytes, done: Bytes, src: Bytes, start: nat, i: nat, out: Bytes, decrypt: bool, j: nat, more: Bytes)
    requires |nonce| == 12 && Produced(enc, nonce, was, mid, src, start, i, out, decrypt)
    requires Produced(enc, nonce, mid, done, src, i, j, more, decrypt)
    ensures Produced(enc, nonce, was, done, src, start, j, out + more, decrypt)
  {
    hide Crypt;
    ProducedMore(enc, nonce, was, mid, src, start, i, out, decrypt, j, more);
  }

  lemma EmptyHash(h: Block, aad: Bytes)
    ensures Ghash(h, 0, Padded(aad)[..0]) == 0
  {}

  lemma PaddedEnd(aad: Bytes, k: nat)
    requires |aad| <= 16 * k < |aad| + 16
    ensures |Padded(aad)| == 16 * k
  {}

  lemma HashStart(enc: Cipher, nonce: Bytes, aad: Bytes)
    requires |nonce| == 12
    ensures StreamHash(enc, aad, []) == Ghash(enc(0), 0, Padded(aad))
    ensures Partial(enc, nonce, [], 1, Zeros(16), Zeros(16), 16)
  {
    assert Padded(aad) + [] == Padded(aad);
  }

  /** The lengths block closes the hash of the padded ciphertext. */
  lemma HashEnd(enc: Cipher, aad: Bytes, done: Bytes, acc: Block)
    requires acc == Ghash(enc(0), 0, Padded(aad) + Padded(done))
    ensures Ghash(enc(0), 0, Padded(aad) + Padded(done) + Lengths(|aad|, |done|))
         == G.Mul(G.Add(acc, ToBlock(Lengths(|aad|, |done|))), enc(0))
  {
    hide G.Mul, G.Add, ToBlock, Ghash, Padded, Lengths;
    GhashAppend(enc(0), 0, Padded(aad) + Padded(done), Lengths(|aad|, |done|));
    GhashOne(enc(0), acc, Lengths(|aad|, |done|));
  }

  lemma GapOf(n: nat)
    ensures Gap(n) == if n % 16 == 0 then 0 else 16 - n % 16
    ensures (n + Gap(n)) % 16 == 0
  {}

  lemma PaddedTail(done: Bytes)
    requires |done| % 16 != 0
    ensures Padded(done) == done[..Whole(|done|)] + (done[Whole(|done|)..] + Zeros(16 - |done| % 16))
  {
    hide Gap, Zeros;
    GapOf(|done|);
    assert done == done[..Whole(|done|)] + done[Whole(|done|)..];
  }

  lemma HashTail(enc: Cipher, aad: Bytes, done: Bytes)
    requires |done| % 16 != 0
    ensures Ghash(enc(0), 0, Padded(aad) + Padded(done))
         == G.Mul(G.Add(StreamHash(enc, aad, done), ToBlock(done[Whole(|done|)..] + Zeros(16 - |done| % 16))), enc(0))
  {
    hide G.Mul, G.Add, ToBlock, Ghash, Padded;
    var w := Whole(|done|);
    var d := done[..w];
    var b := done[w..] + Zeros(16 - |done| % 16);
    PaddedTail(done);
    assert Padded(aad) + (d + b) == Padded(aad) + d + b;
    GhashAppend(enc(0), 0, Padded(aad) + d, b);
    GhashOne(enc(0), Ghash(enc(0), 0, Padded(aad) + d), b);
  }

  lemma HashNoTail(enc: Cipher, aad: Bytes, done: Bytes)
    requires |done| % 16 == 0
    ensures Ghash(enc(0), 0, Padded(aad) + Padded(done)) == StreamHash(enc, aad, done)
  {
    hide G.Mul, G.Add, ToBlock, Ghash;
    assert Padded(done) == done == done[..Whole(|done|)];
  }

  class Stream {
    const key: Key
    const nonce: Bytes
    var counter: nat
    var hash: Block
    var keystream: Bytes
    var cipher: Bytes
    var used: nat
    ghost const aad: Bytes
    ghost var done: Bytes

    ghost predicate KeyKnown() { |nonce| == 12 && KeyValid(key) }

    /** The state between two slices, except that a fresh keystream block may be untouched. */
    ghost predicate Tracks()
      reads this
    {
      && KeyKnown() && |done| <= MAX_MESSAGE
      && |keystream| == 16 && |cipher| == 16 && used <= 16
      && Partial(key.enc, nonce, done, counter, keystream, cipher, used)
      && hash == StreamHash(key.enc, aad, done)
    }

    constructor Begin(key: Key, nonce: Bytes, aad: Bytes)
      requires |nonce| == 12 && KeyValid(key)
      ensures this.key == key && this.nonce == nonce && this.aad == aad
      ensures Tracks() && used != 0 && done == []
    {
      this.key := key;
      this.nonce := nonce;
      this.aad := aad;
      counter, hash, keystream, cipher, used := 1, 0, Zeros(16), Zeros(16), 16;
      done := [];
      new;
      hide G.Mul, G.Add, ToBlock, Ghash, StreamHash, Padded, Partial, KeyValid, Zeros;
      AbsorbPadded(aad);
      HashStart(key.enc, nonce, aad);
    }

    /** The associated data, its last block filled with zeros. */
    method AbsorbPadded(data: Bytes)
      requires KeyKnown() && hash == 0
      modifies this`hash
      ensures hash == Ghash(key.enc(0), 0, Padded(data))
    {
      hide G.Mul, G.Add, ToBlock, Ghash, Padded, KeyValid, Zeros;
      var k := 0;
      EmptyHash(key.enc(0), data);
      while 16 * k < |data|
        invariant 16 * k <= |Padded(data)| && 16 * k < |data| + 16
        invariant hash == Ghash(key.enc(0), 0, Padded(data)[..16 * k])
      {
        var n := if 16 * k + 16 <= |data| then 16 else |data| - 16 * k;
        GhashChunk(key.enc(0), data, k);
        Absorb(ToBlock(data[16 * k..16 * k + n] + Zeros(16 - n)));
        k := k + 1;
      }
      PaddedEnd(data, k);
      assert Padded(data)[..16 * k] == Padded(data);
    }

    method Absorb(b: Block)
      requires KeyKnown()
      modifies this`hash
      ensures hash == G.Mul(G.Add(old(hash), b), key.enc(0))
    {
      hide G.Mul, C.Multiply, HPow;
      HPowOne(key.enc(0));
      C.MultiplyCorrect(G.Add(hash, b), key.powers[0]);
      hash := C.Multiply(G.Add(hash, b), key.powers[0]);
    }

    method NextCounter() returns (b: Block)
      requires KeyKnown()
      modifies this`counter
      ensures counter == (old(counter) + 1) % COUNTERS
      ensures b == CounterBlock(nonce, counter)
    {
      counter := (counter + 1) % COUNTERS;
      b := CounterBlock(nonce, counter);
    }

    /** Uses up the keystream of a partly used block, one byte at a time. */
    method PartialBytes(src: Bytes, start: nat, decrypt: bool) returns (i: nat, out: Bytes)
      requires Tracks() && start <= |src| && |done| + |src| - start <= MAX_MESSAGE
      modifies this`hash, this`cipher, this`used, this`done
      ensures Tracks()
      ensures Produced(key.enc, nonce, old(done), done, src, start, i, out, decrypt)
      ensures i == |src| || (used == 16 && i - start == 16 - old(used))
      ensures old(used) != 0 || start < |src| ==> used != 0
    {
      hide G.Mul, G.Add, FromBlock, StreamHash, Xor, ToBlock, KeyValid, Partial, Crypt;
      i := start;
      out := [];
      ghost var was := done;
      assert src[start..start] == [];
      while used < 16 && i < |src|
        invariant Tracks()
        invariant Produced(key.enc, nonce, was, done, src, start, i, out, decrypt)
        invariant i - start == used - old(used)
        decreases |src| - i
      {
        var input := src[i];
        var output := Xor(input, keystream[used]);
        var c := if decrypt then input else output;
        ByteStep(key.enc, nonce, aad, done, counter, keystream, cipher, used, input, c);
        assert src[i..i + 1] == [input];
        ProducedMore(key.enc, nonce, was, done, src, start, i, out, decrypt, i + 1, [output]);
        out := out + [output];
        cipher := cipher[used := c];
        used := used + 1;
        i := i + 1;
        done := done + [c];
        if used == 16 {
          Absorb(ToBlock(cipher));
        }
      }
    }

    /** Eight counter blocks through the cipher together. */
    method EightPads() returns (b: seq<Block>)
      requires KeyKnown() && counter + 8 < COUNTERS
      modifies this`counter
      ensures counter == old(counter) + 8 && |b| == 8
      ensures forall k | 0 <= k < 8 :: b[k] == key.enc(CounterBlock(nonce, old(counter) + 1 + k))
    {
      hide CounterBlock, KeyValid;
      b := [];
      for j := 0 to 8
        invariant |b| == j && counter == old(counter) + j
        invariant forall k | 0 <= k < j :: b[k] == key.enc(CounterBlock(nonce, old(counter) + 1 + k))
      {
        var x := NextCounter();
        b := b + [key.enc(x)];
      }
    }

    /** Eight blocks, hashed with one reduction. */
    method Eight(src: Bytes, at: nat, decrypt: bool) returns (out: Bytes)
      requires Tracks() && used == 16 && at + 128 <= |src| && |done| + 128 <= MAX_MESSAGE
      modifies this`counter, this`hash, this`done
      ensures Tracks()
      ensures Produced(key.enc, nonce, old(done), done, src, at, at + 128, out, decrypt)
    {
      hide G.Mul, G.Add, ToBlock, FromBlock, StreamHash, C.Reduce, C.Xor3, C.Product, Crypt, CounterBlock, KeyValid, Partial, Eighth, Produced;
      ghost var was := done;
      KeyShape(key);
      WholeBlocks(key.enc, nonce, done, counter, keystream, cipher);
      var b := EightPads();
      var sum := C.Terms(0, 0, 0);
      out := [];
      EighthStart(key, nonce, aad, done, src, at, decrypt);
      for j := 0 to 8
        invariant |done| == |was| + 16 * j
        invariant Eighth(key, nonce, aad, was, done, src, at, out, decrypt, j, sum)
        invariant counter == old(counter) + 8 && hash == StreamHash(key.enc, aad, was)
      {
        var input := src[at + 16 * j..at + 16 * j + 16];
        var output := FromBlock(G.Add(b[j], ToBlock(input)));
        assert 2 + |done| / 16 == old(counter) + 1 + j;
        BlockCrypt(key.enc, nonce, |done|, input);
        var c := ToBlock(if decrypt then input else output);
        if j == 0 {
          c := G.Add(c, hash);
        }
        EighthStep(key, nonce, aad, was, done, src, at, out, decrypt, j, sum, output, c);
        sum := C.Xor3(sum, C.Product(c, key.powers[7 - j]));
        out := out + output;
        done := done + Hashed(input, output, decrypt);
      }
      EighthEnd(key, nonce, aad, was, done, src, at, out, decrypt, sum, old(counter), keystream, cipher);
      hash := C.Reduce(sum);
    }

    /** One whole block. */
    method OneBlock(input: Bytes, decrypt: bool) returns (output: Bytes)
      requires Tracks() && used == 16 && |input| == 16 && |done| + 16 <= MAX_MESSAGE
      modifies this`counter, this`hash, this`done
      ensures Tracks()
      ensures output == Crypt(key.enc, nonce, old(|done|), input)
      ensures done == old(done) + Hashed(input, output, decrypt)
    {
      hide G.Mul, G.Add, ToBlock, FromBlock, StreamHash, Crypt, CounterBlock, KeyValid, Partial;
      NextFits(|done|, 16);
      WholeBlocks(key.enc, nonce, done, counter, keystream, cipher);
      var x := NextCounter();
      output := FromBlock(G.Add(key.enc(x), ToBlock(input)));
      BlockCrypt(key.enc, nonce, |done|, input);
      BlockStep(key.enc, nonce, aad, done, counter - 1, keystream, cipher, Hashed(input, output, decrypt));
      Absorb(ToBlock(if decrypt then input else output));
      done := done + Hashed(input, output, decrypt);
    }

    /** Draws the keystream of a block that will be partly used. */
    method DrawBlock()
      requires Tracks() && used == 16 && |done| < MAX_MESSAGE
      modifies this`counter, this`keystream, this`used
      ensures Tracks() && used == 0
    {
      hide FromBlock, StreamHash, CounterBlock, KeyValid, Partial;
      NextFits(|done|, 1);
      FreshBlock(key.enc, nonce, done, counter, keystream, cipher);
      var x := NextCounter();
      keystream := FromBlock(key.enc(x));
      used := 0;
    }

    /** Encrypts or decrypts a slice, continuing where the last one stopped. */
    method Apply(src: Bytes, decrypt: bool) returns (out: Bytes)
      requires Tracks() && used != 0 && |done| + |src| <= MAX_MESSAGE
      modifies this
      ensures Tracks() && used != 0
      ensures out == Crypt(key.enc, nonce, old(|done|), src)
      ensures done == old(done) + Hashed(src, out, decrypt)
    {
      hide G.Mul, G.Add, ToBlock, FromBlock, StreamHash, Crypt, CounterBlock, KeyValid, Partial;
      ghost var was := done;
      var i: nat;
      i, out := PartialBytes(src, 0, decrypt);
      while |src| - i >= 128
        invariant Tracks() && used != 0 && (i == |src| || used == 16)
        invariant Produced(key.enc, nonce, was, done, src, 0, i, out, decrypt)
      {
        ghost var d := done;
        var more := Eight(src, i, decrypt);
        ProducedTail(key.enc, nonce, was, d, done, src, 0, i, out, decrypt, i + 128, more);
        out := out + more;
        i := i + 128;
      }
      while |src| - i >= 16
        invariant Tracks() && used != 0 && (i == |src| || used == 16)
        invariant Produced(key.enc, nonce, was, done, src, 0, i, out, decrypt)
      {
        ghost var d := done;
        var more := OneBlock(src[i..i + 16], decrypt);
        ProducedMore(key.enc, nonce, was, d, src, 0, i, out, decrypt, i + 16, more);
        out := out + more;
        i := i + 16;
      }
      if i < |src| {
        DrawBlock();
        ghost var d := done;
        var j, more := PartialBytes(src, i, decrypt);
        ProducedTail(key.enc, nonce, was, d, done, src, 0, i, out, decrypt, j, more);
        out := out + more;
      }
      assert src[0..|src|] == src;
    }

    /** The tag of everything applied. */
    method Finish(aadLength: nat, length: nat) returns (tag: Bytes)
      requires Tracks() && used != 0 && aadLength == |aad| && length == |done|
      modifies this`hash, this`cipher, this`keystream
      ensures tag == Tag(key.enc, nonce, aad, done)
    {
      hide G.Mul, G.Add, ToBlock, FromBlock, StreamHash, CounterBlock, KeyValid, Ghash, Padded, Lengths, Zeros;
      if used < 16 {
        cipher := cipher[..used] + Zeros(16 - used);
        HashTail(key.enc, aad, done);
        Absorb(ToBlock(cipher));
      } else {
        HashNoTail(key.enc, aad, done);
      }
      HashEnd(key.enc, aad, done, hash);
      Absorb(ToBlock(Lengths(aadLength, length)));
      tag := FromBlock(G.Add(hash, key.enc(CounterBlock(nonce, 1))));
      keystream := Zeros(16);
    }
  }

  // ------------------------------------------------------------------
  // Sealing and opening
  // ------------------------------------------------------------------

  function Concat(parts: seq<Bytes>): Bytes {
    if parts == [] then [] else Concat(parts[..|parts| - 1]) + parts[|parts| - 1]
  }

  /** However the message is cut into parts, the sealed message is that of the whole. */
  method Seal(key: Key, nonce: Bytes, aad: Bytes, parts: seq<Bytes>, out: Bytes) returns (r: Bytes)
    requires |nonce| == 12 && KeyValid(key) && |Concat(parts)| <= MAX_MESSAGE
    ensures r == out + Sealed(key.enc, nonce, aad, Concat(parts))
  {
    hide Crypt, Tag, KeyValid, Partial, StreamHash;
    r := out;
    var stream := new Stream.Begin(key, nonce, aad);
    ghost var plain: Bytes := [];
    var length := 0;
    CryptNone(key.enc, nonce);
    assert parts[..0] == [];
    for i := 0 to |parts|
      invariant fresh(stream) && stream.Tracks() && stream.used != 0
      invariant stream.key == key && stream.nonce == nonce && stream.aad == aad
      invariant plain == Concat(parts[..i]) && length == |plain|
      invariant stream.done == Crypt(key.enc, nonce, 0, plain)
      invariant r == out + stream.done
    {
      PartFits(parts, i);
      var more := stream.Apply(parts[i], false);
      CryptSplit(key.enc, nonce, 0, plain, parts[i]);
      r := r + more;
      plain := plain + parts[i];
      length := length + |parts[i]|;
    }
    assert parts[..|parts|] == parts;
    var tag := stream.Finish(|aad|, length);
    r := r + tag;
  }

  lemma CryptNone(enc: Cipher, nonce: Bytes)
    requires |nonce| == 12
    ensures Crypt(enc, nonce, 0, []) == []
  {}

  lemma {:induction false} ConcatPrefix(parts: seq<Bytes>, i: nat)
    requires i <= |parts|
    ensures |Concat(parts[..i])| <= |Concat(parts)|
    decreases |parts| - i
  {
    if i == |parts| {
      assert parts[..i] == parts;
    } else {
      assert parts[..i + 1][..i] == parts[..i];
      ConcatPrefix(parts, i + 1);
    }
  }

  lemma PartFits(parts: seq<Bytes>, i: nat)
    requires i < |parts|
    ensures Concat(parts[..i + 1]) == Concat(parts[..i]) + parts[i]
    ensures |Concat(parts[..i])| + |parts[i]| <= |Concat(parts)|
  {
    assert parts[..i + 1][..i] == parts[..i];
    ConcatPrefix(parts, i + 1);
  }

  /** The tag that a sealed message carries is that of its ciphertext. */
  predicate Authentic(enc: Cipher, nonce: Bytes, aad: Bytes, sealed: Bytes)
    requires |nonce| == 12
  {
    && TAG <= |sealed| <= MAX_MESSAGE + TAG
    && sealed[|sealed| - TAG..] == Tag(enc, nonce, aad, sealed[..|sealed| - TAG])
  }

  method Open(key: Key, nonce: Bytes, aad: Bytes, sealed: Bytes, out: Bytes) returns (ok: bool, r: Bytes)
    requires |nonce| == 12 && KeyValid(key)
    ensures ok == Authentic(key.enc, nonce, aad, sealed)
    ensures ok ==> r == out + Crypt(key.enc, nonce, 0, sealed[..|sealed| - TAG])
    ensures !ok ==> r == out
  {
    hide Crypt, Tag, KeyValid, Partial, StreamHash;
    if |sealed| < TAG || |sealed| - TAG > MAX_MESSAGE {
      return false, out;
    }
    var length := |sealed| - TAG;
    var stream := new Stream.Begin(key, nonce, aad);
    var plain := stream.Apply(sealed[..length], true);
    assert stream.done == sealed[..length];
    var tag := stream.Finish(|aad|, length);
    if tag != sealed[length..] {
      return false, out;
    }
    return true, out + plain;
  }

  /** Opening accepts exactly what sealing makes, and gives back what was sealed. */
  lemma OpenInvertsSeal(enc: Cipher, nonce: Bytes, aad: Bytes, sealed: Bytes, plain: Bytes)
    requires |nonce| == 12
    ensures |plain| <= MAX_MESSAGE && sealed == Sealed(enc, nonce, aad, plain)
      <==> Authentic(enc, nonce, aad, sealed) && Crypt(enc, nonce, 0, sealed[..|sealed| - TAG]) == plain
  {
    hide Crypt, Tag;
    var c := Crypt(enc, nonce, 0, plain);
    if |plain| <= MAX_MESSAGE && sealed == Sealed(enc, nonce, aad, plain) {
      assert sealed[..|sealed| - TAG] == c;
      assert sealed[|sealed| - TAG..] == Tag(enc, nonce, aad, c);
      CryptTwice(enc, nonce, 0, plain);
    }
    if Authentic(enc, nonce, aad, sealed) && Crypt(enc, nonce, 0, sealed[..|sealed| - TAG]) == plain {
      CryptTwice(enc, nonce, 0, sealed[..|sealed| - TAG]);
      assert sealed == sealed[..|sealed| - TAG] + sealed[|sealed| - TAG..];
    }
  }
}

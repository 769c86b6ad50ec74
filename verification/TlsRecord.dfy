/**
 * The record layer of net/tls.rs (sections 5 and 7.2 of RFC 8446): the keys
 * and record counter of one direction, and the records that carry data.
 */
module TlsRecord {
  import opened Octets
  import opened Options
  import Gcm

  const MAX_PLAIN: nat := 16384
  const REKEY_AFTER: nat := 0x100_0000
  const HEADER: nat := 5
  const TAG: nat := 16

  const ALERT: Octet := 21
  const HANDSHAKE: Octet := 22
  const APPLICATION_DATA: Octet := 23
  const KEY_UPDATE: Octet := 24

  /** The key schedule's expansions and the record cipher. */
  datatype Suite = Suite(
    keyOf: Bytes -> Bytes,
    ivOf: Bytes -> Bytes,
    next: Bytes -> Bytes,
    seal: (Bytes, Bytes, Bytes, Bytes) -> Bytes,
    open: (Bytes, Bytes, Bytes, Bytes) -> Option<Bytes>)

  /** What the record layer needs of the cipher, for messages that fit one record. */
  ghost predicate SuiteValid(c: Suite) {
    forall k, n, a, p | |n| == 12 && |p| <= 2 * MAX_PLAIN ::
      |c.seal(k, n, a, p)| == |p| + TAG && c.open(k, n, a, c.seal(k, n, a, p)) == Some(p)
  }

  /** AES-GCM as this repository computes it, over any block cipher and key expansions. */
  function GcmSuite(aes: Bytes -> Gcm.Cipher, keyOf: Bytes -> Bytes, ivOf: Bytes -> Bytes, next: Bytes -> Bytes): Suite {
    Suite(keyOf, ivOf, next,
      (k, n: Bytes, a, p) => if |n| == 12 then Gcm.Sealed(aes(k), n, a, p) else [],
      (k, n: Bytes, a, s) => if |n| == 12 then GcmOpened(aes(k), n, a, s) else None)
  }

  function GcmOpened(enc: Gcm.Cipher, n: Bytes, a: Bytes, s: Bytes): Option<Bytes>
    requires |n| == 12
  {
    if Gcm.Authentic(enc, n, a, s) then Some(Gcm.Crypt(enc, n, 0, s[..|s| - TAG])) else None
  }

  lemma GcmSuiteValid(aes: Bytes -> Gcm.Cipher, keyOf: Bytes -> Bytes, ivOf: Bytes -> Bytes, next: Bytes -> Bytes)
    ensures SuiteValid(GcmSuite(aes, keyOf, ivOf, next))
  {
    hide Gcm.Sealed, Gcm.Authentic, Gcm.Crypt;
    var c := GcmSuite(aes, keyOf, ivOf, next);
    forall k, n: Bytes, a, p: Bytes | |n| == 12 && |p| <= 2 * MAX_PLAIN
      ensures |c.seal(k, n, a, p)| == |p| + TAG && c.open(k, n, a, c.seal(k, n, a, p)) == Some(p)
    {
      var s := Gcm.Sealed(aes(k), n, a, p);
      SealedLength(aes(k), n, a, p);
      Gcm.OpenInvertsSeal(aes(k), n, a, s, p);
    }
  }

  lemma SealedLength(enc: Gcm.Cipher, n: Bytes, a: Bytes, p: Bytes)
    requires |n| == 12
    ensures |Gcm.Sealed(enc, n, a, p)| == |p| + TAG
  {
    hide Gcm.Crypt, Gcm.Tag;
  }

  // ------------------------------------------------------------------
  // One direction
  // ------------------------------------------------------------------

  /** A traffic secret, how many records it has sealed, and which of the direction's keys it is: the first is 1. */
  datatype Direction = Direction(secret: Bytes, count: nat, generation: nat)

  /** The vector of a secret's keys: always twelve bytes. */
  function Iv(c: Suite, secret: Bytes): (r: Bytes)
    ensures |r| == 12
  {
    var v := c.ivOf(secret);
    if |v| == 12 then v else Gcm.Zeros(12)
  }

  function Bumped(d: Direction): Direction { d.(count := d.count + 1) }

  function Updated(c: Suite, d: Direction): Direction {
    Direction(c.next(d.secret), 0, d.generation + 1)
  }

  /** Section 5.3: the record number, on the last eight bytes of the vector. */
  function Nonce(iv: Bytes, n: nat): (r: Bytes)
    requires |iv| == 12
    ensures |r| == 12
  {
    iv[..4] + Mixed(iv[4..], Be(n, 8))
  }

  function Mixed(a: Bytes, b: Bytes): (r: Bytes)
    requires |a| == |b|
    ensures |r| == |a|
  {
    if a == [] then [] else [Xor(a[0], b[0])] + Mixed(a[1..], b[1..])
  }

  lemma XorTwice(a: Octet, b: Octet)
    ensures Xor(Xor(a, b), a) == b
  {}

  lemma {:induction false} MixedAt(a: Bytes, b: Bytes, i: nat)
    requires |a| == |b| && i < |a|
    ensures Mixed(a, b)[i] == Xor(a[i], b[i])
    decreases i
  {
    hide Xor;
    if i > 0 {
      MixedAt(a[1..], b[1..], i - 1);
    }
  }

  /** Section 5.3, byte by byte: the vector's first four, and then its last eight with the digits of the record number. */
  lemma NonceBytes(iv: Bytes, n: nat, i: nat)
    requires |iv| == 12 && i < 8
    ensures Nonce(iv, n)[..4] == iv[..4]
    ensures Scale(7 - i) > 0 && FromOctet(Xor(Nonce(iv, n)[4 + i], iv[4 + i])) == n / Scale(7 - i) % 256
  {
    hide Xor, Mixed, FromOctet, Be, Scale;
    MixedAt(iv[4..], Be(n, 8), i);
    XorTwice(iv[4 + i], Be(n, 8)[i]);
    BeByte(n, 8, i);
  }

  lemma XorInjective(a: Octet, b: Octet, c: Octet)
    requires Xor(a, b) == Xor(a, c)
    ensures b == c
  {}

  lemma {:induction false} MixedInjective(a: Bytes, b: Bytes, c: Bytes)
    requires |a| == |b| == |c| && Mixed(a, b) == Mixed(a, c)
    ensures b == c
  {
    hide Xor;
    if a != [] {
      assert Mixed(a, b)[0] == Xor(a[0], b[0]) && Mixed(a, c)[0] == Xor(a[0], c[0]);
      XorInjective(a[0], b[0], c[0]);
      assert Mixed(a, b)[1..] == Mixed(a[1..], b[1..]);
      assert Mixed(a, c)[1..] == Mixed(a[1..], c[1..]);
      MixedInjective(a[1..], b[1..], c[1..]);
      assert b == [b[0]] + b[1..] && c == [c[0]] + c[1..];
    }
  }

  /** Different record numbers give different nonces. */
  lemma NoncesDiffer(iv: Bytes, m: nat, n: nat)
    requires |iv| == 12 && m < 0x1_0000_0000_0000_0000 && n < 0x1_0000_0000_0000_0000 && m != n
    ensures Nonce(iv, m) != Nonce(iv, n)
  {
    hide Be;
    if Nonce(iv, m) == Nonce(iv, n) {
      assert Nonce(iv, m)[4..] == Mixed(iv[4..], Be(m, 8));
      assert Nonce(iv, n)[4..] == Mixed(iv[4..], Be(n, 8));
      MixedInjective(iv[4..], Be(m, 8), Be(n, 8));
      assert Scale(8) == 0x1_0000_0000_0000_0000;
      BeInjective(m, n, 8);
    }
  }

  // ------------------------------------------------------------------
  // Records
  // ------------------------------------------------------------------

  /** A record before encryption: the keys it is sealed under, and content with its type byte. */
  datatype Rec = Rec(dir: Direction, content: Bytes, kind: Octet)

  function Inner(r: Rec): Bytes { r.content + [r.kind] }

  function Header(n: nat): (h: Bytes)
    ensures |h| == HEADER
  {
    [APPLICATION_DATA, 3, 3, ToOctet(n / 256 % 256), ToOctet(n % 256)]
  }

  predicate RecFits(r: Rec) { |r.content| <= MAX_PLAIN && r.kind != 0 }

  function Encode(c: Suite, r: Rec): Bytes {
    var h := Header(|r.content| + 1 + TAG);
    h + c.seal(c.keyOf(r.dir.secret), Nonce(Iv(c, r.dir.secret), r.dir.count), h, Inner(r))
  }

  /** data in chunks of at most MAX_PLAIN bytes, and one empty chunk when there is none. */
  function Pieces(data: Bytes): (p: seq<Bytes>)
    ensures forall x | x in p :: |x| <= MAX_PLAIN
    decreases |data|
  {
    if |data| <= MAX_PLAIN then [data] else [data[..MAX_PLAIN]] + Pieces(data[MAX_PLAIN..])
  }

  const UPDATE_MESSAGE: Bytes := [24, 0, 0, 1, 0]

  datatype Sealing = Sealing(records: seq<Rec>, dir: Direction)

  /** One piece: application data moves to the next key when this one has sealed enough. */
  function SealPiece(c: Suite, d: Direction, kind: Octet, piece: Bytes): Sealing {
    if kind == APPLICATION_DATA && d.count >= REKEY_AFTER then
      var e := Updated(c, d);
      Sealing([Rec(d, UPDATE_MESSAGE, HANDSHAKE), Rec(e, piece, kind)], Bumped(e))
    else
      Sealing([Rec(d, piece, kind)], Bumped(d))
  }

  function SealPieces(c: Suite, d: Direction, kind: Octet, pieces: seq<Bytes>): Sealing
    decreases |pieces|
  {
    if pieces == [] then Sealing([], d)
    else
      var first := SealPiece(c, d, kind, pieces[0]);
      var rest := SealPieces(c, first.dir, kind, pieces[1..]);
      Sealing(first.records + rest.records, rest.dir)
  }

  function Seal(c: Suite, d: Direction, kind: Octet, data: Bytes): Sealing {
    SealPieces(c, d, kind, Pieces(data))
  }

  function Wire(c: Suite, records: seq<Rec>): Bytes {
    if records == [] then [] else Encode(c, records[0]) + Wire(c, records[1..])
  }

  // ------------------------------------------------------------------
  // What every sequence of sends keeps
  // ------------------------------------------------------------------

  /** The place of a record in the life of a direction. */
  predicate Before(d: Direction, e: Direction) {
    d.generation < e.generation || (d.generation == e.generation && d.secret == e.secret && d.count < e.count)
  }

  predicate NotAfter(d: Direction, e: Direction) {
    d == e || Before(d, e)
  }

  /** Records in the order they were sealed: from d on, each under a later key or number, and before e. */
  predicate Ordered(records: seq<Rec>, d: Direction, e: Direction) {
    && NotAfter(d, e)
    && (forall i | 0 <= i < |records| :: NotAfter(d, records[i].dir) && Before(records[i].dir, e))
    && (forall i, j | 0 <= i < j < |records| :: Before(records[i].dir, records[j].dir))
  }

  /** No key seals more than b + 1 records, and application data only one that has sealed fewer than REKEY_AFTER. */
  predicate Paced(records: seq<Rec>, b: nat) {
    forall i | 0 <= i < |records| ::
      && RecFits(records[i])
      && records[i].dir.count <= b
      && (records[i].kind == APPLICATION_DATA ==> records[i].dir.count < REKEY_AFTER)
  }

  lemma OrderedJoin(a: seq<Rec>, b: seq<Rec>, d: Direction, e: Direction, f: Direction)
    requires Ordered(a, d, e) && Ordered(b, e, f)
    ensures Ordered(a + b, d, f)
  {
    forall i, j | 0 <= i < j < |a + b| ensures Before((a + b)[i].dir, (a + b)[j].dir) {
      if i < |a| <= j {
        assert NotAfter(e, b[j - |a|].dir);
      }
    }
  }

  lemma PieceOrdered(c: Suite, d: Direction, kind: Octet, piece: Bytes, b: nat)
    requires d.count <= b && REKEY_AFTER <= b && |piece| <= MAX_PLAIN && kind != 0
    ensures var s := SealPiece(c, d, kind, piece); Ordered(s.records, d, s.dir) && Paced(s.records, b)
    ensures kind == APPLICATION_DATA ==> SealPiece(c, d, kind, piece).dir.count <= b
  {}

  lemma {:induction false} PiecesOrdered(c: Suite, d: Direction, pieces: seq<Bytes>, b: nat)
    requires d.count <= b && REKEY_AFTER <= b && forall x | x in pieces :: |x| <= MAX_PLAIN
    ensures var s := SealPieces(c, d, APPLICATION_DATA, pieces); Ordered(s.records, d, s.dir) && Paced(s.records, b) && s.dir.count <= b
    decreases |pieces|
  {
    hide SealPiece, Ordered;
    if pieces == [] {
      NothingOrdered(d);
    } else {
      PieceOrdered(c, d, APPLICATION_DATA, pieces[0], b);
      var first := SealPiece(c, d, APPLICATION_DATA, pieces[0]);
      PiecesOrdered(c, first.dir, pieces[1..], b);
      var rest := SealPieces(c, first.dir, APPLICATION_DATA, pieces[1..]);
      OrderedJoin(first.records, rest.records, d, first.dir, rest.dir);
    }
  }

  lemma NothingOrdered(d: Direction)
    ensures Ordered([], d, d)
  {}

  /** Any number of sends one after another. */
  function Sends(c: Suite, d: Direction, data: seq<Bytes>): Sealing
    decreases |data|
  {
    if data == [] then Sealing([], d)
    else
      var first := Seal(c, d, APPLICATION_DATA, data[0]);
      var rest := Sends(c, first.dir, data[1..]);
      Sealing(first.records + rest.records, rest.dir)
  }

  lemma {:induction false} SendsOrdered(c: Suite, d: Direction, data: seq<Bytes>)
    requires d.count <= REKEY_AFTER
    ensures var s := Sends(c, d, data); Ordered(s.records, d, s.dir) && Paced(s.records, REKEY_AFTER) && s.dir.count <= REKEY_AFTER
    decreases |data|
  {
    hide SealPieces, Ordered, Pieces;
    if data == [] {
      NothingOrdered(d);
    } else {
      var first := Seal(c, d, APPLICATION_DATA, data[0]);
      PiecesOrdered(c, d, Pieces(data[0]), REKEY_AFTER);
      SendsOrdered(c, first.dir, data[1..]);
      var rest := Sends(c, first.dir, data[1..]);
      OrderedJoin(first.records, rest.records, d, first.dir, rest.dir);
    }
  }

  /**
   * Sections 5.3 and 5.5: whatever is sent, two records under one generation
   * of keys never share a nonce, and no application data is sealed once a key
   * has sealed REKEY_AFTER records.
   */
  lemma NoNonceTwice(c: Suite, d: Direction, data: seq<Bytes>, i: nat, j: nat)
    requires d.count <= REKEY_AFTER
    requires i < j < |Sends(c, d, data).records|
    ensures var x, y := Sends(c, d, data).records[i], Sends(c, d, data).records[j];
      && (x.dir.generation == y.dir.generation ==>
            x.dir.secret == y.dir.secret && Nonce(Iv(c, x.dir.secret), x.dir.count) != Nonce(Iv(c, y.dir.secret), y.dir.count))
      && (x.kind == APPLICATION_DATA ==> x.dir.count < REKEY_AFTER)
      && (y.kind == APPLICATION_DATA ==> y.dir.count < REKEY_AFTER)
  {
    hide Sends, Nonce;
    SendsOrdered(c, d, data);
    var x, y := Sends(c, d, data).records[i], Sends(c, d, data).records[j];
    assert Before(x.dir, y.dir);
    if x.dir.generation == y.dir.generation {
      NoncesDiffer(Iv(c, x.dir.secret), x.dir.count, y.dir.count);
    }
  }
}

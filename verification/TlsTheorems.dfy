/** What every run of a TLS session keeps: slicing, the mirrored channel, and the handshake's order. */
module TlsTheorems {
  import opened Octets
  import opened Options
  import opened TlsRecord
  import opened TlsSession
  import Gcm

  // ------------------------------------------------------------------
  // The wire may be cut anywhere
  // ------------------------------------------------------------------

  lemma AlertedKeyed(c: Config, s: State, alert: Octet)
    requires Keyed(s)
    ensures Keyed(Alerted(c, s, alert).s)
  {}

  lemma {:induction false} ReceiveKeyed(c: Config, s: State, wire: Bytes)
    requires Keyed(s)
    ensures Keyed(Receive(c, s, wire).step.s)
    decreases |wire|
  {
    hide Record, Length, Alerted;
    if s.phase != Closed && |wire| >= HEADER {
      var n := Length(wire);
      AlertedKeyed(c, s, DECODE_ERROR);
      AlertedKeyed(c, s, RECORD_OVERFLOW);
      if |wire| >= HEADER + n {
        RecordKeyed(c, s, wire[..HEADER], wire[HEADER..HEADER + n]);
        var t := Record(c, s, wire[..HEADER], wire[HEADER..HEADER + n]);
        if t.error.None? {
          ReceiveKeyed(c, t.s, wire[HEADER + n..]);
        } else if t.error.value.Local? {
          AlertedKeyed(c, t.s, t.error.value.alert);
        }
      }
    }
  }

  lemma ThenAssociates(a: Step, b: Step, d: Step)
    ensures Then(Then(a, b), d) == Then(a, Then(b, d))
  {
    assert (a.plain + b.plain) + d.plain == a.plain + (b.plain + d.plain);
    assert (a.items + b.items) + d.items == a.items + (b.items + d.items);
  }

  /** More bytes than those already whole change nothing about the records before them. */
  lemma {:induction false} ReceiveSplit(c: Config, s: State, a: Bytes, b: Bytes)
    requires Keyed(s)
    ensures var r := Receive(c, s, a);
      Keyed(r.step.s) &&
      if r.step.error.Some? then Receive(c, s, a + b).step == r.step
      else
        var u := Receive(c, r.step.s, a[r.used..] + b);
        Receive(c, s, a + b) == Receipt(Then(r.step, u.step), r.used + u.used)
    decreases |a|
  {
    hide Record, Length, Aborted;
    ReceiveKeyed(c, s, a);
    var r := Receive(c, s, a);
    if s.phase == Closed || |a| < HEADER {
      Nothing(c, s, a, b);
    } else {
      var n := Length(a);
      LengthPrefix(a, b);
      if a[1] == 3 && n <= (if s.read.Some? then MAX_RECORD else MAX_PLAIN) {
        if |a| < HEADER + n {
          Nothing(c, s, a, b);
        } else {
          var t := Record(c, s, a[..HEADER], a[HEADER..HEADER + n]);
          RecordKeyed(c, s, a[..HEADER], a[HEADER..HEADER + n]);
          if t.error.None? {
            ReceiveSplit(c, t.s, a[HEADER + n..], b);
          }
          SplitRecord(c, s, a, b, n, t);
        }
      }
    }
  }

  /** One whole record further on both sides. */
  lemma SplitRecord(c: Config, s: State, a: Bytes, b: Bytes, n: nat, t: Step)
    requires Keyed(s) && s.phase != Closed && |a| >= HEADER + n && Length(a) == n && a[1] == 3
    requires n <= if s.read.Some? then MAX_RECORD else MAX_PLAIN
    requires t == Record(c, s, a[..HEADER], a[HEADER..HEADER + n]) && Keyed(t.s)
    requires t.error.None? ==>
      var v := Receive(c, t.s, a[HEADER + n..]);
      Keyed(v.step.s) &&
      if v.step.error.Some? then Receive(c, t.s, a[HEADER + n..] + b).step == v.step
      else
        var u := Receive(c, v.step.s, a[HEADER + n..][v.used..] + b);
        Receive(c, t.s, a[HEADER + n..] + b) == Receipt(Then(v.step, u.step), v.used + u.used)
    ensures var r := Receive(c, s, a);
      Keyed(r.step.s) ==>
      if r.step.error.Some? then Receive(c, s, a + b).step == r.step
      else
        var u := Receive(c, r.step.s, a[r.used..] + b);
        Receive(c, s, a + b) == Receipt(Then(r.step, u.step), r.used + u.used)
  {
    hide Record, Length, Receive, Aborted;
    LengthPrefix(a, b);
    assert (a + b)[..HEADER] == a[..HEADER];
    assert (a + b)[HEADER..HEADER + n] == a[HEADER..HEADER + n];
    assert (a + b)[HEADER + n..] == a[HEADER + n..] + b;
    if t.error.None? {
      ReceiveOne(c, s, a, n, t);
      ReceiveOne(c, s, a + b, n, t);
      var v := Receive(c, t.s, a[HEADER + n..]);
      if v.step.error.None? {
        assert a[HEADER + n + v.used..] == a[HEADER + n..][v.used..];
        ThenAssociates(t, v.step, Receive(c, v.step.s, a[HEADER + n..][v.used..] + b).step);
      }
    } else {
      ReceiveFails(c, s, a, n, t);
      ReceiveFails(c, s, a + b, n, t);
    }
  }

  lemma ReceiveFails(c: Config, s: State, w: Bytes, n: nat, t: Step)
    requires Keyed(s) && s.phase != Closed && |w| >= HEADER + n && Length(w) == n && w[1] == 3
    requires n <= if s.read.Some? then MAX_RECORD else MAX_PLAIN
    requires t == Record(c, s, w[..HEADER], w[HEADER..HEADER + n]) && t.error.Some? && Keyed(t.s)
    ensures Receive(c, s, w) == Receipt(Aborted(c, t), 0)
  {
    hide Record, Length;
  }

  lemma LengthPrefix(a: Bytes, b: Bytes)
    requires |a| >= HEADER
    ensures Length(a + b) == Length(a) && (a + b)[1] == a[1]
  {}

  lemma Nothing(c: Config, s: State, a: Bytes, b: Bytes)
    requires Keyed(s) && Receive(c, s, a) == Receipt(Done(s), 0)
    ensures var u := Receive(c, s, a[0..] + b); Receive(c, s, a + b) == Receipt(Then(Done(s), u.step), 0 + u.used)
  {
    hide Receive;
    assert a[0..] == a;
    var u := Receive(c, s, a + b);
    assert Then(Done(s), u.step) == u.step;
  }

  datatype Fed = Fed(step: Step, carry: Bytes)

  /** receive on each piece in turn, with the bytes it left over before the next. */
  function Feed(c: Config, s: State, carry: Bytes, pieces: seq<Bytes>): Fed
    requires Keyed(s)
    decreases |pieces|
  {
    if pieces == [] then Fed(Done(s), carry)
    else
      var wire := carry + pieces[0];
      var r := Receive(c, s, wire);
      ReceiveKeyed(c, s, wire);
      if r.step.error.Some? then Fed(r.step, [])
      else
        var rest := Feed(c, r.step.s, wire[r.used..], pieces[1..]);
        Fed(Then(r.step, rest.step), rest.carry)
  }

  function Join(pieces: seq<Bytes>): Bytes {
    if pieces == [] then [] else pieces[0] + Join(pieces[1..])
  }

  /** What is left after receive holds no whole record. */
  lemma {:induction false} LeftOver(c: Config, s: State, wire: Bytes)
    requires Keyed(s)
    ensures var r := Receive(c, s, wire);
      Keyed(r.step.s) && (r.step.error.None? ==> Receive(c, r.step.s, wire[r.used..]) == Receipt(Done(r.step.s), 0))
    decreases |wire|
  {
    hide Record, Length, Aborted;
    ReceiveKeyed(c, s, wire);
    var r := Receive(c, s, wire);
    assert wire[0..] == wire;
    if s.phase != Closed && |wire| >= HEADER && wire[1] == 3 {
      var n := Length(wire);
      if n <= (if s.read.Some? then MAX_RECORD else MAX_PLAIN) && |wire| >= HEADER + n {
        var t := Record(c, s, wire[..HEADER], wire[HEADER..HEADER + n]);
        RecordKeyed(c, s, wire[..HEADER], wire[HEADER..HEADER + n]);
        if t.error.None? {
          LeftOver(c, t.s, wire[HEADER + n..]);
          var v := Receive(c, t.s, wire[HEADER + n..]);
          assert wire[r.used..] == wire[HEADER + n..][v.used..];
        }
      }
    }
  }

  /**
   * Section 5.1: however the wire is cut into pieces, feeding them gives the
   * plaintext, output, state and error of the whole, and leaves the same bytes.
   */
  lemma {:induction false} SlicingIrrelevant(c: Config, s: State, carry: Bytes, pieces: seq<Bytes>)
    requires Keyed(s) && Receive(c, s, carry) == Receipt(Done(s), 0)
    ensures var whole := Receive(c, s, carry + Join(pieces));
      && Feed(c, s, carry, pieces).step == whole.step
      && (whole.step.error.None? ==> Feed(c, s, carry, pieces).carry == (carry + Join(pieces))[whole.used..])
    decreases |pieces|
  {
    hide Receive;
    if pieces == [] {
      assert carry + Join(pieces) == carry;
    } else {
      var wire := carry + pieces[0];
      var rest := Join(pieces[1..]);
      assert carry + Join(pieces) == wire + rest;
      ReceiveSplit(c, s, wire, rest);
      var r := Receive(c, s, wire);
      if r.step.error.None? {
        LeftOver(c, s, wire);
        SlicingIrrelevant(c, r.step.s, wire[r.used..], pieces[1..]);
        var u := Receive(c, r.step.s, wire[r.used..] + rest);
        assert (wire + rest)[r.used + u.used..] == (wire[r.used..] + rest)[u.used..];
      }
    }
  }

  // ------------------------------------------------------------------
  // A mirrored receiver recovers what was sent
  // ------------------------------------------------------------------

  /** A connected session that reads with the keys that d writes with. */
  predicate Mirrors(s: State, d: Direction) {
    Keyed(s) && s.phase == Connected && s.read == Some(d) && s.handshake == []
  }

  lemma HeaderLength(n: nat)
    requires n < 65536
    ensures Length(Header(n)) == n && Header(n)[..3] == [23, 3, 3]
  {
    hide ToOctet, FromOctet;
    FromToOctet(n / 256 % 256);
    FromToOctet(n % 256);
  }

  lemma InnerEnd(content: Bytes, kind: Octet)
    requires kind != 0
    ensures LastNonzero(content + [kind]) == Some(|content|)
    ensures (content + [kind])[..|content|] == content
  {}

  lemma Opens(c: Suite, r: Rec)
    requires SuiteValid(c) && RecFits(r)
    ensures var n := |r.content| + 1 + TAG;
      var sealed := c.seal(c.keyOf(r.dir.secret), Nonce(Iv(c, r.dir.secret), r.dir.count), Header(n), Inner(r));
      && Encode(c, r) == Header(n) + sealed
      && |sealed| == n
      && c.open(c.keyOf(r.dir.secret), Nonce(Iv(c, r.dir.secret), r.dir.count), Header(n), sealed) == Some(Inner(r))
  {
    hide Nonce, Iv, Header;
    assert |Inner(r)| == |r.content| + 1;
  }

  lemma RecordParts(c: Suite, r: Rec, rest: Bytes)
    requires SuiteValid(c) && RecFits(r)
    ensures var n := |r.content| + 1 + TAG; var w := Encode(c, r) + rest;
      && |w| >= HEADER + n && w[..HEADER] == Header(n) && w[HEADER + n..] == rest && w[1] == 3 && Length(w) == n
      && w[HEADER..HEADER + n] == c.seal(c.keyOf(r.dir.secret), Nonce(Iv(c, r.dir.secret), r.dir.count), Header(n), Inner(r))
      && |Encode(c, r)| == HEADER + n
  {
    hide Nonce, Iv, Header, Encode, SuiteValid, Length, Inner;
    var n := |r.content| + 1 + TAG;
    Opens(c, r);
    HeaderLength(n);
    var h := Header(n);
    var sealed := c.seal(c.keyOf(r.dir.secret), Nonce(Iv(c, r.dir.secret), r.dir.count), h, Inner(r));
    var w := Encode(c, r) + rest;
    assert w == h + (sealed + rest);
    LengthPrefix(h, sealed + rest);
  }

  /** One sealed record at the head of the wire. */
  lemma OneRecord(c: Config, s: State, r: Rec, rest: Bytes)
    requires SuiteValid(c.suite) && RecFits(r) && Keyed(s) && s.phase != Closed && s.read == Some(r.dir)
    requires r.kind == APPLICATION_DATA ==> s.phase == Connected
    ensures var n := |r.content| + 1 + TAG; var u := s.(read := Some(Bumped(r.dir)));
      var t := if r.kind == APPLICATION_DATA then Step(u, r.content, [], None) else Content(c, u, r.kind, r.content);
      && Record(c, s, Header(n), (Encode(c.suite, r) + rest)[HEADER..HEADER + n]) == t
      && Keyed(t.s)
      && (t.error.None? ==>
            (Receive(c, s, Encode(c.suite, r) + rest)
             == Receipt(Then(t, Receive(c, t.s, rest).step), |Encode(c.suite, r)| + Receive(c, t.s, rest).used)))
  {
    hide Nonce, Iv, Header, Encode, SuiteValid, Length, Content, LastNonzero, Receive;
    var n := |r.content| + 1 + TAG;
    var w := Encode(c.suite, r) + rest;
    Opens(c.suite, r);
    RecordParts(c.suite, r, rest);
    HeaderLength(n);
    InnerEnd(r.content, r.kind);
    RecordKeyed(c, s, Header(n), w[HEADER..HEADER + n]);
    var t := Record(c, s, Header(n), w[HEADER..HEADER + n]);
    if t.error.None? {
      ReceiveOne(c, s, w, n, t);
    }
  }

  /** The loop of receive, one record further. */
  lemma ReceiveOne(c: Config, s: State, w: Bytes, n: nat, t: Step)
    requires Keyed(s) && s.phase != Closed && |w| >= HEADER + n && Length(w) == n && w[1] == 3
    requires n <= if s.read.Some? then MAX_RECORD else MAX_PLAIN
    requires t == Record(c, s, w[..HEADER], w[HEADER..HEADER + n]) && t.error.None? && Keyed(t.s)
    ensures var r := Receive(c, t.s, w[HEADER + n..]); Receive(c, s, w) == Receipt(Then(t, r.step), HEADER + n + r.used)
  {
    hide Record, Length;
  }

  lemma UpdateMessage(c: Config, s: State)
    requires Keyed(s) && s.phase == Connected && s.handshake == []
    ensures Content(c, s, HANDSHAKE, UPDATE_MESSAGE) == Done(s.(read := Some(Updated(c.suite, s.read.value))))
  {
    hide Updated;
    var b := UPDATE_MESSAGE;
    assert s.handshake + b == b;
    assert b[1..4] == [0, 0, 1];
    assert Int24(b[1..4]) == 1;
    assert b[..5] == b && b[4..] == [0];
    var u := s.(handshake := []);
    assert u == s;
    var m := Message(c, u, b, true);
    assert m == Done(u.(read := Some(Updated(c.suite, s.read.value))));
    assert b[5..] == [];
    assert Messages(c, m.s, []) == Done(m.s);
    assert Messages(c, u, b) == Then(m, Messages(c, m.s, b[5..]));
  }

  /** The records of one piece, with the KeyUpdate that may precede it. */
  lemma OnePiece(c: Config, s: State, d: Direction, piece: Bytes, rest: Bytes)
    requires SuiteValid(c.suite) && Mirrors(s, d) && |piece| <= MAX_PLAIN
    ensures var z := SealPiece(c.suite, d, APPLICATION_DATA, piece); var u := s.(read := Some(z.dir));
      && Mirrors(u, z.dir)
      && Receive(c, s, Wire(c.suite, z.records) + rest)
         == Receipt(Then(Step(u, piece, [], None), Receive(c, u, rest).step), |Wire(c.suite, z.records)| + Receive(c, u, rest).used)
  {
    hide Encode, Receive, Record, Content, SuiteValid;
    if d.count >= REKEY_AFTER {
      var e := Updated(c.suite, d);
      var x, y := Rec(d, UPDATE_MESSAGE, HANDSHAKE), Rec(e, piece, APPLICATION_DATA);
      assert [x, y][1..] == [y] && [y][1..] == [];
      assert Wire(c.suite, [y]) == Encode(c.suite, y) + Wire(c.suite, []);
      assert Wire(c.suite, [x, y]) + rest == Encode(c.suite, x) + (Encode(c.suite, y) + rest);
      OneRecord(c, s, x, Encode(c.suite, y) + rest);
      UpdateMessage(c, s.(read := Some(Bumped(d))));
      var v := s.(read := Some(e));
      OneRecord(c, v, y, rest);
      assert v.(read := Some(Bumped(e))) == s.(read := Some(Bumped(e)));
      var tail := Receive(c, v, Encode(c.suite, y) + rest);
      assert Then(Done(v), tail.step) == tail.step;
    } else {
      var y := Rec(d, piece, APPLICATION_DATA);
      assert [y][1..] == [];
      assert Wire(c.suite, [y]) == Encode(c.suite, y) + Wire(c.suite, []);
      assert Wire(c.suite, [y]) + rest == Encode(c.suite, y) + rest;
      OneRecord(c, s, y, rest);
    }
  }

  lemma {:induction false} WireJoin(c: Suite, a: seq<Rec>, b: seq<Rec>)
    ensures Wire(c, a + b) == Wire(c, a) + Wire(c, b)
    decreases |a|
  {
    hide Encode;
    if a == [] {
      assert a + b == b;
    } else {
      assert (a + b)[1..] == a[1..] + b;
      WireJoin(c, a[1..], b);
    }
  }

  lemma {:induction false} ManyPieces(c: Config, s: State, d: Direction, pieces: seq<Bytes>, rest: Bytes)
    requires SuiteValid(c.suite) && Mirrors(s, d) && forall x | x in pieces :: |x| <= MAX_PLAIN
    ensures var z := SealPieces(c.suite, d, APPLICATION_DATA, pieces); var u := s.(read := Some(z.dir));
      && Mirrors(u, z.dir)
      && Receive(c, s, Wire(c.suite, z.records) + rest)
         == Receipt(Then(Step(u, Join(pieces), [], None), Receive(c, u, rest).step), |Wire(c.suite, z.records)| + Receive(c, u, rest).used)
    decreases |pieces|
  {
    hide Receive, SuiteValid, SealPiece, Wire;
    if pieces == [] {
      assert s.(read := Some(d)) == s;
      WireNone(c.suite);
      assert [] + rest == rest;
      var r := Receive(c, s, rest);
      assert Then(Step(s, [], [], None), r.step) == r.step;
    } else {
      var first := SealPiece(c.suite, d, APPLICATION_DATA, pieces[0]);
      var u := s.(read := Some(first.dir));
      var tail := SealPieces(c.suite, first.dir, APPLICATION_DATA, pieces[1..]);
      var v := u.(read := Some(tail.dir));
      WireJoin(c.suite, first.records, tail.records);
      assert Wire(c.suite, first.records + tail.records) + rest == Wire(c.suite, first.records) + (Wire(c.suite, tail.records) + rest);
      OnePiece(c, s, d, pieces[0], Wire(c.suite, tail.records) + rest);
      ManyPieces(c, u, first.dir, pieces[1..], rest);
      assert v == s.(read := Some(tail.dir));
      var r := Receive(c, v, rest);
      ThenAssociates(Step(u, pieces[0], [], None), Step(v, Join(pieces[1..]), [], None), r.step);
    }
  }

  lemma WireNone(c: Suite)
    ensures Wire(c, []) == []
  {}

  lemma {:induction false} PiecesJoin(data: Bytes)
    ensures Join(Pieces(data)) == data
    decreases |data|
  {
    if |data| <= MAX_PLAIN {
      assert Pieces(data)[1..] == [];
    } else {
      PiecesJoin(data[MAX_PLAIN..]);
      assert Pieces(data)[1..] == Pieces(data[MAX_PLAIN..]);
    }
  }

  /**
   * Sections 4.6.3 and 5.2 to 5.4: a session that mirrors the sender recovers
   * exactly what any sequence of sends carried, through every split into
   * records and every KeyUpdate, and mirrors the sender still.
   */
  lemma {:induction false} ChannelRecovers(c: Config, s: State, d: Direction, data: seq<Bytes>)
    requires SuiteValid(c.suite) && Mirrors(s, d)
    ensures var z := Sends(c.suite, d, data); var u := s.(read := Some(z.dir));
      && Mirrors(u, z.dir)
      && Receive(c, s, Wire(c.suite, z.records)) == Receipt(Step(u, Join(data), [], None), |Wire(c.suite, z.records)|)
    decreases |data|
  {
    hide SuiteValid, SealPieces, Wire, Pieces;
    if data == [] {
      WireNone(c.suite);
      assert s.(read := Some(d)) == s;
    } else {
      hide Receive;
      var first := Seal(c.suite, d, APPLICATION_DATA, data[0]);
      var u := s.(read := Some(first.dir));
      var tail := Sends(c.suite, first.dir, data[1..]);
      var v := u.(read := Some(tail.dir));
      WireJoin(c.suite, first.records, tail.records);
      ManyPieces(c, s, d, Pieces(data[0]), Wire(c.suite, tail.records));
      PiecesJoin(data[0]);
      ChannelRecovers(c, u, first.dir, data[1..]);
      assert v == s.(read := Some(tail.dir));
    }
  }
}

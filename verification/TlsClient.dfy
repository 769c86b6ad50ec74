/** The session object of net/tls.rs: its fields, updated step by step, against TlsSession's transitions. */
module TlsClient {
  import opened Octets
  import opened Options
  import opened TlsRecord
  import opened TlsSession
  import opened TlsTheorems
  import TlsRuns

  // ------------------------------------------------------------------
  // Output bytes
  // ------------------------------------------------------------------

  lemma {:induction false} RenderJoin(c: Suite, a: seq<Item>, b: seq<Item>)
    ensures Render(c, a + b) == Render(c, a) + Render(c, b)
    decreases |a|
  {
    hide Encode;
    if a == [] {
      assert a + b == b;
    } else {
      assert (a + b)[1..] == a[1..] + b;
      RenderJoin(c, a[1..], b);
    }
  }

  lemma {:induction false} RenderProtect(c: Suite, records: seq<Rec>)
    ensures Render(c, Protect(records)) == Wire(c, records)
    decreases |records|
  {
    hide Encode;
    if records != [] {
      assert Protect(records)[1..] == Protect(records[1..]);
      RenderProtect(c, records[1..]);
    }
  }

  lemma RenderClear(c: Suite, b: Bytes)
    ensures Render(c, [Clear(b)]) == b
  {
    hide Encode;
    assert [Clear(b)][1..] == [];
    assert Render(c, [Clear(b)]) == b + Render(c, []);
  }

  /** What a call left behind is what the step says. */
  predicate Did(c: Suite, t: Step, s: State, plain: Bytes, out: Bytes, error: Option<Error>) {
    s == t.s && plain == t.plain && out == Render(c, t.items) && error == t.error
  }

  lemma {:induction false} SealSplit(c: Suite, d: Direction, kind: Octet, pieces: seq<Bytes>, i: nat)
    requires i < |pieces|
    ensures var a := SealPieces(c, d, kind, pieces[..i]); var b := SealPiece(c, a.dir, kind, pieces[i]);
      SealPieces(c, d, kind, pieces[..i + 1]) == Sealing(a.records + b.records, b.dir)
    decreases i
  {
    hide SealPiece;
    if i == 0 {
      var b := SealPiece(c, d, kind, pieces[0]);
      assert pieces[..1][1..] == [] && pieces[..0] == [];
      assert SealPieces(c, b.dir, kind, []) == Sealing([], b.dir);
      assert SealPieces(c, d, kind, pieces[..0]) == Sealing([], d);
      assert SealPieces(c, d, kind, pieces[..1]) == Sealing(b.records + [], b.dir);
      assert [] + b.records == b.records;
    } else {
      var first := SealPiece(c, d, kind, pieces[0]);
      SealSplit(c, first.dir, kind, pieces[1..], i - 1);
      assert pieces[..i + 1][1..] == pieces[1..][..i];
      assert pieces[..i][1..] == pieces[1..][..i - 1];
      var a := SealPieces(c, first.dir, kind, pieces[1..][..i - 1]);
      var b := SealPiece(c, a.dir, kind, pieces[i]);
      assert first.records + (a.records + b.records) == (first.records + a.records) + b.records;
    }
  }

  lemma {:induction false} PieceAt(data: Bytes, i: nat)
    requires i < |Pieces(data)|
    ensures i * MAX_PLAIN <= |data|
    ensures Pieces(data)[i] == data[i * MAX_PLAIN..if |data| - i * MAX_PLAIN <= MAX_PLAIN then |data| else (i + 1) * MAX_PLAIN]
    ensures i + 1 < |Pieces(data)| <==> |data| - i * MAX_PLAIN > MAX_PLAIN
    decreases i
  {
    if i > 0 {
      var rest := data[MAX_PLAIN..];
      PieceAt(rest, i - 1);
      var a := (i - 1) * MAX_PLAIN;
      var b := if |rest| - a <= MAX_PLAIN then |rest| else i * MAX_PLAIN;
      assert i * MAX_PLAIN == a + MAX_PLAIN;
      assert data[MAX_PLAIN..][a..b] == data[a + MAX_PLAIN..b + MAX_PLAIN];
    }
  }

  class Session {
    const c: Config
    var phase: Phase
    var read: Option<Direction>
    var write: Option<Direction>
    var handshake: Bytes
    var transcript: seq<Bytes>
    var secrets: Secrets
    var peer: Option<Bytes>
    var changeCipherSpec: bool

    ghost function View(): State
      reads this
    {
      State(phase, read, write, handshake, transcript, secrets, peer, changeCipherSpec)
    }

    /** A session whose hello message has been sent. */
    constructor (c: Config, hello: Bytes)
      ensures this.c == c && View() == TlsRuns.Start(hello) && Keyed(View())
    {
      this.c := c;
      phase, read, write := AwaitServerHello, None, None;
      handshake, transcript, secrets, peer, changeCipherSpec := [], [hello], Wiped(), None, false;
    }

    /** Seals data in records of at most MAX_PLAIN bytes, updating the keys of application data in time. */
    method SealData(kind: Octet, data: Bytes) returns (out: Bytes)
      requires write.Some?
      modifies this`write
      ensures var z := Seal(c.suite, old(write.value), kind, data); write == Some(z.dir) && out == Wire(c.suite, z.records)
    {
      hide Encode, SealPieces, Pieces, Wire;
      var d := write.value;
      out := [];
      ghost var pieces := Pieces(data);
      var at := 0;
      ghost var i := 0;
      SealNone(c.suite, d, kind, data);
      while true
        invariant 0 <= i < |pieces| && at == i * MAX_PLAIN <= |data|
        invariant var z := SealPieces(c.suite, old(write.value), kind, pieces[..i]); d == z.dir && out == Wire(c.suite, z.records)
        decreases |pieces| - i
      {
        PieceAt(data, i);
        var piece := if |data| - at <= MAX_PLAIN then data[at..] else data[at..at + MAX_PLAIN];
        assert piece == pieces[i];
        ghost var before := SealPieces(c.suite, old(write.value), kind, pieces[..i]);
        SealSplit(c.suite, old(write.value), kind, pieces, i);
        ghost var was, more := out, SealPiece(c.suite, d, kind, piece).records;
        WireJoin(c.suite, before.records, more);
        if kind == APPLICATION_DATA && d.count >= REKEY_AFTER {
          WireTwo(c.suite, Rec(d, UPDATE_MESSAGE, HANDSHAKE), Rec(Updated(c.suite, d), piece, kind));
          out := out + Encode(c.suite, Rec(d, UPDATE_MESSAGE, HANDSHAKE));
          d := Updated(c.suite, d);
        } else {
          WireOne(c.suite, Rec(d, piece, kind));
        }
        out := out + Encode(c.suite, Rec(d, piece, kind));
        assert out == was + Wire(c.suite, more) == Wire(c.suite, before.records + more);
        assert SealPieces(c.suite, old(write.value), kind, pieces[..i + 1]).records == before.records + more;
        d := Bumped(d);
        if |data| - at <= MAX_PLAIN {
          assert pieces[..i + 1] == pieces;
          break;
        }
        at := at + MAX_PLAIN;
        i := i + 1;
      }
      write := Some(d);
    }

    /** Appends an alert; the session is closed. */
    method RaiseAlert(alert: Octet) returns (out: Bytes)
      requires Keyed(View())
      modifies this`write, this`phase
      ensures Did(c.suite, Alerted(c, old(View()), alert), View(), [], out, None)
    {
      hide Seal, Wire, Render;
      var body := [if alert == CLOSE_NOTIFY then 1 else 2, alert];
      if write.Some? {
        RenderProtect(c.suite, Seal(c.suite, write.value, ALERT, body).records);
        out := SealData(ALERT, body);
      } else {
        out := [ALERT, 3, 3, 0, 2] + body;
        RenderClear(c.suite, out);
      }
      phase := Closed;
    }

    method HandleServerHello(body: Bytes, whole: Bytes) returns (error: Option<Error>)
      modifies this`transcript, this`secrets, this`read, this`write, this`phase
      ensures Did(c.suite, ServerHello(c, old(View()), body, whole), View(), [], [], error)
    {
      hide Flat;
      match c.hello(body) {
        case Reject(e) => return Some(e);
        case Accept(shared) =>
          transcript := transcript + [whole];
          secrets := c.handshakeSecrets(shared, Flat(transcript));
          read := Some(Direction(secrets.server, 0, 1));
          write := Some(Direction(secrets.client, 0, 1));
          phase := AwaitExtensions;
          return None;
      }
    }

    method HandleExtensions(body: Bytes, whole: Bytes) returns (error: Option<Error>)
      modifies this`transcript, this`phase
      ensures Did(c.suite, EncryptedExtensions(c, old(View()), body, whole), View(), [], [], error)
    {
      error := c.extensions(body);
      if error.None? {
        transcript := transcript + [whole];
        phase := AwaitCertificate;
      }
    }

    method HandleCertificate(body: Bytes, whole: Bytes) returns (error: Option<Error>)
      modifies this`transcript, this`peer, this`phase
      ensures Did(c.suite, Certificate(c, old(View()), body, whole), View(), [], [], error)
    {
      match c.chain(body) {
        case Reject(e) => return Some(e);
        case Accept(key) =>
          peer := key;
          transcript := transcript + [whole];
          phase := AwaitVerify;
          return None;
      }
    }

    method HandleVerify(body: Bytes, whole: Bytes) returns (error: Option<Error>)
      modifies this`transcript, this`phase
      ensures Did(c.suite, CertificateVerify(c, old(View()), body, whole), View(), [], [], error)
    {
      hide Flat;
      error := c.verify(peer, Flat(transcript), body);
      if error.None? {
        transcript := transcript + [whole];
        phase := AwaitFinished;
      }
    }

    /** The server's Finished checked, the client's sent, the application keys installed. */
    method HandleFinished(body: Bytes, whole: Bytes) returns (out: Bytes, error: Option<Error>)
      requires read.Some? && write.Some?
      modifies this`transcript, this`secrets, this`read, this`write, this`phase
      ensures Did(c.suite, Finished(c, old(View()), body, whole), View(), [], out, error)
    {
      hide Flat, Seal, Wire, Render, Encode;
      if body != c.finished(secrets.server, Flat(transcript)) {
        RenderNone(c.suite);
        return [], Some(Local(DECRYPT_ERROR));
      }
      transcript := transcript + [whole];
      var app := c.applicationSecrets(secrets.pending, Flat(transcript));
      var fin := [FINISHED, 0, 0, 32] + c.finished(secrets.client, Flat(transcript));
      ghost var z := Seal(c.suite, write.value, HANDSHAKE, fin);
      var sealed := SealData(HANDSHAKE, fin);
      out := CHANGE_CIPHER_SPEC_RECORD + sealed;
      RenderJoin(c.suite, [Clear(CHANGE_CIPHER_SPEC_RECORD)], Protect(z.records));
      RenderClear(c.suite, CHANGE_CIPHER_SPEC_RECORD);
      RenderProtect(c.suite, z.records);
      write := Some(Direction(app.client, 0, write.value.generation + 1));
      read := Some(Direction(app.server, 0, read.value.generation + 1));
      secrets := Wiped();
      phase := Connected;
      error := None;
    }

    method HandleKeyUpdate(body: Bytes) returns (out: Bytes, error: Option<Error>)
      requires read.Some? && write.Some?
      modifies this`read, this`write
      ensures Did(c.suite, KeyUpdate(c, old(View()), body), View(), [], out, error)
    {
      hide Seal, Wire, Render;
      RenderNone(c.suite);
      if body != [0] && body != [1] {
        return [], Some(Local(ILLEGAL_PARAMETER));
      }
      read := Some(Updated(c.suite, read.value));
      out := [];
      if body == [1] {
        RenderProtect(c.suite, Seal(c.suite, write.value, HANDSHAKE, UPDATE_MESSAGE).records);
        out := SealData(HANDSHAKE, UPDATE_MESSAGE);
        write := Some(Updated(c.suite, write.value));
      }
      error := None;
    }

    method HandleMessage(whole: Bytes, last: bool) returns (out: Bytes, error: Option<Error>)
      requires Keyed(View()) && |whole| >= 4
      modifies this
      ensures handshake == old(handshake) && changeCipherSpec == old(changeCipherSpec)
      ensures Did(c.suite, Message(c, old(View()), whole, last), View(), [], out, error)
    {
      hide ServerHello, EncryptedExtensions, Certificate, CertificateVerify, Finished, KeyUpdate, Render;
      RenderNone(c.suite);
      out := [];
      var kind, body := whole[0], whole[4..];
      if Rekeys(phase, kind) && !last {
        return [], Some(Local(UNEXPECTED_MESSAGE));
      }
      if phase == AwaitServerHello && kind == SERVER_HELLO {
        error := HandleServerHello(body, whole);
      } else if phase == AwaitExtensions && kind == ENCRYPTED_EXTENSIONS {
        error := HandleExtensions(body, whole);
      } else if phase == AwaitCertificate && kind == CERTIFICATE {
        error := HandleCertificate(body, whole);
      } else if phase == AwaitVerify && kind == CERTIFICATE_VERIFY {
        error := HandleVerify(body, whole);
      } else if phase == AwaitFinished && kind == FINISHED {
        out, error := HandleFinished(body, whole);
      } else if phase == Connected && kind == NEW_SESSION_TICKET {
        error := None;
      } else if phase == Connected && kind == KEY_UPDATE {
        out, error := HandleKeyUpdate(body);
      } else {
        error := Some(Local(UNEXPECTED_MESSAGE));
      }
    }

    /** Handles every whole message of the buffer and what has just arrived. */
    method HandleHandshakes(content: Bytes) returns (out: Bytes, error: Option<Error>)
      requires Keyed(View())
      modifies this
      ensures changeCipherSpec == old(changeCipherSpec)
      ensures Did(c.suite, Handshakes(c, old(View()), content), View(), [], out, error)
    {
      hide Message, Render, Int24, Messages, Keep;
      var buffer := handshake + content;
      handshake := [];
      out := [];
      RenderNone(c.suite);
      var at := 0;
      ghost var whole := Messages(c, View(), buffer);
      ghost var done := Done(View());
      assert buffer[0..] == buffer;
      ThenNothing(done, whole);
      while |buffer| - at >= 4
        invariant at <= |buffer| && Keyed(View()) && handshake == [] && changeCipherSpec == old(changeCipherSpec)
        invariant done.plain == [] && done.s == View() && out == Render(c.suite, done.items)
        invariant whole == Then(done, Messages(c, View(), buffer[at..]))
      {
        var n := Int24(buffer[at + 1..at + 4]);
        assert buffer[at..][1..4] == buffer[at + 1..at + 4];
        MessagesUnfold(c, View(), buffer[at..], n);
        if n > MAX_HANDSHAKE {
          FailTail(c.suite, done, View());
          return out, Some(Local(UNEXPECTED_MESSAGE));
        }
        if |buffer| - at < 4 + n {
          break;
        }
        ghost var before := View();
        assert buffer[at..][..4 + n] == buffer[at..at + 4 + n];
        assert buffer[at..][4 + n..] == buffer[at + 4 + n..];
        MessageKeyed(c, View(), buffer[at..at + 4 + n], |buffer| == at + 4 + n);
        var more, failed := HandleMessage(buffer[at..at + 4 + n], at + 4 + n == |buffer|);
        ghost var m := Message(c, before, buffer[at..at + 4 + n], |buffer| == at + 4 + n);
        RenderJoin(c.suite, done.items, m.items);
        out := out + more;
        if failed.Some? {
          return out, failed;
        }
        ThenAssociates(done, m, Messages(c, m.s, buffer[at + 4 + n..]));
        done := Then(done, m);
        at := at + 4 + n;
      }
      KeepTail(c, c.suite, done, View(), buffer[at..]);
      if |buffer| - at > MAX_HANDSHAKE {
        return out, Some(Local(UNEXPECTED_MESSAGE));
      }
      handshake := buffer[at..];
      error := None;
    }

    method HandlePeerAlert(body: Bytes) returns (error: Option<Error>)
      modifies this`phase
      ensures Did(c.suite, PeerAlert(old(View()), body), View(), [], [], error)
    {
      if |body| != 2 {
        error := Some(Local(DECODE_ERROR));
      } else if body[1] == 0 {
        phase := Closed;
        error := None;
      } else if body[1] == 90 {
        error := None;
      } else {
        error := Some(Peer(body[1]));
      }
    }

    method HandleContent(kind: Octet, content: Bytes) returns (out: Bytes, error: Option<Error>)
      requires Keyed(View())
      modifies this
      ensures Did(c.suite, Content(c, old(View()), kind, content), View(), [], out, error)
    {
      hide Handshakes, PeerAlert, Render;
      RenderNone(c.suite);
      out := [];
      if kind == HANDSHAKE && content != [] {
        out, error := HandleHandshakes(content);
      } else if kind == ALERT {
        error := HandlePeerAlert(content);
      } else {
        error := Some(Local(UNEXPECTED_MESSAGE));
      }
    }

    /** An encrypted record: data to deliver, or a message or alert to handle. */
    method HandleProtected(header: Bytes, body: Bytes) returns (plain: Bytes, out: Bytes, error: Option<Error>)
      requires Keyed(View()) && read.Some? && |header| == HEADER
      modifies this
      ensures Did(c.suite, ProtectedRecord(c, old(View()), header, body), View(), plain, out, error)
    {
      hide Content, Render, Nonce, LastNonzero;
      RenderNone(c.suite);
      plain, out := [], [];
      var d := read.value;
      var nonce := Nonce(Iv(c.suite, d.secret), d.count);
      read := Some(Bumped(d));
      if header[0] != APPLICATION_DATA {
        return [], [], Some(Local(UNEXPECTED_MESSAGE));
      }
      match c.suite.open(c.suite.keyOf(d.secret), nonce, header, body) {
        case None => error := Some(Local(BAD_RECORD_MAC));
        case Some(inner) =>
          var end := LastNonzero(inner);
          if end.None? || end.value > MAX_PLAIN {
            return [], [], Some(Local(UNEXPECTED_MESSAGE));
          }
          if inner[end.value] == APPLICATION_DATA && phase == Connected {
            return inner[..end.value], [], None;
          }
          out, error := HandleContent(inner[end.value], inner[..end.value]);
          ContentSilent(c, old(View()).(read := Some(Bumped(d))), inner[end.value], inner[..end.value]);
      }
    }

    method HandleRecord(header: Bytes, body: Bytes) returns (plain: Bytes, out: Bytes, error: Option<Error>)
      requires Keyed(View()) && |header| == HEADER
      modifies this
      ensures Did(c.suite, Record(c, old(View()), header, body), View(), plain, out, error)
    {
      hide Content, ProtectedRecord, Render;
      RenderNone(c.suite);
      plain, out := [], [];
      if header[0] == CHANGE_CIPHER_SPEC {
        var first := !changeCipherSpec;
        changeCipherSpec := true;
        error := if phase != Connected && body == [1] && first then None else Some(Local(UNEXPECTED_MESSAGE));
      } else if read.Some? {
        plain, out, error := HandleProtected(header, body);
      } else {
        out, error := HandleContent(header[0], body);
        ContentSilent(c, old(View()), header[0], body);
      }
    }

    /** The end of the session: an alert for an error of this side. */
    method Abort(e: Error) returns (out: Bytes)
      requires Keyed(View())
      modifies this`write, this`phase
      ensures Did(c.suite, Aborted(c, FailWith(old(View()), e)), View(), [], out, Some(e))
    {
      hide Alerted, Render;
      RenderNone(c.suite);
      out := [];
      match e {
        case Local(alert) =>
          AlertedSilent(c, View(), alert);
          ghost var a := Alerted(c, View(), alert);
          assert [] + a.items == a.items;
          out := RaiseAlert(alert);
        case Peer(_) =>
      }
      phase := Closed;
    }

    /** Consumes the whole records at the start of wire. */
    method Receive(wire: Bytes) returns (used: nat, plain: Bytes, out: Bytes, error: Option<Error>)
      requires Keyed(View())
      modifies this
      ensures Did(c.suite, TlsSession.Receive(c, old(View()), wire).step, View(), plain, out, error)
      ensures error.None? ==> used == TlsSession.Receive(c, old(View()), wire).used
    {
      hide Record, Render, TlsSession.Receive, Length, Aborted;
      used, plain, out := 0, [], [];
      RenderNone(c.suite);
      ghost var whole := TlsSession.Receive(c, View(), wire);
      ghost var done := Done(View());
      assert wire[0..] == wire;
      ThenNothing(done, whole.step);
      while phase != Closed && |wire| - used >= HEADER
        invariant used <= |wire| && Keyed(View())
        invariant done.s == View() && plain == done.plain && out == Render(c.suite, done.items) && done.error.None?
        invariant var r := TlsSession.Receive(c, View(), wire[used..]); whole == Receipt(Then(done, r.step), used + r.used)
        decreases |wire| - used
      {
        var rest := wire[used..];
        var n := Length(rest);
        ReceiveUnfold(c, View(), rest, n);
        ghost var before := View();
        var limit := if read.Some? then MAX_RECORD else MAX_PLAIN;
        if rest[1] != 3 || n > limit {
          error := Some(Local(if rest[1] == 3 then RECORD_OVERFLOW else DECODE_ERROR));
          var more := Abort(error.value);
          RenderJoin(c.suite, done.items, Aborted(c, FailWith(before, error.value)).items);
          out := out + more;
          return used, plain, out, error;
        }
        if |rest| < HEADER + n {
          break;
        }
        var p, o, failed := HandleRecord(rest[..HEADER], rest[HEADER..HEADER + n]);
        ghost var t := Record(c, before, rest[..HEADER], rest[HEADER..HEADER + n]);
        RecordKeyed(c, before, rest[..HEADER], rest[HEADER..HEADER + n]);
        RenderJoin(c.suite, done.items, t.items);
        plain, out := plain + p, out + o;
        if failed.Some? {
          var more := Abort(failed.value);
          AbortedAfter(c, t);
          RenderJoin(c.suite, t.items, Aborted(c, FailWith(t.s, failed.value)).items);
          RenderJoin(c.suite, done.items, Aborted(c, t).items);
          out := out + more;
          return used, plain, out, failed;
        }
        assert rest[HEADER + n..] == wire[used + HEADER + n..];
        ThenAssociates(done, t, TlsSession.Receive(c, t.s, rest[HEADER + n..]).step);
        done := Then(done, t);
        used := used + HEADER + n;
      }
      ReceiveStop(c, View(), wire[used..], done);
      error := None;
    }

    /** Seals data for the server, in any phase that has keys: one call of a run. */
    method Send(data: Bytes) returns (out: Bytes)
      requires write.Some? && Keyed(View())
      modifies this`write
      ensures Did(c.suite, TlsRuns.Act(c, old(View()), TlsRuns.Output(data)), View(), [], out, None)
    {
      hide Seal, Wire, Render;
      RenderProtect(c.suite, Seal(c.suite, write.value, APPLICATION_DATA, data).records);
      out := SealData(APPLICATION_DATA, data);
    }
  }

  /** Only application data is delivered. */
  lemma ContentSilent(c: Config, s: State, kind: Octet, content: Bytes)
    requires Keyed(s)
    ensures Content(c, s, kind, content).plain == []
  {
    hide Messages;
    MessagesKeyed(c, s.(handshake := []), s.handshake + content);
  }

  lemma ReceiveUnfold(c: Config, s: State, w: Bytes, n: nat)
    requires Keyed(s) && s.phase != Closed && |w| >= HEADER && n == Length(w)
    ensures var limit := if s.read.Some? then MAX_RECORD else MAX_PLAIN;
      && (w[1] != 3 ==> TlsSession.Receive(c, s, w) == Receipt(Aborted(c, Fail(s, DECODE_ERROR)), 0))
      && (w[1] == 3 && n > limit ==> TlsSession.Receive(c, s, w) == Receipt(Aborted(c, Fail(s, RECORD_OVERFLOW)), 0))
      && (w[1] == 3 && n <= limit && |w| < HEADER + n ==> TlsSession.Receive(c, s, w) == Receipt(Done(s), 0))
      && (w[1] == 3 && n <= limit && |w| >= HEADER + n ==>
            var t := Record(c, s, w[..HEADER], w[HEADER..HEADER + n]);
            && Keyed(t.s)
            && (t.error.Some? ==> TlsSession.Receive(c, s, w) == Receipt(Aborted(c, t), 0))
            && (t.error.None? ==>
                  var r := TlsSession.Receive(c, t.s, w[HEADER + n..]);
                  TlsSession.Receive(c, s, w) == Receipt(Then(t, r.step), HEADER + n + r.used)))
  {
    hide Record, Length, Aborted;
    if |w| >= HEADER + n {
      RecordKeyed(c, s, w[..HEADER], w[HEADER..HEADER + n]);
    }
  }

  lemma ReceiveStop(c: Config, s: State, w: Bytes, done: Step)
    requires Keyed(s) && done.s == s && done.error.None?
    ensures s.phase == Closed || |w| < HEADER ==> TlsSession.Receive(c, s, w) == Receipt(Done(s), 0)
    ensures Then(done, Done(s)) == done
  {}

  lemma AbortedAfter(c: Config, t: Step)
    requires Keyed(t.s) && t.error.Some?
    ensures var a := Aborted(c, FailWith(t.s, t.error.value));
      Aborted(c, t) == Step(a.s, t.plain, t.items + a.items, t.error)
  {
    hide Alerted;
    match t.error.value
    case Local(alert) =>
      var a := Alerted(c, t.s, alert);
      AlertedSilent(c, t.s, alert);
      assert [] + a.items == a.items && [] + a.plain == a.plain;
    case Peer(_) => assert t.items + [] == t.items;
  }

  lemma AlertedSilent(c: Config, s: State, alert: Octet)
    requires Keyed(s)
    ensures Alerted(c, s, alert).plain == [] && Alerted(c, s, alert).s.phase == Closed
  {}

  lemma RenderNone(c: Suite)
    ensures Render(c, []) == []
  {}

  lemma ThenNothing(d: Step, t: Step)
    requires d.plain == [] && d.items == []
    ensures Then(d, t) == t
  {}

  /** The loop's choices, read off the recursive definition. */
  lemma MessagesUnfold(c: Config, s: State, b: Bytes, n: nat)
    requires Keyed(s) && |b| >= 4 && n == Int24(b[1..4])
    ensures n > MAX_HANDSHAKE ==> Messages(c, s, b) == Fail(s, UNEXPECTED_MESSAGE)
    ensures n <= MAX_HANDSHAKE && |b| < 4 + n ==> Messages(c, s, b) == Keep(s, b)
    ensures n <= MAX_HANDSHAKE && |b| >= 4 + n ==>
      var m := Message(c, s, b[..4 + n], |b| == 4 + n);
      Keyed(m.s) && Messages(c, s, b) == if m.error.Some? then m else Then(m, Messages(c, m.s, b[4 + n..]))
  {
    hide Message, Int24;
    if |b| >= 4 + n {
      MessageKeyed(c, s, b[..4 + n], |b| == 4 + n);
    }
  }

  lemma FailTail(c: Suite, done: Step, s: State)
    requires done.plain == [] && done.s == s
    ensures Did(c, Then(done, Fail(s, UNEXPECTED_MESSAGE)), s, [], Render(c, done.items), Some(Local(UNEXPECTED_MESSAGE)))
  {
    assert done.items + [] == done.items;
  }

  lemma KeepTail(c: Config, suite: Suite, done: Step, s: State, tail: Bytes)
    requires Keyed(s) && done.plain == [] && done.s == s
    ensures |tail| < 4 ==> Messages(c, s, tail) == Keep(s, tail)
    ensures |tail| > MAX_HANDSHAKE ==>
      Did(suite, Then(done, Keep(s, tail)), s, [], Render(suite, done.items), Some(Local(UNEXPECTED_MESSAGE)))
    ensures |tail| <= MAX_HANDSHAKE ==>
      Did(suite, Then(done, Keep(s, tail)), s.(handshake := tail), [], Render(suite, done.items), None)
  {
    assert done.items + [] == done.items;
  }

  lemma SealNone(c: Suite, d: Direction, kind: Octet, data: Bytes)
    ensures |Pieces(data)| > 0
    ensures SealPieces(c, d, kind, Pieces(data)[..0]) == Sealing([], d) && Wire(c, []) == []
  {}

  lemma WireOne(c: Suite, r: Rec)
    ensures Wire(c, [r]) == Encode(c, r)
  {
    hide Encode;
    assert [r][1..] == [];
    assert Wire(c, [r]) == Encode(c, r) + Wire(c, []);
  }

  lemma WireTwo(c: Suite, q: Rec, r: Rec)
    ensures Wire(c, [q, r]) == Encode(c, q) + Encode(c, r)
  {
    hide Encode;
    assert [q, r][1..] == [r];
    WireOne(c, r);
  }
}

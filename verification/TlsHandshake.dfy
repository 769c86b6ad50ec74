/** The server's half of a handshake, sealed under its own keys and cut in any way, connects the session. */
module TlsHandshake {
  import opened Octets
  import opened Options
  import opened TlsRecord
  import opened TlsSession
  import opened TlsTheorems
  import opened TlsRuns

  /** A whole handshake message of this type, short enough to be buffered. */
  predicate WellFormed(m: Bytes, kind: Octet) {
    Is(m, kind) && Int24(m[1..4]) == |m| - 4 && |m| <= MAX_HANDSHAKE
  }

  /** EncryptedExtensions, Certificate, CertificateVerify and Finished, each acceptable after the two hellos in t. */
  predicate FlightOk(c: Config, t: seq<Bytes>, ms: seq<Bytes>) {
    && |t| == 2 && |ms| == 4
    && WellFormed(ms[0], ENCRYPTED_EXTENSIONS) && WellFormed(ms[1], CERTIFICATE)
    && WellFormed(ms[2], CERTIFICATE_VERIFY) && WellFormed(ms[3], FINISHED)
    && AcceptedUpTo(c, t[0], t + ms, 6)
  }

  /** A session that has just taken the server's hello. */
  predicate Greeted(c: Config, s: State) {
    && Keyed(s) && s.phase == AwaitExtensions && s.handshake == [] && |s.transcript| == 2
    && HelloAccepted(c, s.transcript) && s.secrets == HandshakeKeys(c, s.transcript)
    && s.read.value.generation == 1
  }

  function PhaseAt(k: nat): Phase {
    if k == 0 then AwaitExtensions else if k == 1 then AwaitCertificate else if k == 2 then AwaitVerify else AwaitFinished
  }

  /** s after the first k messages, reading with r, with h in the buffer. */
  function Stage(c: Config, s: State, ms: seq<Bytes>, k: nat, r: Direction, h: Bytes): State
    requires k <= 3 && FlightOk(c, s.transcript, ms)
  {
    s.(phase := PhaseAt(k), transcript := s.transcript + ms[..k], read := Some(r), handshake := h,
       peer := if k >= 2 then c.chain(ms[1][4..]).value else s.peer)
  }

  /** The client's own Finished, and the session connected. */
  function Connecting(c: Config, s: State, ms: seq<Bytes>): Step
    requires FlightOk(c, s.transcript, ms) && Greeted(c, s)
  {
    var t := s.transcript + ms;
    var keys := HandshakeKeys(c, s.transcript);
    var app := c.applicationSecrets(keys.pending, Flat(t));
    var z := Seal(c.suite, s.write.value, HANDSHAKE, [20, 0, 0, 32] + c.finished(keys.client, Flat(t)));
    Step(s.(phase := Connected, transcript := t, secrets := Wiped(), peer := c.chain(ms[1][4..]).value, handshake := [],
            read := Some(Direction(app.server, 0, 2)), write := Some(Direction(app.client, 0, z.dir.generation + 1))),
         [], [Clear(CHANGE_CIPHER_SPEC_RECORD)] + Protect(z.records), None)
  }

  lemma StageStep(c: Config, s: State, ms: seq<Bytes>, k: nat, r: Direction, last: bool)
    requires FlightOk(c, s.transcript, ms) && Greeted(c, s) && k <= 2
    ensures Keyed(Stage(c, s, ms, k, r, [])) && Message(c, Stage(c, s, ms, k, r, []), ms[k], last) == Done(Stage(c, s, ms, k + 1, r, []))
  {
    hide Flat;
    var t := s.transcript + ms;
    assert t[2 + k] == ms[k];
    assert (s.transcript + ms[..k]) + [ms[k]] == s.transcript + ms[..k + 1];
    assert t[..2 + k] == s.transcript + ms[..k];
  }

  lemma StageFinish(c: Config, s: State, ms: seq<Bytes>, r: Direction)
    requires FlightOk(c, s.transcript, ms) && Greeted(c, s) && r.generation == 1
    ensures Keyed(Stage(c, s, ms, 3, r, [])) && Message(c, Stage(c, s, ms, 3, r, []), ms[3], true) == Connecting(c, s, ms)
  {
    hide Flat, Seal;
    var t := s.transcript + ms;
    assert t[5] == ms[3] && t[..5] == s.transcript + ms[..3] && t[..2] == s.transcript;
    assert (s.transcript + ms[..3]) + [ms[3]] == t;
    assert s.transcript[..2] == s.transcript && t[1] == s.transcript[1];
    assert HandshakeKeys(c, t) == HandshakeKeys(c, s.transcript);
    var u := Stage(c, s, ms, 3, r, []);
    assert u.secrets == HandshakeKeys(c, t);
    assert Message(c, u, ms[3], true) == Finished(c, u, ms[3][4..], ms[3]);
  }

  lemma KindAt(c: Config, t: seq<Bytes>, ms: seq<Bytes>, k: nat)
    requires FlightOk(c, t, ms) && k <= 3
    ensures |ms| == 4 && |ms[k]| >= 4 && Int24(ms[k][1..4]) == |ms[k]| - 4 && |ms[k]| <= MAX_HANDSHAKE
  {
    hide AcceptedUpTo;
    assert k == 0 || k == 1 || k == 2 || k == 3;
  }

  lemma JoinFrom(ms: seq<Bytes>, k: nat)
    requires k < |ms|
    ensures Join(ms[k..]) == ms[k] + Join(ms[k + 1..])
  {
    assert ms[k..][1..] == ms[k + 1..];
  }

  /** Part of a message is kept for later. */
  lemma PartKept(c: Config, u: State, m: Bytes, buffer: Bytes)
    requires Keyed(u) && |m| >= 4 && Int24(m[1..4]) == |m| - 4 && |m| <= MAX_HANDSHAKE
    requires |buffer| < |m| && buffer == m[..|buffer|]
    ensures Messages(c, u, buffer) == Done(u.(handshake := buffer))
  {
    hide Message, Int24;
    if |buffer| >= 4 {
      assert buffer[1..4] == m[1..4];
    }
  }

  /** One whole message, and what follows it in the buffer. */
  lemma WholeTaken(c: Config, u: State, m: Bytes, rest: Bytes)
    requires Keyed(u) && |m| >= 4 && Int24(m[1..4]) == |m| - 4 && |m| <= MAX_HANDSHAKE
    ensures var t := Message(c, u, m, rest == []);
      Keyed(t.s) && (t.error.None? ==> Messages(c, u, m + rest) == Then(t, Messages(c, t.s, rest)))
  {
    hide Message, Int24;
    var b := m + rest;
    assert b[1..4] == m[1..4] && b[..|m|] == m && b[|m|..] == rest;
    MessageKeyed(c, u, m, rest == []);
  }

  /** A buffer that stops before the end of the flight leaves a later stage. */
  lemma {:induction false} BufferStage(c: Config, s: State, ms: seq<Bytes>, k: nat, r: Direction, buffer: Bytes) returns (j: nat, tail: Bytes)
    requires FlightOk(c, s.transcript, ms) && Greeted(c, s) && k <= 3 && r.generation == 1
    requires |buffer| < |Join(ms[k..])| && buffer == Join(ms[k..])[..|buffer|]
    ensures Keyed(Stage(c, s, ms, k, r, []))
    ensures k <= j <= 3 && |tail| < |ms[j]| && Join(ms[j..]) == tail + Join(ms[k..])[|buffer|..]
    ensures Messages(c, Stage(c, s, ms, k, r, []), buffer) == Done(Stage(c, s, ms, j, r, tail))
    decreases 3 - k
  {
    hide Message, Messages, FlightOk, AcceptedUpTo, Stage, Keyed, Greeted;
    KindAt(c, s.transcript, ms, k);
    var m, rest := ms[k], Join(ms[k + 1..]);
    JoinFrom(ms, k);
    JoinLast(ms);
    StageKeyed(c, s, ms, k, r, []);
    var u := Stage(c, s, ms, k, r, []);
    if |buffer| < |m| {
      j, tail := k, buffer;
      assert buffer == m[..|buffer|];
      PartKept(c, u, m, buffer);
      assert Join(ms[k..]) == buffer + Join(ms[k..])[|buffer|..];
    } else {
      var more := buffer[|m|..];
      assert buffer == m + more;
      assert more == rest[..|more|];
      StageStep(c, s, ms, k, r, more == []);
      WholeTaken(c, u, m, more);
      j, tail := BufferStage(c, s, ms, k + 1, r, more);
      assert (m + rest)[|buffer|..] == rest[|more|..];
      ThenLeft(Stage(c, s, ms, k + 1, r, []), Done(Stage(c, s, ms, j, r, tail)));
    }
  }

  lemma JoinLast(ms: seq<Bytes>)
    requires |ms| == 4
    ensures Join(ms[3..]) == ms[3]
  {
    assert ms[3..][1..] == [];
    assert Join(ms[3..]) == ms[3] + [];
  }

  lemma StageKeyed(c: Config, s: State, ms: seq<Bytes>, k: nat, r: Direction, h: Bytes)
    requires FlightOk(c, s.transcript, ms) && Greeted(c, s) && k <= 3
    ensures Keyed(Stage(c, s, ms, k, r, h)) && Stage(c, s, ms, k, r, h).phase != Closed && Stage(c, s, ms, k, r, h).phase != Connected
    ensures Stage(c, s, ms, k, r, h).read == Some(r) && Stage(c, s, ms, k, r, h).handshake == h
    ensures Stage(c, s, ms, k, r, h).(handshake := []) == Stage(c, s, ms, k, r, [])
    ensures forall x :: Stage(c, s, ms, k, r, []).(handshake := x) == Stage(c, s, ms, k, r, x)
    ensures forall x :: Stage(c, s, ms, k, r, h).(read := Some(x)) == Stage(c, s, ms, k, x, h)
  {}

  /** A buffer that holds the rest of the flight connects. */
  lemma {:induction false} BufferConnects(c: Config, s: State, ms: seq<Bytes>, k: nat, r: Direction)
    requires FlightOk(c, s.transcript, ms) && Greeted(c, s) && k <= 3 && r.generation == 1
    ensures Keyed(Stage(c, s, ms, k, r, []))
    ensures Messages(c, Stage(c, s, ms, k, r, []), Join(ms[k..])) == Connecting(c, s, ms)
    decreases 3 - k
  {
    hide Message, Messages, FlightOk, AcceptedUpTo, Stage, Keyed, Greeted, Connecting;
    KindAt(c, s.transcript, ms, k);
    var m, rest := ms[k], Join(ms[k + 1..]);
    JoinFrom(ms, k);
    StageKeyed(c, s, ms, k, r, []);
    ConnectingKeyed(c, s, ms);
    var u := Stage(c, s, ms, k, r, []);
    WholeTaken(c, u, m, rest);
    if k < 3 {
      KindAt(c, s.transcript, ms, k + 1);
      JoinFrom(ms, k + 1);
      assert rest != [];
      StageStep(c, s, ms, k, r, false);
      BufferConnects(c, s, ms, k + 1, r);
      ThenLeft(Stage(c, s, ms, k + 1, r, []), Connecting(c, s, ms));
    } else {
      assert ms[4..] == [];
      StageFinish(c, s, ms, r);
      EmptyBuffer(c, Connecting(c, s, ms));
    }
  }

  lemma ConnectingKeyed(c: Config, s: State, ms: seq<Bytes>)
    requires FlightOk(c, s.transcript, ms) && Greeted(c, s)
    ensures var t := Connecting(c, s, ms); Keyed(t.s) && t.s.handshake == [] && t.error.None? && t.s.phase == Connected && t.plain == []
  {
    hide Seal, Flat, AcceptedUpTo;
  }

  lemma ThenLeft(v: State, t: Step)
    ensures Then(Done(v), t) == t
  {}

  lemma EmptyBuffer(c: Config, t: Step)
    requires Keyed(t.s) && t.s.handshake == [] && t.error.None?
    ensures Then(t, Messages(c, t.s, [])) == t
  {}

  /** One sealed piece of the flight at the head of the wire. */
  lemma PieceTaken(c: Config, s: State, ms: seq<Bytes>, k: nat, d: Direction, h: Bytes, p: Bytes, rest: Bytes)
    requires SuiteValid(c.suite) && FlightOk(c, s.transcript, ms) && Greeted(c, s) && k <= 3 && 0 < |p| <= MAX_PLAIN
    ensures Keyed(Stage(c, s, ms, k, d, h)) && Keyed(Stage(c, s, ms, k, Bumped(d), []))
    ensures var t := Messages(c, Stage(c, s, ms, k, Bumped(d), []), h + p); var wire := Encode(c.suite, Rec(d, p, HANDSHAKE));
      && Keyed(t.s)
      && (t.error.None? ==>
            (Receive(c, Stage(c, s, ms, k, d, h), wire + rest)
             == Receipt(Then(t, Receive(c, t.s, rest).step), |wire| + Receive(c, t.s, rest).used)))
  {
    hide Messages, FlightOk, Stage, Keyed, Greeted, SuiteValid, Receive, Encode, Content, Record;
    StageKeyed(c, s, ms, k, d, h);
    StageKeyed(c, s, ms, k, Bumped(d), h);
    StageKeyed(c, s, ms, k, Bumped(d), []);
    OneRecord(c, Stage(c, s, ms, k, d, h), Rec(d, p, HANDSHAKE), rest);
    ContentIs(c, Stage(c, s, ms, k, Bumped(d), h), p);
  }

  lemma SealFirst(c: Suite, d: Direction, pieces: seq<Bytes>)
    requires pieces != []
    ensures var rest := Wire(c, SealPieces(c, Bumped(d), HANDSHAKE, pieces[1..]).records);
      Wire(c, SealPieces(c, d, HANDSHAKE, pieces).records) == Encode(c, Rec(d, pieces[0], HANDSHAKE)) + rest
  {
    hide Encode;
    var r, records := Rec(d, pieces[0], HANDSHAKE), SealPieces(c, Bumped(d), HANDSHAKE, pieces[1..]).records;
    assert SealPieces(c, d, HANDSHAKE, pieces).records == [r] + records;
    assert ([r] + records)[1..] == records;
  }

  /** The rest of the flight in sealed records: each piece under the next number, and the session connects. */
  lemma {:induction false} PiecesConnect(c: Config, s: State, ms: seq<Bytes>, k: nat, d: Direction, h: Bytes, pieces: seq<Bytes>)
    requires SuiteValid(c.suite) && FlightOk(c, s.transcript, ms) && Greeted(c, s) && k <= 3 && d.generation == 1
    requires h + Join(pieces) == Join(ms[k..]) && |h| < |Join(ms[k..])| && forall p | p in pieces :: 0 < |p| <= MAX_PLAIN
    ensures Keyed(Stage(c, s, ms, k, d, h))
    ensures var wire := Wire(c.suite, SealPieces(c.suite, d, HANDSHAKE, pieces).records);
      Receive(c, Stage(c, s, ms, k, d, h), wire) == Receipt(Connecting(c, s, ms), |wire|)
    decreases |pieces|
  {
    hide Messages, FlightOk, Stage, Keyed, Greeted, Connecting, SuiteValid, Receive, Encode, Wire, SealPieces;
    KindAt(c, s.transcript, ms, k);
    ConnectingKeyed(c, s, ms);
    var p, more := pieces[0], pieces[1..];
    assert p in pieces && forall x | x in more :: x in pieces;
    var rest := Wire(c.suite, SealPieces(c.suite, Bumped(d), HANDSHAKE, more).records);
    SealFirst(c.suite, d, pieces);
    PieceTaken(c, s, ms, k, d, h, p, rest);
    assert h + Join(pieces) == (h + p) + Join(more);
    if more == [] {
      assert h + p == Join(ms[k..]);
      BufferConnects(c, s, ms, k, Bumped(d));
      NoRecords(c.suite, Bumped(d));
      NothingMore(c, Connecting(c, s, ms));
    } else {
      assert more[0] in pieces;
      assert Join(more) != [];
      assert h + p == Join(ms[k..])[..|h + p|] && Join(more) == Join(ms[k..])[|h + p|..];
      var j, tail := BufferStage(c, s, ms, k, Bumped(d), h + p);
      assert |tail| < |Join(ms[j..])|;
      PiecesConnect(c, s, ms, j, Bumped(d), tail, more);
      ThenLeft(Stage(c, s, ms, j, Bumped(d), tail), Connecting(c, s, ms));
    }
  }

  lemma NoRecords(c: Suite, d: Direction)
    ensures Wire(c, SealPieces(c, d, HANDSHAKE, []).records) == []
  {}

  lemma ContentIs(c: Config, u: State, p: Bytes)
    requires Keyed(u) && p != []
    ensures Content(c, u, HANDSHAKE, p) == Messages(c, u.(handshake := []), u.handshake + p)
  {}

  lemma NothingMore(c: Config, t: Step)
    requires Keyed(t.s) && t.error.None?
    ensures Receive(c, t.s, []) == Receipt(Done(t.s), 0) && Then(t, Done(t.s)) == t
  {}

  /**
   * Sections 4.3 and 4.4 of RFC 8446: in every run that has taken the server's
   * hello and nothing since, the server's flight, sealed under the server's
   * handshake secret and cut into records in any way, connects the session; the
   * client answers with its own Finished under its own handshake keys.
   */
  lemma FlightConnects(c: Config, hello: Bytes, ops: seq<Op>, ms: seq<Bytes>, pieces: seq<Bytes>)
    requires ConfigValid(c) && SuiteValid(c.suite)
    requires var s := Run(c, hello, ops).s; s.phase == AwaitExtensions && s.handshake == [] && FlightOk(c, s.transcript, ms)
    requires Join(pieces) == Join(ms) && forall p | p in pieces :: 0 < |p| <= MAX_PLAIN
    ensures var s := Run(c, hello, ops).s; var t := s.transcript;
      && Keyed(s) && HelloAccepted(c, t) && s.read.Some? && s.write.Some?
      && var keys, all := HandshakeKeys(c, t), t + ms;
         var wire := Wire(c.suite, SealPieces(c.suite, Direction(keys.server, s.read.value.count, 1), HANDSHAKE, pieces).records);
         var r := Receive(c, s, wire);
         && r.used == |wire| && r.step.error.None? && r.step.plain == []
         && r.step.s.phase == Connected && r.step.s.transcript == all && r.step.s.handshake == []
         && r.step.s.read == Some(Direction(c.applicationSecrets(keys.pending, Flat(all)).server, 0, 2))
         && r.step.s.write.Some? && r.step.s.write.value.secret == c.applicationSecrets(keys.pending, Flat(all)).client
         && Log(r.step.items) == [Rec(s.write.value, [20, 0, 0, 32] + c.finished(keys.client, Flat(all)), HANDSHAKE)]
  {
    hide Run, Receive, Messages, SealPieces, Wire, Log, Flat, SuiteValid, Connecting, Stage, AcceptedUpTo;
    var s := Run(c, hello, ops).s;
    RunGreeted(c, hello, ops);
    var d := s.read.value;
    KindAt(c, s.transcript, ms, 0);
    JoinFrom(ms, 0);
    assert ms[0..] == ms;
    assert [] + Join(pieces) == Join(ms[0..]);
    StageNow(c, s, ms);
    PiecesConnect(c, s, ms, 0, d, [], pieces);
    ConnectingLog(c, s, ms);
  }

  lemma RunGreeted(c: Config, hello: Bytes, ops: seq<Op>)
    requires ConfigValid(c)
    requires var s := Run(c, hello, ops).s; s.phase == AwaitExtensions && s.handshake == []
    ensures var s := Run(c, hello, ops).s; Greeted(c, s) && s.read.value == Direction(HandshakeKeys(c, s.transcript).server, s.read.value.count, 1)
  {
    hide Run, Log, Talks, Advances;
  }

  lemma StageNow(c: Config, s: State, ms: seq<Bytes>)
    requires Greeted(c, s) && FlightOk(c, s.transcript, ms)
    ensures Stage(c, s, ms, 0, s.read.value, []) == s
  {
    hide AcceptedUpTo;
    assert s.transcript + ms[..0] == s.transcript;
  }

  lemma ConnectingLog(c: Config, s: State, ms: seq<Bytes>)
    requires ConfigValid(c) && Greeted(c, s) && FlightOk(c, s.transcript, ms)
    ensures var t, all := Connecting(c, s, ms), s.transcript + ms; var keys := HandshakeKeys(c, s.transcript);
      && t.s.phase == Connected && t.s.transcript == all && t.s.handshake == [] && t.error.None? && t.plain == []
      && t.s.read == Some(Direction(c.applicationSecrets(keys.pending, Flat(all)).server, 0, 2))
      && t.s.write.Some? && t.s.write.value.secret == c.applicationSecrets(keys.pending, Flat(all)).client
      && Log(t.items) == [Rec(s.write.value, [20, 0, 0, 32] + c.finished(keys.client, Flat(all)), HANDSHAKE)]
  {
    hide Flat, AcceptedUpTo, Log, Seal;
    var keys, all := HandshakeKeys(c, s.transcript), s.transcript + ms;
    var fin := [20, 0, 0, 32] + c.finished(keys.client, Flat(all));
    SealShort(c.suite, s.write.value, HANDSHAKE, fin, REKEY_AFTER + s.write.value.count);
    LogFinished(Seal(c.suite, s.write.value, HANDSHAKE, fin).records);
  }

  // ------------------------------------------------------------------
  // From the client's hello on
  // ------------------------------------------------------------------

  /** A message in a record in the clear. */
  function ClearRecord(m: Bytes): Bytes {
    [HANDSHAKE, 3, 3, ToOctet(|m| / 256 % 256), ToOctet(|m| % 256)] + m
  }

  /** The session after the server's hello m. */
  function AfterHello(c: Config, hello: Bytes, m: Bytes): State
    requires WellFormed(m, SERVER_HELLO) && c.hello(m[4..]).Accept?
  {
    var keys := c.handshakeSecrets(c.hello(m[4..]).value, Flat([hello, m]));
    Start(hello).(phase := AwaitExtensions, transcript := [hello, m], secrets := keys,
                  read := Some(Direction(keys.server, 0, 1)), write := Some(Direction(keys.client, 0, 1)))
  }

  lemma HelloTaken(c: Config, hello: Bytes, m: Bytes, rest: Bytes)
    requires WellFormed(m, SERVER_HELLO) && |m| <= MAX_PLAIN && c.hello(m[4..]).Accept?
    ensures var s := AfterHello(c, hello, m); var r := Receive(c, s, rest);
      && Greeted(c, s) && Receive(c, Start(hello), ClearRecord(m) + rest) == Receipt(r.step, |ClearRecord(m)| + r.used)
  {
    hide Flat, ToOctet, FromOctet, Int24, Receive;
    var s0, s, w := Start(hello), AfterHello(c, hello, m), ClearRecord(m) + rest;
    FromToOctet(|m| / 256 % 256);
    FromToOctet(|m| % 256);
    assert [hello] + [m] == [hello, m];
    assert [hello, m][..2] == [hello, m];
    assert w[HEADER..HEADER + |m|] == m && w[HEADER + |m|..] == rest;
    HelloMessage(c, hello, m);
    ReceiveOne(c, s0, w, |m|, Done(s));
    ThenLeft(s, Receive(c, s, rest).step);
  }

  lemma HelloMessage(c: Config, hello: Bytes, m: Bytes)
    requires WellFormed(m, SERVER_HELLO) && c.hello(m[4..]).Accept?
    ensures Content(c, Start(hello), HANDSHAKE, m) == Done(AfterHello(c, hello, m))
  {
    hide Flat, Int24, Message;
    var s0, s := Start(hello), AfterHello(c, hello, m);
    assert [hello] + [m] == [hello, m];
    HelloStep(c, hello, m);
    WholeTaken(c, s0, m, []);
    assert m + [] == m && [] + m == m;
    EmptyBuffer(c, Done(s));
    assert s0.(handshake := []) == s0;
  }

  lemma HelloStep(c: Config, hello: Bytes, m: Bytes)
    requires WellFormed(m, SERVER_HELLO) && c.hello(m[4..]).Accept?
    ensures Message(c, Start(hello), m, true) == Done(AfterHello(c, hello, m))
  {
    hide Flat, Int24;
    assert [hello] + [m] == [hello, m];
  }

  /** A whole handshake: the server's hello in the clear and its flight under its secret, from the client's hello to connected. */
  lemma HandshakeConnects(c: Config, hello: Bytes, m: Bytes, ms: seq<Bytes>, pieces: seq<Bytes>)
    requires ConfigValid(c) && SuiteValid(c.suite)
    requires WellFormed(m, SERVER_HELLO) && |m| <= MAX_PLAIN && c.hello(m[4..]).Accept? && FlightOk(c, [hello, m], ms)
    requires Join(pieces) == Join(ms) && forall p | p in pieces :: 0 < |p| <= MAX_PLAIN
    ensures var keys, all := c.handshakeSecrets(c.hello(m[4..]).value, Flat([hello, m])), [hello, m] + ms;
      var wire := ClearRecord(m) + Wire(c.suite, SealPieces(c.suite, Direction(keys.server, 0, 1), HANDSHAKE, pieces).records);
      var r := Receive(c, Start(hello), wire);
      && r.used == |wire| && r.step.error.None? && r.step.s.phase == Connected
      && r.step.s.read == Some(Direction(c.applicationSecrets(keys.pending, Flat(all)).server, 0, 2))
      && r.step.s.write.Some? && r.step.s.write.value.secret == c.applicationSecrets(keys.pending, Flat(all)).client
      && Log(r.step.items) == [Rec(Direction(keys.client, 0, 1), [20, 0, 0, 32] + c.finished(keys.client, Flat(all)), HANDSHAKE)]
  {
    hide Receive, Messages, SealPieces, Wire, Log, Flat, SuiteValid, Connecting, Stage, AcceptedUpTo, ClearRecord;
    var s := AfterHello(c, hello, m);
    var d := s.read.value;
    var wire := Wire(c.suite, SealPieces(c.suite, d, HANDSHAKE, pieces).records);
    HelloTaken(c, hello, m, wire);
    KindAt(c, s.transcript, ms, 0);
    JoinFrom(ms, 0);
    assert ms[0..] == ms;
    assert [] + Join(pieces) == Join(ms[0..]);
    StageNow(c, s, ms);
    PiecesConnect(c, s, ms, 0, d, [], pieces);
    ConnectingLog(c, s, ms);
    assert [hello, m][..2] == [hello, m];
  }
}

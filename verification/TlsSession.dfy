/**
 * The client half of TLS 1.3 without I/O (net/tls.rs): received bytes become
 * plaintext and replies, sent bytes become records. Parsing of hellos and
 * certificates, signatures and the key schedule are functions of a Config.
 */
module TlsSession {
  import opened Octets
  import opened Options
  import opened TlsRecord
  import Gcm

  const MAX_RECORD: nat := MAX_PLAIN + 256
  const MAX_HANDSHAKE: nat := 65536
  const CHANGE_CIPHER_SPEC: Octet := 20

  const SERVER_HELLO: Octet := 2
  const NEW_SESSION_TICKET: Octet := 4
  const ENCRYPTED_EXTENSIONS: Octet := 8
  const CERTIFICATE: Octet := 11
  const CERTIFICATE_VERIFY: Octet := 15
  const FINISHED: Octet := 20

  const CLOSE_NOTIFY: Octet := 0
  const UNEXPECTED_MESSAGE: Octet := 10
  const BAD_RECORD_MAC: Octet := 20
  const RECORD_OVERFLOW: Octet := 22
  const ILLEGAL_PARAMETER: Octet := 47
  const DECODE_ERROR: Octet := 50
  const DECRYPT_ERROR: Octet := 51

  datatype Error = Local(alert: Octet) | Peer(code: Octet)

  datatype Verdict<T> = Accept(value: T) | Reject(error: Error)

  datatype Secrets = Secrets(client: Bytes, server: Bytes, pending: Bytes)

  /** What the session asks of the rest of the client. Transcripts are the bytes of the messages so far. */
  datatype Config = Config(
    suite: Suite,
    hello: Bytes -> Verdict<Bytes>,
    handshakeSecrets: (Bytes, Bytes) -> Secrets,
    extensions: Bytes -> Option<Error>,
    chain: Bytes -> Verdict<Option<Bytes>>,
    verify: (Option<Bytes>, Bytes, Bytes) -> Option<Error>,
    finished: (Bytes, Bytes) -> Bytes,
    applicationSecrets: (Bytes, Bytes) -> Secrets)

  datatype Phase =
    | AwaitServerHello | AwaitExtensions | AwaitCertificate | AwaitVerify | AwaitFinished
    | Connected | Closed

  datatype State = State(
    phase: Phase,
    read: Option<Direction>,
    write: Option<Direction>,
    handshake: Bytes,
    transcript: seq<Bytes>,
    secrets: Secrets,
    peer: Option<Bytes>,
    changeCipherSpec: bool)

  /** Keys are in place from the server's hello on. */
  predicate Keyed(s: State) {
    && (s.read.Some? <==> s.write.Some?)
    && (s.phase == AwaitServerHello ==> s.read.None?)
    && (s.phase != AwaitServerHello && s.phase != Closed ==> s.read.Some?)
  }

  /** Output: a record in the clear, or a sealed one. */
  datatype Item = Clear(bytes: Bytes) | Protected(rec: Rec)

  function Protect(records: seq<Rec>): (items: seq<Item>)
    ensures |items| == |records|
    ensures forall i | 0 <= i < |items| :: items[i] == Protected(records[i])
  {
    seq(|records|, i requires 0 <= i < |records| => Protected(records[i]))
  }

  function Render(c: Suite, items: seq<Item>): Bytes {
    if items == [] then []
    else (match items[0] case Clear(b) => b case Protected(r) => Encode(c, r)) + Render(c, items[1..])
  }

  /** A transition: the new state, plaintext delivered, output, and the error that ends the session. */
  datatype Step = Step(s: State, plain: Bytes, items: seq<Item>, error: Option<Error>)

  function Done(s: State): Step { Step(s, [], [], None) }

  function Fail(s: State, alert: Octet): Step { Step(s, [], [], Some(Local(alert))) }

  function FailWith(s: State, e: Error): Step { Step(s, [], [], Some(e)) }

  function Flat(t: seq<Bytes>): Bytes {
    if t == [] then [] else Flat(t[..|t| - 1]) + t[|t| - 1]
  }

  // ------------------------------------------------------------------
  // Handshake messages
  // ------------------------------------------------------------------

  function ServerHello(c: Config, s: State, body: Bytes, whole: Bytes): Step {
    match c.hello(body)
    case Reject(e) => FailWith(s, e)
    case Accept(shared) =>
      var t := s.transcript + [whole];
      var secrets := c.handshakeSecrets(shared, Flat(t));
      Done(s.(transcript := t, secrets := secrets, phase := AwaitExtensions,
              read := Some(Direction(secrets.server, 0, 1)), write := Some(Direction(secrets.client, 0, 1))))
  }

  function EncryptedExtensions(c: Config, s: State, body: Bytes, whole: Bytes): Step {
    match c.extensions(body)
    case Some(e) => FailWith(s, e)
    case None => Done(s.(transcript := s.transcript + [whole], phase := AwaitCertificate))
  }

  function Certificate(c: Config, s: State, body: Bytes, whole: Bytes): Step {
    match c.chain(body)
    case Reject(e) => FailWith(s, e)
    case Accept(key) => Done(s.(transcript := s.transcript + [whole], peer := key, phase := AwaitVerify))
  }

  function CertificateVerify(c: Config, s: State, body: Bytes, whole: Bytes): Step {
    match c.verify(s.peer, Flat(s.transcript), body)
    case Some(e) => FailWith(s, e)
    case None => Done(s.(transcript := s.transcript + [whole], phase := AwaitFinished))
  }

  const CHANGE_CIPHER_SPEC_RECORD: Bytes := [20, 3, 3, 0, 1, 1]

  function Wiped(): Secrets { Secrets(Gcm.Zeros(32), Gcm.Zeros(32), Gcm.Zeros(32)) }

  function Finished(c: Config, s: State, body: Bytes, whole: Bytes): Step
    requires s.read.Some? && s.write.Some?
  {
    if body != c.finished(s.secrets.server, Flat(s.transcript)) then Fail(s, DECRYPT_ERROR)
    else
      var t := s.transcript + [whole];
      var app := c.applicationSecrets(s.secrets.pending, Flat(t));
      var fin := [FINISHED, 0, 0, 32] + c.finished(s.secrets.client, Flat(t));
      var z := Seal(c.suite, s.write.value, HANDSHAKE, fin);
      var next := s.(transcript := t, secrets := Wiped(), phase := Connected,
                     write := Some(Direction(app.client, 0, z.dir.generation + 1)),
                     read := Some(Direction(app.server, 0, s.read.value.generation + 1)));
      Step(next, [], [Clear(CHANGE_CIPHER_SPEC_RECORD)] + Protect(z.records), None)
  }

  function KeyUpdate(c: Config, s: State, body: Bytes): Step
    requires s.read.Some? && s.write.Some?
  {
    if body != [0] && body != [1] then Fail(s, ILLEGAL_PARAMETER)
    else
      var u := s.(read := Some(Updated(c.suite, s.read.value)));
      if body == [0] then Done(u)
      else
        var z := Seal(c.suite, s.write.value, HANDSHAKE, UPDATE_MESSAGE);
        Step(u.(write := Some(Updated(c.suite, z.dir))), [], Protect(z.records), None)
  }

  predicate Rekeys(phase: Phase, kind: Octet) {
    || (phase == AwaitFinished && kind == FINISHED)
    || (phase == AwaitServerHello && kind == SERVER_HELLO)
    || (phase == Connected && kind == KEY_UPDATE)
  }

  /** One whole message; a message that changes keys must be the last of its record. */
  function Message(c: Config, s: State, whole: Bytes, last: bool): Step
    requires Keyed(s) && |whole| >= 4
  {
    var kind, body := whole[0], whole[4..];
    if Rekeys(s.phase, kind) && !last then Fail(s, UNEXPECTED_MESSAGE)
    else if s.phase == AwaitServerHello && kind == SERVER_HELLO then ServerHello(c, s, body, whole)
    else if s.phase == AwaitExtensions && kind == ENCRYPTED_EXTENSIONS then EncryptedExtensions(c, s, body, whole)
    else if s.phase == AwaitCertificate && kind == CERTIFICATE then Certificate(c, s, body, whole)
    else if s.phase == AwaitVerify && kind == CERTIFICATE_VERIFY then CertificateVerify(c, s, body, whole)
    else if s.phase == AwaitFinished && kind == FINISHED then Finished(c, s, body, whole)
    else if s.phase == Connected && kind == NEW_SESSION_TICKET then Done(s)
    else if s.phase == Connected && kind == KEY_UPDATE then KeyUpdate(c, s, body)
    else Fail(s, UNEXPECTED_MESSAGE)
  }

  lemma MessageKeyed(c: Config, s: State, whole: Bytes, last: bool)
    requires Keyed(s) && |whole| >= 4
    ensures Keyed(Message(c, s, whole, last).s)
    ensures Message(c, s, whole, last).plain == []
    ensures s.phase != Closed ==> Message(c, s, whole, last).s.phase != Closed
  {
    hide Seal, Updated, Flat;
  }

  function Int24(b: Bytes): nat
    requires |b| == 3
  {
    65536 * FromOctet(b[0]) + 256 * FromOctet(b[1]) + FromOctet(b[2])
  }

  /** s after t: what t did comes first. */
  function Then(t: Step, u: Step): Step {
    Step(u.s, t.plain + u.plain, t.items + u.items, u.error)
  }

  function Keep(s: State, buffer: Bytes): Step {
    if |buffer| > MAX_HANDSHAKE then Fail(s, UNEXPECTED_MESSAGE) else Done(s.(handshake := buffer))
  }

  /** Every whole message of the buffer in turn; the tail is kept. */
  function Messages(c: Config, s: State, buffer: Bytes): Step
    requires Keyed(s)
    decreases |buffer|
  {
    if |buffer| < 4 then Keep(s, buffer)
    else
      var n := Int24(buffer[1..4]);
      if n > MAX_HANDSHAKE then Fail(s, UNEXPECTED_MESSAGE)
      else if |buffer| < 4 + n then Keep(s, buffer)
      else
        var m := Message(c, s, buffer[..4 + n], |buffer| == 4 + n);
        MessageKeyed(c, s, buffer[..4 + n], |buffer| == 4 + n);
        if m.error.Some? then m else Then(m, Messages(c, m.s, buffer[4 + n..]))
  }

  function Handshakes(c: Config, s: State, content: Bytes): Step
    requires Keyed(s)
  {
    Messages(c, s.(handshake := []), s.handshake + content)
  }

  // ------------------------------------------------------------------
  // Records
  // ------------------------------------------------------------------

  function PeerAlert(s: State, body: Bytes): Step {
    if |body| != 2 then Fail(s, DECODE_ERROR)
    else if body[1] == 0 then Done(s.(phase := Closed))
    else if body[1] == 90 then Done(s)
    else FailWith(s, Peer(body[1]))
  }

  function Content(c: Config, s: State, kind: Octet, content: Bytes): Step
    requires Keyed(s)
  {
    if kind == HANDSHAKE && content != [] then Handshakes(c, s, content)
    else if kind == ALERT then PeerAlert(s, content)
    else Fail(s, UNEXPECTED_MESSAGE)
  }

  /** The position of the last byte that is not zero. */
  function LastNonzero(p: Bytes): (r: Option<nat>)
    ensures r.Some? ==> r.value < |p| && p[r.value] != 0 && forall i | r.value < i < |p| :: p[i] == 0
    ensures r.None? ==> forall i | 0 <= i < |p| :: p[i] == 0
  {
    if p == [] then None
    else if p[|p| - 1] != 0 then Some(|p| - 1)
    else LastNonzero(p[..|p| - 1])
  }

  function ProtectedRecord(c: Config, s: State, header: Bytes, body: Bytes): Step
    requires Keyed(s) && s.read.Some? && |header| == HEADER
  {
    var d := s.read.value;
    var u := s.(read := Some(Bumped(d)));
    if header[0] != APPLICATION_DATA then Fail(u, UNEXPECTED_MESSAGE)
    else
      match c.suite.open(c.suite.keyOf(d.secret), Nonce(Iv(c.suite, d.secret), d.count), header, body)
      case None => Fail(u, BAD_RECORD_MAC)
      case Some(inner) =>
        var end := LastNonzero(inner);
        if end.None? || end.value > MAX_PLAIN then Fail(u, UNEXPECTED_MESSAGE)
        else if inner[end.value] == APPLICATION_DATA && s.phase == Connected then Step(u, inner[..end.value], [], None)
        else Content(c, u, inner[end.value], inner[..end.value])
  }

  function Record(c: Config, s: State, header: Bytes, body: Bytes): Step
    requires Keyed(s) && |header| == HEADER
  {
    if header[0] == CHANGE_CIPHER_SPEC then
      var u := s.(changeCipherSpec := true);
      if s.phase != Connected && body == [1] && !s.changeCipherSpec then Done(u) else Fail(u, UNEXPECTED_MESSAGE)
    else if s.read.Some? then ProtectedRecord(c, s, header, body)
    else Content(c, s, header[0], body)
  }

  lemma {:induction false} MessagesKeyed(c: Config, s: State, buffer: Bytes)
    requires Keyed(s)
    ensures Keyed(Messages(c, s, buffer).s) && Messages(c, s, buffer).plain == []
    ensures s.phase != Closed ==> Messages(c, s, buffer).s.phase != Closed
    decreases |buffer|
  {
    hide Message, Int24;
    if |buffer| >= 4 {
      var n := Int24(buffer[1..4]);
      if n <= MAX_HANDSHAKE && |buffer| >= 4 + n {
        MessageKeyed(c, s, buffer[..4 + n], |buffer| == 4 + n);
        var m := Message(c, s, buffer[..4 + n], |buffer| == 4 + n);
        if m.error.None? {
          MessagesKeyed(c, m.s, buffer[4 + n..]);
        }
      }
    }
  }

  /** Plaintext is delivered only once the session is connected. */
  lemma RecordKeyed(c: Config, s: State, header: Bytes, body: Bytes)
    requires Keyed(s) && |header| == HEADER
    ensures Keyed(Record(c, s, header, body).s)
    ensures Record(c, s, header, body).plain != [] ==> s.phase == Connected && header[0] == APPLICATION_DATA
  {
    hide Messages, Nonce, LastNonzero;
    if header[0] != CHANGE_CIPHER_SPEC {
      if s.read.Some? {
        var u := s.(read := Some(Bumped(s.read.value)));
        match c.suite.open(c.suite.keyOf(s.read.value.secret), Nonce(Iv(c.suite, s.read.value.secret), s.read.value.count), header, body)
        case None =>
        case Some(inner) =>
          var end := LastNonzero(inner);
          if end.Some? {
            MessagesKeyed(c, u.(handshake := []), u.handshake + inner[..end.value]);
          }
      } else {
        MessagesKeyed(c, s.(handshake := []), s.handshake + body);
      }
    }
  }

  // ------------------------------------------------------------------
  // Bytes from the wire
  // ------------------------------------------------------------------

  /** An alert, and the end of the session. */
  function Alerted(c: Config, s: State, alert: Octet): Step
    requires Keyed(s)
  {
    var body := [if alert == CLOSE_NOTIFY then 1 else 2, alert];
    if s.write.Some? then
      var z := Seal(c.suite, s.write.value, ALERT, body);
      Step(s.(write := Some(z.dir), phase := Closed), [], Protect(z.records), None)
    else Step(s.(phase := Closed), [], [Clear([ALERT, 3, 3, 0, 2] + body)], None)
  }

  /** The end of the session on an error of this side, or of the peer's. */
  function Aborted(c: Config, t: Step): (r: Step)
    requires Keyed(t.s) && t.error.Some?
    ensures r.error == t.error && r.s.phase == Closed && r.plain == t.plain
  {
    match t.error.value
    case Local(alert) => Then(t, Alerted(c, t.s, alert)).(error := t.error)
    case Peer(_) => t.(s := t.s.(phase := Closed))
  }

  function Length(wire: Bytes): nat
    requires |wire| >= HEADER
  {
    256 * FromOctet(wire[3]) + FromOctet(wire[4])
  }

  datatype Receipt = Receipt(step: Step, used: nat)

  /** The whole records at the start of wire, in turn. */
  function Receive(c: Config, s: State, wire: Bytes): (r: Receipt)
    requires Keyed(s)
    ensures r.used <= |wire|
    decreases |wire|
  {
    if s.phase == Closed || |wire| < HEADER then Receipt(Done(s), 0)
    else
      var n := Length(wire);
      var limit := if s.read.Some? then MAX_RECORD else MAX_PLAIN;
      if wire[1] != 3 then Receipt(Aborted(c, Fail(s, DECODE_ERROR)), 0)
      else if n > limit then Receipt(Aborted(c, Fail(s, RECORD_OVERFLOW)), 0)
      else if |wire| < HEADER + n then Receipt(Done(s), 0)
      else
        var t := Record(c, s, wire[..HEADER], wire[HEADER..HEADER + n]);
        RecordKeyed(c, s, wire[..HEADER], wire[HEADER..HEADER + n]);
        if t.error.Some? then Receipt(Aborted(c, t), 0)
        else
          var r := Receive(c, t.s, wire[HEADER + n..]);
          Receipt(Then(t, r.step), HEADER + n + r.used)
  }
}

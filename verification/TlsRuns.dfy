/**
 * Invariants of every run of a TLS session: the order and authentication of
 * the handshake, and the keys and numbers of everything it seals.
 */
module TlsRuns {
  import opened Octets
  import opened Options
  import opened TlsRecord
  import opened TlsSession
  import opened TlsTheorems

  // ------------------------------------------------------------------
  // What has been sealed
  // ------------------------------------------------------------------

  function Log(items: seq<Item>): seq<Rec> {
    if items == [] then []
    else (match items[0] case Clear(_) => [] case Protected(r) => [r]) + Log(items[1..])
  }

  lemma {:induction false} LogJoin(a: seq<Item>, b: seq<Item>)
    ensures Log(a + b) == Log(a) + Log(b)
    decreases |a|
  {
    if a == [] {
      assert a + b == b;
    } else {
      assert (a + b)[1..] == a[1..] + b;
      LogJoin(a[1..], b);
    }
  }

  lemma {:induction false} LogProtect(records: seq<Rec>)
    ensures Log(Protect(records)) == records
    decreases |records|
  {
    if records != [] {
      assert Protect(records)[1..] == Protect(records[1..]);
      LogProtect(records[1..]);
    }
  }

  /** The write keys, and a place before the first. */
  function Writing(s: State): Direction {
    if s.write.Some? then s.write.value else Direction([], 0, 0)
  }

  /** No key has sealed more than b records, and one more when an alert has closed the session. */
  predicate Slow(s: State, b: nat) {
    REKEY_AFTER <= b && Writing(s).count <= b + (if s.phase == Closed then 1 else 0)
  }

  /** A step seals its records in order, under keys that are neither spent nor reused. */
  predicate Advances(s: State, t: Step, b: nat) {
    Keyed(t.s) && Slow(t.s, b) && Ordered(Log(t.items), Writing(s), Writing(t.s)) && Paced(Log(t.items), b)
  }

  lemma AdvancesStill(s: State, t: Step, b: nat)
    requires Keyed(t.s) && Slow(t.s, b) && t.items == [] && Writing(t.s) == Writing(s)
    ensures Advances(s, t, b)
  {}

  lemma AdvancesThen(s: State, t: Step, u: Step, b: nat)
    requires Advances(s, t, b) && Advances(t.s, u, b)
    ensures Advances(s, Then(t, u), b)
  {
    hide Ordered;
    LogJoin(t.items, u.items);
    OrderedJoin(Log(t.items), Log(u.items), Writing(s), Writing(t.s), Writing(u.s));
  }

  /** Short content of another type is one record under the current key. */
  lemma SealShort(c: Suite, d: Direction, kind: Octet, data: Bytes, b: nat)
    requires |data| <= MAX_PLAIN && kind != APPLICATION_DATA && kind != 0 && d.count <= b && REKEY_AFTER <= b
    ensures var z := Seal(c, d, kind, data);
      z.dir == Bumped(d) && z.records == [Rec(d, data, kind)] && Ordered(z.records, d, z.dir) && Paced(z.records, b)
  {
    assert Pieces(data) == [data];
    assert SealPieces(c, Bumped(d), kind, [data][1..]) == Sealing([], Bumped(d));
    PieceOrdered(c, d, kind, data, b);
  }

  lemma OrderedOn(records: seq<Rec>, d: Direction, e: Direction, f: Direction)
    requires Ordered(records, d, e) && Before(e, f)
    ensures Ordered(records, d, f)
  {
    NothingLater(e, f);
    OrderedJoin(records, [], d, e, f);
    assert records + [] == records;
  }

  lemma NothingLater(e: Direction, f: Direction)
    requires Before(e, f)
    ensures Ordered([], e, f)
  {}

  // ------------------------------------------------------------------
  // The handshake so far
  // ------------------------------------------------------------------

  predicate Is(m: Bytes, kind: Octet) { |m| >= 4 && m[0] == kind }

  function Body(m: Bytes): Bytes { if |m| >= 4 then m[4..] else [] }

  /** Section 4.1.3: a hello whose key share was accepted, first after the client's. */
  predicate HelloAccepted(c: Config, t: seq<Bytes>) {
    |t| >= 2 && Is(t[1], SERVER_HELLO) && c.hello(Body(t[1])).Accept?
  }

  function HandshakeKeys(c: Config, t: seq<Bytes>): Secrets
    requires HelloAccepted(c, t)
  {
    c.handshakeSecrets(c.hello(Body(t[1])).value, Flat(t[..2]))
  }

  predicate ExtensionsAccepted(c: Config, t: seq<Bytes>) {
    |t| >= 3 && Is(t[2], ENCRYPTED_EXTENSIONS) && c.extensions(Body(t[2])).None?
  }

  predicate ChainAccepted(c: Config, t: seq<Bytes>) {
    |t| >= 4 && Is(t[3], CERTIFICATE) && c.chain(Body(t[3])).Accept?
  }

  /** Section 4.4.3: a signature by the chain's key over exactly the messages before it. */
  predicate SignatureAccepted(c: Config, t: seq<Bytes>)
    requires ChainAccepted(c, t)
  {
    |t| >= 5 && Is(t[4], CERTIFICATE_VERIFY) && c.verify(c.chain(Body(t[3])).value, Flat(t[..4]), Body(t[4])).None?
  }

  /** Section 4.4.4: the server's MAC over exactly the messages before it. */
  predicate FinishedAccepted(c: Config, t: seq<Bytes>)
    requires HelloAccepted(c, t)
  {
    |t| >= 6 && Is(t[5], FINISHED) && Body(t[5]) == c.finished(HandshakeKeys(c, t).server, Flat(t[..5]))
  }

  function ApplicationKeys(c: Config, t: seq<Bytes>): Secrets
    requires HelloAccepted(c, t) && |t| >= 6
  {
    c.applicationSecrets(HandshakeKeys(c, t).pending, Flat(t[..6]))
  }

  function Updates(c: Suite, secret: Bytes, n: nat): Bytes {
    if n == 0 then secret else c.next(Updates(c, secret, n - 1))
  }

  /** d holds the keys that some number of updates derive from secret. */
  ghost predicate Descends(c: Suite, secret: Bytes, d: Direction) {
    exists n: nat :: d.secret == Updates(c, secret, n)
  }

  function Reached(p: Phase): nat {
    match p
    case AwaitServerHello => 1
    case AwaitExtensions => 2
    case AwaitCertificate => 3
    case AwaitVerify => 4
    case AwaitFinished => 5
    case Connected => 6
    case Closed => 0
  }

  /** The first n messages were each accepted in their turn. */
  predicate AcceptedUpTo(c: Config, hello: Bytes, t: seq<Bytes>, n: nat) {
    && |t| == n && n > 0 && t[0] == hello
    && (n >= 2 ==> HelloAccepted(c, t))
    && (n >= 3 ==> ExtensionsAccepted(c, t))
    && (n >= 4 ==> ChainAccepted(c, t))
    && (n >= 5 ==> SignatureAccepted(c, t))
    && (n >= 6 ==> FinishedAccepted(c, t))
  }

  /** Section 7.3: the server's handshake keys to read, the client's, or what updates made of them, to write. */
  predicate HandshakeKeyed(c: Config, s: State)
    requires Keyed(s) && 2 <= Reached(s.phase) && HelloAccepted(c, s.transcript)
  {
    var keys, r, w := HandshakeKeys(c, s.transcript), s.read.value, s.write.value;
    && r.generation == 1 && r.secret == keys.server
    && w.generation >= 1 && w.secret == Updates(c.suite, keys.client, w.generation - 1)
  }

  /** What holds in each phase. */
  ghost predicate Invariant(c: Config, hello: Bytes, s: State, b: nat) {
    && Keyed(s) && Slow(s, b)
    && (s.phase != Closed ==> AcceptedUpTo(c, hello, s.transcript, Reached(s.phase)))
    && (2 <= Reached(s.phase) < 6 ==> s.secrets == HandshakeKeys(c, s.transcript) && HandshakeKeyed(c, s))
    && (4 <= Reached(s.phase) < 6 ==> s.peer == c.chain(Body(s.transcript[3])).value)
    && (s.phase == Connected ==>
          && Descends(c.suite, ApplicationKeys(c, s.transcript).client, s.write.value)
          && Descends(c.suite, ApplicationKeys(c, s.transcript).server, s.read.value))
  }

  ghost predicate ConfigValid(c: Config) {
    forall k, t :: |c.finished(k, t)| == 32
  }

  /** Appending a message keeps what was accepted before it. */
  lemma AcceptedMore(c: Config, hello: Bytes, t: seq<Bytes>, n: nat, m: Bytes)
    requires AcceptedUpTo(c, hello, t, n)
    requires var u := t + [m];
      && (n == 1 ==> Is(m, SERVER_HELLO) && c.hello(Body(m)).Accept?)
      && (n == 2 ==> Is(m, ENCRYPTED_EXTENSIONS) && c.extensions(Body(m)).None?)
      && (n == 3 ==> Is(m, CERTIFICATE) && c.chain(Body(m)).Accept?)
      && (n == 4 ==> Is(m, CERTIFICATE_VERIFY) && c.verify(c.chain(Body(t[3])).value, Flat(t), Body(m)).None?)
      && (n == 5 ==> Is(m, FINISHED) && Body(m) == c.finished(HandshakeKeys(c, t).server, Flat(t)))
    ensures AcceptedUpTo(c, hello, t + [m], n + 1)
    ensures n >= 2 ==> HandshakeKeys(c, t + [m]) == HandshakeKeys(c, t)
  {
    hide Body, Flat;
    var u := t + [m];
    assert u[..n] == t;
    if n >= 2 {
      assert u[..2] == t[..2];
    }
    if n >= 5 {
      assert u[..4] == t[..4];
    }
    if n >= 6 {
      assert u[..5] == t[..5];
    }
  }

  // ------------------------------------------------------------------
  // What the handshake says
  // ------------------------------------------------------------------

  /** A handshake message other than a KeyUpdate. */
  predicate Greets(r: Rec) { r.kind == HANDSHAKE && r.content != UPDATE_MESSAGE }

  function Greetings(log: seq<Rec>): seq<Rec> {
    if log == [] then [] else (if Greets(log[0]) then [log[0]] else []) + Greetings(log[1..])
  }

  lemma {:induction false} GreetingsJoin(a: seq<Rec>, b: seq<Rec>)
    ensures Greetings(a + b) == Greetings(a) + Greetings(b)
    decreases |a|
  {
    hide Greets;
    if a == [] {
      assert a + b == b;
    } else {
      var first := if Greets(a[0]) then [a[0]] else [];
      assert (a + b)[0] == a[0] && (a + b)[1..] == a[1..] + b;
      GreetingsJoin(a[1..], b);
      assert first + (Greetings(a[1..]) + Greetings(b)) == (first + Greetings(a[1..])) + Greetings(b);
    }
  }

  lemma {:induction false} NoGreetings(log: seq<Rec>)
    requires forall r | r in log :: !Greets(r)
    ensures Greetings(log) == []
    decreases |log|
  {
    if log != [] {
      assert log[0] in log;
      NoGreetings(log[1..]);
    }
  }

  lemma GreetingOne(r: Rec)
    ensures Greetings([r]) == if Greets(r) then [r] else []
  {
    assert [r][1..] == [];
    assert Greetings([r]) == (if Greets(r) then [r] else []) + Greetings([]);
  }

  predicate NoData(log: seq<Rec>) { forall r | r in log :: r.kind != APPLICATION_DATA }

  /** During the handshake the write keys are still the first. */
  predicate Steady(s: State) {
    2 <= Reached(s.phase) < 6 && s.write.Some? ==> s.write.value.generation == 1
  }

  /** Section 4.4.4: the client's MAC over every message up to the server's Finished, and only under its own handshake keys. */
  predicate FinishedSent(c: Config, t: seq<Bytes>, log: seq<Rec>) {
    && HelloAccepted(c, t) && |Greetings(log)| == 1
    && var keys, r := HandshakeKeys(c, t), Greetings(log)[0];
       && r.kind == HANDSHAKE && r.content == [20, 0, 0, 32] + c.finished(keys.client, Flat(t))
       && r.dir.generation >= 1 && r.dir.secret == Updates(c.suite, keys.client, r.dir.generation - 1)
  }

  /** From s to t the one handshake message sent, if any, is the client's Finished, on becoming connected. */
  predicate Talks(c: Config, s: State, t: Step) {
    var log := Log(t.items);
    && (s.phase == Closed ==> t.s.phase == Closed)
    && (Steady(s) && NoData(log) ==> Steady(t.s))
    && (t.s.phase != Closed ==>
          if s.phase == Connected then t.s.phase == Connected && t.s.transcript == s.transcript && Greetings(log) == []
          else if t.s.phase == Connected then
            FinishedSent(c, t.s.transcript, log) && (Steady(s) && NoData(log) ==> Greetings(log)[0].dir.generation == 1)
          else Greetings(log) == [])
  }

  /** Phases go on, and a connected session's messages are over. */
  predicate Moves(s: State, u: State) {
    && (s.phase == Closed ==> u.phase == Closed)
    && (u.phase != Closed ==> if s.phase == Connected then u.phase == Connected && u.transcript == s.transcript else u.phase != Connected)
  }

  lemma TalksStill(c: Config, s: State, t: Step)
    requires t.items == [] && Moves(s, t.s) && (Steady(s) ==> Steady(t.s))
    ensures Talks(c, s, t)
  {}

  lemma TalksThen(c: Config, s: State, t: Step, u: Step)
    requires Talks(c, s, t) && Talks(c, t.s, u)
    ensures Talks(c, s, Then(t, u))
  {
    hide FinishedSent, Steady, Log, Greetings;
    var a, b := Log(t.items), Log(u.items);
    LogJoin(t.items, u.items);
    GreetingsJoin(a, b);
    if NoData(a + b) {
      forall r | r in a || r in b ensures r.kind != APPLICATION_DATA { assert r in a + b; }
    }
    if u.s.phase == Connected && s.phase != Connected && s.phase != Closed {
      if t.s.phase == Connected {
        SentSame(c, u.s.transcript, a, a + b);
      } else {
        SentSame(c, u.s.transcript, b, a + b);
      }
    }
  }

  lemma SentSame(c: Config, t: seq<Bytes>, a: seq<Rec>, b: seq<Rec>)
    requires FinishedSent(c, t, a) && Greetings(b) == Greetings(a)
    ensures FinishedSent(c, t, b) && |Greetings(b)| == 1
  {}

  lemma SameTalks(c: Config, s: State, u: State, t: Step)
    requires u.phase == s.phase && u.transcript == s.transcript && u.write == s.write && Talks(c, u, t)
    ensures Talks(c, s, t)
  {}

  // ------------------------------------------------------------------
  // Every step keeps the invariant
  // ------------------------------------------------------------------

  ghost predicate Keeps(c: Config, hello: Bytes, s: State, t: Step, b: nat) {
    Advances(s, t, b) && (t.error.None? ==> Invariant(c, hello, t.s, b) && Talks(c, s, t))
  }

  lemma KeepsThen(c: Config, hello: Bytes, s: State, t: Step, u: Step, b: nat)
    requires Keeps(c, hello, s, t, b) && Keeps(c, hello, t.s, u, b) && t.error.None?
    ensures Keeps(c, hello, s, Then(t, u), b)
  {
    hide Advances, Invariant, Talks;
    AdvancesThen(s, t, u, b);
    if u.error.None? {
      TalksThen(c, s, t, u);
    }
  }

  lemma FailKeeps(c: Config, hello: Bytes, s: State, e: Error, b: nat)
    requires Invariant(c, hello, s, b)
    ensures Keeps(c, hello, s, FailWith(s, e), b)
  {
    AdvancesStill(s, FailWith(s, e), b);
  }

  lemma DoneKeeps(c: Config, hello: Bytes, s: State, u: State, b: nat)
    requires Invariant(c, hello, s, b) && Invariant(c, hello, u, b) && u.write == s.write && Moves(s, u)
    ensures Keeps(c, hello, s, Done(u), b)
  {
    AdvancesStill(s, Done(u), b);
    TalksStill(c, s, Done(u));
  }

  lemma HelloKeeps(c: Config, hello: Bytes, s: State, whole: Bytes, b: nat)
    requires Invariant(c, hello, s, b) && s.phase == AwaitServerHello && Is(whole, SERVER_HELLO)
    ensures Keeps(c, hello, s, ServerHello(c, s, whole[4..], whole), b)
  {
    hide Flat, Ordered;
    var t := ServerHello(c, s, whole[4..], whole);
    if t.error.Some? {
      FailKeeps(c, hello, s, t.error.value, b);
    } else {
      AcceptedMore(c, hello, s.transcript, 1, whole);
      assert t.s.transcript[..2] == t.s.transcript;
      NothingLater(Writing(s), Writing(t.s));
      TalksStill(c, s, t);
    }
  }

  lemma ExtensionsKeep(c: Config, hello: Bytes, s: State, whole: Bytes, b: nat)
    requires Invariant(c, hello, s, b) && s.phase == AwaitExtensions && Is(whole, ENCRYPTED_EXTENSIONS)
    ensures Keeps(c, hello, s, EncryptedExtensions(c, s, whole[4..], whole), b)
  {
    hide Flat, Ordered, HandshakeKeys, Keeps;
    var t := EncryptedExtensions(c, s, whole[4..], whole);
    if t.error.Some? {
      FailKeeps(c, hello, s, t.error.value, b);
    } else {
      AcceptedMore(c, hello, s.transcript, 2, whole);
      DoneKeeps(c, hello, s, t.s, b);
    }
  }

  lemma CertificateKeeps(c: Config, hello: Bytes, s: State, whole: Bytes, b: nat)
    requires Invariant(c, hello, s, b) && s.phase == AwaitCertificate && Is(whole, CERTIFICATE)
    ensures Keeps(c, hello, s, Certificate(c, s, whole[4..], whole), b)
  {
    hide Flat, Ordered, HandshakeKeys, Keeps;
    var t := Certificate(c, s, whole[4..], whole);
    if t.error.Some? {
      FailKeeps(c, hello, s, t.error.value, b);
    } else {
      AcceptedMore(c, hello, s.transcript, 3, whole);
      DoneKeeps(c, hello, s, t.s, b);
    }
  }

  lemma VerifyKeeps(c: Config, hello: Bytes, s: State, whole: Bytes, b: nat)
    requires Invariant(c, hello, s, b) && s.phase == AwaitVerify && Is(whole, CERTIFICATE_VERIFY)
    ensures Keeps(c, hello, s, CertificateVerify(c, s, whole[4..], whole), b)
  {
    hide Flat, Ordered, HandshakeKeys, Keeps;
    var t := CertificateVerify(c, s, whole[4..], whole);
    if t.error.Some? {
      FailKeeps(c, hello, s, t.error.value, b);
    } else {
      AcceptedMore(c, hello, s.transcript, 4, whole);
      DoneKeeps(c, hello, s, t.s, b);
    }
  }

  lemma LogFinished(records: seq<Rec>)
    ensures Log([Clear(CHANGE_CIPHER_SPEC_RECORD)] + Protect(records)) == records
  {
    var first := [Clear(CHANGE_CIPHER_SPEC_RECORD)];
    LogJoin(first, Protect(records));
    LogProtect(records);
    assert first[1..] == [];
    assert Log(first) == Log(first[1..]);
  }

  lemma FreshDescends(c: Suite, d: Direction)
    ensures Descends(c, d.secret, d)
  {
    assert d.secret == Updates(c, d.secret, 0);
  }

  /** The client's Finished goes out under the keys that wrote the handshake, over the messages up to the server's. */
  lemma FinishedTalks(c: Config, s: State, t: Step, whole: Bytes, fin: Bytes)
    requires Keyed(s) && s.phase == AwaitFinished && HelloAccepted(c, t.s.transcript) && HandshakeKeys(c, t.s.transcript) == s.secrets
    requires s.write.value.generation >= 1 && s.write.value.secret == Updates(c.suite, s.secrets.client, s.write.value.generation - 1)
    requires t.s.phase == Connected && t.s.transcript == s.transcript + [whole] && Log(t.items) == [Rec(s.write.value, fin, HANDSHAKE)]
    requires fin == [FINISHED, 0, 0, 32] + c.finished(s.secrets.client, Flat(s.transcript + [whole]))
    ensures Talks(c, s, t)
  {
    hide Log, Flat;
    assert fin[0] != UPDATE_MESSAGE[0];
    GreetingOne(Rec(s.write.value, fin, HANDSHAKE));
  }

  lemma FinishedKeeps(c: Config, hello: Bytes, s: State, whole: Bytes, b: nat)
    requires ConfigValid(c) && Invariant(c, hello, s, b) && s.phase == AwaitFinished && Is(whole, FINISHED)
    ensures Keeps(c, hello, s, Finished(c, s, whole[4..], whole), b)
  {
    hide Flat, Ordered, HandshakeKeys, Seal, Log;
    var t := Finished(c, s, whole[4..], whole);
    if t.error.Some? {
      hide Keeps;
      FailKeeps(c, hello, s, t.error.value, b);
    } else {
      AcceptedMore(c, hello, s.transcript, 5, whole);
      assert t.s.transcript[..6] == t.s.transcript;
      FreshDescends(c.suite, t.s.write.value);
      FreshDescends(c.suite, t.s.read.value);
      var fin := [FINISHED, 0, 0, 32] + c.finished(s.secrets.client, Flat(s.transcript + [whole]));
      SealShort(c.suite, s.write.value, HANDSHAKE, fin, b);
      var z := Seal(c.suite, s.write.value, HANDSHAKE, fin);
      LogFinished(z.records);
      OrderedOn(z.records, s.write.value, z.dir, t.s.write.value);
      FinishedTalks(c, s, t, whole, fin);
    }
  }

  lemma UpdateDescends(c: Suite, secret: Bytes, d: Direction)
    requires Descends(c, secret, d)
    ensures Descends(c, secret, Updated(c, d))
  {
    var n: nat :| d.secret == Updates(c, secret, n);
    assert Updated(c, d).secret == Updates(c, secret, n + 1);
  }

  lemma UpdateKeeps(c: Config, hello: Bytes, s: State, body: Bytes, b: nat)
    requires Invariant(c, hello, s, b) && s.phase == Connected
    ensures Keeps(c, hello, s, KeyUpdate(c, s, body), b)
  {
    hide Flat, Ordered, HandshakeKeys, Seal, Log, Descends;
    var t := KeyUpdate(c, s, body);
    if t.error.Some? {
      hide Keeps;
      FailKeeps(c, hello, s, t.error.value, b);
    } else {
      UpdateDescends(c.suite, ApplicationKeys(c, s.transcript).server, s.read.value);
      if body == [0] {
        DoneKeeps(c, hello, s, t.s, b);
      } else {
        SealShort(c.suite, s.write.value, HANDSHAKE, UPDATE_MESSAGE, b);
        var z := Seal(c.suite, s.write.value, HANDSHAKE, UPDATE_MESSAGE);
        LogProtect(z.records);
        OrderedOn(z.records, s.write.value, z.dir, t.s.write.value);
        BumpDescends(c.suite, ApplicationKeys(c, s.transcript).client, s.write.value);
        UpdateDescends(c.suite, ApplicationKeys(c, s.transcript).client, z.dir);
        GreetingOne(Rec(s.write.value, UPDATE_MESSAGE, HANDSHAKE));
      }
    }
  }

  lemma BumpDescends(c: Suite, secret: Bytes, d: Direction)
    requires Descends(c, secret, d)
    ensures Descends(c, secret, Bumped(d))
  {}

  lemma MessageKeeps(c: Config, hello: Bytes, s: State, whole: Bytes, last: bool, b: nat)
    requires ConfigValid(c) && Invariant(c, hello, s, b) && |whole| >= 4
    ensures Keeps(c, hello, s, Message(c, s, whole, last), b)
  {
    hide Keeps, Invariant, ServerHello, EncryptedExtensions, Certificate, CertificateVerify, Finished, KeyUpdate;
    assert Keyed(s) by { KeptKeyed(c, hello, s, b); }
    var t := Message(c, s, whole, last);
    if Rekeys(s.phase, whole[0]) && !last {
      FailKeeps(c, hello, s, Local(UNEXPECTED_MESSAGE), b);
    } else if s.phase == AwaitServerHello && whole[0] == SERVER_HELLO {
      HelloKeeps(c, hello, s, whole, b);
    } else if s.phase == AwaitExtensions && whole[0] == ENCRYPTED_EXTENSIONS {
      ExtensionsKeep(c, hello, s, whole, b);
    } else if s.phase == AwaitCertificate && whole[0] == CERTIFICATE {
      CertificateKeeps(c, hello, s, whole, b);
    } else if s.phase == AwaitVerify && whole[0] == CERTIFICATE_VERIFY {
      VerifyKeeps(c, hello, s, whole, b);
    } else if s.phase == AwaitFinished && whole[0] == FINISHED {
      FinishedKeeps(c, hello, s, whole, b);
    } else if s.phase == Connected && whole[0] == NEW_SESSION_TICKET {
      DoneKeeps(c, hello, s, s, b);
    } else if s.phase == Connected && whole[0] == KEY_UPDATE {
      UpdateKeeps(c, hello, s, whole[4..], b);
    } else {
      FailKeeps(c, hello, s, Local(UNEXPECTED_MESSAGE), b);
    }
  }

  lemma KeptKeyed(c: Config, hello: Bytes, s: State, b: nat)
    requires Invariant(c, hello, s, b)
    ensures Keyed(s)
  {}

  lemma BufferKeeps(c: Config, hello: Bytes, s: State, buffer: Bytes, b: nat)
    requires Invariant(c, hello, s, b)
    ensures Invariant(c, hello, s.(handshake := buffer), b)
  {}

  lemma {:induction false} MessagesKeep(c: Config, hello: Bytes, s: State, buffer: Bytes, b: nat)
    requires ConfigValid(c) && Keyed(s) && Invariant(c, hello, s, b)
    ensures Keeps(c, hello, s, Messages(c, s, buffer), b)
    decreases |buffer|
  {
    hide Keeps, Invariant, Message, Int24, ConfigValid;
    FailKeeps(c, hello, s, Local(UNEXPECTED_MESSAGE), b);
    BufferKeeps(c, hello, s, buffer, b);
    DoneKeeps(c, hello, s, s.(handshake := buffer), b);
    if |buffer| >= 4 {
      var n := Int24(buffer[1..4]);
      if n <= MAX_HANDSHAKE && |buffer| >= 4 + n {
        MessageKeeps(c, hello, s, buffer[..4 + n], |buffer| == 4 + n, b);
        MessageKeyed(c, s, buffer[..4 + n], |buffer| == 4 + n);
        var m := Message(c, s, buffer[..4 + n], |buffer| == 4 + n);
        if m.error.None? {
          KeptInvariant(c, hello, s, m, b);
          MessagesKeep(c, hello, m.s, buffer[4 + n..], b);
          KeepsThen(c, hello, s, m, Messages(c, m.s, buffer[4 + n..]), b);
        }
      }
    }
  }

  lemma KeptInvariant(c: Config, hello: Bytes, s: State, t: Step, b: nat)
    requires Keeps(c, hello, s, t, b) && t.error.None?
    ensures Invariant(c, hello, t.s, b)
  {}

  lemma ReadKeeps(c: Config, hello: Bytes, s: State, b: nat)
    requires Invariant(c, hello, s, b) && s.read.Some?
    ensures Invariant(c, hello, s.(read := Some(Bumped(s.read.value))), b)
  {
    hide HandshakeKeys, AcceptedUpTo;
    var t := s.transcript;
    if s.phase == Connected {
      assert HelloAccepted(c, t) && |t| >= 6 by { AcceptedHello(c, hello, t); }
      BumpDescends(c.suite, ApplicationKeys(c, t).server, s.read.value);
    }
  }

  lemma AcceptedHello(c: Config, hello: Bytes, t: seq<Bytes>)
    requires AcceptedUpTo(c, hello, t, 6)
    ensures HelloAccepted(c, t) && |t| == 6
  {}

  lemma AlertKeeps(c: Config, hello: Bytes, s: State, body: Bytes, b: nat)
    requires Invariant(c, hello, s, b)
    ensures Keeps(c, hello, s, PeerAlert(s, body), b)
  {
    hide Keeps, Invariant;
    FailKeeps(c, hello, s, Local(DECODE_ERROR), b);
    ClosedInvariant(c, hello, s, b);
    DoneKeeps(c, hello, s, s, b);
    DoneKeeps(c, hello, s, s.(phase := Closed), b);
    if |body| == 2 {
      FailKeeps(c, hello, s, Peer(body[1]), b);
    }
  }

  lemma ClosedInvariant(c: Config, hello: Bytes, s: State, b: nat)
    requires Invariant(c, hello, s, b)
    ensures Invariant(c, hello, s.(phase := Closed), b)
  {}

  lemma ContentKeeps(c: Config, hello: Bytes, s: State, kind: Octet, content: Bytes, b: nat)
    requires ConfigValid(c) && Keyed(s) && Invariant(c, hello, s, b)
    ensures Keeps(c, hello, s, Content(c, s, kind, content), b)
  {
    hide Invariant, Messages, ConfigValid, PeerAlert, Keeps;
    if kind == HANDSHAKE && content != [] {
      BufferKeeps(c, hello, s, [], b);
      MessagesKeep(c, hello, s.(handshake := []), s.handshake + content, b);
      SameKeeps(c, hello, s, s.(handshake := []), Content(c, s, kind, content), b);
    } else if kind == ALERT {
      AlertKeeps(c, hello, s, content, b);
    } else {
      FailKeeps(c, hello, s, Local(UNEXPECTED_MESSAGE), b);
    }
  }

  lemma SameKeeps(c: Config, hello: Bytes, s: State, u: State, t: Step, b: nat)
    requires u.phase == s.phase && u.transcript == s.transcript && u.write == s.write && Keeps(c, hello, u, t, b)
    ensures Keeps(c, hello, s, t, b)
  {
    hide Invariant, Talks;
    SameWriting(s, u, t, b);
    if t.error.None? {
      SameTalks(c, s, u, t);
    }
  }

  lemma SameWriting(s: State, u: State, t: Step, b: nat)
    requires u.write == s.write && Advances(u, t, b)
    ensures Advances(s, t, b)
  {}

  lemma RecordKeeps(c: Config, hello: Bytes, s: State, header: Bytes, body: Bytes, b: nat)
    requires ConfigValid(c) && Keyed(s) && Invariant(c, hello, s, b) && |header| == HEADER
    ensures Keeps(c, hello, s, Record(c, s, header, body), b)
  {
    hide Invariant, ConfigValid, Content, Keeps, Nonce, LastNonzero;
    if header[0] == CHANGE_CIPHER_SPEC {
      var u := s.(changeCipherSpec := true);
      SpecKeeps(c, hello, s, b);
      DoneKeeps(c, hello, s, u, b);
      FailKeeps(c, hello, u, Local(UNEXPECTED_MESSAGE), b);
      SameKeeps(c, hello, s, u, Fail(u, UNEXPECTED_MESSAGE), b);
    } else if s.read.Some? {
      var d := s.read.value;
      var u := s.(read := Some(Bumped(d)));
      ReadKeeps(c, hello, s, b);
      FailKeeps(c, hello, u, Local(UNEXPECTED_MESSAGE), b);
      SameKeeps(c, hello, s, u, Fail(u, UNEXPECTED_MESSAGE), b);
      FailKeeps(c, hello, u, Local(BAD_RECORD_MAC), b);
      SameKeeps(c, hello, s, u, Fail(u, BAD_RECORD_MAC), b);
      match c.suite.open(c.suite.keyOf(d.secret), Nonce(Iv(c.suite, d.secret), d.count), header, body)
      case None =>
      case Some(inner) =>
        var end := LastNonzero(inner);
        if end.Some? && end.value <= MAX_PLAIN {
          ContentKeeps(c, hello, u, inner[end.value], inner[..end.value], b);
          SameKeeps(c, hello, s, u, Content(c, u, inner[end.value], inner[..end.value]), b);
          PlainKeeps(c, hello, s, u, inner[..end.value], b);
        }
    } else {
      ContentKeeps(c, hello, s, header[0], body, b);
    }
  }

  lemma SpecKeeps(c: Config, hello: Bytes, s: State, b: nat)
    requires Invariant(c, hello, s, b)
    ensures Invariant(c, hello, s.(changeCipherSpec := true), b)
  {}

  lemma PlainKeeps(c: Config, hello: Bytes, s: State, u: State, plain: Bytes, b: nat)
    requires Invariant(c, hello, s, b) && Invariant(c, hello, u, b) && u.write == s.write && Moves(s, u)
    ensures Keeps(c, hello, s, Step(u, plain, [], None), b)
  {
    AdvancesStill(s, Step(u, plain, [], None), b);
    TalksStill(c, s, Step(u, plain, [], None));
  }

  lemma AlertedAdvances(c: Config, s: State, alert: Octet, b: nat)
    requires Keyed(s) && Writing(s).count <= b && REKEY_AFTER <= b
    ensures Advances(s, Alerted(c, s, alert), b)
  {
    hide Ordered, Seal, Log;
    if s.write.Some? {
      var body := [if alert == CLOSE_NOTIFY then 1 else 2, alert];
      SealShort(c.suite, s.write.value, ALERT, body, b);
      LogProtect(Seal(c.suite, s.write.value, ALERT, body).records);
    } else {
      var t := Alerted(c, s, alert);
      assert t.items[1..] == [];
      LogClear(t.items);
      NothingOrdered(Writing(s));
    }
  }

  lemma LogClear(items: seq<Item>)
    requires |items| == 1 && items[0].Clear?
    ensures Log(items) == []
  {
    assert items[1..] == [];
    assert Log(items) == Log(items[1..]);
  }

  /** Ending on an error seals at most the alert, and closes. */
  lemma AbortedKeeps(c: Config, hello: Bytes, s: State, t: Step, b: nat)
    requires Advances(s, t, b) && t.error.Some? && t.s.phase != Closed
    ensures Advances(s, Aborted(c, t), b) && Invariant(c, hello, Aborted(c, t).s, b) && Talks(c, s, Aborted(c, t))
  {
    match t.error.value {
      case Local(alert) =>
        hide Ordered, Log, Alerted;
        AlertedAdvances(c, t.s, alert, b);
        AdvancesThen(s, t, Alerted(c, t.s, alert), b);
      case Peer(_) =>
    }
  }

  lemma RecordOpen(c: Config, s: State, header: Bytes, body: Bytes)
    requires Keyed(s) && |header| == HEADER && s.phase != Closed && Record(c, s, header, body).error.Some?
    ensures Record(c, s, header, body).s.phase != Closed
  {
    hide Messages, Nonce, LastNonzero;
    if header[0] != CHANGE_CIPHER_SPEC {
      if s.read.Some? {
        var u := s.(read := Some(Bumped(s.read.value)));
        match c.suite.open(c.suite.keyOf(s.read.value.secret), Nonce(Iv(c.suite, s.read.value.secret), s.read.value.count), header, body)
        case None =>
        case Some(inner) =>
          var end := LastNonzero(inner);
          if end.Some? {
            MessagesKeyed(c, u.(handshake := []), u.handshake + inner[..end.value]);
          }
      } else {
        MessagesKeyed(c, s.(handshake := []), s.handshake + body);
      }
    }
  }

  lemma AbortedFail(c: Config, hello: Bytes, s: State, alert: Octet, b: nat)
    requires Invariant(c, hello, s, b) && s.phase != Closed
    ensures Keyed(s)
    ensures var t := Aborted(c, Fail(s, alert)); Advances(s, t, b) && Invariant(c, hello, t.s, b) && Talks(c, s, t)
  {
    hide Advances, Aborted;
    FailKeeps(c, hello, s, Local(alert), b);
    AbortedKeeps(c, hello, s, Fail(s, alert), b);
  }

  lemma {:induction false} ReceiveKeeps(c: Config, hello: Bytes, s: State, wire: Bytes, b: nat)
    requires ConfigValid(c) && Keyed(s) && Invariant(c, hello, s, b)
    ensures var t := Receive(c, s, wire).step; Advances(s, t, b) && Invariant(c, hello, t.s, b) && Talks(c, s, t)
    decreases |wire|
  {
    hide Advances, Invariant, Talks, ConfigValid, Record, Aborted, Length;
    if s.phase == Closed || |wire| < HEADER {
      DoneKeeps(c, hello, s, s, b);
    } else {
      var n := Length(wire);
      AbortedFail(c, hello, s, DECODE_ERROR, b);
      AbortedFail(c, hello, s, RECORD_OVERFLOW, b);
      DoneKeeps(c, hello, s, s, b);
      if |wire| >= HEADER + n {
        var t := Record(c, s, wire[..HEADER], wire[HEADER..HEADER + n]);
        RecordKeyed(c, s, wire[..HEADER], wire[HEADER..HEADER + n]);
        RecordKeeps(c, hello, s, wire[..HEADER], wire[HEADER..HEADER + n], b);
        if t.error.Some? {
          RecordOpen(c, s, wire[..HEADER], wire[HEADER..HEADER + n]);
          AbortedKeeps(c, hello, s, t, b);
        } else {
          ReceiveKeeps(c, hello, t.s, wire[HEADER + n..], b);
          AdvancesThen(s, t, Receive(c, t.s, wire[HEADER + n..]).step, b);
          TalksThen(c, s, t, Receive(c, t.s, wire[HEADER + n..]).step);
        }
      }
    }
  }

  // ------------------------------------------------------------------
  // Runs
  // ------------------------------------------------------------------

  /** What a caller may do, at any time: hand over received bytes, send data once there are keys, send an alert. */
  datatype Op = Input(wire: Bytes) | Output(data: Bytes) | End(alert: Octet)

  function Act(c: Config, s: State, op: Op): Step
    requires Keyed(s)
  {
    match op
    case Input(wire) => Receive(c, s, wire).step
    case Output(data) =>
      if s.write.None? then Done(s)
      else var z := Seal(c.suite, s.write.value, APPLICATION_DATA, data); Step(s.(write := Some(z.dir)), [], Protect(z.records), None)
    case End(alert) => Alerted(c, s, alert)
  }

  lemma {:induction false} SealDescends(c: Suite, secret: Bytes, d: Direction, pieces: seq<Bytes>)
    requires Descends(c, secret, d)
    ensures Descends(c, secret, SealPieces(c, d, APPLICATION_DATA, pieces).dir)
    decreases |pieces|
  {
    hide Descends;
    if pieces != [] {
      UpdateDescends(c, secret, d);
      BumpDescends(c, secret, d);
      BumpDescends(c, secret, Updated(c, d));
      SealDescends(c, secret, SealPiece(c, d, APPLICATION_DATA, pieces[0]).dir, pieces[1..]);
    }
  }

  /** One more call: a key may have sealed one more. */
  lemma OneMore(c: Config, hello: Bytes, s: State, b: nat)
    requires Invariant(c, hello, s, b)
    ensures Invariant(c, hello, s, b + 1) && Writing(s).count <= b + 1 && REKEY_AFTER <= b + 1 && Keyed(s)
  {
    hide HandshakeKeys, Descends, AcceptedUpTo;
  }

  lemma OutputKeeps(c: Config, hello: Bytes, s: State, data: Bytes, b: nat)
    requires Invariant(c, hello, s, b) && s.write.Some? && Writing(s).count <= b
    ensures var t := Act(c, s, Output(data)); Advances(s, t, b) && Invariant(c, hello, t.s, b)
  {
    hide Ordered, Log, SealPieces, Pieces, Descends, HandshakeKeys;
    var z := Seal(c.suite, s.write.value, APPLICATION_DATA, data);
    PiecesOrdered(c.suite, s.write.value, Pieces(data), b);
    LogProtect(z.records);
    if s.phase == Connected {
      SealDescends(c.suite, ApplicationKeys(c, s.transcript).client, s.write.value, Pieces(data));
    } else if s.phase != Closed {
      SealUpdates(c.suite, HandshakeKeys(c, s.transcript).client, s.write.value, Pieces(data));
    }
  }

  lemma OutputTalks(c: Config, s: State, data: Bytes)
    requires Keyed(s) && s.write.Some?
    ensures Talks(c, s, Act(c, s, Output(data)))
  {
    hide Log, SealPieces, Greetings, NoData, FinishedSent;
    var z := Seal(c.suite, s.write.value, APPLICATION_DATA, data);
    LogProtect(z.records);
    assert Pieces(data) != [];
    SealSays(c.suite, s.write.value, Pieces(data));
    NoGreetings(z.records);
  }

  /** Data says nothing of the handshake but its own KeyUpdates, and is data. */
  lemma {:induction false} SealSays(c: Suite, d: Direction, pieces: seq<Bytes>)
    ensures forall r | r in SealPieces(c, d, APPLICATION_DATA, pieces).records :: !Greets(r)
    ensures pieces != [] ==> !NoData(SealPieces(c, d, APPLICATION_DATA, pieces).records)
    decreases |pieces|
  {
    if pieces != [] {
      var first := SealPiece(c, d, APPLICATION_DATA, pieces[0]);
      SealSays(c, first.dir, pieces[1..]);
      assert first.records[|first.records| - 1] in SealPieces(c, d, APPLICATION_DATA, pieces).records;
    }
  }

  lemma {:induction false} SealUpdates(c: Suite, secret: Bytes, d: Direction, pieces: seq<Bytes>)
    requires d.generation >= 1 && d.secret == Updates(c, secret, d.generation - 1)
    ensures var e := SealPieces(c, d, APPLICATION_DATA, pieces).dir; e.generation >= 1 && e.secret == Updates(c, secret, e.generation - 1)
    decreases |pieces|
  {
    if pieces != [] {
      SealUpdates(c, secret, SealPiece(c, d, APPLICATION_DATA, pieces[0]).dir, pieces[1..]);
    }
  }

  lemma ActKeeps(c: Config, hello: Bytes, s: State, op: Op, b: nat)
    requires ConfigValid(c) && Invariant(c, hello, s, b)
    ensures Keyed(s)
    ensures var t := Act(c, s, op); Advances(s, t, b + 1) && Invariant(c, hello, t.s, b + 1) && Talks(c, s, t)
  {
    hide Advances, Invariant, Talks, ConfigValid, Receive, Alerted;
    OneMore(c, hello, s, b);
    DoneKeeps(c, hello, s, s, b + 1);
    match op
    case Input(wire) => ReceiveKeeps(c, hello, s, wire, b + 1);
    case Output(data) => if s.write.Some? { OutputKeeps(c, hello, s, data, b + 1); OutputTalks(c, s, data); } else { TalksStill(c, s, Done(s)); }
    case End(alert) => EndKeeps(c, hello, s, alert, b + 1);
  }

  lemma EndKeeps(c: Config, hello: Bytes, s: State, alert: Octet, b: nat)
    requires Keyed(s) && Writing(s).count <= b && REKEY_AFTER <= b
    ensures var t := Alerted(c, s, alert); Advances(s, t, b) && Invariant(c, hello, t.s, b) && Talks(c, s, t)
  {
    hide Ordered, Log;
    AlertedAdvances(c, s, alert, b);
  }

  /** A new session, its hello sent. */
  function Start(hello: Bytes): State {
    State(AwaitServerHello, None, None, [], [hello], Wiped(), None, false)
  }

  lemma AdvancesMore(s: State, t: Step, b: nat)
    requires Advances(s, t, b)
    ensures Advances(s, t, b + 1)
  {
    hide Ordered, Log;
  }

  /** A run of any calls in any order: each key has sealed at most REKEY_AFTER records and one for each call. */
  function Run(c: Config, hello: Bytes, ops: seq<Op>): (t: Step)
    requires ConfigValid(c)
    ensures Invariant(c, hello, t.s, REKEY_AFTER + |ops|) && Advances(Start(hello), t, REKEY_AFTER + |ops|)
    ensures Talks(c, Start(hello), t)
  {
    if ops == [] then
      AdvancesStill(Start(hello), Done(Start(hello)), REKEY_AFTER);
      TalksStill(c, Start(hello), Done(Start(hello)));
      Done(Start(hello))
    else
      var b := REKEY_AFTER + |ops| - 1;
      var t := Run(c, hello, ops[..|ops| - 1]);
      ActKeeps(c, hello, t.s, ops[|ops| - 1], b);
      var u := Act(c, t.s, ops[|ops| - 1]);
      AdvancesMore(Start(hello), t, b);
      AdvancesThen(Start(hello), t, u, b + 1);
      TalksThen(c, Start(hello), t, u);
      Then(t, u)
  }

  /**
   * Section 4 of RFC 8446: in every run, a connected session has accepted the
   * server's hello, its extensions, its chain, its signature and its Finished,
   * once each and in this order, each over exactly the messages before it; and
   * both directions hold keys derived from those messages.
   */
  lemma ConnectedMeansAuthenticated(c: Config, hello: Bytes, ops: seq<Op>)
    requires ConfigValid(c)
    ensures var s := Run(c, hello, ops).s; var t := s.transcript;
      s.phase == Connected ==>
        && |t| == 6 && t[0] == hello
        && HelloAccepted(c, t) && ExtensionsAccepted(c, t) && ChainAccepted(c, t) && SignatureAccepted(c, t) && FinishedAccepted(c, t)
        && Descends(c.suite, ApplicationKeys(c, t).client, s.write.value)
        && Descends(c.suite, ApplicationKeys(c, t).server, s.read.value)
  {
    hide Run;
  }

  /**
   * Section 7.3 of RFC 8446: in every run, from the server's hello to its
   * Finished the session reads with the server's handshake keys and writes with
   * the client's, or their updates if it has sent data already.
   */
  lemma HandshakeUnderItsKeys(c: Config, hello: Bytes, ops: seq<Op>)
    requires ConfigValid(c)
    ensures var r := Run(c, hello, ops); var s := r.s; var t := s.transcript;
      s.phase in {AwaitExtensions, AwaitCertificate, AwaitVerify, AwaitFinished} ==>
        && HelloAccepted(c, t) && s.read.Some? && s.write.Some?
        && s.read.value.secret == HandshakeKeys(c, t).server
        && s.write.value.generation >= 1 && s.write.value.secret == Updates(c.suite, HandshakeKeys(c, t).client, s.write.value.generation - 1)
        && (NoData(Log(r.items)) ==> s.write.value.secret == HandshakeKeys(c, t).client)
  {
    hide Run, Log;
  }

  /**
   * Section 4.4.4: in every run that is connected, the one handshake message
   * sent after the hello, KeyUpdates aside, is the client's Finished, under the
   * client's handshake keys and over every message up to the server's.
   */
  lemma ConnectedSaysFinished(c: Config, hello: Bytes, ops: seq<Op>)
    requires ConfigValid(c)
    ensures var r := Run(c, hello, ops); var t, log := r.s.transcript, Log(r.items);
      r.s.phase == Connected ==>
        && FinishedSent(c, t, log)
        && (NoData(log) ==> Greetings(log)[0].dir.secret == HandshakeKeys(c, t).client)
  {
    hide Run, Log, Greetings;
    assert Talks(c, Start(hello), Run(c, hello, ops));
  }

  /**
   * Over a whole run of fewer than 2^63 calls, no nonce is used twice under
   * one key, and no key that has sealed REKEY_AFTER records seals data.
   */
  lemma RunNeverReusesNonce(c: Config, hello: Bytes, ops: seq<Op>, i: nat, j: nat)
    requires ConfigValid(c) && |ops| < 0x8000_0000_0000_0000 && i < j < |Log(Run(c, hello, ops).items)|
    ensures var log := Log(Run(c, hello, ops).items); var x, y := log[i], log[j];
      && (x.dir.generation == y.dir.generation ==>
            x.dir.secret == y.dir.secret && Nonce(Iv(c.suite, x.dir.secret), x.dir.count) != Nonce(Iv(c.suite, y.dir.secret), y.dir.count))
      && (x.kind == APPLICATION_DATA ==> x.dir.count < REKEY_AFTER)
      && (y.kind == APPLICATION_DATA ==> y.dir.count < REKEY_AFTER)
  {
    hide Run, Nonce, Log, Iv;
    var log := Log(Run(c, hello, ops).items);
    var x, y := log[i], log[j];
    assert Before(x.dir, y.dir);
    if x.dir.generation == y.dir.generation {
      NoncesDiffer(Iv(c.suite, x.dir.secret), x.dir.count, y.dir.count);
    }
  }
}

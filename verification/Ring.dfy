/**
 * The response ring of interface/tachyon.h and its reader, serve/client.rs:
 * one daemon appends frames, one client reads them, and a 32-bit futex word
 * wakes the client. Every interleaving of their steps is a run.
 */
module Ring {
  import opened Arith
  import opened Limbs
  import opened Options

  type Bytes = seq<Byte>

  const WRAP: nat := 0xFFFF_FFFF
  const SEQS: nat := 0x1_0000_0000

  // ------------------------------------------------------------------
  // Frames
  // ------------------------------------------------------------------

  /** A message, or the marker that sends the reader to the ring's start. */
  datatype Item = Frame(msg: Bytes) | Marker

  function Align(n: nat): nat { (n + 7) / 8 * 8 }

  /** Bytes from position p to the next item. */
  function Span(n: nat, p: nat, it: Item): nat
    requires n > 0
  {
    match it
    case Frame(m) => Align(4 + |m|)
    case Marker => n - p % n
  }

  function Word(mem: Bytes, at: nat): int {
    if at + 4 <= |mem| then LittleEndian(mem[at..at + 4]) else 0
  }

  function ByteAt(mem: Bytes, at: nat): Byte {
    if at < |mem| then mem[at] else 0
  }

  /** Memory spells the item at ring position p, and the item does not wrap. */
  predicate Spells(mem: Bytes, p: nat, it: Item)
    requires |mem| > 0
  {
    var at := p % |mem|;
    match it
    case Frame(m) =>
      && |m| < WRAP && at + Align(4 + |m|) <= |mem| && at + 4 + |m| <= |mem|
      && Word(mem, at) == |m| && mem[at + 4..at + 4 + |m|] == m
    case Marker => at + 4 <= |mem| && Word(mem, at) == WRAP
  }

  /** From p to head, memory spells exactly these items, each at a multiple of eight. */
  predicate Holds(mem: Bytes, p: nat, head: nat, items: seq<Item>)
    requires |mem| > 0
    decreases |items|
  {
    p % 8 == 0 &&
    if items == [] then p == head
    else Spells(mem, p, items[0]) && Holds(mem, p + Span(|mem|, p, items[0]), head, items[1..])
  }

  function Messages(items: seq<Item>): seq<Bytes> {
    if items == [] then []
    else (if items[0].Frame? then [items[0].msg] else []) + Messages(items[1..])
  }

  // ------------------------------------------------------------------
  // Positions
  // ------------------------------------------------------------------

  predicate RingSize(n: nat) { n >= 8 && n % 8 == 0 }

  lemma ModStep(n: nat, r: nat, d: nat)
    requires n > 0 && d < n
    ensures (r + d) % n == if r % n + d < n then r % n + d else r % n + d - n
  {
    var q := r / n;
    assert r + d == q * n + (r % n + d);
    if r % n + d < n {
      DivModUnique(r + d, q, r % n + d, n);
    } else {
      assert q * n + n == (q + 1) * n;
      DivModUnique(r + d, q + 1, r % n + d - n, n);
    }
  }

  /** A place at most one lap after an item that does not wrap is not one of its bytes. */
  lemma Apart(n: nat, r: nat, span: nat, q: nat)
    requires n > 0 && r % n + span <= n && r + span <= q < r + n
    ensures q % n < r % n || q % n >= r % n + span
  {
    ModStep(n, r, q - r);
  }

  lemma {:induction false} EightsDivide(n: nat, p: nat)
    requires RingSize(n) && p % 8 == 0
    ensures p % n % 8 == 0 && p % n + 8 <= n
  {
    var k, q := n / 8, p / n;
    assert p == q * n + p % n;
    assert n == 8 * k;
    assert q * n == 8 * (q * k) by { MulAssoc(q, 8, k); }
  }

  /** The marker always fits where the next frame does not. */
  lemma SpanAligned(n: nat, p: nat, it: Item)
    requires RingSize(n) && p % 8 == 0
    ensures Span(n, p, it) >= 8 && (p + Span(n, p, it)) % 8 == 0
    ensures it.Marker? ==> p % n + Span(n, p, it) == n
  {
    hide Align;
    EightsDivide(n, p);
    if it.Frame? {
      AlignUp(4 + |it.msg|);
      EightsSum(p, Align(4 + |it.msg|));
    } else {
      assert n - p % n >= 8;
      EightsSum(p, n - p % n);
    }
  }

  lemma AlignUp(n: nat)
    requires n > 0
    ensures Align(n) % 8 == 0 && Align(n) >= 8
  {}

  lemma EightsSum(p: nat, q: nat)
    requires p % 8 == 0 && q % 8 == 0
    ensures (p + q) % 8 == 0
  {}

  lemma {:induction false} HoldsBound(mem: Bytes, p: nat, head: nat, items: seq<Item>)
    requires RingSize(|mem|) && Holds(mem, p, head, items)
    ensures p + 8 * |items| <= head && head % 8 == 0
    decreases |items|
  {
    if items != [] {
      SpanAligned(|mem|, p, items[0]);
      HoldsBound(mem, p + Span(|mem|, p, items[0]), head, items[1..]);
    }
  }

  lemma {:induction false} HoldsJoin(mem: Bytes, p: nat, mid: nat, head: nat, a: seq<Item>, b: seq<Item>)
    requires |mem| > 0 && Holds(mem, p, mid, a) && Holds(mem, mid, head, b)
    ensures Holds(mem, p, head, a + b)
    decreases |a|
  {
    if a == [] {
      assert a + b == b;
    } else {
      assert (a + b)[1..] == a[1..] + b;
      HoldsJoin(mem, p + Span(|mem|, p, a[0]), mid, head, a[1..], b);
    }
  }

  lemma {:induction false} MessagesJoin(a: seq<Item>, b: seq<Item>)
    ensures Messages(a + b) == Messages(a) + Messages(b)
    decreases |a|
  {
    if a == [] {
      assert a + b == b;
    } else {
      assert (a + b)[1..] == a[1..] + b;
      MessagesJoin(a[1..], b);
    }
  }

  lemma SpellsKept(mem: Bytes, p: nat, it: Item, at: nat, b: Byte)
    requires |mem| > 0 && at < |mem| && Spells(mem, p, it)
    requires at < p % |mem| || at >= p % |mem| + (match it case Frame(m) => 4 + |m| case Marker => 4)
    ensures Spells(mem[at := b], p, it)
  {
    var i := p % |mem|;
    var next := mem[at := b];
    assert next[i..i + 4] == mem[i..i + 4];
    match it
    case Frame(m) => assert next[i + 4..i + 4 + |m|] == mem[i + 4..i + 4 + |m|];
    case Marker =>
  }

  /** No unread byte is overwritten: a write past the head and less than a lap past the tail leaves every item. */
  lemma {:induction false} WriteKeeps(mem: Bytes, p: nat, head: nat, items: seq<Item>, q: nat, b: Byte)
    requires RingSize(|mem|) && Holds(mem, p, head, items) && head <= q < p + |mem|
    ensures Holds(mem[q % |mem| := b], p, head, items)
    decreases |items|
  {
    if items != [] {
      var n, it := |mem|, items[0];
      var span := Span(n, p, it);
      SpanAligned(n, p, it);
      HoldsBound(mem, p + span, head, items[1..]);
      Apart(n, p, span, q);
      SpellsKept(mem, p, it, q % n, b);
      WriteKeeps(mem, p + span, head, items[1..], q, b);
    }
  }

  /** A frame's bytes: length, message, padding. */
  function Encoded(m: Bytes): (r: Bytes)
    ensures |r| == Align(4 + |m|)
  {
    LittleBytes(|m|, 4) + m + seq(Align(4 + |m|) - 4 - |m|, _ => 0)
  }

  /** Writing a frame's bytes where it fits spells it. */
  lemma EncodedSpells(mem: Bytes, p: nat, m: Bytes)
    requires |mem| > 0 && |m| < WRAP && p % |mem| + Align(4 + |m|) <= |mem|
    ensures var at := p % |mem|; Spells(mem[..at] + Encoded(m) + mem[at + Align(4 + |m|)..], p, Frame(m))
  {
    hide LittleEndian;
    var at, e := p % |mem|, Encoded(m);
    var next := mem[..at] + e + mem[at + Align(4 + |m|)..];
    assert |next| == |mem|;
    assert next[at..at + 4] == LittleBytes(|m|, 4);
    assert next[at + 4..at + 4 + |m|] == m;
    Pow256();
    LittleBytesValue(|m|, 4);
  }

  lemma Pow256()
    ensures Pow(256, 4) == SEQS
  {
    PowStep(256, 3);
    PowStep(256, 2);
    PowStep(256, 1);
    PowStep(256, 0);
  }

  // ------------------------------------------------------------------
  // Steps
  // ------------------------------------------------------------------

  /** Between appends, or owing the last one's seq increment, or its wake. */
  datatype Daemon = Idle | OwesSeq | OwesWake

  /** Where the client is in its loop. Loaded and Waiting also remember how many appends the seq it read stood for. */
  datatype Client =
    | Top
    | Found(at: nat)
    | Copying(at: nat, length: nat, buf: Bytes)
    | Empty
    | Loaded(word: nat, count: nat)
    | Waiting(word: nat, count: nat)
    | Asleep

  /**
   * The shared memory and words, both sides, and the history: appends made,
   * messages sent and got, items unread. known is the tail the daemon last saw.
   */
  datatype State = State(
    mem: Bytes, head: nat, tail: nat, count: nat,
    daemon: Daemon, known: nat, client: Client,
    sent: seq<Bytes>, got: seq<Bytes>, unread: seq<Item>)

  datatype Action =
    | Look
    | Write(q: nat, b: Byte)
    | Publish(head: nat, items: seq<Item>)
    | Bump
    | Wake
    | CompareHead
    | ReadLength
    | CopyByte
    | FinishFrame
    | LoadSeq
    | CompareAgain
    | FutexWait
    | Timeout

  function SeqWord(s: State): nat { s.count % SEQS }

  predicate Enabled(s: State, a: Action)
    requires |s.mem| > 0
  {
    match a
    case Look => s.daemon == Idle
    case Write(q, b) => s.daemon == Idle && s.head <= q < s.known + |s.mem|
    case Publish(head, items) => s.daemon == Idle && items != [] && head <= s.known + |s.mem| && Holds(s.mem, s.head, head, items)
    case Bump => s.daemon == OwesSeq
    case Wake => s.daemon == OwesWake
    case CompareHead => s.client == Top
    case ReadLength => s.client.Found?
    case CopyByte => s.client.Copying? && |s.client.buf| < s.client.length
    case FinishFrame => s.client.Copying? && |s.client.buf| == s.client.length
    case LoadSeq => s.client == Empty
    case CompareAgain => s.client.Loaded?
    case FutexWait => s.client.Waiting?
    case Timeout => s.client == Asleep
  }

  function Rest(items: seq<Item>): seq<Item> { if items == [] then [] else items[1..] }

  function Step(s: State, a: Action): State
    requires |s.mem| > 0 && Enabled(s, a)
  {
    var n := |s.mem|;
    match a
    case Look => s.(known := s.tail)
    case Write(q, b) => s.(mem := s.mem[q % n := b])
    case Publish(head, items) => s.(head := head, unread := s.unread + items, sent := s.sent + Messages(items), daemon := OwesSeq)
    case Bump => s.(count := s.count + 1, daemon := OwesWake)
    case Wake => s.(daemon := Idle, client := if s.client == Asleep then Top else s.client)
    case CompareHead => s.(client := if s.tail < s.head then Found(s.tail) else Empty)
    case ReadLength =>
      var at := s.client.at;
      var length := Word(s.mem, at % n);
      if length == WRAP then s.(tail := at + n - at % n, unread := Rest(s.unread), client := Top)
      else if length >= 0 then s.(client := Copying(at, length, [])) else s
    case CopyByte =>
      var c := s.client;
      s.(client := Copying(c.at, c.length, c.buf + [ByteAt(s.mem, c.at % n + 4 + |c.buf|)]))
    case FinishFrame =>
      var c := s.client;
      s.(tail := c.at + Align(4 + c.length), got := s.got + [c.buf], unread := Rest(s.unread), client := Top)
    case LoadSeq => s.(client := Loaded(SeqWord(s), s.count))
    case CompareAgain => s.(client := if s.tail == s.head then Waiting(s.client.word, s.client.count) else Top)
    case FutexWait => s.(client := if SeqWord(s) == s.client.word then Asleep else Top)
    case Timeout => s.(client := Top)
  }

  // ------------------------------------------------------------------
  // The invariant
  // ------------------------------------------------------------------

  /** The ring holds exactly the unread items, and what was got is what was sent before them. */
  predicate Whole(s: State) {
    && RingSize(|s.mem|)
    && s.known <= s.tail <= s.head <= s.tail + |s.mem|
    && Holds(s.mem, s.tail, s.head, s.unread)
    && s.sent == s.got + Messages(s.unread)
  }

  /** What the client is reading is the first unread item. */
  predicate Reading(s: State) {
    match s.client
    case Found(at) => at == s.tail && s.unread != []
    case Copying(at, length, buf) =>
      && at == s.tail && s.unread != [] && s.unread[0].Frame?
      && length == |s.unread[0].msg| && |buf| <= length && buf == s.unread[0].msg[..|buf|]
    case _ => true
  }

  /** Appends since a seq was read leave their bytes in the ring: the word cannot have come round. */
  predicate Recent(s: State, word: nat, count: nat) {
    && word == count % SEQS && count <= s.count
    && 8 * (s.count - count) + (if s.daemon == OwesSeq then 8 else 0) <= s.head - s.tail + 8
  }

  /** A client asleep with something to read is about to be woken. */
  predicate WakeOwed(s: State) {
    match s.client
    case Loaded(word, count) => Recent(s, word, count)
    case Waiting(word, count) => Recent(s, word, count) && (s.count == count && s.tail < s.head ==> s.daemon == OwesSeq)
    case Asleep => s.tail < s.head ==> s.daemon != Idle
    case _ => true
  }

  /** What holds on a ring of any size. */
  predicate Sound(s: State) { Whole(s) && Reading(s) }

  /** And what holds on one too small for the futex word to come round. */
  predicate Good(s: State) { Sound(s) && WakeOwed(s) }

  lemma FirstItem(s: State)
    requires Whole(s) && s.unread != []
    ensures Spells(s.mem, s.tail, s.unread[0])
    ensures var next := s.tail + Span(|s.mem|, s.tail, s.unread[0]);
      s.tail + 8 <= next <= s.head && Holds(s.mem, next, s.head, s.unread[1..])
    ensures s.unread[0].Frame? ==> Messages(s.unread) == [s.unread[0].msg] + Messages(s.unread[1..])
    ensures s.unread[0].Marker? ==> Messages(s.unread) == Messages(s.unread[1..])
  {
    SpanAligned(|s.mem|, s.tail, s.unread[0]);
    HoldsBound(s.mem, s.tail + Span(|s.mem|, s.tail, s.unread[0]), s.head, s.unread[1..]);
  }

  lemma SomethingUnread(s: State)
    requires Whole(s)
    ensures s.tail < s.head <==> s.unread != []
  {
    HoldsBound(s.mem, s.tail, s.head, s.unread);
  }

  lemma WriteSound(s: State, a: Action)
    requires Sound(s) && a.Write? && Enabled(s, a)
    ensures Sound(Step(s, a))
  {
    WriteKeeps(s.mem, s.tail, s.head, s.unread, a.q, a.b);
  }

  lemma PublishSound(s: State, a: Action)
    requires Sound(s) && a.Publish? && Enabled(s, a)
    ensures Sound(Step(s, a)) && Step(s, a).head >= s.head + 8
  {
    hide Spells, Span;
    HoldsBound(s.mem, s.head, a.head, a.items);
    HoldsJoin(s.mem, s.tail, s.head, a.head, s.unread, a.items);
    MessagesJoin(s.unread, a.items);
    var t := Step(s, a);
    assert t.sent == t.got + Messages(t.unread);
  }

  /** A length read is that of the next item; a marker sends the tail to the ring's start. */
  lemma ReadSound(s: State)
    requires Sound(s) && s.client.Found?
    ensures Sound(Step(s, ReadLength))
  {
    FirstItem(s);
    var t := Step(s, ReadLength);
    if s.unread[0].Marker? {
      assert t.tail == s.tail + Span(|s.mem|, s.tail, s.unread[0]);
    }
  }

  lemma CopySound(s: State)
    requires Sound(s) && Enabled(s, CopyByte)
    ensures Sound(Step(s, CopyByte))
  {
    FirstItem(s);
    var m, c := s.unread[0].msg, s.client;
    var at := c.at % |s.mem| + 4;
    assert s.mem[at..at + |m|][|c.buf|] == s.mem[at + |c.buf|];
    assert m[..|c.buf| + 1] == m[..|c.buf|] + [m[|c.buf|]];
  }

  /** The message read is the next one sent. */
  lemma FinishSound(s: State)
    requires Sound(s) && Enabled(s, FinishFrame)
    ensures Sound(Step(s, FinishFrame))
  {
    FirstItem(s);
    var m := s.unread[0].msg;
    assert m[..|m|] == m;
    var t := Step(s, FinishFrame);
    assert t.got + Messages(t.unread) == s.got + ([m] + Messages(s.unread[1..]));
  }

  /** On a ring of any size, every step of either side keeps what is unread and what is being read. */
  lemma StepSound(s: State, a: Action)
    requires Sound(s) && Enabled(s, a)
    ensures Sound(Step(s, a)) && |Step(s, a).mem| == |s.mem|
  {
    SomethingUnread(s);
    match a
    case Write(q, b) => WriteSound(s, a);
    case Publish(head, items) => PublishSound(s, a);
    case ReadLength => ReadSound(s);
    case CopyByte => CopySound(s);
    case FinishFrame => FinishSound(s);
    case FutexWait =>
    case Look =>
    case Bump =>
    case Wake =>
    case CompareHead =>
    case LoadSeq =>
    case CompareAgain =>
    case Timeout =>
  }

  /** The futex word cannot have come round while the client looked: a full ring stops the daemon first. */
  lemma WaitAwake(s: State)
    requires Good(s) && Enabled(s, FutexWait) && |s.mem| < 8 * SEQS - 8
    ensures WakeOwed(Step(s, FutexWait))
  {
    if SeqWord(s) == s.client.word {
      SameWord(s.client.count, s.count);
    }
  }

  lemma SameWord(c: nat, d: nat)
    requires c <= d < c + SEQS && c % SEQS == d % SEQS
    ensures c == d
  {}

  /** Every step of either side keeps the whole invariant where the word is wide enough for the ring. */
  lemma StepGood(s: State, a: Action)
    requires Good(s) && Enabled(s, a) && |s.mem| < 8 * SEQS - 8
    ensures Good(Step(s, a))
  {
    hide Holds, Reading, Messages;
    StepSound(s, a);
    if a.FutexWait? {
      WaitAwake(s);
    } else if a.Publish? {
      PublishSound(s, a);
    }
  }

  // ------------------------------------------------------------------
  // Runs
  // ------------------------------------------------------------------

  /** ring_bytes: a power of two, at least one frame. */
  ghost predicate RingBytes(n: nat) { n > 0 && exists k: nat :: k >= 3 && n == Pow(2, k) }

  lemma RingBytesSize(n: nat)
    requires RingBytes(n)
    ensures RingSize(n)
    ensures n < 8 * SEQS ==> n <= 4 * SEQS
  {
    var k: nat :| k >= 3 && n == Pow(2, k);
    PowAdd(2, 3, k - 3);
    PowPositive(2, k - 3);
    PowStep(2, 0);
    PowStep(2, 1);
    PowStep(2, 2);
    assert n == 8 * Pow(2, k - 3);
    if 4 * SEQS < n {
      TwoTo35();
      if k >= 35 {
        PowMonotone(2, 35, k);
      } else {
        PowMonotone(2, k, 34);
      }
    }
  }

  lemma TwoTo35()
    ensures Pow(2, 34) == 4 * SEQS && Pow(2, 35) == 8 * SEQS
  {
    hide Pow;
    PowBase();
    PowAdd(2, 8, 8);
    PowAdd(2, 16, 16);
    PowAdd(2, 32, 2);
    PowAdd(2, 34, 1);
  }

  lemma PowBase()
    ensures Pow(2, 8) == 256 && Pow(2, 2) == 4 && Pow(2, 1) == 2
  {
    PowStep(2, 0);
    PowStep(2, 1);
    PowStep(2, 2);
    PowStep(2, 3);
    PowStep(2, 4);
    PowStep(2, 5);
    PowStep(2, 6);
    PowStep(2, 7);
  }

  function Start(mem: Bytes): State {
    State(mem, 0, 0, 0, Idle, 0, Top, [], [], [])
  }

  /** The state after these steps in this order; None when one was not possible. */
  function Execute(mem: Bytes, actions: seq<Action>): (r: Option<State>)
    requires |mem| > 0
    ensures r.Some? ==> |r.value.mem| == |mem|
  {
    if actions == [] then Some(Start(mem))
    else
      var before := Execute(mem, actions[..|actions| - 1]);
      var a := actions[|actions| - 1];
      if before.Some? && Enabled(before.value, a) then Some(Step(before.value, a)) else None
  }

  lemma {:induction false} RunsSound(mem: Bytes, actions: seq<Action>)
    requires RingBytes(|mem|)
    ensures Execute(mem, actions).Some? ==> Sound(Execute(mem, actions).value)
    decreases |actions|
  {
    hide Step, Sound, Enabled;
    RingBytesSize(|mem|);
    if actions == [] {
      StartGood(mem);
    } else {
      RunsSound(mem, actions[..|actions| - 1]);
      var before := Execute(mem, actions[..|actions| - 1]);
      if before.Some? && Enabled(before.value, actions[|actions| - 1]) {
        StepSound(before.value, actions[|actions| - 1]);
      }
    }
  }

  lemma {:induction false} RunsGood(mem: Bytes, actions: seq<Action>)
    requires RingBytes(|mem|) && |mem| < 8 * SEQS
    ensures Execute(mem, actions).Some? ==> Good(Execute(mem, actions).value)
    decreases |actions|
  {
    hide Step, Good, Enabled;
    RingBytesSize(|mem|);
    if actions == [] {
      StartGood(mem);
    } else {
      RunsGood(mem, actions[..|actions| - 1]);
      var before := Execute(mem, actions[..|actions| - 1]);
      if before.Some? && Enabled(before.value, actions[|actions| - 1]) {
        StepGood(before.value, actions[|actions| - 1]);
      }
    }
  }

  lemma StartGood(mem: Bytes)
    requires RingSize(|mem|)
    ensures Good(Start(mem)) && Sound(Start(mem))
  {}

  /**
   * On a ring of any size, in every interleaving: the client gets exactly a
   * prefix of the messages appended, in order; the ring never holds more than
   * its bytes; and a frame being read lies whole inside it, at a multiple of
   * eight.
   */
  lemma DeliveredInOrder(mem: Bytes, actions: seq<Action>)
    requires RingBytes(|mem|) && Execute(mem, actions).Some?
    ensures var s := Execute(mem, actions).value;
      && s.got <= s.sent && s.sent == s.got + Messages(s.unread)
      && s.tail <= s.head <= s.tail + |mem| && s.tail % 8 == 0
      && (s.client.Copying? ==> s.client.at % |mem| + 4 + s.client.length <= |mem|)
      && (s.client.Found? ==> s.client.at % |mem| + 8 <= |mem|)
  {
    hide Execute;
    RunsSound(mem, actions);
    var s := Execute(mem, actions).value;
    RingBytesSize(|mem|);
    EightsDivide(|mem|, s.tail);
    if s.unread != [] {
      FirstItem(s);
    }
  }

  /**
   * No lost wake-up, on rings below 2^35 bytes: whenever the client sleeps
   * with something to read, the daemon still owes the increment or the wake of
   * that append; with nothing owed the ring is empty, so a frame that fits the
   * ring has room.
   */
  lemma NoLostWakeup(mem: Bytes, actions: seq<Action>)
    requires RingBytes(|mem|) && |mem| < 8 * SEQS && Execute(mem, actions).Some?
    ensures var s := Execute(mem, actions).value;
      s.client == Asleep ==>
        && (s.tail < s.head ==> s.daemon == OwesSeq || s.daemon == OwesWake)
        && (s.daemon == Idle ==> s.unread == [] && s.got == s.sent)
  {
    hide Execute;
    RunsGood(mem, actions);
    var s := Execute(mem, actions).value;
    RingBytesSize(|mem|);
    SomethingUnread(s);
  }
}

/**
 * The loop (chatlink_bot logic/loop.py): every tick it looks up the
 * conversations that are due and answers them one at a time.
 */
module Loop {
  import opened Options
  import opened Seqs
  import opened Turns
  import Reducer

  type Key = string

  /** How long a message waits for the salesman, and when it is left to him. */
  datatype Clock = Clock(delay: nat, maxAge: nat)

  function Before(now: nat, span: nat): nat { if span <= now then now - span else 0 }

  predicate Recent(clock: Clock, now: nat, m: Message) { m.time >= Before(now, clock.maxAge) }

  function Window(clock: Clock, now: nat, messages: seq<Message>): seq<Message> {
    Retain(messages, (m: Message) => Recent(clock, now, m))
  }

  function LastTime(messages: seq<Message>): (r: nat)
    ensures forall i | 0 <= i < |messages| && FromClient(messages[i]) :: messages[i].time <= r
    ensures r == 0 || exists i :: 0 <= i < |messages| && FromClient(messages[i]) && messages[i].time == r
  {
    if messages == [] then 0
    else
      var r, m := LastTime(messages[..|messages| - 1]), messages[|messages| - 1];
      if FromClient(m) && m.time > r then m.time else r
  }

  /** The client's newest recent message is unanswered, the salesman has not written since, and it has waited. */
  predicate Due(clock: Clock, now: nat, c: Conversation) {
    var window := Window(clock, now, c.messages);
    var client, salesman := MaxId(window, FromClient), MaxId(window, FromSalesman);
    && client > Max(c.session.lastAnswered, salesman)
    && LastTime(window) + clock.delay <= now
  }

  /** Times grow with ids. */
  predicate InTime(messages: seq<Message>) {
    forall i, j | 0 <= i < j < |messages| :: messages[i].time <= messages[j].time
  }

  lemma WindowHas(clock: Clock, now: nat, messages: seq<Message>, m: Message)
    ensures m in Window(clock, now, messages) <==> m in messages && Recent(clock, now, m)
  {
    RetainOf(messages, (x: Message) => Recent(clock, now, x), m);
  }

  /** Message i makes the conversation due: recent, the client's, unanswered, and after everything recent of the salesman's. */
  predicate Waiting(clock: Clock, now: nat, c: Conversation, i: nat) {
    && i < |c.messages| && FromClient(c.messages[i]) && Recent(clock, now, c.messages[i])
    && c.messages[i].id > c.session.lastAnswered
    && forall m | m in c.messages && FromSalesman(m) && Recent(clock, now, m) :: m.id < c.messages[i].id
  }

  /** Due, message by message: one is waiting, and no recent message of the client's is younger than the delay. */
  lemma DueExact(clock: Clock, now: nat, c: Conversation)
    ensures Due(clock, now, c) <==>
      && (exists i: nat :: Waiting(clock, now, c, i))
      && (forall m | m in c.messages && FromClient(m) && Recent(clock, now, m) :: m.time + clock.delay <= now)
  {
    hide Window, MaxId, LastTime, Waiting, Recent;
    WaitingExact(clock, now, c);
    DelayExact(clock, now, c);
    if exists i: nat :: Waiting(clock, now, c, i) {
      var i: nat :| Waiting(clock, now, c, i);
      SomeWaiting(clock, now, c, i);
    }
  }

  lemma SomeWaiting(clock: Clock, now: nat, c: Conversation, i: nat)
    requires Waiting(clock, now, c, i)
    ensures exists m | m in c.messages :: FromClient(m) && Recent(clock, now, m)
  {
    assert c.messages[i] in c.messages;
  }

  lemma WaitingExact(clock: Clock, now: nat, c: Conversation)
    ensures var window := Window(clock, now, c.messages);
      MaxId(window, FromClient) > Max(c.session.lastAnswered, MaxId(window, FromSalesman)) <==> exists i: nat :: Waiting(clock, now, c, i)
  {
    hide Window, MaxId, Recent;
    var window := Window(clock, now, c.messages);
    forall m ensures m in window <==> m in c.messages && Recent(clock, now, m) { WindowHas(clock, now, c.messages, m); }
    MaxIdIs(window, FromClient);
    MaxIdIs(window, FromSalesman);
    var client, salesman := MaxId(window, FromClient), MaxId(window, FromSalesman);
    if client > Max(c.session.lastAnswered, salesman) {
      var x :| x in window && FromClient(x) && x.id == client;
      var i :| 0 <= i < |c.messages| && c.messages[i] == x;
      assert Waiting(clock, now, c, i);
    }
    if exists i: nat :: Waiting(clock, now, c, i) {
      var i: nat :| Waiting(clock, now, c, i);
      assert c.messages[i] in window;
    }
  }

  lemma DelayExact(clock: Clock, now: nat, c: Conversation)
    ensures (exists m | m in c.messages :: FromClient(m) && Recent(clock, now, m)) ==>
      (LastTime(Window(clock, now, c.messages)) + clock.delay <= now <==>
         forall m | m in c.messages && FromClient(m) && Recent(clock, now, m) :: m.time + clock.delay <= now)
  {
    hide Window, LastTime, Recent;
    var window := Window(clock, now, c.messages);
    forall m ensures m in window <==> m in c.messages && Recent(clock, now, m) { WindowHas(clock, now, c.messages, m); }
    LastTimeIs(window);
  }

  lemma MaxIdIs(messages: seq<Message>, p: Message -> bool)
    ensures forall m | m in messages && p(m) :: m.id <= MaxId(messages, p)
    ensures MaxId(messages, p) == 0 || exists m | m in messages :: p(m) && m.id == MaxId(messages, p)
  {
    if MaxId(messages, p) != 0 {
      var i :| 0 <= i < |messages| && p(messages[i]) && messages[i].id == MaxId(messages, p);
      assert messages[i] in messages;
    }
  }

  lemma LastTimeIs(messages: seq<Message>)
    ensures forall m | m in messages && FromClient(m) :: m.time <= LastTime(messages)
    ensures LastTime(messages) == 0 || exists m | m in messages :: FromClient(m) && m.time == LastTime(messages)
  {
    if LastTime(messages) != 0 {
      var i :| 0 <= i < |messages| && FromClient(messages[i]) && messages[i].time == LastTime(messages);
      assert messages[i] in messages;
    }
  }

  lemma {:induction false} PendingHas(history: seq<Message>, cursor: nat, i: nat)
    requires i < |history| && FromClient(history[i]) && history[i].id > cursor
    ensures history[i].id in Pending(history, cursor)
    decreases |history|
  {
    if i < |history| - 1 {
      PendingHas(history[..|history| - 1], cursor, i);
    }
  }

  /** The place of the client's newest message, when the conversation is due. */
  lemma DueMessage(clock: Clock, now: nat, c: Conversation) returns (i: nat)
    requires Due(clock, now, c)
    ensures i < |c.messages| && FromClient(c.messages[i]) && Recent(clock, now, c.messages[i])
    ensures c.messages[i].id == MaxId(Window(clock, now, c.messages), FromClient)
  {
    var window := Window(clock, now, c.messages);
    var k :| 0 <= k < |window| && FromClient(window[k]) && window[k].id == MaxId(window, FromClient);
    WindowHas(clock, now, c.messages, window[k]);
    i :| 0 <= i < |c.messages| && c.messages[i] == window[k];
  }

  /** No salesman's message at all is newer than the one that makes a conversation due. */
  lemma SalesmanOlder(clock: Clock, now: nat, c: Conversation, i: nat, m: Message)
    requires Good(c) && InTime(c.messages) && Due(clock, now, c)
    requires i < |c.messages| && Recent(clock, now, c.messages[i]) && c.messages[i].id == MaxId(Window(clock, now, c.messages), FromClient)
    requires m in c.messages && FromSalesman(m)
    ensures m.id < c.messages[i].id
  {
    hide Window;
    var k :| 0 <= k < |c.messages| && c.messages[k] == m;
    if k >= i {
      WindowHas(clock, now, c.messages, m);
    }
  }

  /** The client's newest recent message is among those the turn reads. */
  predicate Read(clock: Clock, now: nat, c: Conversation, depth: nat) {
    var history := History(c.messages, depth);
    exists k :: 0 <= k < |history| && history[k].id == MaxId(Window(clock, now, c.messages), FromClient)
  }

  /**
   * A due conversation has something to answer: its turn starts, and answers
   * the message that made it due, exactly when that is within the history read.
   */
  lemma DueHasPending(clock: Clock, now: nat, c: Conversation, depth: nat)
    requires Good(c) && InTime(c.messages) && Due(clock, now, c) && c.flight.None?
    ensures var f, newest := Begun(c, depth).flight, MaxId(Window(clock, now, c.messages), FromClient);
      f.Some? && newest in f.value.batch <==> Read(clock, now, c, depth)
  {
    hide Window, Due, Good, Pending, MaxId;
    var history := History(c.messages, depth);
    var i := DueMessage(clock, now, c);
    if Read(clock, now, c, depth) {
      var k :| 0 <= k < |history| && history[k].id == c.messages[i].id;
      var off := |c.messages| - |history|;
      assert history[k] == c.messages[k + off];
      SamePlace(c, k + off, i);
      NewestPending(clock, now, c, depth, i);
    } else {
      PendingFrom(history, Max(c.session.lastAnswered, MaxId(history, FromSalesman)), c.messages[i].id);
    }
  }

  lemma SamePlace(c: Conversation, k: nat, i: nat)
    requires Good(c) && k < |c.messages| && i < |c.messages| && c.messages[k].id == c.messages[i].id
    ensures k == i
  {}

  lemma PendingFrom(history: seq<Message>, cursor: nat, x: nat)
    ensures x in Pending(history, cursor) ==> exists k :: 0 <= k < |history| && history[k].id == x
  {
    var b := Pending(history, cursor);
    if x in b {
      var j :| 0 <= j < |b| && b[j] == x;
    }
  }

  lemma NewestPending(clock: Clock, now: nat, c: Conversation, depth: nat, i: nat)
    requires Good(c) && InTime(c.messages) && Due(clock, now, c) && c.flight.None?
    requires i < |c.messages| && FromClient(c.messages[i]) && Recent(clock, now, c.messages[i])
    requires c.messages[i].id == MaxId(Window(clock, now, c.messages), FromClient) && |c.messages| - i <= depth
    ensures Begun(c, depth).flight.Some? && c.messages[i].id in Begun(c, depth).flight.value.batch
  {
    hide Window, Due, Good, Pending, MaxId;
    var history := History(c.messages, depth);
    var off := |c.messages| - |history|;
    assert history[i - off] == c.messages[i];
    var salesman := MaxId(history, FromSalesman);
    var cursor := Max(c.session.lastAnswered, salesman);
    assert c.messages[i].id > c.session.lastAnswered by { DueAfter(clock, now, c); }
    assert c.messages[i].id > salesman by {
      MaxIdFrom(history, FromSalesman);
      if salesman != 0 {
        var k :| 0 <= k < |history| && FromSalesman(history[k]) && history[k].id == salesman;
        assert history[k] == c.messages[k + off];
        SalesmanOlder(clock, now, c, i, history[k]);
      } else {
        DueAfter(clock, now, c);
      }
    }
    PendingHas(history, cursor, i - off);
  }

  lemma DueAfter(clock: Clock, now: nat, c: Conversation)
    requires Due(clock, now, c)
    ensures MaxId(Window(clock, now, c.messages), FromClient) > c.session.lastAnswered
    ensures MaxId(Window(clock, now, c.messages), FromClient) > 0
  {}

  lemma MaxIdFrom(messages: seq<Message>, p: Message -> bool)
    ensures MaxId(messages, p) == 0 || exists i :: 0 <= i < |messages| && p(messages[i]) && messages[i].id == MaxId(messages, p)
  {}

  // ------------------------------------------------------------------
  // The tables and the tick
  // ------------------------------------------------------------------

  type Table = map<Key, Conversation>

  function DueKeys(clock: Clock, now: nat, keys: seq<Key>, table: Table): seq<Key> {
    Retain(keys, (k: Key) => k in table && Due(clock, now, table[k]))
  }

  /** A whole turn: started, and ended in the world it met. */
  function Answered(c: Conversation, w: World, depth: nat, max: nat): Conversation
    requires Good(c) && c.flight.None?
  {
    BegunGood(c, depth);
    var b := Begun(c, depth);
    if b.flight.Some? then Ended(b, w, max) else b
  }

  lemma AnsweredGood(c: Conversation, w: World, depth: nat, max: nat)
    requires Good(c) && c.flight.None?
    ensures Good(Answered(c, w, depth, max)) && Answered(c, w, depth, max).flight.None?
    ensures c.session.lastAnswered <= Answered(c, w, depth, max).session.lastAnswered
  {
    hide Good, Ended;
    StepGood(c, StartTurn, depth, max);
    var b := Begun(c, depth);
    if b.flight.Some? {
      StepGood(b, EndTurn(w), depth, max);
      EndedIdle(b, w, max);
    }
  }

  lemma EndedIdle(c: Conversation, w: World, max: nat)
    requires c.flight.Some? && c.flight.value.batch != []
    ensures Ended(c, w, max).flight.None?
  {
    hide Reducer.Reduce, MaxId;
  }

  ghost predicate TableOk(table: Table) {
    forall k | k in table :: Good(table[k]) && table[k].flight.None?
  }

  /** The turns of a tick, one after another. */
  ghost function Ticked(table: Table, due: seq<Key>, worlds: Key -> World, depth: nat, max: nat): (r: Table)
    requires TableOk(table)
    ensures TableOk(r) && r.Keys == table.Keys
    decreases |due|
  {
    if due == [] then table
    else if due[0] !in table then Ticked(table, due[1..], worlds, depth, max)
    else
      AnsweredGood(table[due[0]], worlds(due[0]), depth, max);
      Ticked(table[due[0] := Answered(table[due[0]], worlds(due[0]), depth, max)], due[1..], worlds, depth, max)
  }

  /** A tick answers exactly the conversations that were due, each once, and touches no other. */
  lemma {:induction false} TickTouches(table: Table, due: seq<Key>, worlds: Key -> World, depth: nat, max: nat, k: Key)
    requires TableOk(table) && k in table && forall i, j | 0 <= i < j < |due| :: due[i] != due[j]
    ensures Ticked(table, due, worlds, depth, max)[k] == if k in due then Answered(table[k], worlds(k), depth, max) else table[k]
    decreases |due|
  {
    hide Answered, Good;
    if due != [] {
      if due[0] in table {
        AnsweredGood(table[due[0]], worlds(due[0]), depth, max);
        TickTouches(table[due[0] := Answered(table[due[0]], worlds(due[0]), depth, max)], due[1..], worlds, depth, max, k);
      } else {
        TickTouches(table, due[1..], worlds, depth, max, k);
      }
    }
  }

  /** All conversations, in the order of the query's rows. */
  class Desk {
    var keys: seq<Key>
    var table: Table
    const clock: Clock
    const depth: nat
    const max: nat

    constructor (clock: Clock, depth: nat, max: nat)
      ensures Valid() && keys == [] && table == map[] && this.clock == clock && this.depth == depth && this.max == max
    {
      this.clock, this.depth, this.max, this.keys, this.table := clock, depth, max, [], map[];
    }

    ghost predicate Valid()
      reads this
    {
      && (forall i, j | 0 <= i < j < |keys| :: keys[i] != keys[j])
      && (forall k | k in keys :: k in table)
      && TableOk(table)
    }

    /** The conversations that are due, in order. */
    method DueConversations(now: nat) returns (due: seq<Key>)
      requires Valid()
      ensures due == DueKeys(clock, now, keys, table)
    {
      hide Due, Good;
      due := [];
      var t := table;
      for i := 0 to |keys|
        invariant due == DueKeys(clock, now, keys[..i], t)
      {
        assert keys[..i + 1][..i] == keys[..i];
        assert keys[i] in keys;
        if Due(clock, now, t[keys[i]]) {
          due := due + [keys[i]];
        }
      }
      assert keys[..|keys|] == keys;
    }

    /** Answers what is due, one conversation at a time. */
    method Tick(now: nat, worlds: Key -> World)
      requires Valid()
      modifies this`table
      ensures Valid() && table == Ticked(old(table), DueKeys(clock, now, keys, old(table)), worlds, depth, max)
    {
      hide Good, Answered, DueKeys;
      var due := DueConversations(now);
      ghost var want := Ticked(table, due, worlds, depth, max);
      assert due[0..] == due;
      for i := 0 to |due|
        invariant Valid() && Ticked(table, due[i..], worlds, depth, max) == want
      {
        assert due[i..][0] == due[i] && due[i..][1..] == due[i + 1..];
        if due[i] in table {
          AnsweredGood(table[due[i]], worlds(due[i]), depth, max);
          table := table[due[i] := Answered(table[due[i]], worlds(due[i]), depth, max)];
        }
      }
    }
  }
}

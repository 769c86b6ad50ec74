/**
 * The turn protocol around the reducer (chatlink_bot handlers.py run_turn and
 * logic/loop.py) for one conversation: messages arrive at any time, also while
 * a turn is thinking; a turn answers the pending ones and commits once, or
 * fails and commits nothing. Turns run one at a time.
 */
module Turns {
  import opened Options
  import opened Seqs
  import opened Reducer
  import opened ReducerInvariant
  import opened ReducerLoss
  import opened ReducerFacts

  datatype Message = Message(id: nat, received: bool, isBot: bool, time: nat)

  datatype Session = Session(lastAnswered: nat, enabled: bool, s: State)

  datatype Order = Order(cart: seq<Line>, review: seq<Item>)

  /** A committed turn: the messages it answered, and the reducer's part in it, if it got that far. */
  datatype Committed = Committed(batch: seq<nat>, reduced: Option<Reduction>)

  datatype Reduction = Reduction(input: State, ops: seq<Op>, media: bool, global: Option<int>, result: Turn)

  /** A turn under way: its pending messages and the salesman's last one, as read at its start. */
  datatype Flight = Flight(batch: seq<nat>, lastSalesman: nat)

  datatype Conversation = Conversation(
    messages: seq<Message>, session: Session, flight: Option<Flight>,
    orders: seq<Order>, log: seq<Committed>)

  /**
   * What a turn meets outside: the clock, coverage, text, opt-outs, a known
   * client, failures, whether the text leaves anything to apply, and the
   * model's operations.
   */
  datatype World = World(
    now: nat, covered: bool, text: bool, named: bool, known: bool, fails: bool, applies: bool, replies: bool, optsOut: bool,
    ops: seq<Op>, media: bool, global: Option<int>)

  datatype Action = Ingest(m: Message) | StartTurn | EndTurn(world: World)

  // ------------------------------------------------------------------
  // Reading the history
  // ------------------------------------------------------------------

  predicate FromSalesman(m: Message) { !m.received && !m.isBot }

  predicate FromClient(m: Message) { m.received && !m.isBot }

  function MaxId(messages: seq<Message>, p: Message -> bool): (r: nat)
    ensures r == 0 || exists i :: 0 <= i < |messages| && p(messages[i]) && messages[i].id == r
    ensures forall i | 0 <= i < |messages| && p(messages[i]) :: messages[i].id <= r
  {
    if messages == [] then 0
    else
      var r, m := MaxId(messages[..|messages| - 1], p), messages[|messages| - 1];
      if p(m) && m.id > r then m.id else r
  }

  /** The last n messages. */
  function History(messages: seq<Message>, n: nat): seq<Message> {
    if |messages| <= n then messages else messages[|messages| - n..]
  }

  /** Ids of the client's messages after the cursor. */
  function Pending(history: seq<Message>, cursor: nat): (r: seq<nat>)
    ensures forall i | 0 <= i < |r| :: r[i] > cursor && exists k :: 0 <= k < |history| && FromClient(history[k]) && history[k].id == r[i]
  {
    if history == [] then []
    else
      var init, m := Pending(history[..|history| - 1], cursor), history[|history| - 1];
      if FromClient(m) && m.id > cursor then init + [m.id] else init
  }

  function Max(a: nat, b: nat): nat { if a < b then b else a }

  // ------------------------------------------------------------------
  // Steps
  // ------------------------------------------------------------------

  /** Ids grow in the order messages are committed. */
  predicate Newer(messages: seq<Message>, m: Message) {
    m.id > 0 && forall i | 0 <= i < |messages| :: messages[i].id < m.id
  }

  predicate Enabled(c: Conversation, a: Action) {
    match a
    case Ingest(m) => Newer(c.messages, m)
    case StartTurn => c.flight.None?
    case EndTurn(_) => c.flight.Some?
  }

  function Begun(c: Conversation, depth: nat): Conversation {
    var history := History(c.messages, depth);
    var salesman := MaxId(history, FromSalesman);
    var batch := Pending(history, Max(c.session.lastAnswered, salesman));
    if batch == [] then c else c.(flight := Some(Flight(batch, salesman)))
  }

  /** The reducer's input: only a closed order starts a fresh cart. */
  function TurnInput(s: State): State {
    var last := if s.status == Closed && s.cart != [] then s.cart else s.lastClosed;
    if s.status == Closed then State(Idle, [], [], last) else s.(lastClosed := last)
  }

  function NextId(messages: seq<Message>): nat { MaxId(messages, (m: Message) => true) + 1 }

  /** The turn ends without an answer: its messages are handled all the same. */
  function Skipped(c: Conversation, batch: seq<nat>, session: Session): Conversation
    requires batch != []
  {
    c.(session := session.(lastAnswered := batch[|batch| - 1]), flight := None, log := c.log + [Committed(batch, None)])
  }

  function Ended(c: Conversation, w: World, max: nat): Conversation
    requires c.flight.Some? && c.flight.value.batch != []
  {
    var Flight(batch, salesman) := c.flight.value;
    if !w.covered || !w.text then Skipped(c, batch, c.session)
    else if !c.session.enabled && !w.named then Skipped(c, batch, c.session)
    else
      var session := c.session.(enabled := true);
      if w.fails then c.(flight := None)
      else if !w.known then Skipped(c, batch, session)
      else
        var input := TurnInput(session.s);
        var kept := session.(s := session.s.(lastClosed := input.lastClosed));
        if MaxId(c.messages, FromSalesman) > salesman then Skipped(c, batch, kept)
        else if !w.applies then Skipped(c, batch, session.(s := input))
        else
          var t := Reduce(input, w.ops, w.media, w.global, max);
          var after := if t.s.status == Closed then t.s.(lastClosed := t.s.cart) else t.s;
          var reply := if w.replies then [Message(NextId(c.messages), false, true, w.now)] else [];
          var order := if t.s.status == Closed then [Order(t.s.cart, Reviews(t.s.items))] else [];
          Conversation(
            c.messages + reply,
            Session(batch[|batch| - 1], !w.optsOut, after),
            None, c.orders + order, c.log + [Committed(batch, Some(Reduction(input, w.ops, w.media, w.global, t)))])
  }

  function Step(c: Conversation, a: Action, depth: nat, max: nat): Conversation
    requires Enabled(c, a) && (c.flight.Some? ==> c.flight.value.batch != [])
  {
    match a
    case Ingest(m) => c.(messages := c.messages + [m])
    case StartTurn => Begun(c, depth)
    case EndTurn(w) => Ended(c, w, max)
  }

  // ------------------------------------------------------------------
  // The invariant
  // ------------------------------------------------------------------

  predicate Increasing(s: seq<nat>) { forall i, j | 0 <= i < j < |s| :: s[i] < s[j] }

  /** Ids from above lo up to hi, in growing order. */
  predicate Between(batch: seq<nat>, lo: nat, hi: nat) {
    Increasing(batch) && forall x | x in batch :: lo < x <= hi
  }

  function Reached(log: seq<Committed>): nat {
    if log == [] then 0
    else
      var last := log[|log| - 1].batch;
      if last == [] then Reached(log[..|log| - 1]) else last[|last| - 1]
  }

  /** Each committed batch lies above everything committed before it. */
  predicate Chained(log: seq<Committed>) {
    if log == [] then true
    else
      var init, last := log[..|log| - 1], log[|log| - 1].batch;
      Chained(init) && last != [] && Between(last, Reached(init), last[|last| - 1])
  }

  function Closes(entry: Committed): bool { entry.reduced.Some? && entry.reduced.value.result.s.status == Closed }

  function OrdersOf(log: seq<Committed>): seq<Order> {
    if log == [] then []
    else
      var init, last := OrdersOf(log[..|log| - 1]), log[|log| - 1];
      if Closes(last) then init + [Order(last.reduced.value.result.s.cart, Reviews(last.reduced.value.result.s.items))] else init
  }

  predicate Ascending(messages: seq<Message>) {
    forall i, j | 0 <= i < j < |messages| :: messages[i].id < messages[j].id
  }

  /** The last turn that reached the reducer. */
  function LastReduced(log: seq<Committed>): (r: Option<Reduction>) {
    if log == [] then None
    else if log[|log| - 1].reduced.Some? then log[|log| - 1].reduced
    else LastReduced(log[..|log| - 1])
  }

  /** Cart and queue with which the turn after these starts. */
  predicate Resumes(last: Option<Reduction>, input: State) {
    match last
    case None => input.status == Idle && input.cart == [] && input.items == []
    case Some(Reduction(_, _, _, _, t)) =>
      if t.s.status == Closed then input.status == Idle && input.cart == [] && input.items == [] && (t.s.cart != [] ==> input.lastClosed == t.s.cart)
      else input.status == t.s.status && input.cart == t.s.cart && input.items == t.s.items
  }

  /** Every turn starts where the one before it ended, and after a closed order from nothing. */
  predicate Continuous(log: seq<Committed>) {
    log == [] ||
    (Continuous(log[..|log| - 1]) &&
     (log[|log| - 1].reduced.Some? ==> Resumes(LastReduced(log[..|log| - 1]), log[|log| - 1].reduced.value.input)))
  }

  predicate Good(c: Conversation) {
    && Ascending(c.messages)
    && Continuous(c.log) && Resumes(LastReduced(c.log), TurnInput(c.session.s))
    && Chained(c.log) && Reached(c.log) == c.session.lastAnswered
    && c.orders == OrdersOf(c.log)
    && (c.flight.Some? ==>
          var b := c.flight.value.batch;
          b != [] && Between(b, c.session.lastAnswered, b[|b| - 1]))
  }

  lemma {:induction false} PendingGrows(history: seq<Message>, cursor: nat)
    requires Ascending(history)
    ensures Increasing(Pending(history, cursor))
    ensures forall x | x in Pending(history, cursor) :: history != [] && cursor < x <= history[|history| - 1].id
    decreases |history|
  {
    if history != [] {
      var init, m := history[..|history| - 1], history[|history| - 1];
      PendingGrows(init, cursor);
      var q := Pending(init, cursor);
      forall x | x in q ensures x < m.id {
        assert history[|init| - 1].id < history[|init|].id;
      }
      IncreasingMore(q, m.id);
    }
  }

  lemma IncreasingMore(q: seq<nat>, x: nat)
    requires Increasing(q) && forall y | y in q :: y < x
    ensures Increasing(q + [x])
  {
    forall i, j | 0 <= i < j < |q + [x]| ensures (q + [x])[i] < (q + [x])[j] {
      assert q[i] in q;
      assert j < |q| ==> q[i] < q[j];
    }
  }

  lemma LastIsMost(b: seq<nat>)
    requires Increasing(b) && b != []
    ensures forall x | x in b :: x <= b[|b| - 1]
    ensures b[|b| - 1] in b
  {}

  lemma BegunGood(c: Conversation, depth: nat)
    requires Good(c) && c.flight.None?
    ensures Good(Begun(c, depth))
  {
    hide Chained, OrdersOf, Continuous, Resumes, Pending, MaxId;
    var history := History(c.messages, depth);
    assert Ascending(history);
    var cursor := Max(c.session.lastAnswered, MaxId(history, FromSalesman));
    PendingGrows(history, cursor);
    var b := Pending(history, cursor);
    if b != [] {
      LastIsMost(b);
    }
  }

  lemma ChainGrows(log: seq<Committed>, e: Committed)
    requires Chained(log) && e.batch != [] && Between(e.batch, Reached(log), e.batch[|e.batch| - 1])
    ensures Chained(log + [e]) && Reached(log + [e]) == e.batch[|e.batch| - 1]
  {
    assert (log + [e])[..|log|] == log;
  }

  lemma OrdersGrow(log: seq<Committed>, e: Committed)
    ensures OrdersOf(log + [e]) == if Closes(e) then OrdersOf(log) + [Order(e.reduced.value.result.s.cart, Reviews(e.reduced.value.result.s.items))] else OrdersOf(log)
  {
    hide Reviews;
    assert (log + [e])[..|log|] == log;
  }

  lemma ReductionsGrow(log: seq<Committed>, e: Committed)
    requires Continuous(log) && (e.reduced.Some? ==> Resumes(LastReduced(log), e.reduced.value.input))
    ensures Continuous(log + [e])
    ensures LastReduced(log + [e]) == if e.reduced.Some? then e.reduced else LastReduced(log)
  {
    hide Resumes;
    assert (log + [e])[..|log|] == log;
  }

  lemma LogGrows(log: seq<Committed>, e: Committed)
    requires Chained(log) && e.batch != [] && Between(e.batch, Reached(log), e.batch[|e.batch| - 1])
    requires Continuous(log) && (e.reduced.Some? ==> Resumes(LastReduced(log), e.reduced.value.input))
    ensures Chained(log + [e]) && Reached(log + [e]) == e.batch[|e.batch| - 1]
    ensures OrdersOf(log + [e]) == if Closes(e) then OrdersOf(log) + [Order(e.reduced.value.result.s.cart, Reviews(e.reduced.value.result.s.items))] else OrdersOf(log)
    ensures Continuous(log + [e])
    ensures LastReduced(log + [e]) == if e.reduced.Some? then e.reduced else LastReduced(log)
  {
    hide Chained, Reached, Between, OrdersOf, Continuous, LastReduced, Resumes, Reviews, Closes;
    ChainGrows(log, e);
    OrdersGrow(log, e);
    ReductionsGrow(log, e);
  }

  lemma SameInput(s: State)
    ensures TurnInput(s.(lastClosed := TurnInput(s).lastClosed)) == TurnInput(s) == TurnInput(TurnInput(s))
  {}

  lemma SkippedGood(c: Conversation, session: Session)
    requires Good(c) && c.flight.Some? && session.lastAnswered == c.session.lastAnswered
    requires TurnInput(session.s) == TurnInput(c.session.s)
    ensures Good(Skipped(c, c.flight.value.batch, session))
  {
    hide Chained, OrdersOf, Continuous, Resumes, Between;
    LogGrows(c.log, Committed(c.flight.value.batch, None));
  }

  lemma ReplyAscends(messages: seq<Message>, now: nat)
    requires Ascending(messages)
    ensures Ascending(messages + [Message(NextId(messages), false, true, now)])
  {}

  lemma AnswerResumes(r: Reduction, t: Turn, after: State)
    requires r.result == t && after == if t.s.status == Closed then t.s.(lastClosed := t.s.cart) else t.s
    ensures Resumes(Some(r), TurnInput(after))
  {}

  lemma EndedGood(c: Conversation, w: World, max: nat)
    requires Good(c) && c.flight.Some?
    ensures Good(Ended(c, w, max))
  {
    hide Chained, OrdersOf, Continuous, Resumes, Between, Reduce, MaxId, Reviews, Skipped;
    var batch := c.flight.value.batch;
    SkippedGood(c, c.session);
    var session := c.session.(enabled := true);
    SkippedGood(c, session);
    var input := TurnInput(session.s);
    SameInput(session.s);
    SkippedGood(c, session.(s := session.s.(lastClosed := input.lastClosed)));
    SkippedGood(c, session.(s := input));
    var t := Reduce(input, w.ops, w.media, w.global, max);
    LogGrows(c.log, Committed(batch, Some(Reduction(input, w.ops, w.media, w.global, t))));
    ReplyAscends(c.messages, w.now);
    AnswerResumes(Reduction(input, w.ops, w.media, w.global, t), t, if t.s.status == Closed then t.s.(lastClosed := t.s.cart) else t.s);
    assert c.messages + [] == c.messages && c.orders + [] == c.orders;
  }

  lemma EndedMonotone(c: Conversation, w: World, max: nat)
    requires c.flight.Some? && c.flight.value.batch != []
    requires c.flight.value.batch[|c.flight.value.batch| - 1] >= c.session.lastAnswered
    ensures var d := Ended(c, w, max); c.session.lastAnswered <= d.session.lastAnswered && c.log <= d.log && c.orders <= d.orders
  {
    hide Reduce, Reviews, MaxId;
  }

  lemma IngestGood(c: Conversation, m: Message)
    requires Good(c) && Newer(c.messages, m)
    ensures Good(c.(messages := c.messages + [m]))
  {
    hide Chained, OrdersOf, Continuous, Resumes, Between;
  }

  lemma BatchLast(b: seq<nat>, lo: nat)
    requires b != [] && Between(b, lo, b[|b| - 1])
    ensures b[|b| - 1] > lo
  {
    assert b[|b| - 1] in b;
  }

  lemma StepGood(c: Conversation, a: Action, depth: nat, max: nat)
    requires Good(c) && Enabled(c, a)
    ensures Good(Step(c, a, depth, max))
    ensures c.session.lastAnswered <= Step(c, a, depth, max).session.lastAnswered
    ensures c.log <= Step(c, a, depth, max).log && c.orders <= Step(c, a, depth, max).orders
  {
    hide Chained, OrdersOf, Continuous, Resumes, Between, Ended, Reached, LastReduced, Ascending;
    match a
    case Ingest(m) => IngestGood(c, m);
    case StartTurn => BegunGood(c, depth);
    case EndTurn(w) =>
      BatchLast(c.flight.value.batch, c.session.lastAnswered);
      EndedGood(c, w, max);
      EndedMonotone(c, w, max);
  }

  // ------------------------------------------------------------------
  // Runs
  // ------------------------------------------------------------------

  function Start(): Conversation {
    Conversation([], Session(0, true, State(Idle, [], [], [])), None, [], [])
  }

  function Execute(actions: seq<Action>, depth: nat, max: nat): (r: Option<Conversation>)
    ensures r.Some? ==> Good(r.value)
  {
    if actions == [] then Some(Start())
    else
      var before, a := Execute(actions[..|actions| - 1], depth, max), actions[|actions| - 1];
      if before.Some? && Enabled(before.value, a) then
        StepGood(before.value, a, depth, max);
        Some(Step(before.value, a, depth, max))
      else None
  }

  lemma {:induction false} BatchesApart(log: seq<Committed>, i: nat, j: nat, x: nat, y: nat)
    requires Chained(log) && i < j < |log| && x in log[i].batch && y in log[j].batch
    ensures x <= Reached(log[..j]) && x < y
    decreases |log|
  {
    var init := log[..|log| - 1];
    if j < |log| - 1 {
      BatchesApart(init, i, j, x, y);
      assert init[..j] == log[..j];
    } else {
      assert log[..j] == init;
      ReachedAbove(init, i, x);
    }
  }

  lemma {:induction false} ReachedAbove(log: seq<Committed>, i: nat, x: nat)
    requires Chained(log) && i < |log| && x in log[i].batch
    ensures x <= Reached(log)
    decreases |log|
  {
    var init, last := log[..|log| - 1], log[|log| - 1].batch;
    if i < |log| - 1 {
      ReachedAbove(init, i, x);
      BatchLast(last, Reached(init));
    }
  }

  /**
   * In every run of arriving messages and turns, each client message is in
   * the batch of at most one committed turn, and later turns answer later
   * messages.
   */
  lemma AnsweredOnce(actions: seq<Action>, depth: nat, max: nat, i: nat, j: nat, x: nat, y: nat)
    requires Execute(actions, depth, max).Some?
    requires i < j < |Execute(actions, depth, max).value.log|
    requires x in Execute(actions, depth, max).value.log[i].batch && y in Execute(actions, depth, max).value.log[j].batch
    ensures x < y
  {
    hide Execute;
    BatchesApart(Execute(actions, depth, max).value.log, i, j, x, y);
  }

  /** The cursor never goes back, and committed turns and orders are never undone. */
  lemma {:induction false} CursorMonotone(actions: seq<Action>, depth: nat, max: nat, k: nat)
    requires k <= |actions| && Execute(actions, depth, max).Some?
    ensures var before, after := Execute(actions[..k], depth, max), Execute(actions, depth, max).value;
      before.Some? && before.value.session.lastAnswered <= after.session.lastAnswered
      && before.value.log <= after.log && before.value.orders <= after.orders
    decreases |actions|
  {
    hide Step, Good;
    if k == |actions| {
      assert actions[..k] == actions;
    } else {
      var init := actions[..|actions| - 1];
      assert init[..k] == actions[..k];
      CursorMonotone(init, depth, max, k);
      StepGood(Execute(init, depth, max).value, actions[|actions| - 1], depth, max);
    }
  }

  /** The operations a model may return, and quantities as the reducer expects them. */
  predicate WorldOk(w: World) { QtyOk(w.global) && forall op | op in w.ops :: OpOk(op) }

  /** A recorded turn is the reducer's, on a sound input with nothing closed. */
  predicate Faithful(r: Reduction, max: nat) {
    && StateOk(r.input) && r.input.status != Closed && QtyOk(r.global) && (forall op | op in r.ops :: OpOk(op))
    && r.result == Reduce(r.input, r.ops, r.media, r.global, max)
  }

  predicate Healthy(c: Conversation, max: nat) {
    && StateOk(c.session.s)
    && forall i | 0 <= i < |c.log| && c.log[i].reduced.Some? :: Faithful(c.log[i].reduced.value, max)
  }

  lemma InputOk(s: State)
    requires StateOk(s)
    ensures StateOk(TurnInput(s)) && TurnInput(s).status != Closed
  {}

  lemma StepHealthy(c: Conversation, a: Action, depth: nat, max: nat)
    requires Good(c) && Enabled(c, a) && Healthy(c, max) && (a.EndTurn? ==> WorldOk(a.world))
    ensures Healthy(Step(c, a, depth, max), max)
  {
    hide Reduce, Reviews, Chained, OrdersOf, Continuous, Resumes, MaxId, Between, CartOk, QueueOk;
    if a.EndTurn? {
      var input := TurnInput(c.session.s);
      InputOk(c.session.s);
      ReduceKeepsShape(input, a.world.ops, a.world.media, a.world.global, max);
      CartClosed(Reduce(input, a.world.ops, a.world.media, a.world.global, max).s);
    }
  }

  lemma CartClosed(s: State)
    requires StateOk(s)
    ensures StateOk(s.(lastClosed := s.cart))
  {}

  lemma {:induction false} RunHealthy(actions: seq<Action>, depth: nat, max: nat)
    requires Execute(actions, depth, max).Some? && forall a | a in actions && a.EndTurn? :: WorldOk(a.world)
    ensures Healthy(Execute(actions, depth, max).value, max)
    decreases |actions|
  {
    hide Step, Good, Healthy, WorldOk;
    if actions == [] {
      StartHealthy(max);
    } else {
      var init := actions[..|actions| - 1];
      RunHealthy(init, depth, max);
      StepHealthy(Execute(init, depth, max).value, actions[|actions| - 1], depth, max);
    }
  }

  lemma StartHealthy(max: nat)
    ensures Healthy(Start(), max)
  {}

  /**
   * Order rows are exactly those of committed turns that ended closed; every
   * turn starts where the one before it ended, and the one after a closed
   * order from an empty cart and queue.
   */
  lemma OrdersAndFreshCarts(actions: seq<Action>, depth: nat, max: nat)
    requires Execute(actions, depth, max).Some?
    ensures var c := Execute(actions, depth, max).value; c.orders == OrdersOf(c.log) && Continuous(c.log)
  {
    hide Execute;
    assert Good(Execute(actions, depth, max).value);
  }

  /** A committed turn writes an order exactly when its reducer confirmed a live close proposal. */
  lemma ClosedByConfirmation(actions: seq<Action>, depth: nat, max: nat, i: nat)
    requires Execute(actions, depth, max).Some? && forall a | a in actions && a.EndTurn? :: WorldOk(a.world)
    requires i < |Execute(actions, depth, max).value.log| && Execute(actions, depth, max).value.log[i].reduced.Some?
    ensures var e := Execute(actions, depth, max).value.log[i]; var r := e.reduced.value;
      Closes(e) <==> exists k :: 0 <= k < |r.ops| && ConfirmsClose(ApplyAll(Begin(r.input, r.global), r.ops[..k], r.media), r.ops[k])
  {
    hide Execute, Reduce, ConfirmsClose, ApplyAll, StateOk, OpOk;
    RunHealthy(actions, depth, max);
    var r := Execute(actions, depth, max).value.log[i].reduced.value;
    assert Faithful(r, max);
    ReduceSays(r.input, r.ops, r.media, r.global, max);
  }
}

/** Which turns answer and which stay silent, and when the bot is on or off for a client. */
module TurnsAnswer {
  import opened Options
  import opened Reducer
  import opened Turns

  /** No message of the salesman is newer than the last one the turn read at its start. */
  predicate SalesmanSilent(c: Conversation)
    requires c.flight.Some?
  {
    forall i | 0 <= i < |c.messages| && FromSalesman(c.messages[i]) :: c.messages[i].id <= c.flight.value.lastSalesman
  }

  /** The turn goes on for this client: the salesman covers, there is text, and the bot is on or called by name. */
  predicate Admitted(c: Conversation, w: World) { w.covered && w.text && (c.session.enabled || w.named) }

  /** The turn reaches the reducer. */
  predicate Answers(c: Conversation, w: World)
    requires c.flight.Some?
  {
    Admitted(c, w) && !w.fails && w.known && SalesmanSilent(c) && w.applies
  }

  lemma SilentIs(c: Conversation)
    requires c.flight.Some?
    ensures SalesmanSilent(c) <==> MaxId(c.messages, FromSalesman) <= c.flight.value.lastSalesman
  {}

  /** What the next turn would start from. */
  predicate SameOrder(s: State, t: State) {
    TurnInput(t) == TurnInput(s) && (s.status != Closed ==> t == s.(lastClosed := t.lastClosed))
  }

  /**
   * A turn reaches the reducer exactly when it answers, and then with what the
   * session held and the model's operations; otherwise messages, orders, cart
   * and queue are as they were. A failure commits nothing at all; any other end
   * handles the batch.
   */
  lemma EndedExact(c: Conversation, w: World, max: nat)
    requires c.flight.Some? && c.flight.value.batch != []
    ensures var d, batch := Ended(c, w, max), c.flight.value.batch; var input := TurnInput(c.session.s);
      && d.flight.None?
      && (Answers(c, w) ==>
            var t := Reduce(input, w.ops, w.media, w.global, max);
            && d.log == c.log + [Committed(batch, Some(Reduction(input, w.ops, w.media, w.global, t)))]
            && d.session.s == t.s.(lastClosed := if t.s.status == Closed then t.s.cart else t.s.lastClosed)
            && d.messages == c.messages + (if w.replies then [Message(NextId(c.messages), false, true, w.now)] else []))
      && (!Answers(c, w) ==>
            && d.messages == c.messages && d.orders == c.orders && SameOrder(c.session.s, d.session.s)
            && d.log == if Admitted(c, w) && w.fails then c.log else c.log + [Committed(batch, None)])
      && d.session.lastAnswered == if Admitted(c, w) && w.fails then c.session.lastAnswered else batch[|batch| - 1]
  {
    hide Reduce, MaxId, NextId;
    SilentIs(c);
  }

  /** The bot's switch: on for a client let in, off for one who opts out, and otherwise as it was. */
  lemma EndedEnabled(c: Conversation, w: World, max: nat)
    requires c.flight.Some? && c.flight.value.batch != []
    ensures Ended(c, w, max).session.enabled
      == if !Admitted(c, w) || w.fails then c.session.enabled else !(Answers(c, w) && w.optsOut)
  {
    hide Reduce, MaxId, NextId;
    SilentIs(c);
  }

  lemma OtherSteps(c: Conversation, a: Action, depth: nat, max: nat)
    requires Good(c) && Enabled(c, a) && !a.EndTurn?
    ensures var d := Step(c, a, depth, max); d.session == c.session && d.log == c.log && d.orders == c.orders
    ensures var d := Step(c, a, depth, max); d.messages == c.messages + if a.Ingest? then [a.m] else []
  {
    hide Good, Pending, MaxId;
  }

  // ------------------------------------------------------------------
  // Runs
  // ------------------------------------------------------------------

  lemma LastStep(actions: seq<Action>, depth: nat, max: nat)
    requires actions != [] && Execute(actions, depth, max).Some?
    ensures var c := Execute(actions[..|actions| - 1], depth, max); var a := actions[|actions| - 1];
      && c.Some? && Good(c.value) && Enabled(c.value, a) && Execute(actions, depth, max).value == Step(c.value, a, depth, max)
  {
    hide Step, Good, Enabled;
  }

  /** In every run the turn that ends last reaches the reducer exactly when it answers. */
  lemma RunAnswers(actions: seq<Action>, depth: nat, max: nat, w: World)
    requires actions != [] && actions[|actions| - 1] == EndTurn(w) && Execute(actions, depth, max).Some?
    ensures Execute(actions[..|actions| - 1], depth, max).Some?
    ensures var c, d := Execute(actions[..|actions| - 1], depth, max).value, Execute(actions, depth, max).value;
      && c.flight.Some? && (Answers(c, w) <==> |d.log| > |c.log| && d.log[|d.log| - 1].reduced.Some?)
      && (!Answers(c, w) ==> d.messages == c.messages && d.orders == c.orders && SameOrder(c.session.s, d.session.s))
      && (d.session.enabled && !c.session.enabled ==> w.named)
      && (!d.session.enabled && c.session.enabled ==> w.optsOut && Answers(c, w))
  {
    hide Execute, Ended, Answers, SameOrder;
    LastStep(actions, depth, max);
    var c := Execute(actions[..|actions| - 1], depth, max).value;
    EndedExact(c, w, max);
    EndedEnabled(c, w, max);
  }

  /** Between two moments of a run the bot comes on for a client only by name, and goes off only by opting out. */
  lemma {:induction false} SwitchedByClient(actions: seq<Action>, depth: nat, max: nat, k: nat)
    requires k <= |actions| && Execute(actions, depth, max).Some?
    ensures Execute(actions[..k], depth, max).Some?
    ensures var c, d := Execute(actions[..k], depth, max).value, Execute(actions, depth, max).value;
      && (!c.session.enabled && d.session.enabled ==> exists i :: k <= i < |actions| && actions[i].EndTurn? && actions[i].world.named)
      && (c.session.enabled && !d.session.enabled ==> exists i :: k <= i < |actions| && actions[i].EndTurn? && actions[i].world.optsOut)
    decreases |actions|
  {
    hide Execute, Good, Answers, SameOrder;
    if k == |actions| {
      assert actions[..k] == actions;
    } else {
      var init, a := actions[..|actions| - 1], actions[|actions| - 1];
      assert init[..k] == actions[..k];
      LastStep(actions, depth, max);
      SwitchedByClient(init, depth, max, k);
      if a.EndTurn? {
        RunAnswers(actions, depth, max, a.world);
      } else {
        OtherSteps(Execute(init, depth, max).value, a, depth, max);
      }
      forall i | 0 <= i < |init| ensures init[i] == actions[i] {}
    }
  }

  /** A client who has opted out and does not call the bot is left alone, whatever arrives. */
  lemma {:induction false} OptedOutLeftAlone(actions: seq<Action>, depth: nat, max: nat, k: nat)
    requires k <= |actions| && Execute(actions, depth, max).Some? && Execute(actions[..k], depth, max).Some?
    requires !Execute(actions[..k], depth, max).value.session.enabled
    requires forall i | k <= i < |actions| && actions[i].EndTurn? :: !actions[i].world.named
    ensures var c, d := Execute(actions[..k], depth, max).value, Execute(actions, depth, max).value;
      && !d.session.enabled && d.orders == c.orders && SameOrder(c.session.s, d.session.s)
      && (forall i | |c.log| <= i < |d.log| :: d.log[i].reduced.None?)
      && (forall m | m in d.messages && m !in c.messages :: Ingest(m) in actions[k..])
    decreases |actions|
  {
    hide Execute, Good, SameOrder;
    if k == |actions| {
      assert actions[..k] == actions;
      SameOrderSelf(Execute(actions, depth, max).value.session.s);
    } else {
      var init, a := actions[..|actions| - 1], actions[|actions| - 1];
      assert init[..k] == actions[..k];
      assert actions[k..] == init[k..] + [a];
      LastStep(actions, depth, max);
      forall i | 0 <= i < |init| ensures init[i] == actions[i] {}
      OptedOutLeftAlone(init, depth, max, k);
      var c, b := Execute(actions[..k], depth, max).value, Execute(init, depth, max).value;
      if a.EndTurn? {
        assert !actions[|actions| - 1].world.named;
        FlightOk(b);
        EndedExact(b, a.world, max);
        EndedEnabled(b, a.world, max);
        SameOrderThen(c.session.s, b.session.s, Execute(actions, depth, max).value.session.s);
      } else {
        OtherSteps(b, a, depth, max);
      }
    }
  }

  lemma FlightOk(c: Conversation)
    requires Good(c)
    ensures c.flight.Some? ==> c.flight.value.batch != []
  {}

  lemma SameOrderSelf(s: State)
    ensures SameOrder(s, s)
  {}

  lemma SameOrderThen(a: State, b: State, c: State)
    requires SameOrder(a, b) && SameOrder(b, c)
    ensures SameOrder(a, c)
  {}
}

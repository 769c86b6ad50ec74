/**
 * Over whole runs of a conversation: what becomes of the products the client
 * asked for, and what a closed order leaves behind.
 */
module TurnsLoss {
  import opened Options
  import opened Seqs
  import opened Reducer
  import opened ReducerInvariant
  import opened ReducerLoss
  import opened ReducerFacts
  import opened ReducerClose
  import opened Turns

  /** The turns that reached the reducer. */
  function Reductions(log: seq<Committed>): seq<Reduction> {
    if log == [] then []
    else Reductions(log[..|log| - 1]) + (if log[|log| - 1].reduced.Some? then [log[|log| - 1].reduced.value] else [])
  }

  /** Where the turn after turn i starts. */
  function Next(rs: seq<Reduction>, end: State, i: nat): State
    requires i < |rs|
  {
    if i + 1 < |rs| then rs[i + 1].input else end
  }

  predicate Recorded(r: Reduction, max: nat) {
    r.input.status != Closed && r.result == Reduce(r.input, r.ops, r.media, r.global, max)
  }

  /** Turns of the reducer, each starting where the one before it ended; the next one starts from end. */
  predicate Linked(rs: seq<Reduction>, end: State, max: nat) {
    forall i | 0 <= i < |rs| :: Recorded(rs[i], max) && Resumes(Some(rs[i]), Next(rs, end, i))
  }

  lemma {:induction false} LastOf(log: seq<Committed>)
    ensures LastReduced(log) == if Reductions(log) == [] then None else Some(Reductions(log)[|Reductions(log)| - 1])
    decreases |log|
  {
    if log != [] {
      LastOf(log[..|log| - 1]);
    }
  }

  predicate AllRecorded(log: seq<Committed>, max: nat) {
    forall i | 0 <= i < |log| && log[i].reduced.Some? :: Recorded(log[i].reduced.value, max)
  }

  lemma {:induction false} LogLinked(log: seq<Committed>, end: State, max: nat)
    requires Continuous(log) && AllRecorded(log, max) && Resumes(LastReduced(log), end)
    ensures Linked(Reductions(log), end, max)
    decreases |log|
  {
    hide Recorded, Resumes;
    if log != [] {
      var init, last := log[..|log| - 1], log[|log| - 1];
      LastOf(log);
      LastOf(init);
      if last.reduced.Some? {
        LogLinked(init, last.reduced.value.input, max);
        assert Recorded(last.reduced.value, max);
      } else {
        LogLinked(init, end, max);
      }
    }
  }

  lemma StepRecorded(c: Conversation, a: Action, depth: nat, max: nat)
    requires Good(c) && Enabled(c, a) && AllRecorded(c.log, max)
    ensures AllRecorded(Step(c, a, depth, max).log, max)
  {
    hide Reduce, Reviews, MaxId, Chained, OrdersOf, Continuous, Resumes, Between;
  }

  lemma {:induction false} RunRecorded(actions: seq<Action>, depth: nat, max: nat)
    requires Execute(actions, depth, max).Some?
    ensures AllRecorded(Execute(actions, depth, max).value.log, max)
    decreases |actions|
  {
    hide Step, Good, AllRecorded;
    if actions == [] {
      NothingRecorded(max);
    } else {
      var init := actions[..|actions| - 1];
      RunRecorded(init, depth, max);
      StepRecorded(Execute(init, depth, max).value, actions[|actions| - 1], depth, max);
    }
  }

  lemma NothingRecorded(max: nat)
    ensures AllRecorded([], max)
  {}

  /** The turns of every run are linked, up to what the next turn will start from. */
  lemma RunLinked(actions: seq<Action>, depth: nat, max: nat)
    requires Execute(actions, depth, max).Some?
    ensures var c := Execute(actions, depth, max).value; Linked(Reductions(c.log), TurnInput(c.session.s), max)
  {
    hide Execute, Recorded, Resumes;
    RunRecorded(actions, depth, max);
    var c := Execute(actions, depth, max).value;
    assert Good(c);
    LogLinked(c.log, TurnInput(c.session.s), max);
  }

  // ------------------------------------------------------------------
  // A product followed through the turns after it was open
  // ------------------------------------------------------------------

  /** The operations of turn b from the moment j of turn a on. */
  function Rest(rs: seq<Reduction>, a: nat, j: nat, b: nat): seq<Op>
    requires a <= b < |rs| && j <= |rs[a].ops|
  {
    if b == a then rs[a].ops[j..] else rs[b].ops
  }

  /** The queue at that moment, and at the start of each later turn. */
  function Queue(rs: seq<Reduction>, a: nat, j: nat, b: nat): seq<Item>
    requires a <= b < |rs| && j <= |rs[a].ops|
  {
    if b == a then ApplyAll(Begin(rs[a].input, rs[a].global), rs[a].ops[..j], rs[a].media).s.items else rs[b].input.items
  }

  /** The quantity for the whole order in turn b. */
  function Whole(rs: seq<Reduction>, b: nat): Option<int>
    requires b < |rs|
  {
    GlobalAfter(rs[b].ops, rs[b].global)
  }

  /** The quantity a product open at moment j of turn a with qty has when turn b is over. */
  function QtyThrough(rs: seq<Reduction>, a: nat, j: nat, b: nat, text: string, qty: Option<int>): Option<int>
    requires a <= b < |rs| && j <= |rs[a].ops|
    decreases b
  {
    FinalQty(Rest(rs, a, j, b), text, if b == a then qty else QtyThrough(rs, a, j, b - 1, text, qty), Whole(rs, b))
  }

  function QtyBefore(rs: seq<Reduction>, a: nat, j: nat, b: nat, text: string, qty: Option<int>): Option<int>
    requires a <= b < |rs| && j <= |rs[a].ops|
  {
    if b == a then qty else QtyThrough(rs, a, j, b - 1, text, qty)
  }

  predicate NamedIn(rs: seq<Reduction>, a: nat, j: nat, upTo: nat, text: string)
    requires a < upTo <= |rs| && j <= |rs[a].ops|
  {
    exists b :: a <= b < upTo && text in ChosenAll(Rest(rs, a, j, b))
  }

  /** Turn b puts the product under review with the quantity it had. */
  predicate ReviewedBy(rs: seq<Reduction>, a: nat, j: nat, b: nat, text: string, qty: Option<int>)
    requires a <= b < |rs| && j <= |rs[a].ops|
  {
    LeftToReview(Rest(rs, a, j, b), text, QtyBefore(rs, a, j, b, text, qty), Whole(rs, b), Queue(rs, a, j, b), rs[b].result.s.items)
  }

  predicate ReviewedIn(rs: seq<Reduction>, a: nat, j: nat, upTo: nat, text: string, qty: Option<int>)
    requires a < upTo <= |rs| && j <= |rs[a].ops|
  {
    exists b :: a <= b < upTo && ReviewedBy(rs, a, j, b, text, qty)
  }

  /** Every turn from a on that closes the order accounts for everything. */
  predicate ClosesAccounted(rs: seq<Reduction>, a: nat) {
    forall b | a <= b < |rs| && rs[b].result.s.status == Closed :: Accounted(rs[b].result.s)
  }

  /** One turn of the run: the product open at its start, or at moment j of the first. */
  lemma TurnFollowed(rs: seq<Reduction>, end: State, max: nat, a: nat, j: nat, b: nat, text: string)
    requires Linked(rs, end, max) && a <= b < |rs| && j <= |rs[a].ops| && Found(Queue(rs, a, j, b), text).Some?
    ensures var p, rest := Found(Queue(rs, a, j, b), text).value, Rest(rs, a, j, b);
      var q := Found(rs[b].result.s.items, text);
      var r := rs[b];
      var progress := Progress(Rules(ApplyAll(Begin(r.input, r.global), r.ops, r.media)).facts);
      || text in ChosenAll(rest)
      || LeftToReview(rest, text, p.qty, Whole(rs, b), Queue(rs, a, j, b), rs[b].result.s.items)
      || (q.Some? && q.value.qty == FinalQty(rest, text, p.qty, Whole(rs, b)) && q.value.attempts == AttemptsAfter(p, progress) && !q.value.isNew)
  {
    hide Reduce, ApplyAll, Resumes, LeftToReview, ChosenAll, FinalQty, Progress, Rules, Found, GlobalAfter;
    var r := rs[b];
    assert Recorded(r, max);
    var i := if b == a then j else 0;
    assert r.ops[0..] == r.ops && r.ops[..0] == [];
    FromStart(r);
    TurnLosesNothing(r.input, r.ops, r.media, r.global, max, i, text);
  }

  lemma FromStart(r: Reduction)
    ensures ApplyAll(Begin(r.input, r.global), [], r.media).s.items == r.input.items
  {}

  /** An open product is not lost by an accounted close: the turn did not close. */
  lemma StillThere(rs: seq<Reduction>, end: State, max: nat, b: nat, text: string)
    requires Linked(rs, end, max) && b < |rs| && Found(rs[b].result.s.items, text).Some?
    requires rs[b].result.s.status == Closed ==> Accounted(rs[b].result.s)
    ensures rs[b].result.s.status != Closed && Next(rs, end, b).items == rs[b].result.s.items
  {
    hide Recorded;
    assert Resumes(Some(rs[b]), Next(rs, end, b));
    var at := ProductAt(rs[b].result.s.items, text).value;
    assert rs[b].result.s.items[at] in rs[b].result.s.items;
  }

  lemma {:induction false} Followed(rs: seq<Reduction>, end: State, max: nat, a: nat, j: nat, b: nat, text: string)
    requires Linked(rs, end, max) && ClosesAccounted(rs, a) && a <= b < |rs| && j <= |rs[a].ops| && Found(Queue(rs, a, j, a), text).Some?
    ensures var qty := Found(Queue(rs, a, j, a), text).value.qty; var q := Found(Next(rs, end, b).items, text);
      || NamedIn(rs, a, j, b + 1, text)
      || ReviewedIn(rs, a, j, b + 1, text, qty)
      || (q.Some? && q.value.qty == QtyThrough(rs, a, j, b, text, qty))
    decreases b
  {
    hide Linked, LeftToReview, ChosenAll, FinalQty, Progress, Rules, Found, ApplyAll;
    var qty := Found(Queue(rs, a, j, a), text).value.qty;
    if b > a {
      Followed(rs, end, max, a, j, b - 1, text);
      if NamedIn(rs, a, j, b, text) {
        var k :| a <= k < b && text in ChosenAll(Rest(rs, a, j, k));
      } else if ReviewedIn(rs, a, j, b, text, qty) {
        var k :| a <= k < b && ReviewedBy(rs, a, j, k, text, qty);
      } else {
        FollowedTurn(rs, end, max, a, j, b, text, qty);
      }
    } else {
      FollowedTurn(rs, end, max, a, j, b, text, qty);
    }
  }

  lemma FollowedTurn(rs: seq<Reduction>, end: State, max: nat, a: nat, j: nat, b: nat, text: string, qty: Option<int>)
    requires Linked(rs, end, max) && ClosesAccounted(rs, a) && a <= b < |rs| && j <= |rs[a].ops|
    requires var p := Found(Queue(rs, a, j, b), text); p.Some? && p.value.qty == QtyBefore(rs, a, j, b, text, qty)
    ensures var q := Found(Next(rs, end, b).items, text);
      || text in ChosenAll(Rest(rs, a, j, b))
      || ReviewedBy(rs, a, j, b, text, qty)
      || (q.Some? && q.value.qty == QtyThrough(rs, a, j, b, text, qty))
  {
    hide Linked, LeftToReview, ChosenAll, FinalQty, Progress, Rules, Found, ApplyAll;
    TurnFollowed(rs, end, max, a, j, b, text);
    if Found(rs[b].result.s.items, text).Some? {
      StillThere(rs, end, max, b, text);
    }
  }

  /**
   * In every run of arriving messages and turns, skipped, failed or answered:
   * a product open at any moment of a turn, new in it or not, is later named
   * by an elige, or put under review by some turn with the quantity it had, or
   * is in the queue the next turn starts from with its quantity, as long as
   * every close since accounts for everything.
   */
  lemma RunLosesNothing(actions: seq<Action>, depth: nat, max: nat, a: nat, j: nat, text: string)
    requires Execute(actions, depth, max).Some?
    requires var rs := Reductions(Execute(actions, depth, max).value.log);
      a < |rs| && j <= |rs[a].ops| && Found(Queue(rs, a, j, a), text).Some? && ClosesAccounted(rs, a)
    ensures var c := Execute(actions, depth, max).value; var rs := Reductions(c.log);
      var qty, q := Found(Queue(rs, a, j, a), text).value.qty, Found(TurnInput(c.session.s).items, text);
      || NamedIn(rs, a, j, |rs|, text)
      || ReviewedIn(rs, a, j, |rs|, text, qty)
      || (q.Some? && q.value.qty == QtyThrough(rs, a, j, |rs| - 1, text, qty))
  {
    hide Execute, Linked, NamedIn, ReviewedIn, Found, QtyThrough, Queue, ClosesAccounted, Reductions;
    RunLinked(actions, depth, max);
    var c := Execute(actions, depth, max).value;
    var rs := Reductions(c.log);
    Followed(rs, TurnInput(c.session.s), max, a, j, |rs| - 1, text);
  }

  // ------------------------------------------------------------------
  // Review lines and order rows
  // ------------------------------------------------------------------

  function RowOf(r: Reduction): Order { Order(r.result.s.cart, Reviews(r.result.s.items)) }

  lemma {:induction false} RowWritten(log: seq<Committed>, i: nat)
    requires i < |Reductions(log)| && Reductions(log)[i].result.s.status == Closed
    ensures RowOf(Reductions(log)[i]) in OrdersOf(log)
    decreases |log|
  {
    hide Reviews;
    var init := log[..|log| - 1];
    if i < |Reductions(init)| {
      RowWritten(init, i);
    }
  }

  /** A turn from b on closes with this line in its row, or the line is in the queue at the end. */
  predicate Lands(rs: seq<Reduction>, end: State, b: nat, line: Item) {
    || (exists d :: b <= d < |rs| && rs[d].result.s.status == Closed && line in RowOf(rs[d]).review)
    || line in end.items
  }

  lemma ReviewsAre(items: seq<Item>, x: Item)
    ensures x in Reviews(items) <==> x in items && x.Review?
  {
    RetainOf(items, IsReview, x);
  }

  lemma {:induction false} LineLands(rs: seq<Reduction>, end: State, max: nat, b: nat, line: Item)
    requires Linked(rs, end, max) && b < |rs| && line.Review? && line in rs[b].result.s.items
    ensures Lands(rs, end, b, line)
    decreases |rs| - b
  {
    hide Reduce, Reviews;
    assert Recorded(rs[b], max) && Resumes(Some(rs[b]), Next(rs, end, b));
    ReviewsAre(rs[b].result.s.items, line);
    if rs[b].result.s.status != Closed && b + 1 < |rs| {
      var r := rs[b + 1];
      assert Recorded(r, max);
      ReviewsNeverRemoved(r.input, r.ops, r.media, r.global, max);
      ReviewsAre(r.input.items, line);
      ReviewsAre(r.result.s.items, line);
      LineLands(rs, end, max, b + 1, line);
      if exists d :: b + 1 <= d < |rs| && rs[d].result.s.status == Closed && line in RowOf(rs[d]).review {
        var d :| b + 1 <= d < |rs| && rs[d].result.s.status == Closed && line in RowOf(rs[d]).review;
      }
    }
  }

  /** In every run, a line put under review is in an order row written since, or in the queue the next turn starts from. */
  lemma ReviewReachesOrder(actions: seq<Action>, depth: nat, max: nat, b: nat, line: Item)
    requires Execute(actions, depth, max).Some?
    requires var rs := Reductions(Execute(actions, depth, max).value.log); b < |rs| && line.Review? && line in rs[b].result.s.items
    ensures var c := Execute(actions, depth, max).value;
      (exists row | row in c.orders :: line in row.review) || line in TurnInput(c.session.s).items
  {
    hide Execute, Linked, Reductions, RowOf;
    RunLinked(actions, depth, max);
    var c := Execute(actions, depth, max).value;
    var rs := Reductions(c.log);
    LineLands(rs, TurnInput(c.session.s), max, b, line);
    if d :| b <= d < |rs| && rs[d].result.s.status == Closed && line in RowOf(rs[d]).review {
      RowWritten(c.log, d);
      assert c.orders == OrdersOf(c.log);
    }
  }

  /**
   * What a close leaves behind, in every run: of the items open at its end the
   * row has the review lines and no other, and the next turn starts with none.
   * So a question still open is lost; CloseAccounts says exactly when none is.
   */
  lemma CloseForgets(actions: seq<Action>, depth: nat, max: nat, i: nat, x: Item)
    requires Execute(actions, depth, max).Some?
    requires var rs := Reductions(Execute(actions, depth, max).value.log);
      i < |rs| && rs[i].result.s.status == Closed && x in rs[i].result.s.items
    ensures var c := Execute(actions, depth, max).value; var rs := Reductions(c.log);
      && RowOf(rs[i]) in c.orders && (x in RowOf(rs[i]).review <==> x.Review?)
      && Next(rs, TurnInput(c.session.s), i).items == [] && Next(rs, TurnInput(c.session.s), i).cart == []
  {
    hide Execute, Reductions, Reviews, Recorded;
    RunLinked(actions, depth, max);
    var c := Execute(actions, depth, max).value;
    var rs := Reductions(c.log);
    RowWritten(c.log, i);
    assert c.orders == OrdersOf(c.log);
    ReviewsAre(rs[i].result.s.items, x);
    assert Resumes(Some(rs[i]), Next(rs, TurnInput(c.session.s), i));
  }

  /** The exact condition, for the turns of every run: the order row and the cart account for all exactly then. */
  lemma RunCloseAccounts(actions: seq<Action>, depth: nat, max: nat, i: nat, k: nat)
    requires Execute(actions, depth, max).Some? && forall a | a in actions && a.EndTurn? :: WorldOk(a.world)
    requires i < |Execute(actions, depth, max).value.log| && Execute(actions, depth, max).value.log[i].reduced.Some?
    requires var r := Execute(actions, depth, max).value.log[i].reduced.value;
      k < |r.ops| && ConfirmsClose(At(Begin(r.input, r.global), r.ops, r.media, k), r.ops[k])
    ensures var e := Execute(actions, depth, max).value.log[i]; var r := e.reduced.value; var t := Begin(r.input, r.global);
      && Closes(e)
      && (Accounted(r.result.s) <==>
            && ConflictsSettled(t, r.ops, r.media, k) && NothingLeft(t, r.ops, r.media, k, max)
            && (forall code :: !Two(ApplyAll(t, r.ops, r.media).adds, code))
            && !(r.media && exists op | op in r.ops :: op.Add?))
  {
    hide Execute, Reduce, ConfirmsClose, ApplyAll, StateOk, OpOk, ConflictsSettled, NothingLeft, Two, Accounted;
    RunHealthy(actions, depth, max);
    var r := Execute(actions, depth, max).value.log[i].reduced.value;
    assert Faithful(r, max);
    CloseAccounts(r.input, r.ops, r.media, r.global, max, k);
  }

  // ------------------------------------------------------------------
  // Turns without progress
  // ------------------------------------------------------------------

  predicate Stalled(r: Reduction) {
    !Progress(Rules(ApplyAll(Begin(r.input, r.global), r.ops, r.media)).facts)
  }

  /** Turns a..upTo go by without progress and without naming text. */
  predicate StallsOn(rs: seq<Reduction>, a: nat, upTo: nat, text: string)
    requires a <= upTo <= |rs|
  {
    forall b | a <= b < upTo :: Stalled(rs[b]) && text !in ChosenAll(rs[b].ops)
  }

  lemma StalledOpen(rs: seq<Reduction>, end: State, max: nat, b: nat)
    requires Linked(rs, end, max) && b < |rs| && Stalled(rs[b])
    ensures rs[b].result.s.status != Closed && Next(rs, end, b).items == rs[b].result.s.items
  {
    hide Reduce, Progress, Rules, ApplyAll;
    var r := rs[b];
    assert Recorded(r, max) && Resumes(Some(r), Next(rs, end, b));
    if r.result.s.status == Closed {
      ClosingProgress(r.input, r.ops, r.media, r.global, max);
    }
  }

  lemma StalledTurn(rs: seq<Reduction>, end: State, max: nat, a: nat, b: nat, text: string, qty: Option<int>)
    requires Linked(rs, end, max) && a <= b < |rs| && Stalled(rs[b]) && text !in ChosenAll(rs[b].ops)
    requires var p := Found(rs[b].input.items, text); p.Some? && p.value.qty == QtyBefore(rs, a, 0, b, text, qty) && !p.value.isNew
    ensures var p, q := Found(rs[b].input.items, text).value, Found(Next(rs, end, b).items, text);
      || ReviewedBy(rs, a, 0, b, text, qty)
      || (q.Some? && q.value.qty == QtyThrough(rs, a, 0, b, text, qty) && !q.value.isNew && q.value.attempts == p.attempts + 1)
  {
    hide Linked, LeftToReview, ChosenAll, FinalQty, Progress, Rules, Found, ApplyAll, GlobalAfter;
    FromStart(rs[b]);
    assert rs[b].ops[0..] == rs[b].ops && rs[b].ops[..0] == [];
    TurnFollowed(rs, end, max, a, 0, b, text);
    StalledOpen(rs, end, max, b);
  }

  lemma {:induction false} StallCounts(rs: seq<Reduction>, end: State, max: nat, a: nat, b: nat, text: string)
    requires Linked(rs, end, max) && a <= b < |rs| && StallsOn(rs, a, b + 1, text)
    requires var p := Found(rs[a].input.items, text); p.Some? && !p.value.isNew
    ensures var p, q := Found(rs[a].input.items, text).value, Found(Next(rs, end, b).items, text);
      || ReviewedIn(rs, a, 0, b + 1, text, p.qty)
      || (q.Some? && q.value.qty == QtyThrough(rs, a, 0, b, text, p.qty) && !q.value.isNew && q.value.attempts == p.attempts + (b - a) + 1)
    decreases b
  {
    hide Linked, Stalled, ReviewedBy, ChosenAll, FinalQty, Found;
    var p := Found(rs[a].input.items, text).value;
    if b > a {
      StallCounts(rs, end, max, a, b - 1, text);
      if ReviewedIn(rs, a, 0, b, text, p.qty) {
        var k :| a <= k < b && ReviewedBy(rs, a, 0, k, text, p.qty);
      } else {
        StalledTurn(rs, end, max, a, b, text, p.qty);
      }
    } else {
      StalledTurn(rs, end, max, a, b, text, p.qty);
    }
  }

  /** In every run, a product that sees max turns in a row without progress is put under review with its quantity. */
  lemma StalledProductReviewed(actions: seq<Action>, depth: nat, max: nat, a: nat, text: string)
    requires Execute(actions, depth, max).Some? && max > 0
    requires var rs := Reductions(Execute(actions, depth, max).value.log);
      && a + max <= |rs| && StallsOn(rs, a, a + max, text)
      && var p := Found(rs[a].input.items, text); p.Some? && !p.value.isNew
    ensures var rs := Reductions(Execute(actions, depth, max).value.log);
      ReviewedIn(rs, a, 0, a + max, text, Found(rs[a].input.items, text).value.qty)
  {
    hide Execute, Reductions, StallsOn, ReviewedIn, Linked, Found;
    RunLinked(actions, depth, max);
    var c := Execute(actions, depth, max).value;
    StallEnds(Reductions(c.log), TurnInput(c.session.s), max, a, text);
  }

  lemma StallEnds(rs: seq<Reduction>, end: State, max: nat, a: nat, text: string)
    requires Linked(rs, end, max) && 0 < max && a + max <= |rs| && StallsOn(rs, a, a + max, text)
    requires var p := Found(rs[a].input.items, text); p.Some? && !p.value.isNew
    ensures ReviewedIn(rs, a, 0, a + max, text, Found(rs[a].input.items, text).value.qty)
  {
    hide StallsOn, ReviewedIn, Linked, Found, QtyThrough;
    StallCounts(rs, end, max, a, a + max - 1, text);
    LastStall(rs, end, max, a, text);
  }

  lemma LastStall(rs: seq<Reduction>, end: State, max: nat, a: nat, text: string)
    requires Linked(rs, end, max) && 0 < max && a + max <= |rs| && StallsOn(rs, a, a + max, text)
    ensures var q := Found(Next(rs, end, a + max - 1).items, text); q.Some? ==> q.value.attempts < max
  {
    hide Reduce, Stalled;
    var r := rs[a + max - 1];
    assert Recorded(r, max) && Stalled(r);
    StalledOpen(rs, end, max, a + max - 1);
    ReviewsNeverRemoved(r.input, r.ops, r.media, r.global, max);
    var at := ProductAt(r.result.s.items, text);
    assert at.Some? ==> r.result.s.items[at.value] in r.result.s.items;
  }

  // ------------------------------------------------------------------
  // Orders that close with a question open
  // ------------------------------------------------------------------

  /** A covered, known client's message, answered with these operations. */
  function Plain(ops: seq<Op>): World {
    World(0, true, true, false, true, false, true, true, false, ops, false, None)
  }

  predicate NoSalesman(messages: seq<Message>) { forall i | 0 <= i < |messages| :: !FromSalesman(messages[i]) }

  /** Between turns of an enabled session in a chat the salesman stays out of. */
  predicate Calm(c: Conversation) { c.flight.None? && c.session.enabled && NoSalesman(c.messages) }

  lemma Then(actions: seq<Action>, a: Action, depth: nat, max: nat)
    requires Execute(actions, depth, max).Some?
    ensures var c := Execute(actions, depth, max).value;
      Enabled(c, a) ==> Execute(actions + [a], depth, max) == Some(Step(c, a, depth, max))
  {
    hide Step, Enabled, Good;
    assert (actions + [a])[..|actions|] == actions;
  }

  /** The state a turn with these operations leaves in the session. */
  function After(input: State, ops: seq<Op>, max: nat): State {
    var t := Reduce(input, ops, false, None, max);
    if t.s.status == Closed then t.s.(lastClosed := t.s.cart) else t.s
  }

  lemma PendingLast(history: seq<Message>, m: Message, cursor: nat)
    requires history != [] && history[|history| - 1] == m && FromClient(m) && m.id > cursor
    ensures var b := Pending(history, cursor); b != [] && b[|b| - 1] == m.id
  {}

  lemma BegunCalm(c: Conversation, m: Message, depth: nat)
    requires Calm(c) && depth >= 1 && FromClient(m) && m.id > c.session.lastAnswered
    ensures var d := Begun(c.(messages := c.messages + [m]), depth);
      d.flight.Some? && d.flight.value.batch != [] && d.flight.value.batch[|d.flight.value.batch| - 1] == m.id
      && d == c.(messages := c.messages + [m], flight := d.flight) && d.flight.value.lastSalesman == 0
      && NoSalesman(d.messages)
  {
    hide Pending, MaxId;
    var all := c.messages + [m];
    var history := History(all, depth);
    assert NoSalesman(all);
    assert NoSalesman(history);
    PendingLast(history, m, Max(c.session.lastAnswered, MaxId(history, FromSalesman)));
  }

  lemma EndedCalm(c: Conversation, ops: seq<Op>, max: nat)
    requires c.flight.Some? && c.flight.value.batch != [] && c.session.enabled && NoSalesman(c.messages)
    ensures var d := Ended(c, Plain(ops), max); var r := Reduce(TurnInput(c.session.s), ops, false, None, max);
      && Calm(d) && d.session.s == After(TurnInput(c.session.s), ops, max)
      && d.session.lastAnswered == c.flight.value.batch[|c.flight.value.batch| - 1]
      && d.messages == c.messages + [Message(NextId(c.messages), false, true, 0)]
      && d.orders == c.orders + (if r.s.status == Closed then [Order(r.s.cart, Reviews(r.s.items))] else [])
  {
    hide Reduce, Reviews, MaxId, NextId;
    assert MaxId(c.messages, FromSalesman) == 0;
  }

  lemma OneTurn(actions: seq<Action>, depth: nat, max: nat, m: Message, ops: seq<Op>)
    requires Execute(actions, depth, max).Some? && depth >= 1
    requires var c := Execute(actions, depth, max).value; Calm(c) && FromClient(m) && Newer(c.messages, m) && m.id > c.session.lastAnswered
    ensures var c, e := Execute(actions, depth, max).value, Execute(actions + [Ingest(m), StartTurn, EndTurn(Plain(ops))], depth, max);
      var r := Reduce(TurnInput(c.session.s), ops, false, None, max);
      && e.Some? && Calm(e.value) && e.value.session.s == After(TurnInput(c.session.s), ops, max)
      && e.value.session.lastAnswered == m.id && e.value.messages == c.messages + [m, Message(NextId(c.messages + [m]), false, true, 0)]
      && e.value.orders == c.orders + (if r.s.status == Closed then [Order(r.s.cart, Reviews(r.s.items))] else [])
  {
    hide Execute, Reduce, Reviews, MaxId, NextId, Ended, Begun, After, Good;
    var c := Execute(actions, depth, max).value;
    Then(actions, Ingest(m), depth, max);
    BegunCalm(c, m, depth);
    Then(actions + [Ingest(m)], StartTurn, depth, max);
    var d := Begun(c.(messages := c.messages + [m]), depth);
    Then(actions + [Ingest(m)] + [StartTurn], EndTurn(Plain(ops)), depth, max);
    EndedCalm(d, ops, max);
    var reply := Message(NextId(c.messages + [m]), false, true, 0);
    assert c.messages + [m] + [reply] == c.messages + [m, reply];
    assert actions + [Ingest(m)] + [StartTurn] + [EndTurn(Plain(ops))] == actions + [Ingest(m), StartTurn, EndTurn(Plain(ops))];
  }

  function Cart(): seq<Line> { [Line("A", 2)] }

  lemma {:induction false} DisputedNone(t: Turn, codes: seq<string>)
    requires forall code :: |Quantities(t.adds, code)| <= 1
    ensures DisputedAll(t, codes) == t
    decreases |codes|
  {
    hide Quantities;
    if codes != [] {
      DisputedNone(t, codes[1..]);
    }
  }

  lemma OneAdd(adds: seq<(string, Option<int>)>, code: string)
    requires |adds| <= 1
    ensures |Quantities(adds, code)| <= 1
  {
    if adds != [] {
      assert Quantities(adds[..0], code) == [];
    }
  }

  /** At most one add, nothing from a photo, no quantity for the whole order: no rule applies. */
  lemma NoRules(t: Turn)
    requires t.media == [] && t.global.None? && |t.adds| <= 1
    ensures Rules(t) == t
  {
    hide Quantities, Disputed, Codes;
    forall code ensures |Quantities(t.adds, code)| <= 1 { OneAdd(t.adds, code); }
    DisputedNone(t, Codes(t.adds));
  }

  lemma SettleOne(it: Item, max: nat)
    requires !Exhausted(it, max)
    ensures SettleItems([it], max) == [Settled(it)]
  {
    RetainOne(it, (x: Item) => !Exhausted(x, max));
    RetainOne(it, (x: Item) => Exhausted(x, max));
  }

  lemma TwoOps(t: Turn, a: Op, b: Op, media: bool)
    ensures ApplyAll(t, [a, b], media) == Apply(Apply(t, a, media), b, media)
  {
    hide Apply;
    assert [a, b][..1] == [a] && [a][..0] == [];
    assert ApplyAll(t, [a], media) == Apply(t, a, media);
  }

  lemma OrderedA(max: nat)
    ensures Reduce(State(Idle, [], [], []), [Add("A", Some(2)), CloseOrder], false, None, max).s == State(Building, Cart(), [CloseProposal], [])
  {
    hide Rules, ApplyAll, Progress, RemindersAll, SettleItems;
    var t0 := Begin(State(Idle, [], [], []), None);
    var t1 := Apply(t0, Add("A", Some(2)), false);
    assert t1.s.cart == Cart();
    var t2 := Apply(t1, CloseOrder, false);
    assert t2.s.items == [CloseProposal];
    TwoOps(t0, Add("A", Some(2)), CloseOrder, false);
    NoRules(t2);
    assert JudgedAll(t2.s.items, Progress(t2.facts)) == [CloseProposal];
    SettleOne(CloseProposal, max);
  }

  lemma ClosedAndAsked(max: nat)
    requires max >= 1
    ensures var s := State(Building, Cart(), [CloseProposal], []);
      Reduce(s, [Confirm, NoCandidates("x", None)], false, None, max).s == State(Closed, Cart(), [Product("x", None, [], {}, 0, false)], [])
  {
    hide Rules, ApplyAll, Progress, RemindersAll, SettleItems;
    var t0 := Begin(State(Building, Cart(), [CloseProposal], []), None);
    var t1 := Apply(t0, Confirm, false);
    assert t1.s == State(Closed, Cart(), [], []);
    var t2 := Apply(t1, NoCandidates("x", None), false);
    var p := Product("x", None, [], {}, 0, true);
    assert t2.s.items == [p];
    TwoOps(t0, Confirm, NoCandidates("x", None), false);
    NoRules(t2);
    ClosingProgress(t0.s, [Confirm, NoCandidates("x", None)], false, None, max);
    assert JudgedAll(t2.s.items, Progress(t2.facts)) == [p];
    SettleOne(p, max);
  }

  lemma ClosedInDispute(max: nat)
    ensures var s := State(Building, Cart(), [CloseProposal], []);
      Reduce(s, [Add("A", Some(3)), Confirm], false, None, max).s == State(Closed, Cart(), [Conflict("A", {2, 3, 5})], [])
  {
    hide Rules, ApplyAll, Progress, RemindersAll, SettleItems;
    var t0 := Begin(State(Building, Cart(), [CloseProposal], []), None);
    var t1 := Apply(t0, Add("A", Some(3)), false);
    var x := Conflict("A", {2, 3, 5});
    DisputeA(t0);
    var t2 := Apply(t1, Confirm, false);
    ConfirmA(t1);
    TwoOps(t0, Add("A", Some(3)), Confirm, false);
    NoRules(t2);
    assert JudgedAll(t2.s.items, Progress(t2.facts)) == [x];
    SettleOne(x, max);
  }

  lemma DisputeA(t: Turn)
    requires t.s.cart == Cart() && t.s.items == [CloseProposal]
    ensures var u := Apply(t, Add("A", Some(3)), false);
      u == t.(s := t.s.(items := [CloseProposal, Conflict("A", {2, 3, 5})]), facts := u.facts, adds := t.adds + [("A", Some(3))])
  {
    hide Retain;
    RetainOne(CloseProposal, (it: Item) => !(it.Conflict? && it.code == "A"));
    assert LineAt(t.s.cart, "A") == Some(0);
    assert {3, 2, 3 + 2} == {2, 3, 5};
  }

  lemma ConfirmA(t: Turn)
    requires t.s.items == [CloseProposal, Conflict("A", {2, 3, 5})]
    ensures var u := Apply(t, Confirm, false);
      u == t.(s := t.s.(items := [Conflict("A", {2, 3, 5})], status := Closed), facts := u.facts)
  {
    hide Retain;
    var x := Conflict("A", {2, 3, 5});
    assert YesNo(t.s.items[0]) && !YesNo(t.s.items[1]);
    assert YesNoAt(t.s.items) == Some(0);
    assert Cut(t.s.items, 0) == [x];
    RetainOne(x, (it: Item) => !it.Product?);
    RetainOne(x, (it: Item) => it.Product?);
  }

  /** The client orders two of A and asks to close; then this is what the model makes of the next message. */
  function Closing(ops: seq<Op>): seq<Action> {
    [Ingest(Message(1, true, false, 0)), StartTurn, EndTurn(Plain([Add("A", Some(2)), CloseOrder])),
     Ingest(Message(3, true, false, 0)), StartTurn, EndTurn(Plain(ops))]
  }

  lemma ClosingRun(ops: seq<Op>, depth: nat, max: nat, items: seq<Item>)
    requires depth >= 1 && Reduce(State(Building, Cart(), [CloseProposal], []), ops, false, None, max).s == State(Closed, Cart(), items, [])
    ensures var c := Execute(Closing(ops), depth, max);
      c.Some? && c.value.session.s == State(Closed, Cart(), items, Cart()) && c.value.orders == [Order(Cart(), Reviews(items))]
  {
    hide Execute, Reduce, Reviews, MaxId;
    var m, n := Message(1, true, false, 0), Message(3, true, false, 0);
    var first := [Ingest(m), StartTurn, EndTurn(Plain([Add("A", Some(2)), CloseOrder]))];
    StartCalm(depth, max);
    OrderedA(max);
    OneTurn([], depth, max, m, [Add("A", Some(2)), CloseOrder]);
    assert [] + first == first;
    ReplyId(m);
    OneTurn(first, depth, max, n, ops);
    assert first + [Ingest(n), StartTurn, EndTurn(Plain(ops))] == Closing(ops);
  }

  lemma StartCalm(depth: nat, max: nat)
    ensures Execute([], depth, max) == Some(Start()) && Calm(Start())
  {}

  lemma ReplyId(m: Message)
    requires m.id == 1
    ensures NextId([] + [m]) == 2
  {
    assert [] + [m] == [m];
    assert MaxId([m][..0], (x: Message) => true) == 0;
  }

  /**
   * "Yes, close it, and also x": the row is written without x, and the next
   * turn starts from nothing.
   */
  lemma AskedAfterCloseLost(depth: nat, max: nat)
    requires depth >= 1 && max >= 1
    ensures var c := Execute(Closing([Confirm, NoCandidates("x", None)]), depth, max);
      && c.Some? && c.value.orders == [Order(Cart(), [])]
      && Found(c.value.session.s.items, "x").Some? && !Accounted(c.value.session.s)
      && TurnInput(c.value.session.s).items == []
  {
    hide Execute, Reduce;
    var p := Product("x", None, [], {}, 0, false);
    ClosedAndAsked(max);
    ClosingRun([Confirm, NoCandidates("x", None)], depth, max, [p]);
    RetainOne(p, IsReview);
    FoundAt([p], 0, "x");
    assert p in [p];
  }

  /** "Three of A; yes, close it": the row has two of A, and the question between two and three is gone. */
  lemma DisputeLostAtClose(depth: nat, max: nat)
    requires depth >= 1
    ensures var c := Execute(Closing([Add("A", Some(3)), Confirm]), depth, max);
      && c.Some? && c.value.orders == [Order(Cart(), [])]
      && Conflict("A", {2, 3, 5}) in c.value.session.s.items && !Accounted(c.value.session.s)
      && TurnInput(c.value.session.s).items == []
  {
    hide Execute, Reduce;
    var x := Conflict("A", {2, 3, 5});
    ClosedInDispute(max);
    ClosingRun([Add("A", Some(3)), Confirm], depth, max, [x]);
    RetainOne(x, IsReview);
    assert x in [x];
  }
}

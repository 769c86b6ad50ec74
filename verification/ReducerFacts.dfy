/** What the reducer says: every question left open has its fact, and an order closes only on a confirmed close. */
module ReducerFacts {
  import opened Options
  import opened Seqs
  import opened Reducer
  import opened ReducerInvariant

  predicate Special(f: Fact) { f.AskDrop? || f.OrderClosed? || f.Proposed? }

  predicate SaidOf(it: Item, facts: seq<Fact>) {
    if it.DropProposal? then AskDrop(it.code) in facts else Proposed(Kind(it)) in facts
  }

  predicate Silent(facts: seq<Fact>) { forall f | f in facts :: !Special(f) }

  /** The live proposal was put this turn, or no proposal was put or settled by a close this turn; closed now means closed before or said so. */
  predicate Said(t: Turn, was: bool) {
    && (forall i | 0 <= i < |t.s.items| && YesNo(t.s.items[i]) :: SaidOf(t.s.items[i], t.facts) || Silent(t.facts))
    && (t.s.status == Closed <==> was || OrderClosed in t.facts)
  }

  /** u follows t without putting or settling a proposal. */
  ghost predicate Quietly(t: Turn, u: Turn) {
    && (forall x | x in u.s.items && YesNo(x) :: x in t.s.items)
    && (forall f | Special(f) :: f in u.facts <==> f in t.facts)
    && (u.s.status == Closed <==> t.s.status == Closed)
  }

  lemma QuietlyThen(t: Turn, u: Turn, v: Turn)
    requires Quietly(t, u) && Quietly(u, v)
    ensures Quietly(t, v)
  {}

  lemma SaidQuietly(t: Turn, u: Turn, was: bool)
    requires Said(t, was) && Quietly(t, u)
    ensures Said(u, was)
  {
    forall i | 0 <= i < |u.s.items| && YesNo(u.s.items[i]) ensures SaidOf(u.s.items[i], u.facts) || Silent(u.facts) {
      var x := u.s.items[i];
      assert x in t.s.items;
      var k :| 0 <= k < |t.s.items| && t.s.items[k] == x;
      if !SaidOf(x, t.facts) {
        assert Silent(t.facts);
        forall f | f in u.facts ensures !Special(f) {}
      }
    }
  }

  lemma ProposeSaid(t: Turn, it: Item, was: bool)
    requires Said(t, was) && YesNo(it)
    ensures Said(Propose(t, it), was)
  {
    var u := Propose(t, it);
    if YesNoAt(t.s.items).None? {
      forall i | 0 <= i < |u.s.items| && YesNo(u.s.items[i]) ensures SaidOf(u.s.items[i], u.facts) {
        assert i == |t.s.items|;
        assert u.facts[|t.facts|] in u.facts;
      }
      assert OrderClosed in u.facts <==> OrderClosed in t.facts;
    }
  }

  lemma ConflictQuietly(items: seq<Item>, code: string, choices: set<int>, x: Item)
    requires x in WithoutConflict(items, code) + [Conflict(code, choices)] && YesNo(x)
    ensures x in items
  {
    RetainOf(items, (it: Item) => !(it.Conflict? && it.code == code), x);
  }

  lemma AddQuietly(t: Turn, code: string, qty: Option<int>)
    ensures Quietly(t, AddLine(t, code, qty))
  {
    hide WithoutConflict;
    match LineAt(t.s.cart, code)
    case Some(i) =>
      if qty.Some? {
        var choices := {qty.value, t.s.cart[i].qty, qty.value + t.s.cart[i].qty};
        forall x | x in WithoutConflict(t.s.items, code) + [Conflict(code, choices)] && YesNo(x) ensures x in t.s.items {
          ConflictQuietly(t.s.items, code, choices, x);
        }
      }
    case None =>
  }

  lemma {:induction false} AddAllQuietly(t: Turn, lines: seq<Line>)
    ensures Quietly(t, AddAll(t, lines))
    decreases |lines|
  {
    hide AddLine;
    if lines != [] {
      var u := AddLine(t, lines[0].code, Some(OrOne(lines[0].qty)));
      AddQuietly(t, lines[0].code, Some(OrOne(lines[0].qty)));
      AddAllQuietly(u, lines[1..]);
      QuietlyThen(t, u, AddAll(u, lines[1..]));
    }
  }

  lemma CutQuietly(t: Turn, i: nat)
    requires i < |t.s.items|
    ensures Quietly(t, WithItems(t, Cut(t.s.items, i)))
  {
    forall x | x in Cut(t.s.items, i) ensures x in t.s.items { CutOf(t.s.items, i, x); }
  }

  lemma ReviewAllNone(items: seq<Item>, x: Item)
    requires x in ReviewAll(items) && YesNo(x)
    ensures x in items
  {
    hide Retain;
    var products := Products(items);
    if x in Reviewed(products) {
      var k :| 0 <= k < |products| && AsReview(products[k]) == x;
      RetainOf(items, (it: Item) => it.Product?, products[k]);
    } else {
      RetainOf(items, (it: Item) => !it.Product?, x);
    }
  }

  /** One proposal lives: with it gone there is none. */
  lemma LastProposal(items: seq<Item>, i: nat)
    requires QueueOk(items) && i < |items| && YesNo(items[i])
    ensures forall x | x in Cut(items, i) :: !YesNo(x)
  {
    forall x | x in Cut(items, i) ensures !YesNo(x) {
      var k :| 0 <= k < |Cut(items, i)| && Cut(items, i)[k] == x;
      var j := if k < i then k else k + 1;
      assert items[j] == x && j != i;
      if j < i {
        assert !Clash(items[j], items[i]);
      } else {
        assert !Clash(items[i], items[j]);
      }
    }
  }

  predicate ConfirmsClose(t: Turn, op: Op) {
    op.Confirm? && YesNoAt(t.s.items).Some? && t.s.items[YesNoAt(t.s.items).value].CloseProposal?
  }

  lemma CloseSaid(t: Turn, was: bool)
    requires TurnOk(t) && Said(t, was) && ConfirmsClose(t, Confirm)
    ensures Said(ConfirmLive(t), was) && OrderClosed in ConfirmLive(t).facts
  {
    hide ReviewAll;
    var i := YesNoAt(t.s.items).value;
    var rest := Cut(t.s.items, i);
    LastProposal(t.s.items, i);
    var u := ConfirmLive(t);
    assert u.facts[|t.facts|] == OrderClosed;
    forall k | 0 <= k < |u.s.items| ensures !YesNo(u.s.items[k]) {
      if YesNo(u.s.items[k]) {
        ReviewAllNone(rest, u.s.items[k]);
      }
    }
  }

  lemma ConfirmQuietly(t: Turn)
    requires !ConfirmsClose(t, Confirm)
    ensures Quietly(t, ConfirmLive(t))
  {
    hide AddAll, Without;
    match YesNoAt(t.s.items)
    case None =>
    case Some(i) =>
      var live, u := t.s.items[i], WithItems(t, Cut(t.s.items, i));
      CutQuietly(t, i);
      if !live.DropProposal? {
        AddAllQuietly(u, live.lines);
        QuietlyThen(t, u, AddAll(u, live.lines));
      }
  }

  lemma ChooseQuietly(t: Turn, text: string, code: string)
    ensures Quietly(t, ChooseOption(t, text, code))
  {
    hide AddLine;
    match ProductAt(t.s.items, text)
    case None => AddQuietly(t, code, None);
    case Some(i) =>
      var u := WithItems(t, Cut(t.s.items, i));
      CutQuietly(t, i);
      AddQuietly(u, code, t.s.items[i].qty);
      QuietlyThen(t, u, AddLine(u, code, t.s.items[i].qty));
  }

  lemma ChooseQtyQuietly(t: Turn, code: string, value: Option<int>)
    ensures Quietly(t, ChooseQuantity(t, code, value))
  {
    match ConflictAt(t.s.items, code)
    case None =>
    case Some(i) => CutQuietly(t, i);
  }

  lemma DenyQuietly(t: Turn)
    ensures Quietly(t, DenyLive(t))
  {
    match YesNoAt(t.s.items)
    case None =>
    case Some(i) => CutQuietly(t, i);
  }

  lemma GiveUpQuietly(t: Turn)
    ensures Quietly(t, GiveUp(t))
  {
    hide ReviewAll, Products;
    forall x | x in ReviewAll(t.s.items) && YesNo(x) ensures x in t.s.items { ReviewAllNone(t.s.items, x); }
    forall f | f in ReviewFacts(Products(t.s.items)) ensures !Special(f) {}
  }

  lemma OfferQuietly(t: Turn, text: string, qty: Option<int>, options: seq<string>)
    ensures Quietly(t, OfferOptions(t, text, qty, options))
  {
    hide Retain;
  }

  lemma RejectQuietly(t: Turn, target: Option<string>)
    ensures Quietly(t, RejectOptions(t, target))
  {
    hide RejectTarget;
  }

  lemma OpenQuietly(t: Turn, text: string, qty: Option<int>)
    ensures Quietly(t, OpenWithout(t, text, qty))
  {}

  lemma RemoveQuietly(t: Turn, code: string, numeral: bool)
    ensures Quietly(t, RemoveLine(t, code, numeral))
  {
    hide Without;
  }

  lemma ModifySaid(t: Turn, code: string, mode: Mode, value: Option<int>, was: bool)
    requires Said(t, was)
    ensures Said(ModifyLine(t, code, mode, value), was)
    ensures OrderClosed in ModifyLine(t, code, mode, value).facts <==> OrderClosed in t.facts
  {
    ProposeSaid(t, DropProposal(code), was);
    var u := ModifyLine(t, code, mode, value);
    if u.s.items == t.s.items {
      hide Said;
      assert Quietly(t, u);
      SaidQuietly(t, u, was);
    }
  }

  /** The operations that may put a proposal, or close. */
  predicate Proposes(t: Turn, op: Op) { op.Modify? || op.RepeatLast? || op.CloseOrder? || ConfirmsClose(t, op) }

  lemma ApplyQuietly(t: Turn, op: Op, media: bool)
    requires !Proposes(t, op)
    ensures Quietly(t, Apply(t, op, media))
  {
    hide AddLine, RemoveLine, OfferOptions, OpenWithout, RejectOptions, ChooseOption, ChooseQuantity, ConfirmLive, DenyLive, GiveUp, Quietly, ConfirmsClose;
    var u := Apply(t, op, media);
    match op {
      case Add(code, qty) => if media { Untouched(t, u); } else { AddQuietly(t, code, qty); }
      case Remove(code, numeral) => RemoveQuietly(t, code, numeral);
      case Offer(text, qty, options) => OfferQuietly(t, text, qty, options);
      case NoCandidates(text, qty) => OpenQuietly(t, text, qty);
      case Reject(target) => RejectQuietly(t, target);
      case Choose(text, code) => ChooseQuietly(t, text, code);
      case ChooseQty(code, value) => ChooseQtyQuietly(t, code, value);
      case Confirm => ConfirmQuietly(t);
      case Deny => DenyQuietly(t);
      case DoesNotKnow => GiveUpQuietly(t);
      case GlobalQty(_) => Untouched(t, u);
      case Say(_) => Untouched(t, u);
      case Unknown => Untouched(t, u);
    }
  }

  /** Every operation leaves the live proposal said, and closes exactly by confirming a close. */
  lemma ApplySaid(t: Turn, op: Op, media: bool, was: bool)
    requires TurnOk(t) && Said(t, was)
    ensures Said(Apply(t, op, media), was)
    ensures OrderClosed in Apply(t, op, media).facts <==> OrderClosed in t.facts || ConfirmsClose(t, op)
  {
    hide Said, TurnOk, ModifyLine, ConfirmLive, Products, Retain, Propose, Quietly;
    var u := Apply(t, op, media);
    if !Proposes(t, op) {
      ApplyQuietly(t, op, media);
      SaidQuietly(t, u, was);
      QuietlyClosed(t, u);
    } else if op.Modify? {
      ModifySaid(t, op.code, op.mode, op.value, was);
    } else if op.Confirm? {
      CloseSaid(t, was);
    } else {
      var it := if op.CloseOrder? then CloseProposal else RepeatProposal(Repeated(t.s.lastClosed, op.value));
      ProposeSaid(t, it, was);
      ProposeOpen(t, it);
      if u != Propose(t, it) {
        Untouched(t, u);
        SaidQuietly(t, u, was);
        QuietlyClosed(t, u);
      }
    }
  }

  lemma Untouched(t: Turn, u: Turn)
    requires u.s == t.s && (u.facts == t.facts || (|u.facts| == |t.facts| + 1 && u.facts == t.facts + [u.facts[|t.facts|]] && u.facts[|t.facts|].Other?))
    ensures Quietly(t, u)
  {}

  lemma QuietlyClosed(t: Turn, u: Turn)
    requires Quietly(t, u)
    ensures OrderClosed in u.facts <==> OrderClosed in t.facts
  {
    assert Special(OrderClosed);
  }

  lemma ProposeOpen(t: Turn, it: Item)
    ensures OrderClosed in Propose(t, it).facts <==> OrderClosed in t.facts
  {}

  // ------------------------------------------------------------------
  // The whole turn
  // ------------------------------------------------------------------

  lemma DisputedQuietly(t: Turn, code: string)
    ensures Quietly(t, Disputed(t, code))
  {
    hide WithoutConflict, Without, Quantities, SumOf, Retain;
    var qs := Quantities(t.adds, code);
    if |qs| > 1 {
      var choices := (set q | q in qs) + {SumOf(qs)};
      forall x | x in WithoutConflict(t.s.items, code) + [Conflict(code, choices)] && YesNo(x) ensures x in t.s.items {
        ConflictQuietly(t.s.items, code, choices, x);
      }
      forall f | Special(f) ensures f in Disputed(t, code).facts <==> f in t.facts {
        RetainOf(t.facts, (g: Fact) => !LineFact(g, code), f);
      }
    }
  }

  lemma {:induction false} DisputedAllQuietly(t: Turn, codes: seq<string>)
    ensures Quietly(t, DisputedAll(t, codes))
    decreases |codes|
  {
    hide Disputed;
    if codes != [] {
      var u := Disputed(t, codes[0]);
      DisputedQuietly(t, codes[0]);
      DisputedAllQuietly(u, codes[1..]);
      QuietlyThen(t, u, DisputedAll(u, codes[1..]));
    }
  }

  lemma {:induction false} GlobalLinesQuietly(t: Turn, codes: seq<string>, q: int)
    ensures Quietly(t, GlobalLines(t, codes, q))
    decreases |codes|
  {
    if codes != [] {
      var u := GlobalLine(t, codes[0], q);
      assert Quietly(t, u);
      GlobalLinesQuietly(u, codes[1..], q);
      QuietlyThen(t, u, GlobalLines(u, codes[1..], q));
    }
  }

  lemma FilledQuietly(t: Turn, q: int)
    ensures Quietly(t, WithItems(t, FilledAll(t.s.items, q)))
  {
    forall x | x in FilledAll(t.s.items, q) && YesNo(x) ensures x in t.s.items {
      var k :| 0 <= k < |t.s.items| && Filled(t.s.items[k], q) == x;
      assert x == t.s.items[k];
    }
  }

  lemma RulesSaid(t: Turn, was: bool)
    requires Said(t, was)
    ensures Said(Rules(t), was) && (OrderClosed in Rules(t).facts <==> OrderClosed in t.facts)
  {
    hide Said, Quietly, Propose, Rules;
    var u := MediaRule(t);
    if t.media != [] {
      ProposeSaid(t, MediaProposal(t.media), was);
      ProposeOpen(t, MediaProposal(t.media));
    }
    RulesQuietly(t);
    SaidQuietly(u, Rules(t), was);
    QuietlyClosed(u, Rules(t));
  }

  lemma RulesQuietly(t: Turn)
    ensures Quietly(MediaRule(t), Rules(t))
  {
    hide Quietly, MediaRule, DisputedAll, GlobalLines, Codes, FilledAll;
    var u := MediaRule(t);
    var v := DisputedAll(u, Codes(u.adds));
    DisputedAllQuietly(u, Codes(u.adds));
    if v.global.Some? {
      var w := GlobalLines(v, v.withoutQty, v.global.value);
      GlobalLinesQuietly(v, v.withoutQty, v.global.value);
      FilledQuietly(w, v.global.value);
      QuietlyThen(u, v, w);
      QuietlyThen(u, w, Rules(t));
    }
  }

  lemma {:induction false} ApplyAllSaid(t: Turn, ops: seq<Op>, media: bool, was: bool)
    requires TurnOk(t) && Said(t, was) && forall op | op in ops :: OpOk(op)
    ensures TurnOk(ApplyAll(t, ops, media)) && Said(ApplyAll(t, ops, media), was)
    ensures OrderClosed in ApplyAll(t, ops, media).facts <==>
      OrderClosed in t.facts || exists k :: 0 <= k < |ops| && ConfirmsClose(ApplyAll(t, ops[..k], media), ops[k])
    decreases |ops|
  {
    hide Said, TurnOk, Apply, OpOk, ConfirmsClose;
    ApplyAllOk(t, ops, media);
    if ops != [] {
      var init, op := ops[..|ops| - 1], ops[|ops| - 1];
      ApplyAllSaid(t, init, media, was);
      ApplySaid(ApplyAll(t, init, media), op, media, was);
      forall k | 0 <= k < |init| ensures init[..k] == ops[..k] && init[k] == ops[k] {}
      if ConfirmsClose(ApplyAll(t, init, media), op) {
        assert ConfirmsClose(ApplyAll(t, ops[..|ops| - 1], media), ops[|ops| - 1]);
      }
      if exists k :: 0 <= k < |init| && ConfirmsClose(ApplyAll(t, init[..k], media), init[k]) {
        var k :| 0 <= k < |init| && ConfirmsClose(ApplyAll(t, init[..k], media), init[k]);
        assert ConfirmsClose(ApplyAll(t, ops[..k], media), ops[k]);
      }
    }
  }

  /** The fact that an item still open shows the client. */
  predicate Shown(it: Item, facts: seq<Fact>) {
    match it
    case Product(text, _, _, _, _, _) => AskOptions(text) in facts || NoneFound(text) in facts || RejectionNoted(text) in facts || Reminder(text) in facts
    case Conflict(code, _) => AskQuantity(code) in facts
    case Review(_, _) => true
    case _ => SaidOf(it, facts)
  }

  lemma {:induction false} RemindersIn(items: seq<Item>, facts: seq<Fact>, max: nat, i: nat, f: Fact)
    requires i < |items| && f in Reminders(items[i], facts, max)
    ensures f in RemindersAll(items, facts, max)
    decreases |items|
  {
    if i < |items| - 1 {
      RemindersIn(items[..|items| - 1], facts, max, i, f);
    }
  }

  lemma ReminderShows(it: Item, facts: seq<Fact>, max: nat)
    requires YesNo(it) ==> SaidOf(it, facts) || Silent(facts)
    requires !Exhausted(it, max)
    ensures Shown(it, facts) || (|Reminders(it, facts, max)| == 1 && Shown(it, Reminders(it, facts, max)))
  {
    if YesNo(it) && !SaidOf(it, facts) {
      assert Special(Proposed(Kind(it)));
    }
  }

  lemma ShownMore(it: Item, facts: seq<Fact>, more: seq<Fact>)
    requires Shown(it, facts) || Shown(it, more)
    ensures Shown(it, facts + more)
  {}

  lemma JudgedShown(t: Turn, max: nat, i: nat, was: bool)
    requires Said(t, was) && i < |t.s.items|
    requires !Exhausted(JudgedAll(t.s.items, Progress(t.facts))[i], max)
    ensures Shown(JudgedAll(t.s.items, Progress(t.facts))[i], Finish(t, max).facts)
  {
    hide Progress, SettleItems, RemindersAll, Reminders;
    var items := JudgedAll(t.s.items, Progress(t.facts));
    var it := items[i];
    ReminderShows(it, t.facts, max);
    var more := RemindersAll(items, t.facts, max);
    if !Shown(it, t.facts) {
      var one := Reminders(it, t.facts, max);
      RemindersIn(items, t.facts, max, i, one[0]);
      ShownBy(it, one, more);
    }
    ShownMore(it, t.facts, more);
  }

  lemma ShownBy(it: Item, one: seq<Fact>, more: seq<Fact>)
    requires |one| == 1 && one[0] in more && Shown(it, one)
    ensures Shown(it, more)
  {}

  /** At the end of a turn every item that is not a review line has its fact. */
  lemma FinishShows(t: Turn, max: nat, x: Item, was: bool)
    requires Said(t, was) && x in Finish(t, max).s.items
    ensures Shown(x, Finish(t, max).facts)
  {
    hide Progress, Retain, RemindersAll, Said;
    var items := JudgedAll(t.s.items, Progress(t.facts));
    var a, b := Retain(items, (it: Item) => !Exhausted(it, max)), Retain(items, (it: Item) => Exhausted(it, max));
    var all := a + Reviewed(b);
    var k :| 0 <= k < |all| && Settled(all[k]) == x;
    if k < |a| {
      RetainOf(items, (it: Item) => !Exhausted(it, max), a[k]);
      var i :| 0 <= i < |items| && items[i] == a[k];
      JudgedShown(t, max, i, was);
      SettledShown(a[k], Finish(t, max).facts);
    } else {
      RetainOf(items, (it: Item) => Exhausted(it, max), b[k - |a|]);
    }
  }

  lemma SettledShown(it: Item, facts: seq<Fact>)
    requires Shown(it, facts)
    ensures Shown(Settled(it), facts)
  {}

  /**
   * Each item still open after a turn has a matching fact of that turn; and
   * the order is closed exactly when it was, or when an operation of the turn
   * confirmed a live close proposal.
   */
  lemma ReduceSays(s: State, ops: seq<Op>, media: bool, global: Option<int>, max: nat)
    requires StateOk(s) && QtyOk(global) && forall op | op in ops :: OpOk(op)
    ensures var t := Reduce(s, ops, media, global, max);
      && (forall x | x in t.s.items :: Shown(x, t.facts))
      && (t.s.status == Closed <==>
            || s.status == Closed
            || exists k :: 0 <= k < |ops| && ConfirmsClose(ApplyAll(Begin(s, global), ops[..k], media), ops[k]))
  {
    hide Said, TurnOk, Rules, ApplyAll, Finish, OpOk, ConfirmsClose;
    var t, was := Begin(s, global), s.status == Closed;
    BeginSaid(s, global);
    ApplyAllSaid(t, ops, media, was);
    var u := ApplyAll(t, ops, media);
    RulesSaid(u, was);
    var v := Rules(u);
    var w := Finish(v, max);
    FinishStatus(v, max, was);
    var r := Reduce(s, ops, media, global, max);
    forall x | x in r.s.items ensures Shown(x, r.facts) {
      FinishShows(v, max, x, was);
      ShownMore(x, w.facts, [Other("sin_entender")]);
    }
  }

  lemma BeginSaid(s: State, global: Option<int>)
    requires StateOk(s) && QtyOk(global)
    ensures TurnOk(Begin(s, global)) && Said(Begin(s, global), s.status == Closed)
  {}

  lemma FinishStatus(t: Turn, max: nat, was: bool)
    requires Said(t, was)
    ensures Finish(t, max).s.status == t.s.status && (t.s.status == Closed <==> was || OrderClosed in t.facts)
  {}

  /** Closed in this turn means said so, whatever the queue holds. */
  predicate Told(t: Turn) { t.s.status == Closed ==> OrderClosed in t.facts }

  lemma QuietlyTold(t: Turn, u: Turn)
    requires Told(t) && Quietly(t, u)
    ensures Told(u)
  {
    assert Special(OrderClosed);
  }

  lemma ApplyTold(t: Turn, op: Op, media: bool)
    requires Told(t)
    ensures Told(Apply(t, op, media))
  {
    hide Told, ModifyLine, ConfirmLive, Products, Retain, Propose, Quietly;
    var u := Apply(t, op, media);
    if !Proposes(t, op) {
      ApplyQuietly(t, op, media);
      QuietlyTold(t, u);
    } else if op.Modify? {
      ModifyTold(t, op.code, op.mode, op.value);
    } else if op.Confirm? {
      CloseTold(t);
    } else {
      var it := if op.CloseOrder? then CloseProposal else RepeatProposal(Repeated(t.s.lastClosed, op.value));
      ProposeTold(t, it);
      if u != Propose(t, it) {
        Untouched(t, u);
        QuietlyTold(t, u);
      }
    }
  }

  lemma ProposeTold(t: Turn, it: Item)
    requires Told(t)
    ensures Told(Propose(t, it))
  {}

  lemma ModifyTold(t: Turn, code: string, mode: Mode, value: Option<int>)
    requires Told(t)
    ensures Told(ModifyLine(t, code, mode, value))
  {}

  lemma CloseTold(t: Turn)
    requires ConfirmsClose(t, Confirm)
    ensures Told(ConfirmLive(t))
  {
    hide ReviewAll;
    assert ConfirmLive(t).facts[|t.facts|] == OrderClosed;
  }

  lemma {:induction false} ApplyAllTold(t: Turn, ops: seq<Op>, media: bool)
    requires Told(t)
    ensures Told(ApplyAll(t, ops, media))
    decreases |ops|
  {
    hide Told, Apply;
    if ops != [] {
      ApplyAllTold(t, ops[..|ops| - 1], media);
      ApplyTold(ApplyAll(t, ops[..|ops| - 1], media), ops[|ops| - 1], media);
    }
  }

  lemma RulesTold(t: Turn)
    requires Told(t)
    ensures Told(Rules(t))
  {
    hide Told, Quietly, Propose, Rules;
    if t.media != [] {
      ProposeTold(t, MediaProposal(t.media));
    }
    RulesQuietly(t);
    QuietlyTold(MediaRule(t), Rules(t));
  }

  /** A turn that closes the order makes progress. */
  lemma ClosingProgress(s: State, ops: seq<Op>, media: bool, global: Option<int>, max: nat)
    requires s.status != Closed && Reduce(s, ops, media, global, max).s.status == Closed
    ensures Progress(Rules(ApplyAll(Begin(s, global), ops, media)).facts)
  {
    hide ApplyAll, Rules, SettleItems, RemindersAll;
    ApplyAllTold(Begin(s, global), ops, media);
    RulesTold(ApplyAll(Begin(s, global), ops, media));
  }

  // ------------------------------------------------------------------
  // aplicar: the passes, step by step
  // ------------------------------------------------------------------

  /** The reducer's two passes over a copy of the state. */
  method ReduceTurn(s: State, ops: seq<Op>, media: bool, global: Option<int>, max: nat) returns (e: State, facts: seq<Fact>)
    ensures var t := Reduce(s, ops, media, global, max); e == t.s && facts == t.facts
  {
    hide Apply, Disputed, GlobalLine, Propose, Progress, SettleItems, Reminders, Codes;
    var t := Begin(s, global);
    for i := 0 to |ops|
      invariant t == ApplyAll(Begin(s, global), ops[..i], media)
    {
      assert ops[..i + 1][..i] == ops[..i];
      t := Apply(t, ops[i], media);
    }
    assert ops[..|ops|] == ops;
    ghost var rules := Rules(t);
    if t.media != [] {
      t := Propose(t, MediaProposal(t.media));
    }
    var codes := Codes(t.adds);
    ghost var disputed := DisputedAll(t, codes);
    for i := 0 to |codes|
      invariant DisputedAll(t, codes[i..]) == disputed
    {
      t := Disputed(t, codes[i]);
    }
    if t.global.Some? {
      var q, lines := t.global.value, t.withoutQty;
      ghost var filled := GlobalLines(t, lines, q);
      for i := 0 to |lines|
        invariant GlobalLines(t, lines[i..], q) == filled
      {
        t := GlobalLine(t, lines[i], q);
      }
      t := WithItems(t, FilledAll(t.s.items, q));
    }
    assert t == rules;
    var items := JudgedAll(t.s.items, Progress(t.facts));
    var more := [];
    for i := 0 to |items|
      invariant more == RemindersAll(items[..i], t.facts, max)
    {
      assert items[..i + 1][..i] == items[..i];
      more := more + Reminders(items[i], t.facts, max);
    }
    assert items[..|items|] == items;
    e := t.s.(items := SettleItems(items, max));
    facts := t.facts + more;
    if ops != [] && facts == [] {
      facts := facts + [Other("sin_entender")];
    }
  }
}

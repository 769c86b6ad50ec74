/** What the questions in the queue are: the proposal that waits, and the options an open product offers. */
module ReducerQueue {
  import opened Options
  import opened Seqs
  import opened Reducer
  import opened ReducerInvariant
  import opened ReducerCart
  import opened ReducerFacts
  import opened ReducerLoss
  import opened ReducerClose

  // ------------------------------------------------------------------
  // The proposal that waits for a yes or no
  // ------------------------------------------------------------------

  /** The proposal that waits after an operation. */
  function NewLive(t: Turn, op: Op): Option<Item> {
    match (Live(t), op)
    case (_, Confirm) => None
    case (_, Deny) => None
    case (Some(it), _) => Some(it)
    case (None, Modify(code, mode, value)) =>
      var have := Ordered(t.s.cart, code);
      if have > 0 && value.Some? && mode != Same
        && (if mode == SetTotal then value.value else if mode == Increase then have + value.value else have - value.value) <= 0
      then Some(DropProposal(code)) else None
    case (None, RepeatLast(value)) =>
      if t.s.lastClosed != [] then Some(RepeatProposal(Repeated(t.s.lastClosed, value))) else None
    case (None, CloseOrder) =>
      if t.s.cart != [] || exists x | x in t.s.items :: x.Product? || x.Review? then Some(CloseProposal) else None
    case _ => None
  }

  lemma LiveIs(t: Turn, x: Item)
    requires QueueOk(t.s.items)
    ensures Live(t) == Some(x) <==> x in t.s.items && YesNo(x)
  {
    match YesNoAt(t.s.items)
    case None =>
    case Some(i) =>
      LastProposal(t.s.items, i);
      CutOf(t.s.items, i, x);
  }

  lemma ProposeLive(t: Turn, it: Item)
    requires YesNo(it) && QueueOk(t.s.items)
    ensures Live(Propose(t, it)) == if Live(t).Some? then Live(t) else Some(it)
  {
    var u := Propose(t, it);
    if YesNoAt(t.s.items).None? {
      var at := YesNoAt(u.s.items);
      assert u.s.items[|t.s.items|] == it;
    }
  }

  /** No operation puts this proposal back: what waited still waits, unless it was answered. */
  lemma QuietLive(t: Turn, op: Op, media: bool)
    requires TurnOk(t) && OpOk(op) && !Proposes(t, op)
    ensures Live(Apply(t, op, media)) == if op.Confirm? || op.Deny? then None else Live(t)
  {
    hide Apply, TurnOk, Proposes, Has, Opens, Settles, Live;
    var u := Apply(t, op, media);
    ApplyQuietly(t, op, media);
    ApplyOk(t, op, media);
    ApplyHas(t, op, media, OfYesNo);
    LiveHas(t);
    LiveHas(u);
    YesNoKeys(t, op, media);
    if Live(u).Some? {
      var x := Live(u).value;
      TurnQueue(t);
      TurnQueue(u);
      LiveIs(u, x);
      LiveIs(t, x);
    }
  }

  lemma TurnQueue(t: Turn)
    requires TurnOk(t)
    ensures QueueOk(t.s.items)
  {}

  lemma YesNoKeys(t: Turn, op: Op, media: bool)
    requires !Proposes(t, op)
    ensures !Opens(t, op, media, OfYesNo) && (Settles(t, op, OfYesNo) <==> op.Confirm? || op.Deny?)
  {}

  /** Every operation leaves exactly the proposal the table says: it is the one put, it is never replaced, and a yes or no ends it. */
  lemma ApplyLive(t: Turn, op: Op, media: bool)
    requires TurnOk(t) && OpOk(op)
    ensures Live(Apply(t, op, media)) == NewLive(t, op)
  {
    hide Products, Retain, Propose, TurnOk, ModifyLine, ConfirmLive, Live, Ordered;
    TurnQueue(t);
    if !Proposes(t, op) {
      QuietLive(t, op, media);
    } else if op.Modify? {
      ModifyLive(t, op.code, op.mode, op.value);
    } else if op.Confirm? {
      CloseLive(t);
    } else {
      NoProducts(t.s.items);
      ProposeLive(t, CloseProposal);
      if op.RepeatLast? {
        ProposeLive(t, RepeatProposal(Repeated(t.s.lastClosed, op.value)));
      }
      EmitLive(t);
    }
  }

  lemma EmitLive(t: Turn)
    ensures forall f :: Live(Emit(t, f)) == Live(t)
  {}

  lemma ModifyLive(t: Turn, code: string, mode: Mode, value: Option<int>)
    requires TurnOk(t)
    ensures Live(ModifyLine(t, code, mode, value)) == NewLive(t, Modify(code, mode, value))
  {
    hide Propose, QueueOk;
    ProposeLive(t, DropProposal(code));
    HaveAt(t.s.cart, code);
  }

  lemma CloseLive(t: Turn)
    requires TurnOk(t) && ConfirmsClose(t, Confirm)
    ensures Live(ConfirmLive(t)) == None
  {
    hide Has, ConfirmLive, Live;
    JustClosed(t, OfYesNo);
    LiveHas(ConfirmLive(t));
  }

  /** Repeating the last order proposes its lines, each with the quantity given, or its own. */
  lemma RepeatedLines(lines: seq<Line>, value: Option<int>, i: nat)
    requires i < |lines| && lines[i].qty >= 1
    ensures Repeated(lines, value)[i].code == lines[i].code
    ensures Repeated(lines, value)[i].qty == if value.Some? && value.value != 0 then value.value else lines[i].qty
  {}

  /** The products a photo or audio brought, in order. */
  function MediaLines(ops: seq<Op>): seq<Line> {
    if ops == [] then []
    else
      var op := ops[|ops| - 1];
      MediaLines(ops[..|ops| - 1]) + if op.Add? then [Line(op.code, if op.qty.Some? then op.qty.value else 1)] else []
  }

  lemma {:induction false} MediaExact(t: Turn, ops: seq<Op>, media: bool)
    ensures ApplyAll(t, ops, media).media == t.media + if media then MediaLines(ops) else []
    decreases |ops|
  {
    hide Apply;
    if ops != [] {
      MediaExact(t, ops[..|ops| - 1], media);
      ApplySides(ApplyAll(t, ops[..|ops| - 1], media), ops[|ops| - 1], media);
    }
  }

  /** The rules put only what the photo brought, and only if nothing else waits. */
  lemma RulesLive(t: Turn)
    requires TurnOk(t)
    ensures Live(Rules(t)) == if Live(t).Some? then Live(t) else if t.media != [] then Some(MediaProposal(t.media)) else None
  {
    hide Rules, Has, TurnOk, Live, Quietly, MediaRule;
    var u, v := MediaRule(t), Rules(t);
    MediaLive(t);
    RulesQuietly(t);
    RulesOk(t);
    RulesHas(t, OfYesNo);
    LiveHas(t);
    LiveHas(v);
    if Live(v).Some? {
      var x := Live(v).value;
      TurnQueue(u);
      TurnQueue(v);
      LiveIs(v, x);
      QuietlyItem(u, v, x);
      LiveIs(u, x);
    }
  }

  lemma QuietlyItem(t: Turn, u: Turn, x: Item)
    requires Quietly(t, u) && x in u.s.items && YesNo(x)
    ensures x in t.s.items
  {}

  lemma MediaLive(t: Turn)
    requires TurnOk(t)
    ensures var u := MediaRule(t); TurnOk(u) && Live(u) == if Live(t).Some? then Live(t) else if t.media != [] then Some(MediaProposal(t.media)) else None
  {
    hide Propose, Live;
    MediaSame(t);
    if t.media != [] {
      ProposeLive(t, MediaProposal(t.media));
    }
  }

  // ------------------------------------------------------------------
  // The options of an open product
  // ------------------------------------------------------------------

  /** Offering options for a text: those not rejected before, and the quantity if one is given; the rest of the product stays. */
  lemma OfferEffect(t: Turn, text: string, qty: Option<int>, options: seq<string>, o: string)
    ensures var was, now := Found(t.s.items, text), Found(OfferOptions(t, text, qty, options).s.items, text);
      && now.Some?
      && (was.None? ==> now.value == Product(text, qty, options, {}, 0, true))
      && (was.Some? ==>
            && (o in now.value.options <==> o in options && o !in was.value.rejected)
            && now.value == was.value.(options := now.value.options, qty := if qty.Some? then qty else was.value.qty))
  {
    hide Retain;
    match ProductAt(t.s.items, text)
    case None => FoundAt(t.s.items + [Product(text, qty, options, {}, 0, true)], |t.s.items|, text);
    case Some(i) =>
      var p := t.s.items[i];
      RetainOf(options, (x: string) => x !in p.rejected, o);
      var q := p.(qty := if qty.Some? then qty else p.qty, options := Retain(options, (x: string) => x !in p.rejected));
      FoundMap(t.s.items, t.s.items[i := q], text);
  }

  /** Rejecting what a product offers: its options are all rejected, and none is left on offer. */
  lemma RejectEffect(t: Turn, text: string, o: string)
    requires Found(t.s.items, text).Some?
    ensures var was, now := Found(t.s.items, text).value, Found(RejectOptions(t, Some(text)).s.items, text);
      && now.Some? && now.value.options == [] && (o in now.value.rejected <==> o in was.rejected || o in was.options)
      && now.value == was.(options := [], rejected := now.value.rejected)
  {
    var i := ProductAt(t.s.items, text).value;
    assert RejectTarget(t.s.items, Some(text)) == Some(i);
    var p := t.s.items[i];
    FoundMap(t.s.items, t.s.items[i := p.(rejected := p.rejected + (set x | x in p.options), options := [])], text);
  }

  /** Nothing on offer was rejected before. */
  predicate NoneRejected(items: seq<Item>) {
    forall x | x in items && x.Product? :: forall o | o in x.options :: o !in x.rejected
  }

  /** Products of u are those of t, or fresh, or rejected. */
  ghost predicate Sprung(t: Turn, u: Turn) {
    forall x | x in u.s.items && x.Product? :: x in t.s.items || forall o | o in x.options :: o !in x.rejected
  }

  lemma AddSprung(t: Turn, code: string, qty: Option<int>)
    ensures forall x | x in AddLine(t, code, qty).s.items && x.Product? :: x in t.s.items
  {
    hide Retain;
    forall x | x in AddLine(t, code, qty).s.items && x.Product? ensures x in t.s.items {
      RetainOf(t.s.items, (it: Item) => !(it.Conflict? && it.code == code), x);
    }
  }

  lemma {:induction false} AddAllSprung(t: Turn, lines: seq<Line>)
    ensures forall x | x in AddAll(t, lines).s.items && x.Product? :: x in t.s.items
    decreases |lines|
  {
    hide AddLine;
    if lines != [] {
      AddSprung(t, lines[0].code, Some(OrOne(lines[0].qty)));
      AddAllSprung(AddLine(t, lines[0].code, Some(OrOne(lines[0].qty))), lines[1..]);
    }
  }

  lemma CutSprung(t: Turn, i: nat)
    requires i < |t.s.items|
    ensures forall x | x in Cut(t.s.items, i) :: x in t.s.items
  {
    forall x | x in Cut(t.s.items, i) ensures x in t.s.items { CutOf(t.s.items, i, x); }
  }

  lemma ConfirmSprung(t: Turn)
    ensures Sprung(t, ConfirmLive(t))
  {
    hide AddAll, ReviewAll, Without;
    match YesNoAt(t.s.items)
    case None =>
    case Some(i) =>
      var live, u := t.s.items[i], WithItems(t, Cut(t.s.items, i));
      CutSprung(t, i);
      if live.CloseProposal? {
        ReviewAllExact(u.s.items);
      } else if !live.DropProposal? {
        AddAllSprung(u, live.lines);
      }
  }

  lemma ChooseSprung(t: Turn, text: string, code: string)
    ensures Sprung(t, ChooseOption(t, text, code))
  {
    hide AddLine;
    match ProductAt(t.s.items, text)
    case None => AddSprung(t, code, None);
    case Some(i) =>
      CutSprung(t, i);
      AddSprung(WithItems(t, Cut(t.s.items, i)), code, t.s.items[i].qty);
  }

  lemma OfferSprung(t: Turn, text: string, qty: Option<int>, options: seq<string>)
    ensures Sprung(t, OfferOptions(t, text, qty, options)) && Sprung(t, OpenWithout(t, text, qty))
  {
    hide Retain;
    match ProductAt(t.s.items, text)
    case None =>
    case Some(i) =>
      var p := t.s.items[i];
      forall o | o in Retain(options, (x: string) => x !in p.rejected) ensures o !in p.rejected {
        RetainOf(options, (x: string) => x !in p.rejected, o);
      }
  }

  lemma CutsSprung(t: Turn, code: string, value: Option<int>)
    ensures Sprung(t, ChooseQuantity(t, code, value)) && Sprung(t, DenyLive(t))
  {
    if ConflictAt(t.s.items, code).Some? {
      CutSprung(t, ConflictAt(t.s.items, code).value);
    }
    if YesNoAt(t.s.items).Some? {
      CutSprung(t, YesNoAt(t.s.items).value);
    }
  }

  lemma ApplySprung(t: Turn, op: Op, media: bool)
    ensures Sprung(t, Apply(t, op, media))
  {
    hide Sprung, AddLine, ChooseOption, ChooseQuantity, ConfirmLive, DenyLive, GiveUp, OfferOptions, OpenWithout, RejectOptions, ModifyLine, RemoveLine, Propose, Products, Retain;
    match op
    case Add(code, qty) => AddSprung(t, code, qty); SprungSame(t, Apply(t, op, media));
    case Offer(text, qty, options) => OfferSprung(t, text, qty, options);
    case NoCandidates(text, qty) => OfferSprung(t, text, qty, []);
    case Reject(target) => RejectSprung(t, target);
    case Choose(text, code) => ChooseSprung(t, text, code);
    case ChooseQty(code, value) => CutsSprung(t, code, value);
    case Confirm => ConfirmSprung(t);
    case Deny => CutsSprung(t, "", None);
    case DoesNotKnow => GiveUpSprung(t);
    case _ => OthersSprung(t, op, media);
  }

  lemma SprungSame(t: Turn, u: Turn)
    requires forall x | x in u.s.items && x.Product? :: x in t.s.items
    ensures Sprung(t, u)
  {}

  lemma RejectSprung(t: Turn, target: Option<string>)
    ensures Sprung(t, RejectOptions(t, target))
  {
    hide RejectTarget;
  }

  lemma GiveUpSprung(t: Turn)
    ensures Sprung(t, GiveUp(t))
  {
    hide ReviewAll, Products;
    ReviewAllExact(t.s.items);
  }

  lemma OthersSprung(t: Turn, op: Op, media: bool)
    requires op.Modify? || op.Remove? || op.GlobalQty? || op.RepeatLast? || op.CloseOrder? || op.Say? || op.Unknown?
    ensures Sprung(t, Apply(t, op, media))
  {
    hide Products, Retain, Without;
  }

  lemma {:induction false} ApplyAllFresh(t: Turn, ops: seq<Op>, media: bool)
    requires NoneRejected(t.s.items)
    ensures NoneRejected(ApplyAll(t, ops, media).s.items)
    decreases |ops|
  {
    hide Apply;
    if ops != [] {
      ApplyAllFresh(t, ops[..|ops| - 1], media);
      ApplySprung(ApplyAll(t, ops[..|ops| - 1], media), ops[|ops| - 1], media);
    }
  }

  /** Products changed in place, with their options and rejections. */
  lemma MapFresh(items: seq<Item>, after: seq<Item>)
    requires NoneRejected(items) && |after| == |items|
    requires forall i | 0 <= i < |items| && after[i].Product? :: items[i].Product? && after[i].options == items[i].options && after[i].rejected == items[i].rejected
    ensures NoneRejected(after)
  {
    forall x | x in after && x.Product? ensures forall o | o in x.options :: o !in x.rejected {
      var i :| 0 <= i < |after| && after[i] == x;
      assert items[i] in items;
    }
  }

  lemma {:induction false} DisputedAllFresh(t: Turn, codes: seq<string>)
    requires NoneRejected(t.s.items)
    ensures NoneRejected(DisputedAll(t, codes).s.items)
    decreases |codes|
  {
    hide Disputed;
    if codes != [] {
      DisputedFresh(t, codes[0]);
      DisputedAllFresh(Disputed(t, codes[0]), codes[1..]);
    }
  }

  lemma DisputedFresh(t: Turn, code: string)
    requires NoneRejected(t.s.items)
    ensures NoneRejected(Disputed(t, code).s.items)
  {
    hide Retain, Quantities, SumOf;
    forall x | x in Disputed(t, code).s.items && x.Product? ensures x in t.s.items {
      RetainOf(t.s.items, (it: Item) => !(it.Conflict? && it.code == code), x);
    }
  }

  lemma RulesFresh(t: Turn)
    requires NoneRejected(t.s.items)
    ensures NoneRejected(Rules(t).s.items)
  {
    hide DisputedAll, GlobalLines, Codes, NoneRejected;
    var u := MediaRule(t);
    assert NoneRejected(u.s.items) by { MediaFresh(t); }
    DisputedAllFresh(u, Codes(u.adds));
    var v := DisputedAll(u, Codes(u.adds));
    if v.global.Some? {
      GlobalLinesItems(v, v.withoutQty, v.global.value);
      MapFresh(v.s.items, FilledAll(v.s.items, v.global.value));
    }
  }

  lemma MediaFresh(t: Turn)
    requires NoneRejected(t.s.items)
    ensures NoneRejected(MediaRule(t).s.items)
  {}

  lemma SettleFresh(items: seq<Item>, max: nat)
    requires NoneRejected(items)
    ensures NoneRejected(SettleItems(items, max))
  {
    hide Retain;
    var a, b := Retain(items, (it: Item) => !Exhausted(it, max)), Retain(items, (it: Item) => Exhausted(it, max));
    forall x | x in a ensures x in items { RetainOf(items, (it: Item) => !Exhausted(it, max), x); }
    forall x | x in Reviewed(b) ensures !x.Product? {}
    MapFresh(a + Reviewed(b), SettleItems(items, max));
  }

  /** No turn ever offers an option again that the client has rejected. */
  lemma NeverOfferedAgain(s: State, ops: seq<Op>, media: bool, global: Option<int>, max: nat)
    requires NoneRejected(s.items)
    ensures NoneRejected(Reduce(s, ops, media, global, max).s.items)
  {
    hide ApplyAll, Rules, SettleItems, NoneRejected, Progress;
    ApplyAllFresh(Begin(s, global), ops, media);
    RulesFresh(ApplyAll(Begin(s, global), ops, media));
    var u := Rules(ApplyAll(Begin(s, global), ops, media));
    var judged := JudgedAll(u.s.items, Progress(u.facts));
    MapFresh(u.s.items, judged);
    SettleFresh(judged, max);
  }
}

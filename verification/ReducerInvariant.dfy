/** What every operation of the reducer keeps: the shape of cart and queue, and what is said about it. */
module ReducerInvariant {
  import opened Options
  import opened Seqs
  import opened Reducer

  // ------------------------------------------------------------------
  // The shape of cart and queue
  // ------------------------------------------------------------------

  predicate SameCode(a: Line, b: Line) { a.code == b.code }

  /** Each code once, each quantity at least one. */
  predicate CartOk(cart: seq<Line>) {
    Apart(cart, SameCode) && forall i | 0 <= i < |cart| :: cart[i].qty >= 1
  }

  /** Two items the queue may not hold together. */
  predicate Clash(a: Item, b: Item) {
    || (YesNo(a) && YesNo(b))
    || (a.Conflict? && b.Conflict? && a.code == b.code)
    || (a.Product? && b.Product? && a.text == b.text)
  }

  predicate QtyOk(q: Option<int>) { q.Some? ==> q.value >= 1 }

  predicate ItemOk(it: Item) {
    match it
    case Product(_, qty, _, _, _, _) => QtyOk(qty)
    case Conflict(_, choices) => forall c | c in choices :: c >= 1
    case MediaProposal(lines) => forall i | 0 <= i < |lines| :: lines[i].qty >= 1
    case RepeatProposal(lines) => forall i | 0 <= i < |lines| :: lines[i].qty >= 1
    case _ => true
  }

  predicate QueueOk(items: seq<Item>) {
    Apart(items, Clash) && forall i | 0 <= i < |items| :: ItemOk(items[i])
  }

  predicate StateOk(s: State) {
    CartOk(s.cart) && QueueOk(s.items) && forall i | 0 <= i < |s.lastClosed| :: s.lastClosed[i].qty >= 1
  }

  /** Quantities in operations are at least one; a zero elsewhere counts as none. */
  predicate OpOk(op: Op) {
    match op
    case Add(_, qty) => QtyOk(qty)
    case Offer(_, qty, _) => QtyOk(qty)
    case NoCandidates(_, qty) => QtyOk(qty)
    case GlobalQty(value) => value.Some? ==> value.value >= 0
    case RepeatLast(value) => value.Some? ==> value.value >= 0
    case _ => true
  }

  predicate TurnOk(t: Turn) {
    && StateOk(t.s) && QtyOk(t.global)
    && (forall i | 0 <= i < |t.adds| :: QtyOk(t.adds[i].1))
    && (forall i | 0 <= i < |t.media| :: t.media[i].qty >= 1)
  }

  lemma QueueAppend(items: seq<Item>, it: Item)
    requires QueueOk(items) && ItemOk(it) && forall i | 0 <= i < |items| :: !Clash(items[i], it)
    ensures QueueOk(items + [it])
  {
    AppendApart(items, it, Clash);
  }

  lemma QueueCut(items: seq<Item>, i: nat)
    requires QueueOk(items) && i < |items|
    ensures QueueOk(Cut(items, i))
  {
    CutApart(items, i, Clash);
  }

  lemma QueueRetain(items: seq<Item>, p: Item -> bool)
    requires QueueOk(items)
    ensures QueueOk(Retain(items, p))
    ensures forall i | 0 <= i < |Retain(items, p)| :: Retain(items, p)[i] in items && p(Retain(items, p)[i])
  {
    RetainApart(items, p, Clash);
    var r := Retain(items, p);
    forall i | 0 <= i < |r| ensures r[i] in items && p(r[i]) && ItemOk(r[i]) {
      RetainOf(items, p, r[i]);
    }
  }

  lemma QueueUpdate(items: seq<Item>, i: nat, it: Item)
    requires QueueOk(items) && i < |items| && items[i].Product? && it.Product? && it.text == items[i].text && ItemOk(it)
    ensures QueueOk(items[i := it])
  {}

  lemma QueueConflict(items: seq<Item>, code: string, choices: set<int>)
    requires QueueOk(items) && forall c | c in choices :: c >= 1
    ensures QueueOk(WithoutConflict(items, code) + [Conflict(code, choices)])
  {
    hide Retain;
    QueueRetain(items, (it: Item) => !(it.Conflict? && it.code == code));
    QueueAppend(WithoutConflict(items, code), Conflict(code, choices));
  }

  lemma CartAppend(cart: seq<Line>, code: string, q: int)
    requires CartOk(cart) && LineAt(cart, code).None? && q >= 1
    ensures CartOk(cart + [Line(code, q)])
  {
    AppendApart(cart, Line(code, q), SameCode);
  }

  lemma CartWithout(cart: seq<Line>, code: string)
    requires CartOk(cart)
    ensures CartOk(Without(cart, code))
  {
    var p := (l: Line) => l.code != code;
    RetainApart(cart, p, SameCode);
    forall i | 0 <= i < |Retain(cart, p)| ensures Retain(cart, p)[i].qty >= 1 {
      RetainOf(cart, p, Retain(cart, p)[i]);
    }
  }

  lemma CartSet(cart: seq<Line>, i: nat, q: int)
    requires CartOk(cart) && i < |cart| && q >= 1
    ensures CartOk(cart[i := Line(cart[i].code, q)])
  {}

  lemma ProposeOk(t: Turn, it: Item)
    requires TurnOk(t) && YesNo(it) && ItemOk(it)
    ensures TurnOk(Propose(t, it))
  {
    if YesNoAt(t.s.items).None? {
      QueueAppend(t.s.items, it);
    }
  }

  lemma AddOk(t: Turn, code: string, qty: Option<int>)
    requires TurnOk(t) && QtyOk(qty)
    ensures TurnOk(AddLine(t, code, qty))
  {
    hide QueueOk, CartOk, WithoutConflict;
    match LineAt(t.s.cart, code)
    case Some(i) =>
      var have := t.s.cart[i].qty;
      if qty.Some? {
        LineQty(t.s.cart, i);
        QueueConflict(t.s.items, code, {qty.value, have, qty.value + have});
      }
    case None => CartAppend(t.s.cart, code, if qty.Some? then qty.value else 1);
  }

  lemma LineQty(cart: seq<Line>, i: nat)
    requires CartOk(cart) && i < |cart|
    ensures cart[i].qty >= 1
  {}

  lemma {:induction false} AddAllOk(t: Turn, lines: seq<Line>)
    requires TurnOk(t) && forall i | 0 <= i < |lines| :: lines[i].qty >= 1
    ensures TurnOk(AddAll(t, lines))
    decreases |lines|
  {
    hide AddLine, TurnOk;
    if lines != [] {
      AddOk(t, lines[0].code, Some(OrOne(lines[0].qty)));
      AddAllOk(AddLine(t, lines[0].code, Some(OrOne(lines[0].qty))), lines[1..]);
    }
  }

  lemma ReviewAllOk(items: seq<Item>)
    requires QueueOk(items)
    ensures QueueOk(ReviewAll(items))
  {
    hide Retain;
    QueueRetain(items, (it: Item) => !it.Product?);
    QueueRetain(items, (it: Item) => it.Product?);
    ReviewsApart(Retain(items, (it: Item) => !it.Product?), Reviewed(Products(items)));
  }

  lemma ReviewsApart(a: seq<Item>, b: seq<Item>)
    requires QueueOk(a) && forall i | 0 <= i < |b| :: b[i].Review?
    ensures QueueOk(a + b)
  {}

  lemma ModifyOk(t: Turn, code: string, mode: Mode, value: Option<int>)
    requires TurnOk(t)
    ensures TurnOk(ModifyLine(t, code, mode, value))
  {
    hide QueueOk, CartOk, Propose;
    ProposeOk(t, DropProposal(code));
    match LineAt(t.s.cart, code)
    case None =>
    case Some(i) =>
      forall q | q >= 1 ensures CartOk(t.s.cart[i := Line(code, q)]) { CartSet(t.s.cart, i, q); }
  }

  lemma RemoveOk(t: Turn, code: string, numeral: bool)
    requires TurnOk(t)
    ensures TurnOk(RemoveLine(t, code, numeral))
  {
    hide QueueOk, CartOk, Without;
    CartWithout(t.s.cart, code);
  }

  lemma OfferOk(t: Turn, text: string, qty: Option<int>, options: seq<string>)
    requires TurnOk(t) && QtyOk(qty)
    ensures TurnOk(OfferOptions(t, text, qty, options))
  {
    hide CartOk, Retain;
    match ProductAt(t.s.items, text)
    case None => QueueAppend(t.s.items, Product(text, qty, options, {}, 0, true));
    case Some(i) =>
      var p := t.s.items[i];
      QueueUpdate(t.s.items, i, p.(qty := if qty.Some? then qty else p.qty, options := Retain(options, (o: string) => o !in p.rejected)));
  }

  lemma OpenOk(t: Turn, text: string, qty: Option<int>)
    requires TurnOk(t) && QtyOk(qty)
    ensures TurnOk(OpenWithout(t, text, qty))
  {
    hide CartOk;
    if ProductAt(t.s.items, text).None? {
      QueueAppend(t.s.items, Product(text, qty, [], {}, 0, true));
    }
  }

  lemma RejectOk(t: Turn, target: Option<string>)
    requires TurnOk(t)
    ensures TurnOk(RejectOptions(t, target))
  {
    hide CartOk, RejectTarget;
    match RejectTarget(t.s.items, target)
    case None =>
    case Some(i) =>
      var p := t.s.items[i];
      QueueUpdate(t.s.items, i, p.(rejected := p.rejected + (set o | o in p.options), options := []));
  }

  lemma ChooseOk(t: Turn, text: string, code: string)
    requires TurnOk(t)
    ensures TurnOk(ChooseOption(t, text, code))
  {
    hide CartOk, AddLine;
    match ProductAt(t.s.items, text)
    case None => AddOk(t, code, None);
    case Some(i) =>
      QueueCut(t.s.items, i);
      assert ItemOk(t.s.items[i]);
      AddOk(WithItems(t, Cut(t.s.items, i)), code, t.s.items[i].qty);
  }

  lemma ChooseQtyOk(t: Turn, code: string, value: Option<int>)
    requires TurnOk(t)
    ensures TurnOk(ChooseQuantity(t, code, value))
  {
    hide CartOk;
    match ConflictAt(t.s.items, code)
    case None =>
    case Some(i) =>
      QueueCut(t.s.items, i);
      if value.Some? && value.value in t.s.items[i].choices {
        assert ItemOk(t.s.items[i]);
        match LineAt(t.s.cart, code) {
          case None => CartAppend(t.s.cart, code, value.value);
          case Some(k) => CartSet(t.s.cart, k, value.value);
        }
      }
  }

  lemma ConfirmOk(t: Turn)
    requires TurnOk(t)
    ensures TurnOk(ConfirmLive(t))
  {
    hide CartOk, ReviewAll, AddAll, Without;
    match YesNoAt(t.s.items)
    case None =>
    case Some(i) =>
      var live := t.s.items[i];
      var u := WithItems(t, Cut(t.s.items, i));
      QueueCut(t.s.items, i);
      assert ItemOk(live);
      if live.CloseProposal? {
        ReviewAllOk(u.s.items);
      } else if live.DropProposal? {
        CartWithout(u.s.cart, live.code);
      } else {
        AddAllOk(u, live.lines);
      }
  }

  lemma DenyOk(t: Turn)
    requires TurnOk(t)
    ensures TurnOk(DenyLive(t))
  {
    hide CartOk;
    match YesNoAt(t.s.items)
    case None =>
    case Some(i) => QueueCut(t.s.items, i);
  }

  lemma GiveUpOk(t: Turn)
    requires TurnOk(t)
    ensures TurnOk(GiveUp(t))
  {
    hide CartOk, QueueOk, ReviewAll, Products;
    ReviewAllOk(t.s.items);
  }

  lemma RepeatOk(t: Turn, value: Option<int>)
    requires TurnOk(t) && (value.Some? ==> value.value >= 0)
    ensures TurnOk(Propose(t, RepeatProposal(Repeated(t.s.lastClosed, value))))
  {
    ProposeOk(t, RepeatProposal(Repeated(t.s.lastClosed, value)));
  }

  /** Every operation keeps codes and texts unique, one proposal alive, and quantities positive. */
  lemma ApplyOk(t: Turn, op: Op, media: bool)
    requires TurnOk(t) && OpOk(op)
    ensures TurnOk(Apply(t, op, media))
  {
    hide StateOk, AddLine, ModifyLine, RemoveLine, OfferOptions, OpenWithout, RejectOptions, ChooseOption, ChooseQuantity, Propose, ConfirmLive, DenyLive, GiveUp, Products, Retain;
    match op
    case Add(code, qty) => AddOk(t, code, qty);
    case Modify(code, mode, value) => ModifyOk(t, code, mode, value);
    case Remove(code, numeral) => RemoveOk(t, code, numeral);
    case Offer(text, qty, options) => OfferOk(t, text, qty, options);
    case NoCandidates(text, qty) => OpenOk(t, text, qty);
    case Reject(target) => RejectOk(t, target);
    case Choose(text, code) => ChooseOk(t, text, code);
    case ChooseQty(code, value) => ChooseQtyOk(t, code, value);
    case GlobalQty(value) =>
    case RepeatLast(value) => RepeatOk(t, value);
    case CloseOrder => ProposeOk(t, CloseProposal);
    case Confirm => ConfirmOk(t);
    case Deny => DenyOk(t);
    case DoesNotKnow => GiveUpOk(t);
    case Say(note) =>
    case Unknown =>
  }

  // Pass 2.

  lemma {:induction false} QuantitiesOk(adds: seq<(string, Option<int>)>, code: string)
    requires forall i | 0 <= i < |adds| :: QtyOk(adds[i].1)
    ensures forall i | 0 <= i < |Quantities(adds, code)| :: Quantities(adds, code)[i] >= 1
    decreases |adds|
  {
    if adds != [] {
      QuantitiesOk(adds[..|adds| - 1], code);
    }
  }

  lemma {:induction false} SumOk(qs: seq<int>)
    requires forall i | 0 <= i < |qs| :: qs[i] >= 1
    ensures SumOf(qs) >= |qs|
    decreases |qs|
  {
    if qs != [] {
      SumOk(qs[..|qs| - 1]);
    }
  }

  lemma DisputedOk(t: Turn, code: string)
    requires TurnOk(t)
    ensures TurnOk(Disputed(t, code)) && Disputed(t, code).adds == t.adds
  {
    hide QueueOk, CartOk, Without, WithoutConflict, Retain, Quantities, SumOf;
    var qs := Quantities(t.adds, code);
    if |qs| > 1 {
      QuantitiesOk(t.adds, code);
      SumOk(qs);
      QueueConflict(t.s.items, code, (set q | q in qs) + {SumOf(qs)});
      CartWithout(t.s.cart, code);
    }
  }

  lemma {:induction false} DisputedAllOk(t: Turn, codes: seq<string>)
    requires TurnOk(t)
    ensures TurnOk(DisputedAll(t, codes))
    decreases |codes|
  {
    hide Disputed, TurnOk;
    if codes != [] {
      DisputedOk(t, codes[0]);
      DisputedAllOk(Disputed(t, codes[0]), codes[1..]);
    }
  }

  lemma GlobalLineOk(t: Turn, code: string, q: int)
    requires TurnOk(t) && q >= 1
    ensures TurnOk(GlobalLine(t, code, q))
  {
    hide QueueOk, CartOk;
    match LineAt(t.s.cart, code)
    case None =>
    case Some(i) => CartSet(t.s.cart, i, q);
  }

  lemma {:induction false} GlobalLinesOk(t: Turn, codes: seq<string>, q: int)
    requires TurnOk(t) && q >= 1
    ensures TurnOk(GlobalLines(t, codes, q))
    decreases |codes|
  {
    hide GlobalLine, TurnOk;
    if codes != [] {
      GlobalLineOk(t, codes[0], q);
      GlobalLinesOk(GlobalLine(t, codes[0], q), codes[1..], q);
    }
  }

  lemma RulesOk(t: Turn)
    requires TurnOk(t)
    ensures TurnOk(Rules(t))
  {
    hide Propose, DisputedAll, GlobalLines, Codes, CartOk;
    if t.media != [] {
      ProposeOk(t, MediaProposal(t.media));
    }
    var u := MediaRule(t);
    DisputedAllOk(u, Codes(u.adds));
    var v := DisputedAll(u, Codes(u.adds));
    if v.global.Some? {
      GlobalLinesOk(v, v.withoutQty, v.global.value);
      FilledOk(GlobalLines(v, v.withoutQty, v.global.value).s.items, v.global.value);
    }
  }

  lemma FilledOk(items: seq<Item>, q: int)
    requires QueueOk(items) && q >= 1
    ensures QueueOk(FilledAll(items, q))
  {}

  lemma JudgedOk(items: seq<Item>, progress: bool)
    requires QueueOk(items)
    ensures QueueOk(JudgedAll(items, progress))
  {}

  lemma SettleOk(items: seq<Item>, max: nat)
    requires QueueOk(items)
    ensures QueueOk(SettleItems(items, max))
  {
    hide Retain;
    var a, b := Retain(items, (it: Item) => !Exhausted(it, max)), Retain(items, (it: Item) => Exhausted(it, max));
    QueueRetain(items, (it: Item) => !Exhausted(it, max));
    QueueRetain(items, (it: Item) => Exhausted(it, max));
    ReviewsApart(a, Reviewed(b));
    SettledOk(a + Reviewed(b));
  }

  lemma SettledOk(items: seq<Item>)
    requires QueueOk(items)
    ensures QueueOk(SettledAll(items))
  {}

  lemma {:induction false} ApplyAllOk(t: Turn, ops: seq<Op>, media: bool)
    requires TurnOk(t) && forall op | op in ops :: OpOk(op)
    ensures TurnOk(ApplyAll(t, ops, media))
    decreases |ops|
  {
    hide Apply, TurnOk, OpOk;
    if ops != [] {
      ApplyAllOk(t, ops[..|ops| - 1], media);
      ApplyOk(ApplyAll(t, ops[..|ops| - 1], media), ops[|ops| - 1], media);
    }
  }

  /**
   * Every turn keeps cart codes distinct with quantities at least one, at most
   * one yes/no proposal, one quantity conflict per code and one open product
   * per text.
   */
  lemma ReduceKeepsShape(s: State, ops: seq<Op>, media: bool, global: Option<int>, max: nat)
    requires StateOk(s) && QtyOk(global) && forall op | op in ops :: OpOk(op)
    ensures StateOk(Reduce(s, ops, media, global, max).s)
  {
    hide ApplyAll, Rules, QueueOk, CartOk, SettleItems, OpOk;
    ApplyAllOk(Begin(s, global), ops, media);
    var t := ApplyAll(Begin(s, global), ops, media);
    RulesOk(t);
    var u := Rules(t);
    JudgedOk(u.s.items, Progress(u.facts));
    SettleOk(JudgedAll(u.s.items, Progress(u.facts)), max);
  }
}

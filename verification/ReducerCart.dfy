/** What each operation of the reducer does to the quantities in the cart, and what it leaves alone. */
module ReducerCart {
  import opened Options
  import opened Seqs
  import opened Reducer
  import opened ReducerInvariant

  /** How many of a code are ordered. */
  function Ordered(cart: seq<Line>, code: string): int {
    match LineAt(cart, code)
    case None => 0
    case Some(i) => cart[i].qty
  }

  lemma OrderedAt(cart: seq<Line>, i: nat)
    requires CartOk(cart) && i < |cart|
    ensures Ordered(cart, cart[i].code) == cart[i].qty
  {
    var k := LineAt(cart, cart[i].code).value;
    assert SameCode(cart[k], cart[i]) && SameCode(cart[i], cart[k]);
  }

  lemma HaveAt(cart: seq<Line>, code: string)
    requires CartOk(cart)
    ensures match LineAt(cart, code) case None => Ordered(cart, code) == 0 case Some(i) => Ordered(cart, code) == cart[i].qty >= 1
  {}

  /** A cart is known by its lines. */
  lemma OrderedIs(cart: seq<Line>, code: string, q: int)
    requires CartOk(cart)
    ensures q > 0 ==> (Ordered(cart, code) == q <==> Line(code, q) in cart)
    ensures Ordered(cart, code) == 0 <==> forall i | 0 <= i < |cart| :: cart[i].code != code
  {
    if Line(code, q) in cart {
      var i :| 0 <= i < |cart| && cart[i] == Line(code, q);
      OrderedAt(cart, i);
    }
  }

  lemma OrderedSet(cart: seq<Line>, i: nat, q: int, other: string)
    requires CartOk(cart) && i < |cart| && q >= 1
    ensures Ordered(cart[i := Line(cart[i].code, q)], other) == if other == cart[i].code then q else Ordered(cart, other)
  {
    var next := cart[i := Line(cart[i].code, q)];
    CartSet(cart, i, q);
    if other == cart[i].code {
      OrderedAt(next, i);
    } else {
      match LineAt(cart, other)
      case None =>
      case Some(k) => OrderedAt(next, k);
    }
  }

  lemma OrderedAppend(cart: seq<Line>, code: string, q: int, other: string)
    requires CartOk(cart) && LineAt(cart, code).None? && q >= 1
    ensures Ordered(cart + [Line(code, q)], other) == if other == code then q else Ordered(cart, other)
  {
    var next := cart + [Line(code, q)];
    CartAppend(cart, code, q);
    if other == code {
      OrderedAt(next, |cart|);
    } else {
      match LineAt(cart, other)
      case None =>
      case Some(k) => assert next[k] == cart[k]; OrderedAt(next, k);
    }
  }

  lemma OrderedWithout(cart: seq<Line>, code: string, other: string)
    requires CartOk(cart)
    ensures Ordered(Without(cart, code), other) == if other == code then 0 else Ordered(cart, other)
  {
    hide Retain, LineAt;
    var next := Without(cart, code);
    CartWithout(cart, code);
    var q := Ordered(cart, other);
    OrderedIs(next, other, q);
    OrderedIs(cart, other, q);
    forall l ensures l in next <==> l in cart && l.code != code {
      RetainOf(cart, (x: Line) => x.code != code, l);
    }
    LinesPositive(cart, other);
    forall i | 0 <= i < |next| && next[i].code == other ensures other != code && Ordered(cart, other) > 0 {
      assert next[i] in cart;
      var k :| 0 <= k < |cart| && cart[k] == next[i];
      OrderedAt(cart, k);
    }
  }

  lemma LinesPositive(cart: seq<Line>, code: string)
    requires CartOk(cart)
    ensures Ordered(cart, code) >= 0
  {}

  /**
   * Asking for a code: a new line has the quantity given, or one; a line that
   * is there stays as it is, and a different quantity opens the one question
   * that offers the old, the new and their sum.
   */
  lemma AddEffect(t: Turn, code: string, qty: Option<int>, other: string)
    requires TurnOk(t) && QtyOk(qty)
    ensures var u := AddLine(t, code, qty); var have := Ordered(t.s.cart, code);
      && Ordered(u.s.cart, other) == (if other == code && have == 0 then (if qty.Some? then qty.value else 1) else Ordered(t.s.cart, other))
      && (have > 0 && qty.Some? && qty.value != have ==> Conflict(code, {have, qty.value, have + qty.value}) in u.s.items)
      && (have == 0 || qty.None? || qty.value == have ==> u.s.items == t.s.items)
  {
    hide WithoutConflict;
    match LineAt(t.s.cart, code)
    case None => OrderedAppend(t.s.cart, code, if qty.Some? then qty.value else 1, other);
    case Some(i) =>
      OrderedAt(t.s.cart, i);
      if qty.Some? {
        var have := t.s.cart[i].qty;
        assert {qty.value, have, qty.value + have} == {have, qty.value, have + qty.value};
      }
  }

  /** A change of quantity: the total, more or fewer; a line never falls to zero without a question. */
  lemma ModifyEffect(t: Turn, code: string, mode: Mode, value: int, other: string)
    requires TurnOk(t) && Ordered(t.s.cart, code) > 0 && mode != Same
    ensures var u := ModifyLine(t, code, mode, Some(value)); var have := Ordered(t.s.cart, code);
      var next := if mode == SetTotal then value else if mode == Increase then have + value else have - value;
      && Ordered(u.s.cart, other) == (if other == code && next > 0 then next else Ordered(t.s.cart, other))
      && (next > 0 ==> u.s.items == t.s.items)
      && (next <= 0 && YesNoAt(t.s.items).None? ==> u.s.items == t.s.items + [DropProposal(code)])
  {
    match LineAt(t.s.cart, code)
    case None =>
    case Some(i) =>
      var have := t.s.cart[i].qty;
      var next := if mode == SetTotal then value else if mode == Increase then have + value else have - value;
      if next > 0 {
        OrderedSet(t.s.cart, i, next, other);
      }
  }

  /** Adding to a line and taking the same away leaves every quantity as it was. */
  lemma IncreaseThenDecrease(t: Turn, code: string, value: int, other: string)
    requires TurnOk(t) && Ordered(t.s.cart, code) > 0 && value >= 1
    ensures var u := ModifyLine(ModifyLine(t, code, Increase, Some(value)), code, Decrease, Some(value));
      Ordered(u.s.cart, other) == Ordered(t.s.cart, other) && u.s.items == t.s.items
  {
    hide ModifyLine;
    ModifyOk(t, code, Increase, Some(value));
    var m := ModifyLine(t, code, Increase, Some(value));
    ModifyEffect(t, code, Increase, value, code);
    ModifyEffect(t, code, Increase, value, other);
    ModifyEffect(m, code, Decrease, value, code);
    ModifyEffect(m, code, Decrease, value, other);
  }

  /** Removing a code removes that code only; a numeral in the request asks first. */
  lemma RemoveEffect(t: Turn, code: string, numeral: bool, other: string)
    requires TurnOk(t)
    ensures Ordered(RemoveLine(t, code, numeral).s.cart, other) == if other == code && !numeral then 0 else Ordered(t.s.cart, other)
  {
    hide Without;
    OrderedWithout(t.s.cart, code, other);
  }

  /** Settling a conflict sets exactly the quantity chosen, and only one that was offered. */
  lemma ChooseQtyEffect(t: Turn, code: string, value: int, other: string)
    requires TurnOk(t)
    ensures var u := ChooseQuantity(t, code, Some(value)); var at := ConflictAt(t.s.items, code);
      var offered := at.Some? && value in t.s.items[at.value].choices;
      && Ordered(u.s.cart, other) == (if other == code && offered then value else Ordered(t.s.cart, other))
      && (offered ==> ConflictAt(u.s.items, code).None?)
      && (!offered ==> u == t)
  {
    match ConflictAt(t.s.items, code)
    case None =>
    case Some(i) =>
      if value in t.s.items[i].choices {
        assert ItemOk(t.s.items[i]);
        match LineAt(t.s.cart, code) {
          case None => OrderedAppend(t.s.cart, code, value, other);
          case Some(k) => OrderedSet(t.s.cart, k, value, other);
        }
        OneConflict(t.s.items, i);
      }
  }

  lemma OneConflict(items: seq<Item>, i: nat)
    requires QueueOk(items) && i < |items| && items[i].Conflict?
    ensures ConflictAt(Cut(items, i), items[i].code).None?
  {
    var rest := Cut(items, i);
    forall k | 0 <= k < |rest| ensures !(rest[k].Conflict? && rest[k].code == items[i].code) {
      var j := if k < i then k else k + 1;
      assert rest[k] == items[j];
      if j < i {
        assert !Clash(items[j], items[i]);
      } else {
        assert !Clash(items[i], items[j]);
      }
    }
  }

  /** One message with several quantities for a code: the line is withdrawn, and every quantity given is offered, with their sum. */
  lemma DisputedEffect(t: Turn, code: string, other: string)
    requires TurnOk(t) && |Quantities(t.adds, code)| > 1
    ensures var u := Disputed(t, code); var qs := Quantities(t.adds, code);
      && Ordered(u.s.cart, other) == (if other == code then 0 else Ordered(t.s.cart, other))
      && Conflict(code, (set q | q in qs) + {SumOf(qs)}) in u.s.items
      && AskQuantity(code) in u.facts
  {
    hide Without, WithoutConflict, Quantities, SumOf, Retain;
    OrderedWithout(t.s.cart, code, other);
  }

  /** A quantity is among those given for a code exactly when some add of the turn gave it. */
  lemma {:induction false} QuantitiesExact(adds: seq<(string, Option<int>)>, code: string, q: int)
    ensures q in Quantities(adds, code) <==> (code, Some(q)) in adds
    decreases |adds|
  {
    if adds != [] {
      var init, last := adds[..|adds| - 1], adds[|adds| - 1];
      QuantitiesExact(init, code, q);
      assert adds == init + [last];
      assert (code, Some(q)) in adds <==> (code, Some(q)) in init || last == (code, Some(q));
      assert last == (last.0, last.1);
      if last.0 == code && last.1.Some? && last.1.value !in Quantities(init, code) {
        assert Quantities(adds, code) == Quantities(init, code) + [last.1.value];
      }
    }
  }

  // ------------------------------------------------------------------
  // Every operation's effect on every quantity
  // ------------------------------------------------------------------

  /** The quantity of the open product with this text. */
  function QtyOf(items: seq<Item>, text: string): Option<int> {
    var at := ProductAt(items, text);
    if at.Some? then items[at.value].qty else None
  }

  /** The proposal waiting for a yes or no. */
  function Live(t: Turn): Option<Item> {
    var at := YesNoAt(t.s.items);
    if at.Some? then Some(t.s.items[at.value]) else None
  }

  /** The quantity the first line with this code has, or none. */
  function FirstQty(lines: seq<Line>, code: string): Option<int> {
    if lines == [] then None
    else if lines[0].code == code then Some(OrOne(lines[0].qty))
    else FirstQty(lines[1..], code)
  }

  /** Line i is the first with this code. */
  predicate FirstLine(lines: seq<Line>, code: string, i: nat) {
    i < |lines| && lines[i].code == code && forall j | 0 <= j < i :: lines[j].code != code
  }

  lemma {:induction false} FirstQtyIs(lines: seq<Line>, code: string, i: nat)
    ensures FirstQty(lines, code).None? <==> forall k | 0 <= k < |lines| :: lines[k].code != code
    ensures FirstLine(lines, code, i) ==> FirstQty(lines, code) == Some(OrOne(lines[i].qty))
    decreases |lines|
  {
    if lines != [] && lines[0].code != code {
      FirstQtyIs(lines[1..], code, if i == 0 then 0 else i - 1);
      forall k | 1 <= k < |lines| ensures lines[k] == lines[1..][k - 1] {}
    }
  }

  lemma AddOrdered(t: Turn, code: string, qty: Option<int>, other: string)
    requires TurnOk(t) && QtyOk(qty)
    ensures Ordered(AddLine(t, code, qty).s.cart, other)
      == if other == code && Ordered(t.s.cart, code) == 0 then (if qty.Some? then qty.value else 1) else Ordered(t.s.cart, other)
  {
    AddEffect(t, code, qty, other);
  }

  /** Lines confirmed one after another: a code in the cart keeps its quantity, any other takes its first line's. */
  lemma {:induction false} AddAllOrdered(t: Turn, lines: seq<Line>, other: string)
    requires TurnOk(t) && forall i | 0 <= i < |lines| :: lines[i].qty >= 1
    ensures Ordered(AddAll(t, lines).s.cart, other)
      == if Ordered(t.s.cart, other) == 0 && FirstQty(lines, other).Some? then FirstQty(lines, other).value else Ordered(t.s.cart, other)
    decreases |lines|
  {
    hide AddLine, TurnOk, Ordered;
    if lines != [] {
      var c, q := lines[0].code, OrOne(lines[0].qty);
      var u := AddLine(t, c, Some(q));
      AddOk(t, c, Some(q));
      AddOrdered(t, c, Some(q), other);
      AddAllOrdered(u, lines[1..], other);
    }
  }

  /** How many of a code are ordered after an operation. */
  function NewQty(t: Turn, op: Op, media: bool, code: string): int {
    var have := Ordered(t.s.cart, code);
    match op
    case Add(c, qty) => if !media && c == code && have == 0 then (if qty.Some? then qty.value else 1) else have
    case Modify(c, mode, value) =>
      if c != code || have == 0 || mode == Same || value.None? then have
      else
        var next := if mode == SetTotal then value.value else if mode == Increase then have + value.value else have - value.value;
        if next > 0 then next else have
    case Remove(c, numeral) => if c == code && !numeral then 0 else have
    case Choose(text, c) =>
      var qty := QtyOf(t.s.items, text);
      if c == code && have == 0 then (if qty.Some? then qty.value else 1) else have
    case ChooseQty(c, value) =>
      var at := ConflictAt(t.s.items, c);
      if c == code && at.Some? && value.Some? && value.value in t.s.items[at.value].choices then value.value else have
    case Confirm =>
      (match Live(t)
       case Some(DropProposal(c)) => if c == code then 0 else have
       case Some(MediaProposal(lines)) => if have == 0 && FirstQty(lines, code).Some? then FirstQty(lines, code).value else have
       case Some(RepeatProposal(lines)) => if have == 0 && FirstQty(lines, code).Some? then FirstQty(lines, code).value else have
       case _ => have)
    case _ => have
  }

  lemma ModifyOrdered(t: Turn, code: string, mode: Mode, value: Option<int>, other: string)
    requires TurnOk(t)
    ensures Ordered(ModifyLine(t, code, mode, value).s.cart, other) == NewQty(t, Modify(code, mode, value), false, other)
  {
    LinesPositive(t.s.cart, code);
    if Ordered(t.s.cart, code) > 0 && mode != Same && value.Some? {
      ModifyEffect(t, code, mode, value.value, other);
    } else {
      OrderedIs(t.s.cart, code, 1);
    }
  }

  lemma ChooseOrdered(t: Turn, text: string, code: string, other: string)
    requires TurnOk(t)
    ensures Ordered(ChooseOption(t, text, code).s.cart, other) == NewQty(t, Choose(text, code), false, other)
  {
    hide AddLine, Ordered, CartOk;
    match ProductAt(t.s.items, text)
    case None => AddOrdered(t, code, None, other);
    case Some(i) =>
      QueueCut(t.s.items, i);
      assert ItemOk(t.s.items[i]);
      AddOrdered(WithItems(t, Cut(t.s.items, i)), code, t.s.items[i].qty, other);
  }

  lemma ChooseQtyOrdered(t: Turn, code: string, value: Option<int>, other: string)
    requires TurnOk(t)
    ensures Ordered(ChooseQuantity(t, code, value).s.cart, other) == NewQty(t, ChooseQty(code, value), false, other)
  {
    if value.Some? {
      ChooseQtyEffect(t, code, value.value, other);
    }
  }

  /** Confirming what is proposed: a drop removes that line, lines are added, and a close leaves the cart alone. */
  lemma ConfirmOrdered(t: Turn, other: string)
    requires TurnOk(t)
    ensures Ordered(ConfirmLive(t).s.cart, other) == NewQty(t, Confirm, false, other)
  {
    hide AddAll, Without, ReviewAll, CartOk, FirstQty;
    match YesNoAt(t.s.items)
    case None =>
    case Some(i) =>
      var live, u := t.s.items[i], WithItems(t, Cut(t.s.items, i));
      QueueCut(t.s.items, i);
      assert ItemOk(live);
      if live.DropProposal? {
        OrderedWithout(t.s.cart, live.code, other);
        OrderedIs(t.s.cart, live.code, 1);
      } else if !live.CloseProposal? {
        AddAllOrdered(u, live.lines, other);
      }
  }

  /** Every operation does to every quantity exactly what the table says. */
  lemma ApplyOrdered(t: Turn, op: Op, media: bool, other: string)
    requires TurnOk(t) && OpOk(op)
    ensures Ordered(Apply(t, op, media).s.cart, other) == NewQty(t, op, media, other)
  {
    hide Ordered, TurnOk, AddLine, ModifyLine, RemoveLine, ChooseOption, ChooseQuantity, ConfirmLive, Products, Retain, RejectTarget, ReviewAll, FirstQty;
    match op
    case Add(code, qty) => if !media { AddOrdered(t, code, qty, other); }
    case Modify(code, mode, value) => ModifyOrdered(t, code, mode, value, other);
    case Remove(code, numeral) => RemoveEffect(t, code, numeral, other);
    case Choose(text, code) => ChooseOrdered(t, text, code, other);
    case ChooseQty(code, value) => ChooseQtyOrdered(t, code, value, other);
    case Confirm => ConfirmOrdered(t, other);
    case _ =>
  }

  /** The question between what is ordered and what is asked for. */
  function Question(code: string, have: int, asked: int): Item { Conflict(code, {have, asked, have + asked}) }

  lemma AddKeepsQuestion(t: Turn, code: string, qty: Option<int>, x: Item)
    requires x in t.s.items && x.Conflict? && x.code != code
    ensures x in AddLine(t, code, qty).s.items
  {
    hide Retain;
    RetainOf(t.s.items, (it: Item) => !(it.Conflict? && it.code == code), x);
  }

  lemma {:induction false} AddAllKeepsQuestion(t: Turn, lines: seq<Line>, x: Item)
    requires x in t.s.items && x.Conflict? && forall i | 0 <= i < |lines| :: lines[i].code != x.code
    ensures x in AddAll(t, lines).s.items
    decreases |lines|
  {
    hide AddLine;
    if lines != [] {
      AddKeepsQuestion(t, lines[0].code, Some(OrOne(lines[0].qty)), x);
      AddAllKeepsQuestion(AddLine(t, lines[0].code, Some(OrOne(lines[0].qty))), lines[1..], x);
    }
  }

  predicate DistinctCodes(lines: seq<Line>) { forall i, j | 0 <= i < j < |lines| :: lines[i].code != lines[j].code }

  /** A confirmed line that differs from what is ordered opens its question. */
  lemma {:induction false} AddAllAsks(t: Turn, lines: seq<Line>, k: nat)
    requires TurnOk(t) && (forall i | 0 <= i < |lines| :: lines[i].qty >= 1) && DistinctCodes(lines) && k < |lines|
    requires Ordered(t.s.cart, lines[k].code) > 0 && Ordered(t.s.cart, lines[k].code) != lines[k].qty
    ensures Question(lines[k].code, Ordered(t.s.cart, lines[k].code), lines[k].qty) in AddAll(t, lines).s.items
    decreases |lines|
  {
    hide AddLine, TurnOk, Ordered;
    var c, q, rest := lines[0].code, lines[0].qty, lines[1..];
    var u := AddLine(t, c, Some(q));
    AddOk(t, c, Some(q));
    AddEffect(t, c, Some(q), lines[k].code);
    forall i | 0 <= i < |rest| ensures rest[i] == lines[i + 1] && rest[i].code != c {
      assert lines[0].code != lines[i + 1].code;
    }
    if k == 0 {
      AddAllKeepsQuestion(u, rest, Question(c, Ordered(t.s.cart, c), q));
    } else {
      assert rest[k - 1] == lines[k];
      AddAllAsks(u, rest, k - 1);
    }
  }

  /** Confirming lines of distinct codes: each new code takes its line's quantity; each that is there keeps its own and is asked about if they differ. */
  lemma ConfirmLinesEffect(t: Turn, media: bool, lines: seq<Line>, k: nat)
    requires TurnOk(t) && (Live(t) == Some(MediaProposal(lines)) || Live(t) == Some(RepeatProposal(lines)))
    requires DistinctCodes(lines) && k < |lines|
    ensures var u, c, q := Apply(t, Confirm, media), lines[k].code, lines[k].qty; var have := Ordered(t.s.cart, c);
      && (have == 0 ==> Ordered(u.s.cart, c) == q)
      && (have > 0 ==> Ordered(u.s.cart, c) == have)
      && (have > 0 && have != q ==> Question(c, have, q) in u.s.items)
  {
    hide AddAll, Ordered, FirstQty, CartOk;
    var i := YesNoAt(t.s.items).value;
    assert ItemOk(t.s.items[i]);
    ApplyOrdered(t, Confirm, media, lines[k].code);
    FirstQtyIs(lines, lines[k].code, k);
    QueueCut(t.s.items, i);
    var u := WithItems(t, Cut(t.s.items, i));
    if Ordered(u.s.cart, lines[k].code) > 0 && Ordered(u.s.cart, lines[k].code) != lines[k].qty {
      AddAllAsks(u, lines, k);
    }
  }

  /** Choosing an option: the product's quantity, or one, on a new line; on one that is there, the question if they differ. */
  lemma ChooseEffect(t: Turn, text: string, code: string, media: bool)
    requires TurnOk(t)
    ensures var u, have, qty := Apply(t, Choose(text, code), media), Ordered(t.s.cart, code), QtyOf(t.s.items, text);
      && (have == 0 ==> Ordered(u.s.cart, code) == if qty.Some? then qty.value else 1)
      && (have > 0 ==> Ordered(u.s.cart, code) == have)
      && (have > 0 && qty.Some? && qty.value != have ==> Question(code, have, qty.value) in u.s.items)
  {
    hide AddLine, Ordered, CartOk;
    ApplyOrdered(t, Choose(text, code), media, code);
    match ProductAt(t.s.items, text)
    case None =>
    case Some(i) =>
      QueueCut(t.s.items, i);
      assert ItemOk(t.s.items[i]);
      AddEffect(WithItems(t, Cut(t.s.items, i)), code, t.s.items[i].qty, code);
  }

  // ------------------------------------------------------------------
  // The rules across operations
  // ------------------------------------------------------------------

  /** The operation puts a new line in the cart without saying how many. */
  predicate AddsBare(t: Turn, op: Op, media: bool, code: string) {
    && LineAt(t.s.cart, code).None?
    && (|| (op.Add? && !media && op.code == code && op.qty.None?)
        || (op.Choose? && op.code == code && QtyOf(t.s.items, op.text).None?))
  }

  lemma AddBare(t: Turn, code: string, qty: Option<int>, other: string)
    ensures other in AddLine(t, code, qty).withoutQty <==> other in t.withoutQty || (other == code && qty.None? && LineAt(t.s.cart, code).None?)
  {}

  lemma {:induction false} AddAllBare(t: Turn, lines: seq<Line>)
    ensures AddAll(t, lines).withoutQty == t.withoutQty
    decreases |lines|
  {
    if lines != [] {
      AddAllBare(AddLine(t, lines[0].code, Some(OrOne(lines[0].qty))), lines[1..]);
    }
  }

  lemma ConfirmBare(t: Turn)
    ensures ConfirmLive(t).withoutQty == t.withoutQty
  {
    hide AddAll, ReviewAll, Without;
    match YesNoAt(t.s.items)
    case None =>
    case Some(i) =>
      var live := t.s.items[i];
      if live.MediaProposal? || live.RepeatProposal? {
        AddAllBare(WithItems(t, Cut(t.s.items, i)), live.lines);
      }
  }

  lemma QuietBare(t: Turn, op: Op, media: bool)
    requires !op.Add? && !op.Choose? && !op.Confirm?
    ensures Apply(t, op, media).withoutQty == t.withoutQty
  {
    hide ReviewAll, Without, Retain, RejectTarget, Products, ItemAt;
  }

  /** The lines the quantity for the whole order is for: exactly those some operation of the turn put in without one. */
  lemma ApplyBare(t: Turn, op: Op, media: bool, code: string)
    ensures code in Apply(t, op, media).withoutQty <==> code in t.withoutQty || AddsBare(t, op, media, code)
  {
    hide AddLine, ConfirmLive;
    match op
    case Add(c, qty) => AddBare(t, c, qty, code);
    case Choose(text, c) =>
      match ProductAt(t.s.items, text) {
        case None => AddBare(t, c, None, code);
        case Some(i) => AddBare(WithItems(t, Cut(t.s.items, i)), c, t.s.items[i].qty, code);
      }
    case Confirm => ConfirmBare(t);
    case _ => QuietBare(t, op, media);
  }

  lemma {:induction false} QuantitiesCoded(adds: seq<(string, Option<int>)>, code: string)
    requires Quantities(adds, code) != []
    ensures code in Codes(adds)
    decreases |adds|
  {
    if Quantities(adds[..|adds| - 1], code) != [] {
      QuantitiesCoded(adds[..|adds| - 1], code);
    }
  }

  lemma DisputedOrdered(t: Turn, code: string, other: string)
    requires TurnOk(t)
    ensures var u := Disputed(t, code);
      && Ordered(u.s.cart, other) == (if other == code && |Quantities(t.adds, code)| > 1 then 0 else Ordered(t.s.cart, other))
      && u.adds == t.adds && u.withoutQty == t.withoutQty && u.global == t.global
  {
    hide Quantities, Without, WithoutConflict, SumOf, Retain, Ordered;
    if |Quantities(t.adds, code)| > 1 {
      DisputedEffect(t, code, other);
    }
  }

  lemma {:induction false} DisputedAllOrdered(t: Turn, codes: seq<string>, other: string)
    requires TurnOk(t)
    ensures var u := DisputedAll(t, codes);
      && Ordered(u.s.cart, other) == (if other in codes && |Quantities(t.adds, other)| > 1 then 0 else Ordered(t.s.cart, other))
      && u.withoutQty == t.withoutQty && u.global == t.global
    decreases |codes|
  {
    hide Disputed, Quantities, Ordered, TurnOk;
    if codes != [] {
      DisputedOk(t, codes[0]);
      DisputedOrdered(t, codes[0], other);
      DisputedAllOrdered(Disputed(t, codes[0]), codes[1..], other);
    }
  }

  lemma {:induction false} GlobalLinesOrdered(t: Turn, codes: seq<string>, q: int, other: string)
    requires TurnOk(t) && q >= 1
    ensures Ordered(GlobalLines(t, codes, q).s.cart, other) == if other in codes && Ordered(t.s.cart, other) > 0 then q else Ordered(t.s.cart, other)
    decreases |codes|
  {
    hide TurnOk, Ordered, GlobalLine;
    if codes != [] {
      GlobalLineOk(t, codes[0], q);
      GlobalLineOrdered(t, codes[0], q, other);
      GlobalLinesOrdered(GlobalLine(t, codes[0], q), codes[1..], q, other);
    }
  }

  lemma GlobalLineOrdered(t: Turn, code: string, q: int, other: string)
    requires TurnOk(t) && q >= 1
    ensures Ordered(GlobalLine(t, code, q).s.cart, other) == if other == code && Ordered(t.s.cart, other) > 0 then q else Ordered(t.s.cart, other)
    ensures Ordered(t.s.cart, other) >= 0
  {
    LinesPositive(t.s.cart, other);
    OrderedIs(t.s.cart, code, 1);
    match LineAt(t.s.cart, code)
    case None =>
    case Some(i) => OrderedSet(t.s.cart, i, q, other); OrderedAt(t.s.cart, i);
  }

  /** A code given two quantities is withdrawn; the quantity for the whole order goes to the turn's lines without one, and nowhere else. */
  lemma RulesOrdered(t: Turn, other: string)
    requires TurnOk(t)
    ensures var have := Ordered(t.s.cart, other);
      Ordered(Rules(t).s.cart, other) ==
        if |Quantities(t.adds, other)| > 1 then 0
        else if t.global.Some? && other in t.withoutQty && have > 0 then t.global.value
        else have
  {
    hide DisputedAll, GlobalLines, Codes, Ordered, Quantities, Propose, TurnOk;
    var u := MediaRule(t);
    MediaSame(t);
    var codes := Codes(u.adds);
    if Quantities(t.adds, other) != [] {
      QuantitiesCoded(t.adds, other);
    }
    DisputedAllOrdered(u, codes, other);
    DisputedAllOk(u, codes);
    var v := DisputedAll(u, codes);
    TurnGlobal(v);
    if v.global.Some? {
      GlobalLinesOrdered(v, v.withoutQty, v.global.value, other);
    }
  }

  lemma TurnGlobal(t: Turn)
    requires TurnOk(t)
    ensures QtyOk(t.global)
  {}

  lemma MediaSame(t: Turn)
    requires TurnOk(t)
    ensures var u := MediaRule(t); TurnOk(u) && u.s.cart == t.s.cart && u.adds == t.adds && u.withoutQty == t.withoutQty && u.global == t.global
  {
    if t.media != [] {
      ProposeOk(t, MediaProposal(t.media));
    }
  }

  /** The cart a turn leaves: what its operations made of it, but for disputed codes and the quantity for the whole order. */
  lemma ReduceOrdered(s: State, ops: seq<Op>, media: bool, global: Option<int>, max: nat, code: string)
    requires StateOk(s) && QtyOk(global) && forall op | op in ops :: OpOk(op)
    ensures var t := ApplyAll(Begin(s, global), ops, media); var have := Ordered(t.s.cart, code);
      Ordered(Reduce(s, ops, media, global, max).s.cart, code) ==
        if |Quantities(t.adds, code)| > 1 then 0
        else if t.global.Some? && code in t.withoutQty && have > 0 then t.global.value
        else have
  {
    hide ApplyAll, Rules, Ordered, Quantities, OpOk, SettleItems, RemindersAll, Progress;
    ApplyAllOk(Begin(s, global), ops, media);
    RulesOrdered(ApplyAll(Begin(s, global), ops, media), code);
  }
}

/**
 * What a closed order accounts for. The order row is written from the cart and
 * the review lines at the end of the turn, and the next turn starts from
 * nothing: a question still open then is lost.
 */
module ReducerClose {
  import opened Options
  import opened Seqs
  import opened Reducer
  import opened ReducerInvariant
  import opened ReducerFacts
  import opened ReducerCart
  import opened ReducerLoss

  /** Nothing is open: what the client asked for is in the cart or under review. */
  predicate Accounted(s: State) { forall x | x in s.items :: x.Review? }

  /** What a question is about; the queue holds one question of each. */
  datatype Key = OfProduct(text: string) | OfConflict(code: string) | OfYesNo

  predicate Names(it: Item, key: Key) {
    match key
    case OfProduct(text) => it.Product? && it.text == text
    case OfConflict(code) => it.Conflict? && it.code == code
    case OfYesNo => YesNo(it)
  }

  predicate Has(items: seq<Item>, key: Key) { exists i :: 0 <= i < |items| && Names(items[i], key) }

  lemma AccountedIs(s: State)
    ensures Accounted(s) <==> forall key :: !Has(s.items, key)
  {
    if !Accounted(s) {
      var i :| 0 <= i < |s.items| && !s.items[i].Review?;
      var x := s.items[i];
      var key := if x.Product? then OfProduct(x.text) else if x.Conflict? then OfConflict(x.code) else OfYesNo;
      assert Names(x, key) && Has(s.items, key);
    }
    forall key | Has(s.items, key) ensures !Accounted(s) {
      var i :| 0 <= i < |s.items| && Names(s.items[i], key);
      assert s.items[i] in s.items;
    }
  }

  // ------------------------------------------------------------------
  // Which operations open a question, and which settle it
  // ------------------------------------------------------------------

  /** Asking for this many of a code that is in the cart with another quantity. */
  predicate Differs(cart: seq<Line>, code: string, qty: Option<int>) {
    var at := LineAt(cart, code);
    at.Some? && qty.Some? && qty.value != cart[at.value].qty
  }

  /** The lines ask for a quantity other than the cart's, or than the first of them. */
  predicate Disputes(cart: seq<Line>, lines: seq<Line>, code: string)
    decreases |lines|
  {
    lines != [] &&
    var c, q := lines[0].code, OrOne(lines[0].qty);
    || (c == code && Differs(cart, c, Some(q)))
    || Disputes(if LineAt(cart, c).None? then cart + [Line(c, q)] else cart, lines[1..], code)
  }

  /** The change leaves nothing of a line that is there. */
  predicate Empties(cart: seq<Line>, code: string, mode: Mode, value: Option<int>) {
    var at := LineAt(cart, code);
    at.Some? && value.Some? && mode != Same &&
    (if mode == SetTotal then value.value else if mode == Increase then cart[at.value].qty + value.value else cart[at.value].qty - value.value) <= 0
  }

  /** The operation leaves a question of this key open. */
  predicate Opens(t: Turn, op: Op, media: bool, key: Key) {
    match key
    case OfProduct(text) => (op.Offer? || op.NoCandidates?) && op.text == text
    case OfConflict(code) =>
      || (op.Add? && !media && op.code == code && Differs(t.s.cart, code, op.qty))
      || (op.Choose? && op.code == code && Differs(t.s.cart, code, QtyOf(t.s.items, op.text)))
      || (op.Confirm? && Live(t).Some? && (Live(t).value.MediaProposal? || Live(t).value.RepeatProposal?) && Disputes(t.s.cart, Live(t).value.lines, code))
    case OfYesNo =>
      Live(t).None? &&
      (|| (op.Modify? && Empties(t.s.cart, op.code, op.mode, op.value))
       || (op.RepeatLast? && t.s.lastClosed != [])
       || (op.CloseOrder? && (t.s.cart != [] || exists x | x in t.s.items :: x.Product? || x.Review?)))
  }

  /** The operation settles an open question of this key. */
  predicate Settles(t: Turn, op: Op, key: Key) {
    match key
    case OfProduct(text) => (op.Choose? && op.text == text) || op.DoesNotKnow? || ConfirmsClose(t, op)
    case OfConflict(code) =>
      var at := ConflictAt(t.s.items, code);
      op.ChooseQty? && op.code == code && at.Some? && op.value.Some? && op.value.value in t.s.items[at.value].choices
    case OfYesNo => op.Confirm? || op.Deny?
  }

  lemma HasAppend(items: seq<Item>, it: Item, key: Key)
    ensures Has(items + [it], key) <==> Has(items, key) || Names(it, key)
  {
    var all := items + [it];
    if Has(items, key) {
      var i :| 0 <= i < |items| && Names(items[i], key);
      assert all[i] == items[i];
    }
    if Names(it, key) {
      assert all[|items|] == it;
    }
  }

  lemma HasCut(items: seq<Item>, i: nat, key: Key)
    requires QueueOk(items) && i < |items|
    ensures Has(Cut(items, i), key) <==> Has(items, key) && !Names(items[i], key)
  {
    var rest := Cut(items, i);
    if Has(rest, key) {
      var k :| 0 <= k < |rest| && Names(rest[k], key);
      var j := if k < i then k else k + 1;
      assert items[j] == rest[k];
      assert if j < i then !Clash(items[j], items[i]) else !Clash(items[i], items[j]);
    }
    if Has(items, key) && !Names(items[i], key) {
      var j :| 0 <= j < |items| && Names(items[j], key);
      assert rest[if j < i then j else j - 1] == items[j];
    }
  }

  lemma HasUpdate(items: seq<Item>, i: nat, it: Item, key: Key)
    requires i < |items| && items[i].Product? && it.Product? && it.text == items[i].text
    ensures Has(items[i := it], key) <==> Has(items, key)
  {
    var after := items[i := it];
    assert forall j | 0 <= j < |items| :: Names(after[j], key) <==> Names(items[j], key);
  }

  lemma HasIn(items: seq<Item>, key: Key)
    ensures Has(items, key) <==> exists x | x in items :: Names(x, key)
  {
    if x :| x in items && Names(x, key) {
      var i :| 0 <= i < |items| && items[i] == x;
    }
  }

  lemma HasRetain(items: seq<Item>, p: Item -> bool, key: Key)
    requires forall x | x in items && Names(x, key) :: p(x)
    ensures Has(Retain(items, p), key) <==> Has(items, key)
  {
    HasIn(items, key);
    HasIn(Retain(items, p), key);
    forall x ensures x in Retain(items, p) <==> x in items && p(x) { RetainOf(items, p, x); }
  }

  lemma HasConflict(items: seq<Item>, code: string, choices: set<int>, key: Key)
    ensures Has(WithoutConflict(items, code) + [Conflict(code, choices)], key) <==> Has(items, key) || key == OfConflict(code)
  {
    hide Retain;
    HasAppend(WithoutConflict(items, code), Conflict(code, choices), key);
    if key != OfConflict(code) {
      HasRetain(items, (it: Item) => !(it.Conflict? && it.code == code), key);
    }
  }

  lemma HasReviewAll(items: seq<Item>, key: Key)
    ensures Has(ReviewAll(items), key) <==> Has(items, key) && !key.OfProduct?
  {
    hide Retain;
    var rest, reviews := Retain(items, (it: Item) => !it.Product?), Reviewed(Products(items));
    HasIn(items, key);
    HasIn(ReviewAll(items), key);
    forall x | x in reviews ensures x.Review? {
      var k :| 0 <= k < |reviews| && reviews[k] == x;
      RetainOf(items, (it: Item) => it.Product?, Products(items)[k]);
    }
    forall x ensures x in rest <==> x in items && !x.Product? { RetainOf(items, (it: Item) => !it.Product?, x); }
  }

  lemma ProposeHas(t: Turn, it: Item, key: Key)
    requires YesNo(it)
    ensures Has(Propose(t, it).s.items, key) <==> Has(t.s.items, key) || key == OfYesNo
    ensures Live(t).Some? <==> Has(t.s.items, OfYesNo)
  {
    HasAppend(t.s.items, it, key);
    if YesNoAt(t.s.items).Some? {
      assert Names(t.s.items[YesNoAt(t.s.items).value], OfYesNo);
    }
  }

  lemma AddHas(t: Turn, code: string, qty: Option<int>, key: Key)
    ensures Has(AddLine(t, code, qty).s.items, key) <==> Has(t.s.items, key) || (key == OfConflict(code) && Differs(t.s.cart, code, qty))
  {
    hide WithoutConflict, Has;
    if Differs(t.s.cart, code, qty) {
      var have := t.s.cart[LineAt(t.s.cart, code).value].qty;
      HasConflict(t.s.items, code, {qty.value, have, qty.value + have}, key);
    }
  }

  lemma {:induction false} AddAllHas(t: Turn, lines: seq<Line>, key: Key)
    ensures Has(AddAll(t, lines).s.items, key) <==> Has(t.s.items, key) || (key.OfConflict? && Disputes(t.s.cart, lines, key.code))
    decreases |lines|
  {
    hide Has;
    if lines != [] {
      var c, q := lines[0].code, OrOne(lines[0].qty);
      AddHas(t, c, Some(q), key);
      AddAllHas(AddLine(t, c, Some(q)), lines[1..], key);
    }
  }

  lemma ChooseHas(t: Turn, text: string, code: string, key: Key)
    requires TurnOk(t)
    ensures Has(ChooseOption(t, text, code).s.items, key) <==>
      (key == OfConflict(code) && Differs(t.s.cart, code, QtyOf(t.s.items, text))) || (Has(t.s.items, key) && key != OfProduct(text))
  {
    hide AddLine, Has, CartOk;
    match ProductAt(t.s.items, text)
    case None =>
      AddHas(t, code, None, key);
      HasIn(t.s.items, key);
    case Some(i) =>
      HasCut(t.s.items, i, key);
      AddHas(WithItems(t, Cut(t.s.items, i)), code, t.s.items[i].qty, key);
  }

  lemma ConfirmHas(t: Turn, key: Key)
    requires TurnOk(t)
    ensures Has(ConfirmLive(t).s.items, key) <==> Opens(t, Confirm, false, key) || (Has(t.s.items, key) && !Settles(t, Confirm, key))
  {
    hide Has, AddAll, ReviewAll, Without, CartOk, Disputes;
    match YesNoAt(t.s.items)
    case None => NoneHas(t.s.items);
    case Some(i) =>
      var live, u := t.s.items[i], WithItems(t, Cut(t.s.items, i));
      HasCut(t.s.items, i, key);
      if live.CloseProposal? {
        HasReviewAll(u.s.items, key);
      } else if !live.DropProposal? {
        AddAllHas(u, live.lines, key);
      }
  }

  lemma NoneHas(items: seq<Item>)
    requires YesNoAt(items).None?
    ensures !Has(items, OfYesNo)
  {}

  lemma OfferHas(t: Turn, text: string, qty: Option<int>, options: seq<string>, key: Key)
    ensures Has(OfferOptions(t, text, qty, options).s.items, key) <==> Has(t.s.items, key) || key == OfProduct(text)
    ensures Has(OpenWithout(t, text, qty).s.items, key) <==> Has(t.s.items, key) || key == OfProduct(text)
  {
    hide Retain;
    HasAppend(t.s.items, Product(text, qty, options, {}, 0, true), key);
    HasAppend(t.s.items, Product(text, qty, [], {}, 0, true), key);
    match ProductAt(t.s.items, text)
    case None =>
    case Some(i) =>
      var p := t.s.items[i];
      assert Names(p, OfProduct(text));
      HasUpdate(t.s.items, i, p.(qty := if qty.Some? then qty else p.qty, options := Retain(options, (o: string) => o !in p.rejected)), key);
  }

  lemma RejectHas(t: Turn, target: Option<string>, key: Key)
    ensures Has(RejectOptions(t, target).s.items, key) <==> Has(t.s.items, key)
  {
    hide RejectTarget, Has;
    match RejectTarget(t.s.items, target)
    case None =>
    case Some(i) =>
      var p := t.s.items[i];
      HasUpdate(t.s.items, i, p.(rejected := p.rejected + (set o | o in p.options), options := []), key);
  }

  lemma ModifyHas(t: Turn, code: string, mode: Mode, value: Option<int>, key: Key)
    ensures Has(ModifyLine(t, code, mode, value).s.items, key) <==>
      Has(t.s.items, key) || (key == OfYesNo && Empties(t.s.cart, code, mode, value))
  {
    hide Has, Propose;
    ProposeHas(t, DropProposal(code), key);
  }

  lemma ChooseQtyHas(t: Turn, code: string, value: Option<int>, key: Key)
    requires TurnOk(t)
    ensures Has(ChooseQuantity(t, code, value).s.items, key) <==> Has(t.s.items, key) && !Settles(t, ChooseQty(code, value), key)
  {
    hide Has, CartOk;
    match ConflictAt(t.s.items, code)
    case None =>
    case Some(i) => HasCut(t.s.items, i, key);
  }

  lemma DenyHas(t: Turn, key: Key)
    requires TurnOk(t)
    ensures Has(DenyLive(t).s.items, key) <==> Has(t.s.items, key) && key != OfYesNo
  {
    hide Has, CartOk;
    match YesNoAt(t.s.items)
    case None => NoneHas(t.s.items);
    case Some(i) => HasCut(t.s.items, i, key);
  }

  lemma GiveUpHas(t: Turn, key: Key)
    ensures Has(GiveUp(t).s.items, key) <==> Has(t.s.items, key) && !key.OfProduct?
  {
    hide Retain, ReviewAll;
    HasReviewAll(t.s.items, key);
    if Products(t.s.items) == [] {
      NoProducts(t.s.items);
    }
  }

  lemma NoProducts(items: seq<Item>)
    ensures Products(items) != [] <==> exists x | x in items :: x.Product?
    ensures Retain(items, (it: Item) => it.Review?) != [] <==> exists x | x in items :: x.Review?
  {
    hide Retain;
    var products, reviews := Products(items), Retain(items, (it: Item) => it.Review?);
    forall x ensures x in products <==> x in items && x.Product? { RetainOf(items, (it: Item) => it.Product?, x); }
    forall x ensures x in reviews <==> x in items && x.Review? { RetainOf(items, (it: Item) => it.Review?, x); }
    if products != [] { assert products[0] in products; }
    if reviews != [] { assert reviews[0] in reviews; }
  }

  lemma CloseOrderHas(t: Turn, key: Key)
    ensures Has(Apply(t, CloseOrder, false).s.items, key) <==> Opens(t, CloseOrder, false, key) || Has(t.s.items, key)
    ensures Apply(t, CloseOrder, true) == Apply(t, CloseOrder, false)
  {
    hide Has, Products, Retain, Propose;
    NoProducts(t.s.items);
    ProposeHas(t, CloseProposal, key);
    LiveHas(t);
  }

  lemma LiveHas(t: Turn)
    ensures Live(t).Some? <==> Has(t.s.items, OfYesNo)
  {
    ProposeHas(t, CloseProposal, OfYesNo);
  }

  /** After any operation a question is open exactly when the operation opens it, or it was open and is not settled. */
  lemma ApplyHas(t: Turn, op: Op, media: bool, key: Key)
    requires TurnOk(t)
    ensures Has(Apply(t, op, media).s.items, key) <==> Opens(t, op, media, key) || (Has(t.s.items, key) && !Settles(t, op, key))
  {
    hide Has, TurnOk, AddLine, ModifyLine, OfferOptions, OpenWithout, RejectOptions, ChooseOption, ChooseQuantity, ConfirmLive, DenyLive, GiveUp, Products, Retain, Propose, Disputes, Differs, Empties;
    LiveHas(t);
    match op
    case Add(code, qty) => if !media { AddHas(t, code, qty, key); }
    case Modify(code, mode, value) => ModifyHas(t, code, mode, value, key);
    case Offer(text, qty, options) => OfferHas(t, text, qty, options, key);
    case NoCandidates(text, qty) => OfferHas(t, text, qty, [], key);
    case Reject(target) => RejectHas(t, target, key);
    case Choose(text, code) => ChooseHas(t, text, code, key);
    case ChooseQty(code, value) => ChooseQtyHas(t, code, value, key);
    case RepeatLast(value) => ProposeHas(t, RepeatProposal(Repeated(t.s.lastClosed, value)), key);
    case CloseOrder => CloseOrderHas(t, key);
    case Confirm => ConfirmHas(t, key);
    case Deny => DenyHas(t, key);
    case DoesNotKnow => GiveUpHas(t, key);
    case Remove(_, _) =>
    case GlobalQty(_) =>
    case Say(_) =>
    case Unknown =>
  }

  // ------------------------------------------------------------------
  // The operations of a turn
  // ------------------------------------------------------------------

  /** The turn before operation m. */
  function At(t: Turn, ops: seq<Op>, media: bool, m: nat): Turn
    requires m <= |ops|
  {
    ApplyAll(t, ops[..m], media)
  }

  /** One of the operations from..to settles the key. */
  predicate SettledIn(t: Turn, ops: seq<Op>, media: bool, key: Key, from: nat, to: nat)
    requires to <= |ops|
  {
    exists m :: from <= m < to && Settles(At(t, ops, media, m), ops[m], key)
  }

  /** One of the operations from..to opens the key, and none of those after it settles it. */
  predicate LeftIn(t: Turn, ops: seq<Op>, media: bool, key: Key, from: nat, to: nat)
    requires to <= |ops|
  {
    exists j :: from <= j < to && Opens(At(t, ops, media, j), ops[j], media, key) && !SettledIn(t, ops, media, key, j + 1, to)
  }

  lemma SettledNext(t: Turn, ops: seq<Op>, media: bool, key: Key, from: nat, n: nat)
    requires from < n <= |ops|
    ensures SettledIn(t, ops, media, key, from, n) <==> SettledIn(t, ops, media, key, from, n - 1) || Settles(At(t, ops, media, n - 1), ops[n - 1], key)
  {
    hide Settles, At;
  }

  lemma LeftNext(t: Turn, ops: seq<Op>, media: bool, key: Key, from: nat, n: nat)
    requires from < n <= |ops|
    ensures LeftIn(t, ops, media, key, from, n) <==>
      || Opens(At(t, ops, media, n - 1), ops[n - 1], media, key)
      || (LeftIn(t, ops, media, key, from, n - 1) && !Settles(At(t, ops, media, n - 1), ops[n - 1], key))
  {
    hide Settles, Opens, At;
    forall f: nat | f < n
      ensures SettledIn(t, ops, media, key, f, n) <==>
        SettledIn(t, ops, media, key, f, n - 1) || Settles(At(t, ops, media, n - 1), ops[n - 1], key)
    {
      SettledNext(t, ops, media, key, f, n);
    }
    if Opens(At(t, ops, media, n - 1), ops[n - 1], media, key) {
      assert !SettledIn(t, ops, media, key, n, n);
    }
    if LeftIn(t, ops, media, key, from, n - 1) && !Settles(At(t, ops, media, n - 1), ops[n - 1], key) {
      var j :| from <= j < n - 1 && Opens(At(t, ops, media, j), ops[j], media, key) && !SettledIn(t, ops, media, key, j + 1, n - 1);
      assert !SettledIn(t, ops, media, key, j + 1, n);
    }
  }

  /** A key is open at n exactly when it was at k and was not settled since, or was opened since and not settled after that. */
  lemma {:induction false} OpenAt(t: Turn, ops: seq<Op>, media: bool, key: Key, k: nat, n: nat)
    requires TurnOk(t) && (forall op | op in ops :: OpOk(op)) && k <= n <= |ops|
    ensures Has(At(t, ops, media, n).s.items, key) <==>
      || (Has(At(t, ops, media, k).s.items, key) && !SettledIn(t, ops, media, key, k, n))
      || LeftIn(t, ops, media, key, k, n)
    decreases n
  {
    hide Has, Settles, Opens, TurnOk, OpOk, Apply;
    if k < n {
      OpenAt(t, ops, media, key, k, n - 1);
      NextAt(t, ops, media, n);
      ApplyAllOk(t, ops[..n - 1], media);
      ApplyHas(At(t, ops, media, n - 1), ops[n - 1], media, key);
      SettledNext(t, ops, media, key, k, n);
      LeftNext(t, ops, media, key, k, n);
    }
  }

  lemma NextAt(t: Turn, ops: seq<Op>, media: bool, n: nat)
    requires 0 < n <= |ops|
    ensures At(t, ops, media, n) == Apply(At(t, ops, media, n - 1), ops[n - 1], media)
  {
    hide Apply;
    assert ops[..n][..n - 1] == ops[..n - 1];
  }

  // ------------------------------------------------------------------
  // The rules across operations, and the end of the turn
  // ------------------------------------------------------------------

  /** Two adds of the turn gave this code different quantities. */
  ghost predicate Two(adds: seq<(string, Option<int>)>, code: string) {
    exists q, r :: (code, Some(q)) in adds && (code, Some(r)) in adds && q != r
  }

  lemma {:induction false} QuantitiesDiffer(adds: seq<(string, Option<int>)>, code: string)
    ensures forall i, j | 0 <= i < j < |Quantities(adds, code)| :: Quantities(adds, code)[i] != Quantities(adds, code)[j]
    decreases |adds|
  {
    if adds != [] {
      QuantitiesDiffer(adds[..|adds| - 1], code);
    }
  }

  lemma TwoIs(adds: seq<(string, Option<int>)>, code: string)
    ensures Two(adds, code) <==> |Quantities(adds, code)| > 1
  {
    hide Quantities;
    var qs := Quantities(adds, code);
    forall q ensures q in qs <==> (code, Some(q)) in adds { QuantitiesExact(adds, code, q); }
    if |qs| > 1 {
      QuantitiesDiffer(adds, code);
      assert qs[0] in qs && qs[1] in qs && qs[0] != qs[1];
    }
    if Two(adds, code) {
      var q, r :| (code, Some(q)) in adds && (code, Some(r)) in adds && q != r;
      assert q in qs && r in qs;
    }
  }

  lemma {:induction false} CodesIn(adds: seq<(string, Option<int>)>, code: string, q: Option<int>)
    requires (code, q) in adds
    ensures code in Codes(adds)
    decreases |adds|
  {
    var init, last := adds[..|adds| - 1], adds[|adds| - 1];
    assert adds == init + [last];
    if (code, q) in init {
      CodesIn(init, code, q);
    }
  }

  lemma DisputedHas(t: Turn, code: string, key: Key)
    ensures Has(Disputed(t, code).s.items, key) <==> Has(t.s.items, key) || (key == OfConflict(code) && Two(t.adds, code))
    ensures Disputed(t, code).adds == t.adds
  {
    hide Has, Quantities, WithoutConflict, Without, SumOf, Retain, Two;
    TwoIs(t.adds, code);
    var qs := Quantities(t.adds, code);
    HasConflict(t.s.items, code, (set q | q in qs) + {SumOf(qs)}, key);
  }

  lemma {:induction false} DisputedAllHas(t: Turn, codes: seq<string>, key: Key)
    ensures Has(DisputedAll(t, codes).s.items, key) <==>
      Has(t.s.items, key) || (key.OfConflict? && key.code in codes && Two(t.adds, key.code))
    decreases |codes|
  {
    hide Has, Disputed, Two;
    if codes != [] {
      DisputedHas(t, codes[0], key);
      DisputedAllHas(Disputed(t, codes[0]), codes[1..], key);
    }
  }

  lemma HasMap(items: seq<Item>, after: seq<Item>, key: Key)
    requires |after| == |items| && forall i | 0 <= i < |items| :: Names(after[i], key) <==> Names(items[i], key)
    ensures Has(after, key) <==> Has(items, key)
  {}

  lemma GlobalHas(t: Turn, key: Key)
    ensures Has(GlobalRule(t).s.items, key) <==> Has(t.s.items, key)
  {
    hide GlobalLines;
    match t.global
    case None =>
    case Some(q) =>
      GlobalLinesItems(t, t.withoutQty, q);
      HasMap(t.s.items, FilledAll(t.s.items, q), key);
  }

  lemma RulesHas(t: Turn, key: Key)
    ensures Has(Rules(t).s.items, key) <==>
      || Has(t.s.items, key)
      || (key == OfYesNo && t.media != [])
      || (key.OfConflict? && Two(t.adds, key.code))
  {
    hide Has, Propose, DisputedAll, GlobalRule, Codes, Two;
    var u := MediaRule(t);
    if t.media != [] {
      ProposeHas(t, MediaProposal(t.media), key);
    }
    ProposeAdds(t);
    var codes := Codes(u.adds);
    DisputedAllHas(u, codes, key);
    GlobalHas(DisputedAll(u, codes), key);
    if key.OfConflict? && Two(t.adds, key.code) {
      TwoCoded(t.adds, key.code);
    }
  }

  lemma ProposeAdds(t: Turn)
    ensures MediaRule(t).adds == t.adds
  {}

  lemma TwoCoded(adds: seq<(string, Option<int>)>, code: string)
    requires Two(adds, code)
    ensures code in Codes(adds)
  {
    var q, r :| (code, Some(q)) in adds && (code, Some(r)) in adds && q != r;
    CodesIn(adds, code, Some(q));
  }

  /** With progress, only a limit of no attempts at all puts products under review. */
  lemma FinishHas(t: Turn, max: nat, key: Key)
    requires Progress(t.facts)
    ensures Has(Finish(t, max).s.items, key) <==> Has(t.s.items, key) && !(key.OfProduct? && max == 0)
  {
    hide Progress, Retain, RemindersAll;
    var items := JudgedAll(t.s.items, true);
    HasMap(t.s.items, items, key);
    SettleHas(items, max, key);
  }

  lemma SettleHas(items: seq<Item>, max: nat, key: Key)
    requires forall i | 0 <= i < |items| && items[i].Product? :: items[i].attempts == 0
    ensures Has(SettleItems(items, max), key) <==> Has(items, key) && !(key.OfProduct? && max == 0)
  {
    hide Retain;
    var a, b := Retain(items, (it: Item) => !Exhausted(it, max)), Retain(items, (it: Item) => Exhausted(it, max));
    HasMap(a + Reviewed(b), SettleItems(items, max), key);
    HasIn(a + Reviewed(b), key);
    HasIn(items, key);
    forall x ensures x in a <==> x in items && !Exhausted(x, max) { RetainOf(items, (it: Item) => !Exhausted(it, max), x); }
    forall x | x in Reviewed(b) ensures x.Review? {
      var k :| 0 <= k < |b| && AsReview(b[k]) == x;
      RetainOf(items, (it: Item) => Exhausted(it, max), b[k]);
    }
  }

  lemma {:induction false} MediaIs(t: Turn, ops: seq<Op>, media: bool)
    ensures ApplyAll(t, ops, media).media != [] <==> t.media != [] || (media && exists op | op in ops :: op.Add?)
    decreases |ops|
  {
    hide Apply;
    if ops != [] {
      MediaIs(t, ops[..|ops| - 1], media);
      ApplySides(ApplyAll(t, ops[..|ops| - 1], media), ops[|ops| - 1], media);
      assert ops == ops[..|ops| - 1] + [ops[|ops| - 1]];
    }
  }

  // ------------------------------------------------------------------
  // The exact condition
  // ------------------------------------------------------------------

  /** Right after a confirmed close the open questions are exactly the quantity conflicts. */
  lemma JustClosed(t: Turn, key: Key)
    requires TurnOk(t) && ConfirmsClose(t, Confirm)
    ensures Has(ConfirmLive(t).s.items, key) <==> key.OfConflict? && Has(t.s.items, key)
  {
    hide Has, TurnOk, ConfirmLive;
    ConfirmHas(t, key);
  }

  /** What of a turn that confirms a close at k is still open after its operations. */
  lemma OpenAfterClose(t: Turn, ops: seq<Op>, media: bool, key: Key, k: nat)
    requires TurnOk(t) && (forall op | op in ops :: OpOk(op)) && k < |ops| && ConfirmsClose(At(t, ops, media, k), ops[k])
    ensures Has(ApplyAll(t, ops, media).s.items, key) <==>
      || (key.OfConflict? && Has(At(t, ops, media, k).s.items, key) && !SettledIn(t, ops, media, key, k + 1, |ops|))
      || LeftIn(t, ops, media, key, k + 1, |ops|)
  {
    hide Has, TurnOk, OpOk, ConfirmLive, LeftIn, SettledIn, ApplyAll;
    OpenAt(t, ops, media, key, k + 1, |ops|);
    assert ops[..|ops|] == ops;
    NextAt(t, ops, media, k + 1);
    ApplyAllOk(t, ops[..k], media);
    JustClosed(At(t, ops, media, k), key);
  }

  /** Conflicts open at the confirmed close are settled by a later operation. */
  predicate ConflictsSettled(t: Turn, ops: seq<Op>, media: bool, k: nat)
    requires k < |ops|
  {
    forall x | x in At(t, ops, media, k).s.items && x.Conflict? :: SettledIn(t, ops, media, OfConflict(x.code), k + 1, |ops|)
  }

  /** A limit of no attempts at all: every open product goes under review at once. */
  predicate AtOnce(key: Key, max: nat) { key.OfProduct? && max == 0 }

  /** Nothing that an operation after the close opened is left open. */
  ghost predicate NothingLeft(t: Turn, ops: seq<Op>, media: bool, k: nat, max: nat)
    requires k < |ops|
  {
    forall key | LeftIn(t, ops, media, key, k + 1, |ops|) :: AtOnce(key, max)
  }

  /**
   * A turn that confirms a close, at operation k, ends with nothing open
   * exactly when the conflicts open at k are settled after it, nothing opened
   * after it is left, no code was asked for in two quantities, and no photo or
   * audio brought products.
   */
  lemma CloseAccounts(s: State, ops: seq<Op>, media: bool, global: Option<int>, max: nat, k: nat)
    requires StateOk(s) && QtyOk(global) && s.status != Closed && forall op | op in ops :: OpOk(op)
    requires k < |ops| && ConfirmsClose(At(Begin(s, global), ops, media, k), ops[k])
    ensures var t, r := Begin(s, global), Reduce(s, ops, media, global, max);
      && r.s.status == Closed
      && (Accounted(r.s) <==>
            && ConflictsSettled(t, ops, media, k) && NothingLeft(t, ops, media, k, max)
            && (forall code :: !Two(ApplyAll(t, ops, media).adds, code))
            && !(media && exists op | op in ops :: op.Add?))
  {
    hide Has, TurnOk, ConfirmsClose, ApplyAll, LeftIn, SettledIn, Rules, Finish, Two, Accounted, OpOk, Progress;
    var t, r := Begin(s, global), Reduce(s, ops, media, global, max);
    var n := ApplyAll(t, ops, media);
    BeginSaid(s, global);
    ReduceSays(s, ops, media, global, max);
    ClosingProgress(s, ops, media, global, max);
    MediaIs(t, ops, media);
    AccountedIs(r.s);
    forall key ensures Has(r.s.items, key) <==>
      !AtOnce(key, max) && (Has(n.s.items, key) || (key == OfYesNo && n.media != []) || (key.OfConflict? && Two(n.adds, key.code)))
    {
      RulesHas(n, key);
      FinishHas(Rules(n), max, key);
    }
    forall key ensures Has(n.s.items, key) <==>
      || (key.OfConflict? && Has(At(t, ops, media, k).s.items, key) && !SettledIn(t, ops, media, key, k + 1, |ops|))
      || LeftIn(t, ops, media, key, k + 1, |ops|)
    {
      OpenAfterClose(t, ops, media, key, k);
    }
    ConflictsAre(t, ops, media, k);
    CloseDecides(t, ops, media, k, max, n, r.s);
  }

  lemma ConflictsAre(t: Turn, ops: seq<Op>, media: bool, k: nat)
    requires k < |ops|
    ensures ConflictsSettled(t, ops, media, k) <==>
      forall code | Has(At(t, ops, media, k).s.items, OfConflict(code)) :: SettledIn(t, ops, media, OfConflict(code), k + 1, |ops|)
  {
    hide SettledIn, At;
    var items := At(t, ops, media, k).s.items;
    forall code ensures Has(items, OfConflict(code)) <==> exists x | x in items :: x.Conflict? && x.code == code {
      HasIn(items, OfConflict(code));
    }
  }

  /** The keys of the end of the turn, put together. */
  lemma CloseDecides(t: Turn, ops: seq<Op>, media: bool, k: nat, max: nat, n: Turn, end: State)
    requires k < |ops| && n == ApplyAll(t, ops, media)
    requires forall key :: Has(end.items, key) <==>
      !AtOnce(key, max) && (Has(n.s.items, key) || (key == OfYesNo && n.media != []) || (key.OfConflict? && Two(n.adds, key.code)))
    requires forall key :: Has(n.s.items, key) <==>
      || (key.OfConflict? && Has(At(t, ops, media, k).s.items, key) && !SettledIn(t, ops, media, key, k + 1, |ops|))
      || LeftIn(t, ops, media, key, k + 1, |ops|)
    requires ConflictsSettled(t, ops, media, k) <==>
      forall code | Has(At(t, ops, media, k).s.items, OfConflict(code)) :: SettledIn(t, ops, media, OfConflict(code), k + 1, |ops|)
    ensures (forall key :: !Has(end.items, key)) <==>
      && ConflictsSettled(t, ops, media, k) && NothingLeft(t, ops, media, k, max)
      && (forall code :: !Two(n.adds, code)) && n.media == []
  {
    hide Has, LeftIn, SettledIn, ApplyAll, Two, ConflictsSettled, At;
    if forall key :: !Has(end.items, key) {
      forall code ensures !Two(n.adds, code) { assert !Has(end.items, OfConflict(code)); }
      assert !Has(end.items, OfYesNo);
      forall code | Has(At(t, ops, media, k).s.items, OfConflict(code)) ensures SettledIn(t, ops, media, OfConflict(code), k + 1, |ops|) {
        assert !Has(end.items, OfConflict(code));
      }
      forall key | LeftIn(t, ops, media, key, k + 1, |ops|) ensures AtOnce(key, max) {
        assert !Has(end.items, key);
      }
    }
  }
}

/** No product the client asked for is silently lost by the reducer. */
module ReducerLoss {
  import opened Options
  import opened Seqs
  import opened Reducer
  import opened ReducerInvariant

  predicate IsReview(it: Item) { it.Review? }

  function Reviews(items: seq<Item>): seq<Item> { Retain(items, IsReview) }

  /** Between before and after a review line with this text and quantity was added. */
  predicate NewReview(before: seq<Item>, after: seq<Item>, text: string, qty: Option<int>) {
    exists k :: |Reviews(before)| <= k < |Reviews(after)| && Reviews(after)[k] == Review(text, qty)
  }

  /** The open product with this text; the reducer finds products by text. */
  function Found(items: seq<Item>, text: string): (r: Option<Item>)
    ensures r.Some? ==> r.value.Product? && r.value.text == text
  {
    var at := ProductAt(items, text);
    if at.Some? then Some(items[at.value]) else None
  }

  /** Open with this quantity, with as many attempts as p and as new as p. */
  predicate OpenAs(q: Option<Item>, p: Item, qty: Option<int>)
    requires p.Product?
  {
    q.Some? && q.value.Product? && q.value.qty == qty && q.value.attempts == p.attempts && q.value.isNew == p.isNew
  }

  /** The open product with this text is still open, with its quantity, or has been left to the salesman with it. */
  predicate Tracked(text: string, before: seq<Item>, after: seq<Item>)
    requires Found(before, text).Some?
  {
    var p := Found(before, text).value;
    NewReview(before, after, text, p.qty) || OpenAs(Found(after, text), p, p.qty)
  }

  /** Review lines only grow at the end, and every open product is chosen, still open, or newly under review. */
  ghost predicate Keeps(before: seq<Item>, after: seq<Item>, chosen: set<string>) {
    && Reviews(before) <= Reviews(after)
    && forall text | Found(before, text).Some? :: text in chosen || Tracked(text, before, after)
  }

  // The product found after the queue changes elsewhere.

  lemma FoundAt(items: seq<Item>, i: nat, text: string)
    requires i < |items| && IsText(items[i], text) && forall j | 0 <= j < i :: !IsText(items[j], text)
    ensures Found(items, text) == Some(items[i])
  {}

  lemma FoundJoin(items: seq<Item>, more: seq<Item>, text: string)
    requires Found(items, text).Some?
    ensures Found(items + more, text) == Found(items, text)
  {
    var i := ProductAt(items, text).value;
    FoundAt(items + more, i, text);
  }

  lemma FoundCut(items: seq<Item>, i: nat, text: string)
    requires i < |items| && Found(items, text).Some? && !IsText(items[i], text)
    ensures Found(Cut(items, i), text) == Found(items, text)
  {
    var k := ProductAt(items, text).value;
    FoundAt(Cut(items, i), if k < i then k else k - 1, text);
  }

  lemma {:induction false} FoundRetain(items: seq<Item>, p: Item -> bool, text: string)
    requires Found(items, text).Some? && p(Found(items, text).value)
    ensures Found(Retain(items, p), text) == Found(items, text)
    decreases |items|
  {
    var init, x := items[..|items| - 1], items[|items| - 1];
    var i := ProductAt(items, text).value;
    if i < |init| {
      FoundAt(init, i, text);
      FoundRetain(init, p, text);
      FoundJoin(Retain(init, p), if p(x) then [x] else [], text);
    } else {
      forall k | 0 <= k < |Retain(init, p)| ensures !IsText(Retain(init, p)[k], text) {
        RetainOf(init, p, Retain(init, p)[k]);
      }
      FoundAt(Retain(init, p) + [x], |Retain(init, p)|, text);
    }
  }

  /** Items changed in place, each keeping its text. */
  lemma FoundMap(items: seq<Item>, after: seq<Item>, text: string)
    requires |after| == |items| && Found(items, text).Some?
    requires forall i | 0 <= i < |items| :: IsText(after[i], text) <==> IsText(items[i], text)
    ensures Found(after, text) == Some(after[ProductAt(items, text).value])
  {
    FoundAt(after, ProductAt(items, text).value, text);
  }

  lemma ReviewStays(a: seq<Item>, b: seq<Item>, c: seq<Item>, text: string, qty: Option<int>)
    requires Reviews(a) <= Reviews(b) <= Reviews(c) && (NewReview(a, b, text, qty) || NewReview(b, c, text, qty))
    ensures NewReview(a, c, text, qty)
  {
    if NewReview(a, b, text, qty) {
      var k :| |Reviews(a)| <= k < |Reviews(b)| && Reviews(b)[k] == Review(text, qty);
      assert Reviews(c)[k] == Reviews(b)[k];
    }
  }

  lemma KeepsThen(a: seq<Item>, b: seq<Item>, c: seq<Item>, x: set<string>, y: set<string>)
    requires Keeps(a, b, x) && Keeps(b, c, y)
    ensures Keeps(a, c, x + y)
  {
    hide Reviews, Found, NewReview;
    forall text | Found(a, text).Some? ensures text in x + y || Tracked(text, a, c) {
      if text !in x + y {
        var q := Found(a, text).value.qty;
        if NewReview(a, b, text, q) || NewReview(b, c, text, q) {
          ReviewStays(a, b, c, text, q);
        } else {
          assert Tracked(text, b, c);
        }
      }
    }
  }

  lemma KeepsNext(a: seq<Item>, b: seq<Item>, c: seq<Item>)
    requires Keeps(a, b, {}) && Keeps(b, c, {})
    ensures Keeps(a, c, {})
  {
    KeepsThen(a, b, c, {}, {});
    var none: set<string> := {};
    assert none + none == none;
  }

  lemma KeepsSame(items: seq<Item>)
    ensures Keeps(items, items, {})
  {}

  lemma KeepsAppend(items: seq<Item>, it: Item)
    ensures Keeps(items, items + [it], {})
  {
    hide Retain, Found;
    RetainJoin(items, [it], IsReview);
    forall text | Found(items, text).Some? ensures Tracked(text, items, items + [it]) {
      FoundJoin(items, [it], text);
    }
  }

  lemma KeepsCut(items: seq<Item>, i: nat)
    requires i < |items| && !items[i].Review?
    ensures Keeps(items, Cut(items, i), if items[i].Product? then {items[i].text} else {})
  {
    hide Retain, Found;
    CutRetain(items, i, IsReview);
    forall text | Found(items, text).Some? && !IsText(items[i], text) ensures Tracked(text, items, Cut(items, i)) {
      FoundCut(items, i, text);
    }
  }

  lemma KeepsUpdate(items: seq<Item>, i: nat, it: Item)
    requires i < |items| && items[i].Product? && it.Product? && it.text == items[i].text
    requires it.qty == items[i].qty && it.attempts == items[i].attempts && it.isNew == items[i].isNew
    ensures Keeps(items, items[i := it], {})
  {
    hide Retain;
    UpdateRetain(items, i, it, IsReview);
    forall text | Found(items, text).Some? ensures Tracked(text, items, items[i := it]) {
      FoundMap(items, items[i := it], text);
    }
  }

  lemma KeepsConflict(items: seq<Item>, code: string, choices: set<int>)
    ensures Keeps(items, WithoutConflict(items, code) + [Conflict(code, choices)], {})
  {
    hide Retain, Found;
    var p := (it: Item) => !(it.Conflict? && it.code == code);
    var mid := WithoutConflict(items, code);
    RetainTwice(items, p, IsReview);
    forall text | Found(items, text).Some? ensures Tracked(text, items, mid) {
      FoundRetain(items, p, text);
    }
    assert Keeps(items, mid, {});
    KeepsAppend(mid, Conflict(code, choices));
    KeepsNext(items, mid, mid + [Conflict(code, choices)]);
  }

  /** Each open product becomes a review line with its own text and quantity. */
  lemma ReviewAllExact(items: seq<Item>)
    ensures Keeps(items, ReviewAll(items), {})
    ensures forall i | 0 <= i < |items| && items[i].Product? :: Review(items[i].text, items[i].qty) in ReviewAll(items)
    ensures forall x | x in ReviewAll(items) :: !x.Product?
  {
    hide Retain;
    var rest, products := Retain(items, (it: Item) => !it.Product?), Products(items);
    var reviews := Reviewed(products);
    RetainTwice(items, (it: Item) => !it.Product?, IsReview);
    RetainJoin(rest, reviews, IsReview);
    forall k | 0 <= k < |products| ensures products[k].Product? && products[k] in items {
      RetainOf(items, (it: Item) => it.Product?, products[k]);
    }
    RetainAll(reviews, IsReview);
    assert Reviews(ReviewAll(items)) == Reviews(items) + reviews;
    forall i | 0 <= i < |items| && items[i].Product?
      ensures Review(items[i].text, items[i].qty) in ReviewAll(items) && NewReview(items, ReviewAll(items), items[i].text, items[i].qty)
    {
      RetainOf(items, (it: Item) => it.Product?, items[i]);
      var k :| 0 <= k < |products| && products[k] == items[i];
      assert ReviewAll(items)[|rest| + k] == Review(items[i].text, items[i].qty);
      assert Reviews(ReviewAll(items))[|Reviews(items)| + k] == reviews[k];
    }
    forall text | Found(items, text).Some? ensures Tracked(text, items, ReviewAll(items)) {
      assert NewReview(items, ReviewAll(items), items[ProductAt(items, text).value].text, items[ProductAt(items, text).value].qty);
    }
    forall x | x in ReviewAll(items) ensures !x.Product? {
      if x in rest {
        RetainOf(items, (it: Item) => !it.Product?, x);
      }
    }
  }

  lemma ProposeKeeps(t: Turn, it: Item)
    ensures Keeps(t.s.items, Propose(t, it).s.items, {})
  {
    hide Keeps;
    KeepsSame(t.s.items);
    KeepsAppend(t.s.items, it);
  }

  lemma AddKeeps(t: Turn, code: string, qty: Option<int>)
    ensures Keeps(t.s.items, AddLine(t, code, qty).s.items, {})
  {
    hide Keeps, WithoutConflict;
    KeepsSame(t.s.items);
    match LineAt(t.s.cart, code)
    case Some(i) =>
      if qty.Some? {
        KeepsConflict(t.s.items, code, {qty.value, t.s.cart[i].qty, qty.value + t.s.cart[i].qty});
      }
    case None =>
  }

  lemma {:induction false} AddAllKeeps(t: Turn, lines: seq<Line>)
    ensures Keeps(t.s.items, AddAll(t, lines).s.items, {})
    decreases |lines|
  {
    hide Keeps, AddLine;
    if lines == [] {
      KeepsSame(t.s.items);
    } else {
      var u := AddLine(t, lines[0].code, Some(OrOne(lines[0].qty)));
      AddKeeps(t, lines[0].code, Some(OrOne(lines[0].qty)));
      AddAllKeeps(u, lines[1..]);
      KeepsNext(t.s.items, u.s.items, AddAll(u, lines[1..]).s.items);
    }
  }

  /** Only an elige names a product out of the queue. */
  function Chosen(op: Op): set<string> { if op.Choose? then {op.text} else {} }

  lemma ChooseKeeps(t: Turn, text: string, code: string)
    ensures Keeps(t.s.items, ChooseOption(t, text, code).s.items, {text})
  {
    hide Keeps, AddLine;
    match ProductAt(t.s.items, text)
    case None =>
      AddKeeps(t, code, None);
      KeepsMore(t.s.items, AddLine(t, code, None).s.items, {}, {text});
    case Some(i) =>
      var u := WithItems(t, Cut(t.s.items, i));
      KeepsCut(t.s.items, i);
      AddKeeps(u, code, t.s.items[i].qty);
      KeepsThen(t.s.items, u.s.items, AddLine(u, code, t.s.items[i].qty).s.items, {text}, {});
      assert {text} + {} == {text};
  }

  lemma KeepsMore(a: seq<Item>, b: seq<Item>, x: set<string>, y: set<string>)
    requires Keeps(a, b, x) && x <= y
    ensures Keeps(a, b, y)
  {}

  lemma ConfirmKeeps(t: Turn)
    ensures Keeps(t.s.items, ConfirmLive(t).s.items, {})
  {
    hide Keeps, ReviewAll, AddAll;
    KeepsSame(t.s.items);
    match YesNoAt(t.s.items)
    case None =>
    case Some(i) =>
      var live, u := t.s.items[i], WithItems(t, Cut(t.s.items, i));
      KeepsCut(t.s.items, i);
      if live.CloseProposal? {
        ReviewAllExact(u.s.items);
        KeepsNext(t.s.items, u.s.items, ReviewAll(u.s.items));
      } else if !live.DropProposal? {
        AddAllKeeps(u, live.lines);
        KeepsNext(t.s.items, u.s.items, AddAll(u, live.lines).s.items);
      }
  }

  /** The quantity an operation leaves an open product with: what an offer of its text gives. */
  function Given(op: Op, text: string, qty: Option<int>): Option<int> {
    if op.Offer? && op.text == text && op.qty.Some? then op.qty else qty
  }

  /** The open product is chosen, newly under review with its quantity, or open with the quantity the operation leaves it. */
  predicate Follows(text: string, before: seq<Item>, after: seq<Item>, op: Op)
    requires Found(before, text).Some?
  {
    var p := Found(before, text).value;
    || text in Chosen(op)
    || NewReview(before, after, text, p.qty)
    || OpenAs(Found(after, text), p, Given(op, text, p.qty))
  }

  lemma OfferKeeps(t: Turn, given: string, qty: Option<int>, options: seq<string>, text: string)
    requires Found(t.s.items, text).Some?
    ensures var after := OfferOptions(t, given, qty, options).s.items;
      Reviews(t.s.items) <= Reviews(after) && Follows(text, t.s.items, after, Offer(given, qty, options))
  {
    hide Retain;
    match ProductAt(t.s.items, given)
    case None =>
      var q := Product(given, qty, options, {}, 0, true);
      RetainJoin(t.s.items, [q], IsReview);
      FoundJoin(t.s.items, [q], text);
    case Some(k) =>
      var o := t.s.items[k];
      var q := o.(qty := if qty.Some? then qty else o.qty, options := Retain(options, (x: string) => x !in o.rejected));
      UpdateRetain(t.s.items, k, q, IsReview);
      FoundMap(t.s.items, t.s.items[k := q], text);
  }

  lemma KeepsFollows(text: string, before: seq<Item>, after: seq<Item>, op: Op)
    requires Found(before, text).Some? && Keeps(before, after, Chosen(op)) && !op.Offer?
    ensures Reviews(before) <= Reviews(after) && Follows(text, before, after, op)
  {
    hide Reviews, NewReview, Found;
  }

  /** What each operation does to an open product: an offer may set its quantity, nothing else changes it. */
  lemma ApplyKeeps(t: Turn, op: Op, media: bool, text: string)
    requires Found(t.s.items, text).Some?
    ensures var after := Apply(t, op, media).s.items; Reviews(t.s.items) <= Reviews(after) && Follows(text, t.s.items, after, op)
  {
    hide Keeps, Follows, Found, Reviews, Apply;
    if op.Offer? {
      OfferKeeps(t, op.text, op.qty, op.options, text);
      assert Apply(t, op, media) == OfferOptions(t, op.text, op.qty, op.options) by { ApplyOffer(t, op, media); }
    } else {
      OthersKeep(t, op, media);
      KeepsFollows(text, t.s.items, Apply(t, op, media).s.items, op);
    }
  }

  lemma ApplyOffer(t: Turn, op: Op, media: bool)
    requires op.Offer?
    ensures Apply(t, op, media) == OfferOptions(t, op.text, op.qty, op.options)
  {}

  lemma OthersKeep(t: Turn, op: Op, media: bool)
    requires !op.Offer?
    ensures Keeps(t.s.items, Apply(t, op, media).s.items, Chosen(op))
  {
    hide Keeps, AddLine, Propose, ChooseOption, ConfirmLive, ReviewAll, Products, Retain, RejectTarget;
    KeepsSame(t.s.items);
    match op
    case Add(code, qty) => AddKeeps(t, code, qty);
    case Modify(code, mode, value) => ProposeKeeps(t, DropProposal(code));
    case NoCandidates(text, qty) => KeepsAppend(t.s.items, Product(text, qty, [], {}, 0, true));
    case Reject(target) =>
      match RejectTarget(t.s.items, target) {
       case None =>
       case Some(i) =>
         var p := t.s.items[i];
         KeepsUpdate(t.s.items, i, p.(rejected := p.rejected + (set o | o in p.options), options := []));
      }
    case Choose(text, code) => ChooseKeeps(t, text, code);
    case ChooseQty(code, value) =>
      match ConflictAt(t.s.items, code) {
       case None =>
       case Some(i) => KeepsCut(t.s.items, i);
      }
    case RepeatLast(value) => ProposeKeeps(t, RepeatProposal(Repeated(t.s.lastClosed, value)));
    case CloseOrder => ProposeKeeps(t, CloseProposal);
    case Confirm => ConfirmKeeps(t);
    case Deny =>
      match YesNoAt(t.s.items) {
       case None =>
       case Some(i) => KeepsCut(t.s.items, i);
      }
    case DoesNotKnow => ReviewAllExact(t.s.items);
    case Remove(_, _) =>
    case GlobalQty(_) =>
    case Say(_) =>
    case Unknown =>
  }

  function ChosenAll(ops: seq<Op>): set<string> {
    if ops == [] then {} else ChosenAll(ops[..|ops| - 1]) + Chosen(ops[|ops| - 1])
  }

  lemma {:induction false} ChosenIn(ops: seq<Op>, text: string)
    ensures text in ChosenAll(ops) <==> exists op | op in ops :: op.Choose? && op.text == text
    decreases |ops|
  {
    if ops != [] {
      ChosenIn(ops[..|ops| - 1], text);
      assert ops == ops[..|ops| - 1] + [ops[|ops| - 1]];
    }
  }

  /** The quantity after these operations: the last one an offer of the text gave, or what it was. */
  function QtyAfter(ops: seq<Op>, text: string, qty: Option<int>): Option<int> {
    if ops == [] then qty else Given(ops[|ops| - 1], text, QtyAfter(ops[..|ops| - 1], text, qty))
  }

  /** A review line was added with the quantity the product had before one of these operations. */
  predicate ReviewedWithin(ops: seq<Op>, text: string, qty: Option<int>, before: seq<Item>, after: seq<Item>) {
    exists m :: 0 <= m < |ops| && NewReview(before, after, text, QtyAfter(ops[..m], text, qty))
  }

  /** What becomes of an open product over the operations of a turn. */
  lemma {:induction false} ApplyAllKeeps(t: Turn, ops: seq<Op>, media: bool, text: string)
    requires Found(t.s.items, text).Some?
    ensures var p, after := Found(t.s.items, text).value, ApplyAll(t, ops, media).s.items;
      || text in ChosenAll(ops)
      || ReviewedWithin(ops, text, p.qty, t.s.items, after)
      || OpenAs(Found(after, text), p, QtyAfter(ops, text, p.qty))
    decreases |ops|
  {
    hide Apply, Found, Reviews, NewReview;
    if ops != [] {
      var init, op := ops[..|ops| - 1], ops[|ops| - 1];
      var p, u := Found(t.s.items, text).value, ApplyAll(t, init, media);
      var after := Apply(u, op, media).s.items;
      ApplyAllKeeps(t, init, media, text);
      ApplyAllReviews(t, init, media);
      ApplyReviews(u, op, media);
      if text in ChosenAll(init) {
      } else if ReviewedWithin(init, text, p.qty, t.s.items, u.s.items) {
        var m :| 0 <= m < |init| && NewReview(t.s.items, u.s.items, text, QtyAfter(init[..m], text, p.qty));
        ReviewStays(t.s.items, u.s.items, after, text, QtyAfter(init[..m], text, p.qty));
        assert init[..m] == ops[..m];
      } else {
        ApplyKeeps(u, op, media, text);
        var q := QtyAfter(init, text, p.qty);
        if NewReview(u.s.items, after, text, q) {
          ReviewStays(t.s.items, u.s.items, after, text, q);
          assert ops[..|init|] == init;
        }
      }
    }
  }

  lemma ApplyReviews(t: Turn, op: Op, media: bool)
    ensures Reviews(t.s.items) <= Reviews(Apply(t, op, media).s.items)
  {
    hide Retain, Apply;
    if op.Offer? {
      ApplyOffer(t, op, media);
      OfferReviews(t, op.text, op.qty, op.options);
    } else {
      OthersKeep(t, op, media);
    }
  }

  lemma OfferReviews(t: Turn, given: string, qty: Option<int>, options: seq<string>)
    ensures Reviews(t.s.items) <= Reviews(OfferOptions(t, given, qty, options).s.items)
  {
    hide Retain;
    match ProductAt(t.s.items, given)
    case None => RetainJoin(t.s.items, [Product(given, qty, options, {}, 0, true)], IsReview);
    case Some(k) => OfferKeeps(t, given, qty, options, given);
  }

  lemma {:induction false} ApplyAllReviews(t: Turn, ops: seq<Op>, media: bool)
    ensures Reviews(t.s.items) <= Reviews(ApplyAll(t, ops, media).s.items)
    decreases |ops|
  {
    hide Apply, Reviews;
    if ops != [] {
      ApplyAllReviews(t, ops[..|ops| - 1], media);
      ApplyReviews(ApplyAll(t, ops[..|ops| - 1], media), ops[|ops| - 1], media);
    }
  }

  lemma DisputedKeeps(t: Turn, code: string)
    ensures Keeps(t.s.items, Disputed(t, code).s.items, {})
  {
    hide Keeps, WithoutConflict, Quantities, Retain, SumOf;
    KeepsSame(t.s.items);
    var qs := Quantities(t.adds, code);
    KeepsConflict(t.s.items, code, (set q | q in qs) + {SumOf(qs)});
  }

  lemma {:induction false} DisputedAllKeeps(t: Turn, codes: seq<string>)
    ensures Keeps(t.s.items, DisputedAll(t, codes).s.items, {})
    decreases |codes|
  {
    hide Keeps, Disputed;
    if codes == [] {
      KeepsSame(t.s.items);
    } else {
      var u := Disputed(t, codes[0]);
      DisputedKeeps(t, codes[0]);
      DisputedAllKeeps(u, codes[1..]);
      KeepsNext(t.s.items, u.s.items, DisputedAll(u, codes[1..]).s.items);
    }
  }

  lemma {:induction false} GlobalLinesItems(t: Turn, codes: seq<string>, q: int)
    ensures GlobalLines(t, codes, q).s.items == t.s.items
    decreases |codes|
  {
    if codes != [] {
      GlobalLinesItems(GlobalLine(t, codes[0], q), codes[1..], q);
    }
  }

  lemma {:induction false} MapReviews(items: seq<Item>, after: seq<Item>)
    requires |after| == |items| && forall i | 0 <= i < |items| :: (items[i].Review? || after[i].Review? ==> after[i] == items[i])
    ensures Reviews(after) == Reviews(items)
    decreases |items|
  {
    if items != [] {
      MapReviews(items[..|items| - 1], after[..|items| - 1]);
    }
  }

  lemma FilledFound(items: seq<Item>, q: int, text: string)
    requires Found(items, text).Some?
    ensures OpenAs(Found(FilledAll(items, q), text), Found(items, text).value, OrElse(Found(items, text).value.qty, Some(q)))
  {
    hide Retain;
    FoundMap(items, FilledAll(items, q), text);
  }

  /** The quantity given, or else the one for the whole order. */
  function OrElse(qty: Option<int>, global: Option<int>): Option<int> { if qty.Some? then qty else global }

  lemma MediaReviews(t: Turn)
    ensures Reviews(MediaRule(t).s.items) == Reviews(t.s.items) && MediaRule(t).global == t.global
  {
    hide Retain;
    RetainJoin(t.s.items, [MediaProposal(t.media)], IsReview);
    RetainOne(MediaProposal(t.media), IsReview);
  }

  lemma DisputedReviews(t: Turn, code: string)
    ensures Reviews(Disputed(t, code).s.items) == Reviews(t.s.items) && Disputed(t, code).global == t.global
  {
    hide Retain, Quantities, SumOf;
    var qs := Quantities(t.adds, code);
    var x := Conflict(code, (set q | q in qs) + {SumOf(qs)});
    RetainTwice(t.s.items, (it: Item) => !(it.Conflict? && it.code == code), IsReview);
    RetainJoin(WithoutConflict(t.s.items, code), [x], IsReview);
    RetainOne(x, IsReview);
  }

  lemma {:induction false} DisputedAllReviews(t: Turn, codes: seq<string>)
    ensures Reviews(DisputedAll(t, codes).s.items) == Reviews(t.s.items) && DisputedAll(t, codes).global == t.global
    decreases |codes|
  {
    hide Disputed, Reviews;
    if codes != [] {
      DisputedReviews(t, codes[0]);
      DisputedAllReviews(Disputed(t, codes[0]), codes[1..]);
    }
  }

  lemma RulesReviews(t: Turn)
    ensures Reviews(Rules(t).s.items) == Reviews(t.s.items)
  {
    hide Reviews, MediaRule, DisputedAll, GlobalLines, Codes, FilledAll;
    var u := MediaRule(t);
    MediaReviews(t);
    DisputedAllReviews(u, Codes(u.adds));
    var v := DisputedAll(u, Codes(u.adds));
    if v.global.Some? {
      GlobalLinesItems(v, v.withoutQty, v.global.value);
      FilledReviews(v.s.items, v.global.value);
    }
  }

  lemma FilledReviews(items: seq<Item>, q: int)
    ensures Reviews(FilledAll(items, q)) == Reviews(items)
  {
    hide Retain;
    MapReviews(items, FilledAll(items, q));
  }

  /** The rules across operations only fill in a missing quantity from the one for the whole order. */
  lemma RulesKeep(t: Turn, text: string)
    requires Found(t.s.items, text).Some?
    ensures var p := Found(t.s.items, text).value; OpenAs(Found(Rules(t).s.items, text), p, OrElse(p.qty, t.global))
  {
    hide Keeps, Propose, DisputedAll, GlobalLines, Codes, FilledAll, Reviews, Found;
    var p := Found(t.s.items, text).value;
    KeepsSame(t.s.items);
    ProposeKeeps(t, MediaProposal(t.media));
    MediaReviews(t);
    var u := MediaRule(t);
    var v := DisputedAll(u, Codes(u.adds));
    DisputedAllKeeps(u, Codes(u.adds));
    DisputedAllReviews(u, Codes(u.adds));
    KeepsNext(t.s.items, u.s.items, v.s.items);
    KeepsOpen(t.s.items, v.s.items, text);
    if v.global.Some? {
      GlobalLinesItems(v, v.withoutQty, v.global.value);
      FilledFound(v.s.items, v.global.value, text);
    }
  }

  lemma KeepsOpen(before: seq<Item>, after: seq<Item>, text: string)
    requires Keeps(before, after, {}) && Reviews(after) == Reviews(before) && Found(before, text).Some?
    ensures OpenAs(Found(after, text), Found(before, text).value, Found(before, text).value.qty)
  {}

  /** The quantity for the whole order after these operations. */
  function GlobalAfter(ops: seq<Op>, global: Option<int>): Option<int> {
    if ops == [] then global
    else
      var op := ops[|ops| - 1];
      if op.GlobalQty? && op.value.Some? && op.value.value != 0 then op.value else GlobalAfter(ops[..|ops| - 1], global)
  }

  /** What photos brought, and the quantity for the whole order, stay. */
  predicate SameSides(t: Turn, u: Turn) { u.media == t.media && u.global == t.global }

  lemma AddSides(t: Turn, code: string, qty: Option<int>)
    ensures SameSides(t, AddLine(t, code, qty))
  {}

  lemma {:induction false} AddAllSides(t: Turn, lines: seq<Line>)
    ensures SameSides(t, AddAll(t, lines))
    decreases |lines|
  {
    hide AddLine;
    if lines != [] {
      AddSides(t, lines[0].code, Some(OrOne(lines[0].qty)));
      AddAllSides(AddLine(t, lines[0].code, Some(OrOne(lines[0].qty))), lines[1..]);
    }
  }

  lemma ConfirmSides(t: Turn)
    ensures SameSides(t, ConfirmLive(t))
  {
    hide AddAll, ReviewAll, Without;
    match YesNoAt(t.s.items)
    case None =>
    case Some(i) =>
      var live := t.s.items[i];
      if live.MediaProposal? || live.RepeatProposal? {
        AddAllSides(WithItems(t, Cut(t.s.items, i)), live.lines);
      }
  }

  lemma CartSides(t: Turn, code: string, mode: Mode, value: Option<int>, numeral: bool)
    ensures SameSides(t, ModifyLine(t, code, mode, value)) && SameSides(t, RemoveLine(t, code, numeral)) && SameSides(t, ChooseQuantity(t, code, value))
  {
    hide Without;
  }

  lemma QueueSides(t: Turn, text: string, qty: Option<int>, options: seq<string>, target: Option<string>)
    ensures SameSides(t, OfferOptions(t, text, qty, options)) && SameSides(t, OpenWithout(t, text, qty)) && SameSides(t, RejectOptions(t, target))
    ensures SameSides(t, DenyLive(t)) && SameSides(t, GiveUp(t))
  {
    hide Retain, RejectTarget, ReviewAll, Products;
  }

  lemma ChooseSides(t: Turn, text: string, code: string)
    ensures SameSides(t, ChooseOption(t, text, code))
  {
    hide AddLine;
    match ProductAt(t.s.items, text)
    case None => AddSides(t, code, None);
    case Some(i) => AddSides(WithItems(t, Cut(t.s.items, i)), code, t.s.items[i].qty);
  }

  lemma ApplySides(t: Turn, op: Op, media: bool)
    ensures var u := Apply(t, op, media);
      && u.media == t.media + (if media && op.Add? then [Line(op.code, if op.qty.Some? then op.qty.value else 1)] else [])
      && u.global == if op.GlobalQty? && op.value.Some? && op.value.value != 0 then op.value else t.global
  {
    hide AddLine, ModifyLine, RemoveLine, OfferOptions, OpenWithout, RejectOptions, ChooseOption, ChooseQuantity, ConfirmLive, DenyLive, GiveUp, Products, Retain;
    match op
    case Add(code, qty) => AddSides(t, code, qty);
    case Modify(code, mode, value) => CartSides(t, code, mode, value, false);
    case Remove(code, numeral) => CartSides(t, code, Same, None, numeral);
    case Offer(text, qty, options) => QueueSides(t, text, qty, options, None);
    case NoCandidates(text, qty) => QueueSides(t, text, qty, [], None);
    case Reject(target) => QueueSides(t, "", None, [], target);
    case Choose(text, code) => ChooseSides(t, text, code);
    case ChooseQty(code, value) => CartSides(t, code, Same, value, false);
    case Confirm => ConfirmSides(t);
    case Deny => QueueSides(t, "", None, [], None);
    case DoesNotKnow => QueueSides(t, "", None, [], None);
    case _ =>
  }

  lemma {:induction false} ApplyAllGlobal(t: Turn, ops: seq<Op>, media: bool)
    ensures ApplyAll(t, ops, media).global == GlobalAfter(ops, t.global)
    decreases |ops|
  {
    hide Apply;
    if ops != [] {
      ApplyAllGlobal(t, ops[..|ops| - 1], media);
      ApplySides(ApplyAll(t, ops[..|ops| - 1], media), ops[|ops| - 1], media);
    }
  }

  // ------------------------------------------------------------------
  // The end of the turn
  // ------------------------------------------------------------------

  /** The review lines after a turn: those before it, then the products out of attempts. */
  lemma SettledReviews(items: seq<Item>, max: nat)
    ensures Reviews(SettleItems(items, max)) == Reviews(items) + Reviewed(Retain(items, (it: Item) => Exhausted(it, max)))
  {
    hide Retain;
    var p := (it: Item) => !Exhausted(it, max);
    var a, b := Retain(items, p), Retain(items, (it: Item) => Exhausted(it, max));
    RetainTwice(items, p, IsReview);
    RetainJoin(a, Reviewed(b), IsReview);
    forall k | 0 <= k < |b| ensures b[k].Product? {
      RetainOf(items, (it: Item) => Exhausted(it, max), b[k]);
    }
    RetainAll(Reviewed(b), IsReview);
    MapReviews(a + Reviewed(b), SettleItems(items, max));
  }

  /** What becomes of an open product at the end of a turn. */
  lemma SettleExact(items: seq<Item>, max: nat, text: string)
    requires Found(items, text).Some?
    ensures var after := SettleItems(items, max); var p := Found(items, text).value;
      if p.attempts >= max then NewReview(items, after, text, p.qty)
      else Found(after, text) == Some(p.(isNew := false))
  {
    hide Retain;
    var p := Found(items, text).value;
    var a, b := Retain(items, (it: Item) => !Exhausted(it, max)), Retain(items, (it: Item) => Exhausted(it, max));
    RetainOf(items, (it: Item) => Exhausted(it, max), p);
    var after := SettleItems(items, max);
    if p.attempts >= max {
      var k :| 0 <= k < |b| && b[k] == p;
      SettledReviews(items, max);
      assert Reviews(after)[|Reviews(items)| + k] == Review(p.text, p.qty);
    } else {
      FoundRetain(items, (it: Item) => !Exhausted(it, max), text);
      FoundJoin(a, Reviewed(b), text);
      FoundMap(a + Reviewed(b), after, text);
    }
  }

  lemma SettleReviews(items: seq<Item>, max: nat)
    ensures Reviews(items) <= Reviews(SettleItems(items, max))
    ensures forall x | x in SettleItems(items, max) && x.Product? :: x.attempts < max && !x.isNew
  {
    hide Retain;
    var p := (it: Item) => !Exhausted(it, max);
    var a, b := Retain(items, p), Retain(items, (it: Item) => Exhausted(it, max));
    SettledReviews(items, max);
    forall k | 0 <= k < |b| ensures b[k].Product? {
      RetainOf(items, (it: Item) => Exhausted(it, max), b[k]);
    }
    forall x | x in SettleItems(items, max) && x.Product? ensures x.attempts < max && !x.isNew {
      var k :| 0 <= k < |SettleItems(items, max)| && SettleItems(items, max)[k] == x;
      if k < |a| {
        RetainOf(items, p, a[k]);
      }
    }
  }

  lemma {:induction false} ApplyAllSplit(t: Turn, ops: seq<Op>, media: bool, j: nat)
    requires j <= |ops|
    ensures ApplyAll(t, ops, media) == ApplyAll(ApplyAll(t, ops[..j], media), ops[j..], media)
    decreases |ops|
  {
    hide Apply;
    if j == |ops| {
      assert ops[..j] == ops;
    } else {
      var init := ops[..|ops| - 1];
      ApplyAllSplit(t, init, media, j);
      assert init[..j] == ops[..j] && ops[j..][..|ops[j..]| - 1] == init[j..];
    }
  }

  /** The turn's quantity for the whole order fills in at the end what no offer gave. */
  function FinalQty(ops: seq<Op>, text: string, qty: Option<int>, global: Option<int>): Option<int> {
    OrElse(QtyAfter(ops, text, qty), global)
  }

  /** Under review, newly, with the quantity it had when it was left to the salesman. */
  predicate LeftToReview(ops: seq<Op>, text: string, qty: Option<int>, global: Option<int>, before: seq<Item>, after: seq<Item>) {
    ReviewedWithin(ops, text, qty, before, after) || NewReview(before, after, text, FinalQty(ops, text, qty, global))
  }

  /** The attempts of an open product after a turn. */
  function AttemptsAfter(p: Item, progress: bool): nat
    requires p.Product?
  {
    if progress then 0 else if p.isNew then p.attempts else p.attempts + 1
  }

  /**
   * A product open at any moment of a turn, from before it or opened in it, is
   * named by a later elige of that turn, or is a new review line after it, or
   * is still open; in both cases with its quantity, as offers and the quantity
   * for the whole order have set it. A turn without progress costs it an
   * attempt unless it is new.
   */
  lemma TurnLosesNothing(s: State, ops: seq<Op>, media: bool, global: Option<int>, max: nat, j: nat, text: string)
    requires j <= |ops| && Found(ApplyAll(Begin(s, global), ops[..j], media).s.items, text).Some?
    ensures var items := ApplyAll(Begin(s, global), ops[..j], media).s.items; var p := Found(items, text).value;
      var t, rest := Reduce(s, ops, media, global, max), ops[j..];
      var q := Found(t.s.items, text);
      var progress := Progress(Rules(ApplyAll(Begin(s, global), ops, media)).facts);
      || text in ChosenAll(rest)
      || LeftToReview(rest, text, p.qty, GlobalAfter(ops, global), items, t.s.items)
      || (q.Some? && q.value.qty == FinalQty(rest, text, p.qty, GlobalAfter(ops, global)) && q.value.attempts == AttemptsAfter(p, progress) && !q.value.isNew)
  {
    hide ApplyAll, Rules, Progress, SettleItems, ChosenAll, Reviews, NewReview, ReviewedWithin, Found, QtyAfter, GlobalAfter;
    var m := ApplyAll(Begin(s, global), ops[..j], media);
    var rest := ops[j..];
    var items, p := m.s.items, Found(m.s.items, text).value;
    ApplyAllSplit(Begin(s, global), ops, media, j);
    ApplyAllGlobal(Begin(s, global), ops, media);
    var t := ApplyAll(m, rest, media);
    var u := Rules(t);
    ApplyAllKeeps(m, rest, media, text);
    ApplyAllReviews(m, rest, media);
    RulesReviews(t);
    var judged := JudgedAll(u.s.items, Progress(u.facts));
    var after := SettleItems(judged, max);
    JudgedReviews(u.s.items, Progress(u.facts));
    SettleReviews(judged, max);
    if text in ChosenAll(rest) {
    } else if ReviewedWithin(rest, text, p.qty, items, t.s.items) {
      WithinStays(rest, text, p.qty, items, t.s.items, after);
    } else {
      RulesKeep(t, text);
      JudgedFound(u.s.items, Progress(u.facts), text);
      SettleExact(judged, max, text);
      var q := FinalQty(rest, text, p.qty, GlobalAfter(ops, global));
      if NewReview(judged, after, text, q) {
        ReviewStays(items, judged, after, text, q);
      }
    }
  }

  lemma JudgedReviews(items: seq<Item>, progress: bool)
    ensures Reviews(JudgedAll(items, progress)) == Reviews(items)
  {
    hide Retain;
    MapReviews(items, JudgedAll(items, progress));
  }

  lemma JudgedFound(items: seq<Item>, progress: bool, text: string)
    requires Found(items, text).Some?
    ensures var p, q := Found(items, text).value, Found(JudgedAll(items, progress), text);
      q == Some(p.(attempts := AttemptsAfter(p, progress)))
  {
    FoundMap(items, JudgedAll(items, progress), text);
  }

  lemma WithinStays(ops: seq<Op>, text: string, qty: Option<int>, a: seq<Item>, b: seq<Item>, c: seq<Item>)
    requires ReviewedWithin(ops, text, qty, a, b) && Reviews(a) <= Reviews(b) <= Reviews(c)
    ensures ReviewedWithin(ops, text, qty, a, c)
  {
    hide Reviews, NewReview;
    var m :| 0 <= m < |ops| && NewReview(a, b, text, QtyAfter(ops[..m], text, qty));
    ReviewStays(a, b, c, text, QtyAfter(ops[..m], text, qty));
  }

  lemma ReviewsNeverRemoved(s: State, ops: seq<Op>, media: bool, global: Option<int>, max: nat)
    ensures Reviews(s.items) <= Reviews(Reduce(s, ops, media, global, max).s.items)
    ensures forall x | x in Reduce(s, ops, media, global, max).s.items && x.Product? :: x.attempts < max && !x.isNew
  {
    hide ApplyAll, Rules, Progress, SettleItems, Reviews;
    var t := ApplyAll(Begin(s, global), ops, media);
    var u := Rules(t);
    ApplyAllReviews(Begin(s, global), ops, media);
    RulesReviews(t);
    JudgedReviews(u.s.items, Progress(u.facts));
    SettleReviews(JudgedAll(u.s.items, Progress(u.facts)), max);
  }
}

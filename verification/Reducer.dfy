/**
 * The order reducer (chatlink_bot ai/llm.py, aplicar): the only writer of the
 * cart and of the queue of open questions. Names, brands and wording travel
 * with lines and facts without being looked at, and are left out.
 */
module Reducer {
  import opened Options
  import opened Seqs

  // ------------------------------------------------------------------
  // State
  // ------------------------------------------------------------------

  datatype Status = Idle | Building | Closed

  datatype Line = Line(code: string, qty: int)

  /** An open question, a yes/no proposal, or a line left to the salesman. */
  datatype Item =
    | Product(text: string, qty: Option<int>, options: seq<string>, rejected: set<string>, attempts: nat, isNew: bool)
    | Review(text: string, qty: Option<int>)
    | Conflict(code: string, choices: set<int>)
    | CloseProposal
    | DropProposal(code: string)
    | MediaProposal(lines: seq<Line>)
    | RepeatProposal(lines: seq<Line>)

  predicate YesNo(it: Item) { it.CloseProposal? || it.DropProposal? || it.MediaProposal? || it.RepeatProposal? }

  datatype State = State(status: Status, cart: seq<Line>, items: seq<Item>, lastClosed: seq<Line>)

  datatype Mode = SetTotal | Increase | Decrease | Same

  datatype Op =
    | Add(code: string, qty: Option<int>)
    | Modify(code: string, mode: Mode, value: Option<int>)
    | Remove(code: string, numeral: bool)
    | Offer(text: string, qty: Option<int>, options: seq<string>)
    | NoCandidates(text: string, qty: Option<int>)
    | Reject(target: Option<string>)
    | Choose(text: string, code: string)
    | ChooseQty(code: string, value: Option<int>)
    | GlobalQty(value: Option<int>)
    | RepeatLast(value: Option<int>)
    | CloseOrder
    | Confirm
    | Deny
    | DoesNotKnow
    | Say(note: string)
    | Unknown

  /** What the reply will say. */
  datatype Fact =
    | Confirmed(code: string, qty: int)
    | Updated(code: string, qty: int)
    | Unchanged(code: string, qty: int)
    | Removed(code: string)
    | AskOptions(text: string)
    | NoneFound(text: string)
    | RejectionNoted(text: string)
    | AskQuantity(code: string)
    | AskDrop(code: string)
    | Proposed(kind: nat)
    | Retired(kind: nat)
    | OrderClosed
    | ToReview(text: string)
    | Reminder(text: string)
    | Other(note: string)

  function Kind(it: Item): nat {
    match it
    case CloseProposal => 1
    case DropProposal(_) => 2
    case MediaProposal(_) => 3
    case RepeatProposal(_) => 4
    case _ => 0
  }

  /** A turn under way: the state so far, what will be said, and this turn's adds. */
  datatype Turn = Turn(
    s: State, facts: seq<Fact>,
    withoutQty: seq<string>, adds: seq<(string, Option<int>)>, media: seq<Line>, global: Option<int>)

  // ------------------------------------------------------------------
  // Looking up
  // ------------------------------------------------------------------

  function LineAt(cart: seq<Line>, code: string): (r: Option<nat>)
    ensures r.Some? ==> r.value < |cart| && cart[r.value].code == code
    ensures r.None? ==> forall i | 0 <= i < |cart| :: cart[i].code != code
  {
    if cart == [] then None
    else
      var r := LineAt(cart[..|cart| - 1], code);
      if r.Some? then r else if cart[|cart| - 1].code == code then Some(|cart| - 1) else None
  }

  /** The first item that satisfies p. */
  function ItemAt(items: seq<Item>, p: Item -> bool): (r: Option<nat>)
    ensures r.Some? ==> r.value < |items| && p(items[r.value]) && forall i | 0 <= i < r.value :: !p(items[i])
    ensures r.None? ==> forall i | 0 <= i < |items| :: !p(items[i])
  {
    if items == [] then None
    else
      var r := ItemAt(items[..|items| - 1], p);
      if r.Some? then r else if p(items[|items| - 1]) then Some(|items| - 1) else None
  }

  predicate IsText(it: Item, text: string) { it.Product? && it.text == text }

  function ProductAt(items: seq<Item>, text: string): (r: Option<nat>)
    ensures r.Some? ==> r.value < |items| && IsText(items[r.value], text) && forall i | 0 <= i < r.value :: !IsText(items[i], text)
    ensures r.None? ==> forall i | 0 <= i < |items| :: !IsText(items[i], text)
  {
    ItemAt(items, (it: Item) => IsText(it, text))
  }

  function YesNoAt(items: seq<Item>): (r: Option<nat>)
    ensures r.Some? ==> r.value < |items| && YesNo(items[r.value])
    ensures r.None? ==> forall i | 0 <= i < |items| :: !YesNo(items[i])
  {
    ItemAt(items, YesNo)
  }

  function ConflictAt(items: seq<Item>, code: string): (r: Option<nat>)
    ensures r.Some? ==> r.value < |items| && items[r.value].Conflict? && items[r.value].code == code
    ensures r.None? ==> forall i | 0 <= i < |items| :: !(items[i].Conflict? && items[i].code == code)
  {
    ItemAt(items, (it: Item) => it.Conflict? && it.code == code)
  }

  function Without(cart: seq<Line>, code: string): seq<Line> { Retain(cart, (l: Line) => l.code != code) }

  function WithoutConflict(items: seq<Item>, code: string): seq<Item> {
    Retain(items, (it: Item) => !(it.Conflict? && it.code == code))
  }

  // ------------------------------------------------------------------
  // Pass 1: one operation
  // ------------------------------------------------------------------

  function Emit(t: Turn, f: Fact): Turn { t.(facts := t.facts + [f]) }

  function WithItems(t: Turn, items: seq<Item>): Turn { t.(s := t.s.(items := items)) }

  function WithCart(t: Turn, cart: seq<Line>): Turn { t.(s := t.s.(cart := cart)) }

  function Started(status: Status): Status { if status != Closed then Building else Closed }

  /** At most one yes/no proposal is alive. */
  function Propose(t: Turn, it: Item): Turn {
    if YesNoAt(t.s.items).Some? then t
    else Emit(WithItems(t, t.s.items + [it]), if it.DropProposal? then AskDrop(it.code) else Proposed(Kind(it)))
  }

  function AddLine(t0: Turn, code: string, qty: Option<int>): Turn {
    var t := t0.(adds := t0.adds + [(code, qty)]);
    match LineAt(t.s.cart, code)
    case Some(i) =>
      var have := t.s.cart[i].qty;
      if qty.None? || qty.value == have then Emit(t, Unchanged(code, have))
      else
        var choices := {qty.value, have, qty.value + have};
        Emit(WithItems(t, WithoutConflict(t.s.items, code) + [Conflict(code, choices)]), AskQuantity(code))
    case None =>
      var q := if qty.Some? then qty.value else 1;
      var u := t.(s := t.s.(cart := t.s.cart + [Line(code, q)], status := Started(t.s.status)),
                  withoutQty := if qty.None? then t.withoutQty + [code] else t.withoutQty);
      Emit(u, Confirmed(code, q))
  }

  function ModifyLine(t: Turn, code: string, mode: Mode, value: Option<int>): Turn {
    match LineAt(t.s.cart, code)
    case None => Emit(t, Other("referencia_ambigua"))
    case Some(i) =>
      var have := t.s.cart[i].qty;
      if mode == Same || value.None? then Emit(t, Unchanged(code, have))
      else
        var next := match mode case SetTotal => value.value case Increase => have + value.value case Decrease => have - value.value case Same => have;
        if next <= 0 then Propose(t, DropProposal(code))
        else Emit(WithCart(t, t.s.cart[i := Line(code, next)]), Updated(code, next))
  }

  function RemoveLine(t: Turn, code: string, numeral: bool): Turn {
    if LineAt(t.s.cart, code).None? then t
    else if numeral then Emit(t, Other("pregunta_eliminar_o_restar"))
    else Emit(WithCart(t, Without(t.s.cart, code)), Removed(code))
  }

  function OfferOptions(t: Turn, text: string, qty: Option<int>, options: seq<string>): Turn {
    match ProductAt(t.s.items, text)
    case None => Emit(WithItems(t, t.s.items + [Product(text, qty, options, {}, 0, true)]), AskOptions(text))
    case Some(i) =>
      var p := t.s.items[i];
      var q := p.(qty := if qty.Some? then qty else p.qty, options := Retain(options, (o: string) => o !in p.rejected));
      Emit(WithItems(t, t.s.items[i := q]), AskOptions(text))
  }

  function OpenWithout(t: Turn, text: string, qty: Option<int>): Turn {
    var items := if ProductAt(t.s.items, text).None? then t.s.items + [Product(text, qty, [], {}, 0, true)] else t.s.items;
    Emit(WithItems(t, items), NoneFound(text))
  }

  function Products(items: seq<Item>): seq<Item> { Retain(items, (it: Item) => it.Product?) }

  function RejectTarget(items: seq<Item>, target: Option<string>): (r: Option<nat>)
    ensures r.Some? ==> r.value < |items| && items[r.value].Product?
  {
    var named := if target.Some? then ProductAt(items, target.value) else None;
    if named.Some? then named
    else if |Products(items)| == 1 then ItemAt(items, (it: Item) => it.Product?)
    else None
  }

  function RejectOptions(t: Turn, target: Option<string>): Turn {
    match RejectTarget(t.s.items, target)
    case None => Emit(t, Other("referencia_ambigua"))
    case Some(i) =>
      var p := t.s.items[i];
      var q := p.(rejected := p.rejected + (set o | o in p.options), options := []);
      Emit(WithItems(t, t.s.items[i := q]), RejectionNoted(p.text))
  }

  function ChooseOption(t: Turn, text: string, code: string): Turn {
    match ProductAt(t.s.items, text)
    case None => AddLine(t, code, None)
    case Some(i) => AddLine(WithItems(t, Cut(t.s.items, i)), code, t.s.items[i].qty)
  }

  function ChooseQuantity(t: Turn, code: string, value: Option<int>): Turn {
    match ConflictAt(t.s.items, code)
    case None => t
    case Some(i) =>
      if value.None? || value.value !in t.s.items[i].choices then t
      else
        var u := WithItems(t, Cut(t.s.items, i));
        (match LineAt(u.s.cart, code)
         case None =>
           Emit(u.(s := u.s.(cart := u.s.cart + [Line(code, value.value)], status := Started(u.s.status))), Confirmed(code, value.value))
         case Some(k) => Emit(WithCart(u, u.s.cart[k := Line(code, value.value)]), Updated(code, value.value)))
  }

  function OrOne(q: int): int { if q == 0 then 1 else q }

  function Repeated(lines: seq<Line>, value: Option<int>): (r: seq<Line>)
    ensures |r| == |lines|
  {
    seq(|lines|, i requires 0 <= i < |lines| =>
      Line(lines[i].code, if value.Some? && value.value != 0 then value.value else OrOne(lines[i].qty)))
  }

  function AsReview(it: Item): Item {
    if it.Product? then Review(it.text, it.qty) else it
  }

  function Reviewed(products: seq<Item>): (r: seq<Item>)
    ensures |r| == |products|
  {
    seq(|products|, i requires 0 <= i < |products| => AsReview(products[i]))
  }

  /** Every open product becomes a review line with its text and quantity. */
  function ReviewAll(items: seq<Item>): seq<Item> {
    Retain(items, (it: Item) => !it.Product?) + Reviewed(Products(items))
  }

  function AddAll(t: Turn, lines: seq<Line>): Turn
    decreases |lines|
  {
    if lines == [] then t else AddAll(AddLine(t, lines[0].code, Some(OrOne(lines[0].qty))), lines[1..])
  }

  function ConfirmLive(t: Turn): Turn {
    match YesNoAt(t.s.items)
    case None => Emit(t, Other("cortesia"))
    case Some(i) =>
      var live := t.s.items[i];
      var u := WithItems(t, Cut(t.s.items, i));
      if live.CloseProposal? then Emit(u.(s := u.s.(items := ReviewAll(u.s.items), status := Closed)), OrderClosed)
      else if live.DropProposal? then
        (if LineAt(u.s.cart, live.code).None? then u
         else Emit(WithCart(u, Without(u.s.cart, live.code)), Removed(live.code)))
      else AddAll(u, live.lines)
  }

  function DenyLive(t: Turn): Turn {
    match YesNoAt(t.s.items)
    case None => Emit(t, Other("cortesia"))
    case Some(i) => Emit(WithItems(t, Cut(t.s.items, i)), Retired(Kind(t.s.items[i])))
  }

  function ReviewFacts(products: seq<Item>): (r: seq<Fact>)
    ensures |r| == |products|
  {
    seq(|products|, i requires 0 <= i < |products| => if products[i].Product? then ToReview(products[i].text) else Other(""))
  }

  function GiveUp(t: Turn): Turn {
    var products := Products(t.s.items);
    if products == [] then Emit(t, Other("cortesia"))
    else WithItems(t, ReviewAll(t.s.items)).(facts := t.facts + ReviewFacts(products))
  }

  function Apply(t: Turn, op: Op, media: bool): Turn {
    match op
    case Add(code, qty) => if media then t.(media := t.media + [Line(code, if qty.Some? then qty.value else 1)]) else AddLine(t, code, qty)
    case Modify(code, mode, value) => ModifyLine(t, code, mode, value)
    case Remove(code, numeral) => RemoveLine(t, code, numeral)
    case Offer(text, qty, options) => OfferOptions(t, text, qty, options)
    case NoCandidates(text, qty) => OpenWithout(t, text, qty)
    case Reject(target) => RejectOptions(t, target)
    case Choose(text, code) => ChooseOption(t, text, code)
    case ChooseQty(code, value) => ChooseQuantity(t, code, value)
    case GlobalQty(value) => t.(global := if value.Some? && value.value != 0 then value else t.global)
    case RepeatLast(value) =>
      if t.s.lastClosed == [] then Emit(t, Other("derivacion"))
      else Propose(t, RepeatProposal(Repeated(t.s.lastClosed, value)))
    case CloseOrder =>
      if t.s.cart == [] && Products(t.s.items) == [] && Retain(t.s.items, (it: Item) => it.Review?) == [] then Emit(t, Other("sin_entender"))
      else Propose(t, CloseProposal)
    case Confirm => ConfirmLive(t)
    case Deny => DenyLive(t)
    case DoesNotKnow => GiveUp(t)
    case Say(note) => Emit(t, Other(note))
    case Unknown => t
  }

  // ------------------------------------------------------------------
  // Pass 2: rules across operations
  // ------------------------------------------------------------------

  function MediaRule(t: Turn): Turn {
    if t.media == [] then t else Propose(t, MediaProposal(t.media))
  }

  /** The codes added this turn, each once, in order. */
  function Codes(adds: seq<(string, Option<int>)>): seq<string> {
    if adds == [] then []
    else
      var init := Codes(adds[..|adds| - 1]);
      var c := adds[|adds| - 1].0;
      if c in init then init else init + [c]
  }

  /** The different quantities given for a code. */
  function Quantities(adds: seq<(string, Option<int>)>, code: string): seq<int> {
    if adds == [] then []
    else
      var init := Quantities(adds[..|adds| - 1], code);
      var (c, q) := adds[|adds| - 1];
      if c == code && q.Some? && q.value !in init then init + [q.value] else init
  }

  function SumOf(qs: seq<int>): int { if qs == [] then 0 else SumOf(qs[..|qs| - 1]) + qs[|qs| - 1] }

  predicate LineFact(f: Fact, code: string) {
    (f.Confirmed? || f.Updated? || f.Unchanged?) && f.code == code
  }

  /** One message, one code, several quantities: the line is withdrawn and the client asked. */
  function Disputed(t: Turn, code: string): Turn {
    var qs := Quantities(t.adds, code);
    if |qs| <= 1 then t
    else
      var choices := (set q | q in qs) + {SumOf(qs)};
      var u := t.(s := t.s.(cart := Without(t.s.cart, code), items := WithoutConflict(t.s.items, code) + [Conflict(code, choices)]),
                  facts := Retain(t.facts, (f: Fact) => !LineFact(f, code)));
      Emit(u, AskQuantity(code))
  }

  function DisputedAll(t: Turn, codes: seq<string>): Turn
    decreases |codes|
  {
    if codes == [] then t else DisputedAll(Disputed(t, codes[0]), codes[1..])
  }

  function GlobalLine(t: Turn, code: string, q: int): Turn {
    match LineAt(t.s.cart, code)
    case None => t
    case Some(i) => Emit(WithCart(t, t.s.cart[i := Line(code, q)]), Updated(code, q))
  }

  function GlobalLines(t: Turn, codes: seq<string>, q: int): Turn
    decreases |codes|
  {
    if codes == [] then t else GlobalLines(GlobalLine(t, codes[0], q), codes[1..], q)
  }

  function Filled(it: Item, q: int): Item {
    match it
    case Product(text, None, options, rejected, attempts, isNew) => Product(text, Some(q), options, rejected, attempts, isNew)
    case _ => it
  }

  function FilledAll(items: seq<Item>, q: int): (r: seq<Item>)
    ensures |r| == |items| && forall i | 0 <= i < |r| :: r[i] == Filled(items[i], q)
  {
    seq(|items|, i requires 0 <= i < |items| => Filled(items[i], q))
  }

  function GlobalRule(t: Turn): Turn {
    match t.global
    case None => t
    case Some(q) => var u := GlobalLines(t, t.withoutQty, q); WithItems(u, FilledAll(u.s.items, q))
  }

  predicate ProgressFact(f: Fact) {
    f.Confirmed? || f.Updated? || f.Removed? || f.AskQuantity? || f.OrderClosed? || f.RejectionNoted?
  }

  predicate Progress(facts: seq<Fact>) { exists f | f in facts :: ProgressFact(f) }

  /** An unresolved product costs an attempt in a turn without progress, from the turn after its creation on. */
  function Judged(it: Item, progress: bool): Item {
    if it.Product? then it.(attempts := if progress then 0 else if it.isNew then it.attempts else it.attempts + 1) else it
  }

  function JudgedAll(items: seq<Item>, progress: bool): (r: seq<Item>)
    ensures |r| == |items| && forall i | 0 <= i < |r| :: r[i] == Judged(items[i], progress)
  {
    seq(|items|, i requires 0 <= i < |items| => Judged(items[i], progress))
  }

  predicate Exhausted(it: Item, max: nat) { it.Product? && it.attempts >= max }

  predicate JustAsked(facts: seq<Fact>, text: string) {
    text != "" && (AskOptions(text) in facts || NoneFound(text) in facts || RejectionNoted(text) in facts)
  }

  /** What an item that is still open says, unless it was said already. */
  function Reminders(it: Item, facts: seq<Fact>, max: nat): seq<Fact> {
    match it
    case Product(text, _, options, _, attempts, _) =>
      if attempts >= max then [ToReview(text)]
      else if JustAsked(facts, text) then []
      else if options != [] then [AskOptions(text)] else [Reminder(text)]
    case Conflict(code, _) => if AskQuantity(code) in facts then [] else [AskQuantity(code)]
    case Review(_, _) => []
    case _ =>
      if Proposed(Kind(it)) in facts || exists f | f in facts :: f.AskDrop? || f.OrderClosed? then []
      else [if it.DropProposal? then AskDrop(it.code) else Proposed(Kind(it))]
  }

  function RemindersAll(items: seq<Item>, facts: seq<Fact>, max: nat): seq<Fact> {
    if items == [] then []
    else RemindersAll(items[..|items| - 1], facts, max) + Reminders(items[|items| - 1], facts, max)
  }

  function Settled(it: Item): Item { if it.Product? then it.(isNew := false) else it }

  function SettledAll(items: seq<Item>): (r: seq<Item>)
    ensures |r| == |items| && forall i | 0 <= i < |r| :: r[i] == Settled(items[i])
  {
    seq(|items|, i requires 0 <= i < |items| => Settled(items[i]))
  }

  /** Products out of attempts become review lines, after the items that stay. */
  function SettleItems(items: seq<Item>, max: nat): seq<Item> {
    SettledAll(Retain(items, (it: Item) => !Exhausted(it, max)) + Reviewed(Retain(items, (it: Item) => Exhausted(it, max))))
  }

  function Finish(t: Turn, max: nat): Turn {
    var items := JudgedAll(t.s.items, Progress(t.facts));
    WithItems(t, SettleItems(items, max)).(facts := t.facts + RemindersAll(items, t.facts, max))
  }

  function ApplyAll(t: Turn, ops: seq<Op>, media: bool): Turn {
    if ops == [] then t else Apply(ApplyAll(t, ops[..|ops| - 1], media), ops[|ops| - 1], media)
  }

  function Begin(s: State, global: Option<int>): Turn { Turn(s, [], [], [], [], global) }

  function Rules(t: Turn): Turn {
    var u := MediaRule(t);
    GlobalRule(DisputedAll(u, Codes(u.adds)))
  }

  /** A whole turn of the reducer. */
  function Reduce(s: State, ops: seq<Op>, media: bool, global: Option<int>, max: nat): Turn {
    var t := Finish(Rules(ApplyAll(Begin(s, global), ops, media)), max);
    if ops != [] && t.facts == [] then Emit(t, Other("sin_entender")) else t
  }
}

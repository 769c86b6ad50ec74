/** What the client is told of the cart is what the cart holds, and no change goes untold. */
module ReducerTells {
  import opened Options
  import opened Seqs
  import opened Reducer
  import opened ReducerInvariant
  import opened ReducerCart

  /** What the fact says of its line is true of the cart. */
  predicate Truthful(cart: seq<Line>, f: Fact) {
    && (f.Confirmed? || f.Updated? || f.Unchanged? ==> f.qty >= 1 && Ordered(cart, f.code) == f.qty)
    && (f.Removed? ==> Ordered(cart, f.code) == 0)
  }

  predicate About(f: Fact, code: string) { (f.Confirmed? || f.Updated? || f.Removed?) && f.code == code }

  /** From t to u: facts were only added, each true of the cart, and every quantity that changed has one. */
  ghost predicate Tells(t: Turn, u: Turn) {
    && t.facts <= u.facts
    && (forall k | |t.facts| <= k < |u.facts| :: Truthful(u.s.cart, u.facts[k]))
    && (forall code | Ordered(u.s.cart, code) != Ordered(t.s.cart, code) :: exists k :: |t.facts| <= k < |u.facts| && About(u.facts[k], code))
  }

  /** One fact more. */
  lemma TellsOne(t: Turn, u: Turn, f: Fact)
    requires u.facts == t.facts + [f] && Truthful(u.s.cart, f)
    requires forall code | Ordered(u.s.cart, code) != Ordered(t.s.cart, code) :: About(f, code)
    ensures Tells(t, u)
  {
    hide Ordered;
    assert u.facts[|t.facts|] == f;
  }

  /** The cart is not touched, and nothing is said of it. */
  lemma TellsNothing(t: Turn, u: Turn)
    requires u.s.cart == t.s.cart && t.facts <= u.facts
    requires forall k | |t.facts| <= k < |u.facts| :: !(u.facts[k].Confirmed? || u.facts[k].Updated? || u.facts[k].Unchanged? || u.facts[k].Removed?)
    ensures Tells(t, u)
  {
    hide Ordered;
  }

  lemma AddTells(t: Turn, code: string, qty: Option<int>)
    requires TurnOk(t) && QtyOk(qty)
    ensures Tells(t, AddLine(t, code, qty))
  {
    hide Ordered, WithoutConflict, QueueOk;
    var u := AddLine(t, code, qty);
    forall c ensures Ordered(u.s.cart, c) == if c == code && Ordered(t.s.cart, code) == 0 then (if qty.Some? then qty.value else 1) else Ordered(t.s.cart, c) {
      AddEffect(t, code, qty, c);
    }
    HaveAt(t.s.cart, code);
    TellsOne(t, u, u.facts[|t.facts|]);
  }

  /** Adding lines takes back nothing that was said before. */
  lemma TellsThen(t: Turn, u: Turn, v: Turn)
    requires Tells(t, u) && Tells(u, v) && (forall code | Ordered(u.s.cart, code) > 0 :: Ordered(v.s.cart, code) == Ordered(u.s.cart, code))
    requires forall k | |t.facts| <= k < |u.facts| :: !u.facts[k].Removed?
    ensures Tells(t, v)
  {
    hide Ordered;
    forall k | |t.facts| <= k < |v.facts| ensures Truthful(v.s.cart, v.facts[k]) {
      if k < |u.facts| {
        assert v.facts[k] == u.facts[k] && Truthful(u.s.cart, u.facts[k]);
      }
    }
    forall code | Ordered(v.s.cart, code) != Ordered(t.s.cart, code) ensures exists k :: |t.facts| <= k < |v.facts| && About(v.facts[k], code) {
      if Ordered(u.s.cart, code) != Ordered(t.s.cart, code) {
        var k :| |t.facts| <= k < |u.facts| && About(u.facts[k], code);
        assert About(v.facts[k], code);
      } else {
        var k :| |u.facts| <= k < |v.facts| && About(v.facts[k], code);
      }
    }
  }

  lemma {:induction false} AddAllTells(t: Turn, lines: seq<Line>)
    requires TurnOk(t) && forall i | 0 <= i < |lines| :: lines[i].qty >= 1
    ensures Tells(t, AddAll(t, lines))
    ensures forall k | |t.facts| <= k < |AddAll(t, lines).facts| :: !AddAll(t, lines).facts[k].Removed?
    decreases |lines|
  {
    hide AddLine, TurnOk, Ordered;
    if lines == [] {
      TellsNothing(t, t);
    } else {
      var c, q := lines[0].code, OrOne(lines[0].qty);
      var u := AddLine(t, c, Some(q));
      AddOk(t, c, Some(q));
      AddTells(t, c, Some(q));
      AddSays(t, c, Some(q));
      AddAllTells(u, lines[1..]);
      var v := AddAll(u, lines[1..]);
      forall code ensures Ordered(u.s.cart, code) > 0 ==> Ordered(v.s.cart, code) == Ordered(u.s.cart, code) {
        AddAllOrdered(u, lines[1..], code);
      }
      assert forall k | |t.facts| <= k < |u.facts| :: v.facts[k] == u.facts[k];
      TellsThen(t, u, v);
    }
  }

  lemma AddSays(t: Turn, code: string, qty: Option<int>)
    ensures var u := AddLine(t, code, qty); |u.facts| == |t.facts| + 1 && t.facts <= u.facts && !u.facts[|t.facts|].Removed?
  {}

  lemma ModifyTells(t: Turn, code: string, mode: Mode, value: Option<int>)
    requires TurnOk(t)
    ensures Tells(t, ModifyLine(t, code, mode, value))
  {
    hide Ordered, QueueOk;
    var u := ModifyLine(t, code, mode, value);
    forall c ensures Ordered(u.s.cart, c) == NewQty(t, Modify(code, mode, value), false, c) { ModifyOrdered(t, code, mode, value, c); }
    HaveAt(t.s.cart, code);
    if u.facts == t.facts {
      TellsNothing(t, u);
    } else {
      TellsOne(t, u, u.facts[|t.facts|]);
    }
  }

  lemma RemoveTells(t: Turn, code: string, numeral: bool)
    requires TurnOk(t)
    ensures Tells(t, RemoveLine(t, code, numeral))
  {
    hide Ordered, QueueOk, Without;
    var u := RemoveLine(t, code, numeral);
    forall c ensures Ordered(u.s.cart, c) == if c == code && !numeral then 0 else Ordered(t.s.cart, c) { RemoveEffect(t, code, numeral, c); }
    HaveAt(t.s.cart, code);
    if u.facts == t.facts {
      TellsNothing(t, u);
    } else {
      TellsOne(t, u, u.facts[|t.facts|]);
    }
  }

  lemma ChooseTells(t: Turn, text: string, code: string)
    requires TurnOk(t)
    ensures Tells(t, ChooseOption(t, text, code))
  {
    hide AddLine, Ordered, CartOk;
    match ProductAt(t.s.items, text)
    case None => AddTells(t, code, None);
    case Some(i) =>
      QueueCut(t.s.items, i);
      assert ItemOk(t.s.items[i]);
      var u := WithItems(t, Cut(t.s.items, i));
      AddTells(u, code, t.s.items[i].qty);
  }

  lemma ChooseQtyTells(t: Turn, code: string, value: Option<int>)
    requires TurnOk(t)
    ensures Tells(t, ChooseQuantity(t, code, value))
  {
    hide Ordered, CartOk;
    var u := ChooseQuantity(t, code, value);
    forall c ensures Ordered(u.s.cart, c) == NewQty(t, ChooseQty(code, value), false, c) { ChooseQtyOrdered(t, code, value, c); }
    match ConflictAt(t.s.items, code)
    case None => TellsNothing(t, u);
    case Some(i) =>
      assert ItemOk(t.s.items[i]);
      if u.facts == t.facts {
        TellsNothing(t, u);
      } else {
        TellsOne(t, u, u.facts[|t.facts|]);
      }
  }

  lemma ConfirmTells(t: Turn)
    requires TurnOk(t)
    ensures Tells(t, ConfirmLive(t))
  {
    hide AddAll, Without, ReviewAll, CartOk, FirstQty, Ordered;
    var u := ConfirmLive(t);
    match YesNoAt(t.s.items)
    case None => TellsNothing(t, u);
    case Some(i) =>
      var live, mid := t.s.items[i], WithItems(t, Cut(t.s.items, i));
      QueueCut(t.s.items, i);
      assert ItemOk(live);
      if live.CloseProposal? {
        TellsNothing(t, u);
      } else if live.DropProposal? {
        forall c ensures Ordered(u.s.cart, c) == if c == live.code then 0 else Ordered(t.s.cart, c) { ConfirmOrdered(t, c); }
        if u.facts == t.facts {
          TellsNothing(t, u);
        } else {
          TellsOne(t, u, u.facts[|t.facts|]);
        }
      } else {
        AddAllTells(mid, live.lines);
      }
  }

  /** Every operation tells the truth about the lines it names, and tells every change of a quantity. */
  lemma ApplyTells(t: Turn, op: Op, media: bool)
    requires TurnOk(t) && OpOk(op)
    ensures Tells(t, Apply(t, op, media))
  {
    hide Tells, TurnOk, AddLine, ModifyLine, RemoveLine, ChooseOption, ChooseQuantity, ConfirmLive, Products, Retain, RejectTarget, ReviewAll;
    var u := Apply(t, op, media);
    match op
    case Add(code, qty) => if media { TellsNothing(t, u); } else { AddTells(t, code, qty); }
    case Modify(code, mode, value) => ModifyTells(t, code, mode, value);
    case Remove(code, numeral) => RemoveTells(t, code, numeral);
    case Choose(text, code) => ChooseTells(t, text, code);
    case ChooseQty(code, value) => ChooseQtyTells(t, code, value);
    case Confirm => ConfirmTells(t);
    case DoesNotKnow => GiveUpTells(t);
    case _ => TellsNothing(t, u);
  }

  lemma GiveUpTells(t: Turn)
    ensures Tells(t, GiveUp(t))
  {
    hide ReviewAll, Products, Ordered;
    TellsNothing(t, GiveUp(t));
  }
}

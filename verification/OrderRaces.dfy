/**
 Cancels that overlap.  The order row of a cancel is read, and its status checked, before the product rows
 are locked.  So a cancel is taken apart here: it looks at the order, then loads its lines, and then
 finishes in one transaction, while every other handler runs as one step.
 */
module OrderRaces {
  import opened Options
  import opened Orders
  import opened OrderLaws
  import Sums

  type HandlerId = nat

  /** `seen` is the order as its cancel looked at it; `lines` is there once they are loaded. */
  datatype Pending = Pending(id: OrderId, user: User, seen: Order, lines: Option<seq<Line>>)

  datatype State = State(shop: Shop, pending: map<HandlerId, Pending>)

  datatype Step =
    | Whole(action: Action)
    | Look(handler: HandlerId, id: OrderId, user: User)
    | Load(handler: HandlerId)
    | Finish(handler: HandlerId)

  predicate CanStep(s: State, step: Step) {
    match step
    case Whole(a) => CanAct(s.shop, a)
    case Look(h, id, user) =>
      && h !in s.pending && id in s.shop.market.orders
      && Owns(user, s.shop.market.orders[id]) && IsActive(s.shop.market.orders[id].status)
    case Load(h) => h in s.pending && s.pending[h].id in s.shop.market.orders && s.pending[h].lines.None?
    case Finish(h) => h in s.pending && s.pending[h].id in s.shop.market.orders && s.pending[h].lines.Some?
  }

  /** The transaction of a cancel: it goes by the lines and the promo code that it has read. */
  function Cancelled(m: Market, id: OrderId, promo: Option<PromoId>, lines: seq<Line>): Market
    requires id in m.orders
  {
    Market(Restocked(m.products, lines),
           if promo.Some? && promo.value in m.promos then UseReturned(m.promos, promo.value) else m.promos,
           m.orders[id := m.orders[id].(status := Canceled)], m.operations)
  }

  function Stepped(s: State, step: Step, limit: int): State
    requires CanStep(s, step)
  {
    match step
    case Whole(a) => s.(shop := Act(s.shop, a, limit))
    case Look(h, id, user) => s.(pending := s.pending[h := Pending(id, user, s.shop.market.orders[id], None)])
    case Load(h) =>
      var p := s.pending[h];
      s.(pending := s.pending[h := p.(lines := Some(s.shop.market.orders[p.id].lines))])
    case Finish(h) =>
      var p := s.pending[h];
      State(s.shop.(market := Cancelled(s.shop.market, p.id, p.seen.promo, p.lines.value)), s.pending - {h})
  }

  // ---------------------------------------------------------------- exactly when stock is conserved

  /**
   The transaction of a cancel conserves stock exactly if the lines that it has read are those that its
   order still holds: of an order that was cancelled meanwhile it must give back nothing.
   */
  lemma FinishConservesIff(m: Market, supplied: map<ProductId, int>, id: OrderId, promo: Option<PromoId>,
                           lines: seq<Line>)
    requires StockSound(m.products, m.orders, supplied) && id in m.orders
    ensures var after := Cancelled(m, id, promo, lines);
            StockSound(after.products, after.orders, supplied) <==>
            forall p :: p in m.products ==> LineQuantity(lines, p) == HeldBy(p)(id, m.orders[id])
  {
    var after := Cancelled(m, id, promo, lines);
    forall p | p in m.products
      ensures after.products[p].stock + Sums.Total(after.orders, HeldBy(p)) == supplied[p] <==>
              LineQuantity(lines, p) == HeldBy(p)(id, m.orders[id])
    {
      Sums.TotalUpdate(m.orders, HeldBy(p), id, after.orders[id]);
    }
  }

  /** On an order that nobody has changed, the three steps come to the cancel of one step. */
  lemma UnchangedIsCancel(s: Shop, id: OrderId, user: User, seen: Order, limit: int)
    requires id in s.market.orders && s.market.orders[id] == seen && Owns(user, seen) && IsActive(seen.status)
    ensures s.(market := Cancelled(s.market, id, seen.promo, seen.lines)) == Act(s, Cancel(id, user), limit)
  {
  }

  // ---------------------------------------------------------------- whole runs

  ghost predicate IsRaceRun(states: seq<State>, steps: seq<Step>, limit: int) {
    && |states| == |steps| + 1
    && states[0] == State(Shop(Market(map[], map[], map[], []), map[], states[0].shop.clock), map[])
    && (forall i :: 0 <= i < |steps| ==>
          CanStep(states[i], steps[i]) && states[i + 1] == Stepped(states[i], steps[i], limit))
  }

  /** The step may write the row of an order that exists. */
  predicate Touches(s: State, step: Step, id: OrderId) {
    match step
    case Whole(Update(other, _, _, _)) => other == id
    case Whole(Cancel(other, _)) => other == id
    case Whole(Advance(other, _)) => other == id
    case Finish(h) => h in s.pending && s.pending[h].id == id
    case _ => false
  }

  /** While a cancel of an order is under way, no other handler touches that order. */
  ghost predicate Separate(states: seq<State>, steps: seq<Step>) {
    forall i, h :: 0 <= i < |steps| && i < |states| && h in states[i].pending
                   && Touches(states[i], steps[i], states[i].pending[h].id) ==>
      steps[i] == Finish(h)
  }

  ghost predicate PendingCurrent(s: State) {
    forall h :: h in s.pending ==>
      var p := s.pending[h];
      && p.id in s.shop.market.orders && s.shop.market.orders[p.id] == p.seen
      && Owns(p.user, p.seen) && IsActive(p.seen.status)
      && (p.lines.Some? ==> p.lines.value == p.seen.lines)
  }

  lemma OthersUntouched(s: Shop, a: Action, id: OrderId, limit: int)
    requires CanAct(s, a) && id in s.market.orders && !Touches(State(s, map[]), Whole(a), id)
    ensures id in Act(s, a, limit).market.orders && Act(s, a, limit).market.orders[id] == s.market.orders[id]
  {
  }

  lemma StepKeepsCurrent(s: State, step: Step, limit: int)
    requires PendingCurrent(s) && CanStep(s, step)
    requires forall h :: h in s.pending && Touches(s, step, s.pending[h].id) ==> step == Finish(h)
    ensures PendingCurrent(Stepped(s, step, limit))
  {
    var s' := Stepped(s, step, limit);
    forall h | h in s'.pending
      ensures s'.pending[h].id in s'.shop.market.orders
      ensures s'.shop.market.orders[s'.pending[h].id] == s'.pending[h].seen
      ensures Owns(s'.pending[h].user, s'.pending[h].seen) && IsActive(s'.pending[h].seen.status)
      ensures s'.pending[h].lines.Some? ==> s'.pending[h].lines.value == s'.pending[h].seen.lines
    {
      if step.Whole? {
        OthersUntouched(s.shop, step.action, s.pending[h].id, limit);
      } else if step.Finish? {
        assert !Touches(s, step, s.pending[h].id);
      }
    }
  }

  lemma StepKeepsSound(s: State, step: Step, limit: int)
    requires Sound(s.shop, limit) && PendingCurrent(s) && CanStep(s, step)
    ensures Sound(Stepped(s, step, limit).shop, limit)
  {
    hide Sound;
    match step
    case Whole(a) => ActKeepsSound(s.shop, a, limit);
    case Look(_, _, _) =>
    case Load(_) =>
    case Finish(h) =>
      var p := s.pending[h];
      UnchangedIsCancel(s.shop, p.id, p.user, p.seen, limit);
      ActKeepsSound(s.shop, Cancel(p.id, p.user), limit);
  }

  /** Cancels that no other handler of the same order overlaps keep everything that whole handlers keep. */
  lemma {:induction false} SeparateRunIsSound(states: seq<State>, steps: seq<Step>, limit: int, n: nat)
    requires IsRaceRun(states, steps, limit) && Separate(states, steps) && n < |states|
    ensures Sound(states[n].shop, limit) && PendingCurrent(states[n])
  {
    if n > 0 {
      SeparateRunIsSound(states, steps, limit, n - 1);
      StepKeepsCurrent(states[n - 1], steps[n - 1], limit);
      StepKeepsSound(states[n - 1], steps[n - 1], limit);
    }
  }

  /** So stock is conserved in all these interleavings. */
  lemma SeparateRunConservesStock(states: seq<State>, steps: seq<Step>, limit: int, n: nat, p: ProductId)
    requires IsRaceRun(states, steps, limit) && Separate(states, steps) && n < |states|
    requires p in states[n].shop.market.products
    ensures p in states[n].shop.supplied && states[n].shop.market.products[p].stock >= 0
    ensures states[n].shop.market.products[p].stock + Sums.Total(states[n].shop.market.orders, HeldBy(p))
         == states[n].shop.supplied[p]
  {
    SeparateRunIsSound(states, steps, limit, n);
  }

  /** An order of one piece, and two cancels of it that both looked before either finished. */
  lemma TwoCancelsLooked(id: OrderId, user: User, p: ProductId, limit: int)
    returns (states: seq<State>, steps: seq<Step>)
    ensures IsRaceRun(states, steps, limit) && |steps| == 6
    ensures var s := states[6];
            && s.shop.supplied == map[p := 1] && s.shop.market.products == map[p := Product(100, 0, OnSale)]
            && s.shop.market.promos == map[]
            && s.shop.market.orders == map[id := Order(user.id, Created, None, 100, 0, [Line(p, 1, 100)])]
            && s.pending.Keys == {1, 2}
            && (forall h :: h in s.pending ==>
                  s.pending[h] == Pending(id, user, s.shop.market.orders[id], Some([Line(p, 1, 100)])))
  {
    var s0 := State(Shop(Market(map[], map[], map[], []), map[], 0), map[]);
    var edit := Whole(EditProduct(p, Product(100, 1, OnSale)));
    var s1 := Stepped(s0, edit, limit);
    var create := Whole(Create(id, user, [Item(p, 1)], None, 0));
    OneIsSold(s1.shop.market, id, user, p, limit);
    var s2 := Stepped(s1, create, limit);
    var s3 := Stepped(s2, Look(1, id, user), limit);
    var s4 := Stepped(s3, Look(2, id, user), limit);
    var s5 := Stepped(s4, Load(1), limit);
    var s6 := Stepped(s5, Load(2), limit);
    states := [s0, s1, s2, s3, s4, s5, s6];
    steps := [edit, create, Look(1, id, user), Look(2, id, user), Load(1), Load(2)];
  }

  lemma OneIsSold(m: Market, id: OrderId, user: User, p: ProductId, limit: int)
    requires m == Market(map[p := Product(100, 1, OnSale)], map[], map[], [])
    ensures CreateOrder(m, id, user, [Item(p, 1)], None, 0, limit) ==
              Success(Market(map[p := Product(100, 0, OnSale)], map[],
                             map[id := Order(user.id, Created, None, 100, 0, [Line(p, 1, 100)])],
                             [Operation(user.id, CreateOperation, 0)]))
  {
    var items := [Item(p, 1)];
    assert Quantity(items, p) == 1 by {
      assert items[..0] == [];
    }
    SellableIff(m.products, items);
    var lines := Priced(m.products, items);
    assert lines == [Line(p, 1, 100)];
    assert Subtotal(lines) == 100 by {
      assert lines[..0] == [];
    }
    assert Taken(m.products, items) == map[p := Product(100, 0, OnSale)];
  }

  /** Two cancels of one order that overlap give its stock back twice: two pieces on the shelf, one supplied. */
  lemma StockGivenBackTwice(id: OrderId, user: User, p: ProductId, limit: int)
    returns (states: seq<State>, steps: seq<Step>)
    ensures IsRaceRun(states, steps, limit) && |steps| == 8
    ensures states[8].shop.supplied == map[p := 1]
    ensures p in states[8].shop.market.products && states[8].shop.market.products[p].stock == 2
    ensures id in states[8].shop.market.orders && states[8].shop.market.orders[id].status == Canceled
  {
    states, steps := TwoCancelsLooked(id, user, p, limit);
    var s6 := states[6];
    var line := [Line(p, 1, 100)];
    assert LineQuantity(line, p) == 1 by {
      assert line[..0] == [];
    }
    var s7 := Stepped(s6, Finish(1), limit);
    var s8 := Stepped(s7, Finish(2), limit);
    states, steps := states + [s7, s8], steps + [Finish(1), Finish(2)];
  }
}

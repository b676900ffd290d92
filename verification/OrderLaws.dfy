/** What every run of the order handlers keeps: stock, promo uses, money, and the limits per user. */
module OrderLaws {
  import opened Options
  import opened Orders
  import Sums
  import Windows

  // ---------------------------------------------------------------- what orders hold

  /** The stock of product `p` that an order keeps from others. */
  ghost function HeldBy(p: ProductId): (OrderId, Order) -> nat {
    (id: OrderId, o: Order) => if o.status == Canceled then 0 else LineQuantity(o.lines, p)
  }

  ghost function UsesOf(c: PromoId): (OrderId, Order) -> nat {
    (id: OrderId, o: Order) => if o.status != Canceled && o.promo == Some(c) then 1 else 0
  }

  /** An order's lines hold exactly what its items asked for. */
  lemma {:induction false} PricedQuantity(products: map<ProductId, Product>, items: seq<Item>, p: ProductId)
    requires forall item :: item in items ==> item.product in products
    ensures LineQuantity(Priced(products, items), p) == Quantity(items, p)
  {
    if items != [] {
      var n := |items| - 1;
      assert Priced(products, items)[..n] == Priced(products, items[..n]);
      PricedQuantity(products, items[..n], p);
    }
  }

  // ---------------------------------------------------------------- money

  lemma PortionNotNegative(amount: nat, value: nat)
    ensures Portion(amount, value) >= 0.0
  {
    assert amount as real * value as real >= 0.0;
  }

  lemma SeventyPercentBounds(amount: nat)
    ensures 0.0 <= SeventyPercent(amount) <= amount as real
  {
  }

  lemma AtMostBounds(x: real, cap: real)
    requires x >= 0.0 && cap >= 0.0
    ensures 0.0 <= AtMost(x, cap) <= cap
  {
  }

  /** A discount is never negative, never more than the amount, and at most 70 per cent for percentage codes. */
  lemma DiscountBounds(promo: Promo, amount: nat)
    ensures 0.0 <= Discount(promo, amount) <= amount as real
    ensures promo.kind == Percentage ==> Discount(promo, amount) <= SeventyPercent(amount)
  {
    hide AtMost, Portion, SeventyPercent;
    PortionNotNegative(amount, promo.value);
    SeventyPercentBounds(amount);
    AtMostBounds(Portion(amount, promo.value), SeventyPercent(amount));
    AtMostBounds(promo.value as real, amount as real);
  }

  /** The two rounded parts of a sum of cents add up to it, or to one cent more if the cut is at a half cent. */
  lemma RoundedParts(amount: nat, discount: real)
    requires 0.0 <= discount <= amount as real
    ensures var total := RoundCents(amount as real - discount);
            && 0 <= total <= amount && 0 <= RoundCents(discount) <= amount
            && total + RoundCents(discount) == (if discount - discount.Floor as real == 0.5 then amount + 1 else amount)
  {
    var cents := discount.Floor;
    var part := discount - cents as real;
    assert 0.0 <= part < 1.0;
    assert RoundCents(discount) == if part < 0.5 then cents else cents + 1;
    assert RoundCents(amount as real - discount) == if part <= 0.5 then amount - cents else amount - cents - 1;
  }

  /** What is stored with an order, after rounding. */
  ghost predicate MoneySound(o: Order) {
    var amount := Subtotal(o.lines);
    && 0 <= o.discount <= amount && 0 <= o.total <= amount
    && (o.total + o.discount == amount || o.total + o.discount == amount + 1)
    && (o.promo == None ==> o.discount == 0 && o.total == amount)
  }

  // ---------------------------------------------------------------- runs

  /** `supplied` is all the stock that was ever put on sale, as edited by the sellers. */
  datatype Shop = Shop(market: Market, supplied: map<ProductId, int>, clock: int)

  datatype Action =
    | Create(id: OrderId, user: User, items: seq<Item>, code: Option<PromoId>, now: int)
    | Update(id: OrderId, user: User, items: seq<Item>, now: int)
    | Cancel(id: OrderId, user: User)
      // the environment: sellers edit products and add promo codes, orders are paid and shipped
    | EditProduct(product: ProductId, row: Product)
    | AddPromo(promo: PromoId, promoRow: Promo)
    | Advance(id: OrderId, status: OrderStatus)

  predicate CanAct(s: Shop, a: Action) {
    match a
    case Create(id, _, _, _, now) => id !in s.market.orders && now >= s.clock
    case Update(_, _, _, now) => now >= s.clock
    case Cancel(_, _) => true
    case EditProduct(_, row) => row.stock >= 0
    case AddPromo(c, row) => c !in s.market.promos && row.uses == 0 && row.maxUses >= 1
    case Advance(id, status) =>
      && id in s.market.orders && s.market.orders[id].status != Canceled && status != Canceled
      && (IsActive(status) ==> IsActive(s.market.orders[id].status))
  }

  /** A handler that fails leaves everything as it was. */
  function After(s: Shop, result: Result, now: int): Shop {
    match result
    case Failure(_) => s
    case Success(m) => Shop(m, s.supplied, now)
  }

  function Act(s: Shop, a: Action, limit: int): Shop
    requires CanAct(s, a)
  {
    match a
    case Create(id, user, items, code, now) => After(s, CreateOrder(s.market, id, user, items, code, now, limit), now)
    case Update(id, user, items, now) => After(s, UpdateOrder(s.market, id, user, items, now, limit), now)
    case Cancel(id, user) => After(s, CancelOrder(s.market, id, user), s.clock)
    case EditProduct(p, row) =>
      var before := if p in s.market.products then s.market.products[p].stock else 0;
      var supplied := if p in s.supplied then s.supplied[p] else 0;
      Shop(s.market.(products := s.market.products[p := row]), s.supplied[p := supplied - before + row.stock], s.clock)
    case AddPromo(c, row) => s.(market := s.market.(promos := s.market.promos[c := row]))
    case Advance(id, status) =>
      s.(market := s.market.(orders := s.market.orders[id := s.market.orders[id].(status := status)]))
  }

  ghost predicate StockSound(products: map<ProductId, Product>, orders: map<OrderId, Order>,
                             supplied: map<ProductId, int>) {
    && products.Keys == supplied.Keys
    && (forall p :: p in products ==>
          products[p].stock >= 0 && products[p].stock + Sums.Total(orders, HeldBy(p)) == supplied[p])
    && (forall id, line :: id in orders && line in orders[id].lines ==> line.product in products)
  }

  ghost predicate PromosSound(promos: map<PromoId, Promo>, orders: map<OrderId, Order>) {
    && (forall c :: c in promos ==> promos[c].uses == Sums.Total(orders, UsesOf(c)) <= promos[c].maxUses)
    && (forall id :: id in orders && orders[id].promo.Some? ==> orders[id].promo.value in promos)
  }

  predicate ActiveOrderOf(orders: map<OrderId, Order>, id: OrderId, user: UserId) {
    id in orders && orders[id].user == user && IsActive(orders[id].status)
  }

  ghost predicate OneActiveEach(orders: map<OrderId, Order>) {
    forall i, j, user :: ActiveOrderOf(orders, i, user) && ActiveOrderOf(orders, j, user) ==> i == j
  }

  ghost predicate OperationsApart(operations: seq<Operation>, clock: int, limit: int) {
    && (forall i :: 0 <= i < |operations| ==> operations[i].at <= clock)
    && (forall i, j :: 0 <= i < j < |operations| && operations[i].user == operations[j].user
                       && operations[i].kind == operations[j].kind ==>
          operations[j].at - operations[i].at >= limit)
  }

  ghost predicate Sound(s: Shop, limit: int) {
    && StockSound(s.market.products, s.market.orders, s.supplied)
    && PromosSound(s.market.promos, s.market.orders)
    && (forall id :: id in s.market.orders ==> MoneySound(s.market.orders[id]))
    && OneActiveEach(s.market.orders)
    && OperationsApart(s.market.operations, s.clock, limit)
  }

  // ---------------------------------------------------------------- stock is conserved

  /** One product, when order `id` gives back what it held and takes the items. */
  lemma SoldProduct(products: map<ProductId, Product>, orders: map<OrderId, Order>, id: OrderId, order: Order,
                    items: seq<Item>, p: ProductId)
    requires p in products && (id in orders ==> orders[id].status != Canceled) && order.status != Canceled
    requires var back := if id in orders then Restocked(products, orders[id].lines) else products;
             && (forall item :: item in items ==>
                   item.product in back && back[item.product].stock >= Quantity(items, item.product))
             && order.lines == Priced(back, items)
    requires products[p].stock >= 0
    ensures var back := if id in orders then Restocked(products, orders[id].lines) else products;
            var left := Taken(back, items)[p].stock;
            && left >= 0
            && left + Sums.Total(orders[id := order], HeldBy(p)) == products[p].stock + Sums.Total(orders, HeldBy(p))
  {
    var back := if id in orders then Restocked(products, orders[id].lines) else products;
    PricedQuantity(back, items, p);
    Sums.TotalUpdate(orders, HeldBy(p), id, order);
    if Quantity(items, p) > 0 {
      QuantityFromItem(items, p);
    }
  }

  /** Order `id` takes the items from a table that has the stock of its old version back. */
  lemma SellKeepsStock(products: map<ProductId, Product>, orders: map<OrderId, Order>, supplied: map<ProductId, int>,
                       id: OrderId, order: Order, items: seq<Item>)
    requires StockSound(products, orders, supplied)
    requires id in orders ==> orders[id].status != Canceled
    requires order.status != Canceled
    requires var back := if id in orders then Restocked(products, orders[id].lines) else products;
             StockProblem(back, items) == None
             && (forall item :: item in items ==> item.product in back) && order.lines == Priced(back, items)
    ensures var back := if id in orders then Restocked(products, orders[id].lines) else products;
            StockSound(Taken(back, items), orders[id := order], supplied)
  {
    hide StockProblem, Quantity, LineQuantity, Sums.Total;
    var back := if id in orders then Restocked(products, orders[id].lines) else products;
    SellableIff(back, items);
    forall p | p in products
      ensures Taken(back, items)[p].stock >= 0
      ensures Taken(back, items)[p].stock + Sums.Total(orders[id := order], HeldBy(p)) == supplied[p]
    {
      SoldProduct(products, orders, id, order, items, p);
    }
    forall line | line in order.lines
      ensures line.product in products
    {
      var i :| 0 <= i < |items| && order.lines[i] == line;
      assert items[i] in items;
    }
  }

  lemma {:induction false} QuantityFromItem(items: seq<Item>, p: ProductId)
    requires Quantity(items, p) > 0
    ensures exists item :: item in items && item.product == p
  {
    var n := |items| - 1;
    assert items[n] in items;
    if items[n].product != p {
      QuantityFromItem(items[..n], p);
      var item :| item in items[..n] && item.product == p;
      assert item in items;
    }
  }

  lemma CancelKeepsStock(products: map<ProductId, Product>, orders: map<OrderId, Order>, supplied: map<ProductId,
                         int>, id: OrderId)
    requires StockSound(products, orders, supplied) && id in orders && orders[id].status != Canceled
    ensures StockSound(Restocked(products, orders[id].lines), orders[id := orders[id].(status := Canceled)], supplied)
  {
    forall p | p in products
      ensures Restocked(products, orders[id].lines)[p].stock
                + Sums.Total(orders[id := orders[id].(status := Canceled)], HeldBy(p)) == supplied[p]
    {
      Sums.TotalUpdate(orders, HeldBy(p), id, orders[id].(status := Canceled));
    }
  }

  // ---------------------------------------------------------------- promo codes are counted

  /** Orders that hold a code have counted uses, so the guard before a decrement never suppresses one. */
  lemma HeldCodeIsCounted(promos: map<PromoId, Promo>, orders: map<OrderId, Order>, id: OrderId)
    requires PromosSound(promos, orders) && id in orders && orders[id].status != Canceled && orders[id].promo.Some?
    ensures orders[id].promo.value in promos && promos[orders[id].promo.value].uses > 0
  {
    Sums.TotalSplit(orders, UsesOf(orders[id].promo.value), id);
  }

  lemma PromoCounts(promos: map<PromoId, Promo>, orders: map<OrderId, Order>, promos': map<PromoId, Promo>,
                    id: OrderId, order: Order)
    requires PromosSound(promos, orders)
    requires order.promo.Some? ==> order.promo.value in promos
    requires promos'.Keys == promos.Keys
    requires forall c :: c in promos ==>
      && promos'[c].maxUses == promos[c].maxUses && promos'[c].uses <= promos[c].maxUses
      && promos'[c].uses == promos[c].uses - (if id in orders then UsesOf(c)(id, orders[id])
          else 0) + UsesOf(c)(id, order)
    ensures PromosSound(promos', orders[id := order])
  {
    forall c | c in promos
      ensures promos'[c].uses == Sums.Total(orders[id := order], UsesOf(c))
    {
      Sums.TotalUpdate(orders, UsesOf(c), id, order);
    }
  }

  lemma CreateKeepsPromos(m: Market, id: OrderId, order: Order, code: Option<PromoId>, amount: nat, now: int)
    requires PromosSound(m.promos, m.orders) && id !in m.orders && order.status == Created
    requires NewDeal(m.promos, code, amount, now).Deal? && order.promo == NewDeal(m.promos, code, amount, now).promo
    ensures PromosSound(NewDeal(m.promos, code, amount, now).promos, m.orders[id := order])
  {
    PromoCounts(m.promos, m.orders, NewDeal(m.promos, code, amount, now).promos, id, order);
  }

  lemma UpdateKeepsPromos(m: Market, id: OrderId, order: Order, amount: nat, now: int)
    requires PromosSound(m.promos, m.orders) && id in m.orders && m.orders[id].status == Created
        && order.status == Created
    requires KeptDeal(m.promos, m.orders[id].promo, amount, now).Deal?
    requires order.promo == KeptDeal(m.promos, m.orders[id].promo, amount, now).promo
    ensures PromosSound(KeptDeal(m.promos, m.orders[id].promo, amount, now).promos, m.orders[id := order])
  {
    if m.orders[id].promo.Some? {
      HeldCodeIsCounted(m.promos, m.orders, id);
    }
    PromoCounts(m.promos, m.orders, KeptDeal(m.promos, m.orders[id].promo, amount, now).promos, id, order);
  }

  lemma CancelKeepsPromos(m: Market, id: OrderId)
    requires PromosSound(m.promos, m.orders) && id in m.orders && m.orders[id].status != Canceled
    ensures var order := m.orders[id];
            var promos := if order.promo.Some? && order.promo.value in m.promos
                          then UseReturned(m.promos, order.promo.value) else m.promos;
            PromosSound(promos, m.orders[id := order.(status := Canceled)])
  {
    var order := m.orders[id];
    var promos := if order.promo.Some? && order.promo.value in m.promos
                  then UseReturned(m.promos, order.promo.value) else m.promos;
    if order.promo.Some? {
      HeldCodeIsCounted(m.promos, m.orders, id);
    }
    PromoCounts(m.promos, m.orders, promos, id, order.(status := Canceled));
  }

  // ---------------------------------------------------------------- limits per user

  lemma OperationAdded(operations: seq<Operation>, clock: int, limit: int, user: UserId, kind: OperationType, now: int)
    requires OperationsApart(operations, clock, limit) && now >= clock
    requires !RateLimited(operations, user, kind, now, limit)
    ensures OperationsApart(operations + [Operation(user, kind, now)], now, limit)
  {
  }

  // ---------------------------------------------------------------- every action keeps everything

  /** An order stored with a discount that is none without a promo code. */
  lemma StoredMoney(order: Order, discount: real)
    requires 0.0 <= discount <= Subtotal(order.lines) as real && (order.promo == None ==> discount == 0.0)
    requires order.total == RoundCents(Subtotal(order.lines) as real - discount)
        && order.discount == RoundCents(discount)
    ensures MoneySound(order)
  {
    RoundedParts(Subtotal(order.lines), discount);
  }

  lemma DealBounds(promos: map<PromoId, Promo>, code: Option<PromoId>, amount: nat, now: int)
    ensures var deal := NewDeal(promos, code, amount, now);
            deal.Deal? ==> 0.0 <= deal.discount <= amount as real && (deal.promo == None ==> deal.discount == 0.0)
    ensures var deal := KeptDeal(promos, code, amount, now);
            deal.Deal? ==> 0.0 <= deal.discount <= amount as real && (deal.promo == None ==> deal.discount == 0.0)
  {
    if code.Some? && code.value in promos {
      DiscountBounds(promos[code.value], amount);
    }
  }

  lemma CreateKeepsOneActive(orders: map<OrderId, Order>, id: OrderId, order: Order)
    requires OneActiveEach(orders) && id !in orders && !HasActive(orders, order.user)
    ensures OneActiveEach(orders[id := order])
  {
    var after := orders[id := order];
    forall i, j, user | ActiveOrderOf(after, i, user) && ActiveOrderOf(after, j, user)
      ensures i == j
    {
      assert i != id ==> ActiveOrderOf(orders, i, user);
      assert j != id ==> ActiveOrderOf(orders, j, user);
    }
  }

  /** An active order stays with its user, or stops being active. */
  lemma ChangeKeepsOneActive(orders: map<OrderId, Order>, id: OrderId, order: Order)
    requires OneActiveEach(orders) && id in orders && order.user == orders[id].user
    requires IsActive(order.status) ==> IsActive(orders[id].status)
    ensures OneActiveEach(orders[id := order])
  {
    var after := orders[id := order];
    forall i, j, user | ActiveOrderOf(after, i, user) && ActiveOrderOf(after, j, user)
      ensures i == j
    {
      assert ActiveOrderOf(orders, i, user) && ActiveOrderOf(orders, j, user);
    }
  }

  /** The order row that a create writes for a deal. */
  predicate Opens(order: Order, user: UserId, deal: Deal) {
    && deal.Deal? && order.status == Created && order.user == user && order.promo == deal.promo
    && order.total == RoundCents(Subtotal(order.lines) as real - deal.discount)
    && order.discount == RoundCents(deal.discount)
  }

  /** What a successful create writes. */
  lemma CreateWrites(m: Market, id: OrderId, user: User, items: seq<Item>, code: Option<PromoId>, now: int, limit: int)
    returns (order: Order)
    requires CreateOrder(m, id, user, items, code, now, limit).Success?
    ensures !RateLimited(m.operations, user.id, CreateOperation, now, limit) && !HasActive(m.orders, user.id)
    ensures var deal := NewDeal(m.promos, code, Subtotal(order.lines), now);
            && StockProblem(m.products, items) == None
            && (forall item :: item in items ==> item.product in m.products) && order.lines == Priced(m.products, items)
            && Opens(order, user.id, deal)
            && CreateOrder(m, id, user, items, code, now, limit).market ==
                 Market(Taken(m.products, items), deal.promos, m.orders[id := order],
                        m.operations + [Operation(user.id, CreateOperation, now)])
  {
    SellableIff(m.products, items);
    order := CreateOrder(m, id, user, items, code, now, limit).market.orders[id];
  }

  lemma CreateKeepsOrders(m: Market, id: OrderId, order: Order, code: Option<PromoId>, now: int)
    requires PromosSound(m.promos, m.orders) && OneActiveEach(m.orders) && id !in m.orders
        && !HasActive(m.orders, order.user)
    requires Opens(order, order.user, NewDeal(m.promos, code, Subtotal(order.lines), now))
    ensures PromosSound(NewDeal(m.promos, code, Subtotal(order.lines), now).promos, m.orders[id := order])
    ensures OneActiveEach(m.orders[id := order]) && MoneySound(order)
  {
    var amount := Subtotal(order.lines);
    CreateKeepsPromos(m, id, order, code, amount, now);
    DealBounds(m.promos, code, amount, now);
    StoredMoney(order, NewDeal(m.promos, code, amount, now).discount);
    CreateKeepsOneActive(m.orders, id, order);
  }

  lemma CreateKeepsSound(s: Shop, id: OrderId, user: User, items: seq<Item>, code: Option<PromoId>, now: int,
                         limit: int)
    requires Sound(s, limit) && CanAct(s, Create(id, user, items, code, now))
    requires CreateOrder(s.market, id, user, items, code, now, limit).Success?
    ensures Sound(Act(s, Create(id, user, items, code, now), limit), limit)
  {
    hide CreateOrder, StockSound, PromosSound, MoneySound, OneActiveEach, OperationsApart, HasActive, RateLimited;
    hide StockProblem, Taken, RoundCents, NewDeal;
    var order := CreateWrites(s.market, id, user, items, code, now, limit);
    SellKeepsStock(s.market.products, s.market.orders, s.supplied, id, order, items);
    CreateKeepsOrders(s.market, id, order, code, now);
    OperationAdded(s.market.operations, s.clock, limit, user.id, CreateOperation, now);
  }

  /** The order row that an update writes for a deal. */
  predicate Carries(order: Order, was: Order, deal: Deal) {
    && deal.Deal? && order.status == Created == was.status && order.user == was.user && order.promo == deal.promo
    && order.total == RoundCents(Subtotal(order.lines) as real - deal.discount)
    && order.discount == RoundCents(deal.discount)
  }

  /** What a successful update writes. */
  lemma UpdateWrites(m: Market, id: OrderId, user: User, items: seq<Item>, now: int, limit: int) returns (order: Order)
    requires UpdateOrder(m, id, user, items, now, limit).Success?
    ensures id in m.orders && !RateLimited(m.operations, user.id, UpdateOperation, now, limit)
    ensures var back := Restocked(m.products, m.orders[id].lines);
            var deal := KeptDeal(m.promos, m.orders[id].promo, Subtotal(order.lines), now);
            && StockProblem(back, items) == None
            && (forall item :: item in items ==> item.product in back) && order.lines == Priced(back, items)
            && Carries(order, m.orders[id], deal)
            && UpdateOrder(m, id, user, items, now, limit).market ==
                 Market(Taken(back, items), deal.promos, m.orders[id := order],
                        m.operations + [Operation(user.id, UpdateOperation, now)])
  {
    SellableIff(Restocked(m.products, m.orders[id].lines), items);
    order := UpdateOrder(m, id, user, items, now, limit).market.orders[id];
  }

  lemma UpdateKeepsOrders(m: Market, id: OrderId, order: Order, now: int)
    requires PromosSound(m.promos, m.orders) && OneActiveEach(m.orders) && id in m.orders
    requires Carries(order, m.orders[id], KeptDeal(m.promos, m.orders[id].promo, Subtotal(order.lines), now))
    ensures PromosSound(KeptDeal(m.promos, m.orders[id].promo, Subtotal(order.lines), now).promos,
        m.orders[id := order])
    ensures OneActiveEach(m.orders[id := order]) && MoneySound(order)
  {
    var amount := Subtotal(order.lines);
    UpdateKeepsPromos(m, id, order, amount, now);
    DealBounds(m.promos, m.orders[id].promo, amount, now);
    StoredMoney(order, KeptDeal(m.promos, m.orders[id].promo, amount, now).discount);
    ChangeKeepsOneActive(m.orders, id, order);
  }

  lemma UpdateKeepsSound(s: Shop, id: OrderId, user: User, items: seq<Item>, now: int, limit: int)
    requires Sound(s, limit) && now >= s.clock && UpdateOrder(s.market, id, user, items, now, limit).Success?
    ensures Sound(After(s, UpdateOrder(s.market, id, user, items, now, limit), now), limit)
  {
    var order := UpdateWrites(s.market, id, user, items, now, limit);
    SellKeepsStock(s.market.products, s.market.orders, s.supplied, id, order, items);
    UpdateKeepsOrders(s.market, id, order, now);
    OperationAdded(s.market.operations, s.clock, limit, user.id, UpdateOperation, now);
  }

  lemma CancelKeepsSound(s: Shop, id: OrderId, user: User, limit: int)
    requires Sound(s, limit) && CancelOrder(s.market, id, user).Success?
    ensures Sound(Act(s, Cancel(id, user), limit), limit)
  {
    CancelKeepsStock(s.market.products, s.market.orders, s.supplied, id);
    CancelKeepsPromos(s.market, id);
    ChangeKeepsOneActive(s.market.orders, id, s.market.orders[id].(status := Canceled));
  }

  lemma EditKeepsSound(s: Shop, a: Action, limit: int)
    requires Sound(s, limit) && CanAct(s, a) && a.EditProduct?
    ensures Sound(Act(s, a, limit), limit)
  {
    if a.product !in s.market.products {
      NothingHeld(s.market.orders, HeldBy(a.product), a.product);
    }
  }

  lemma {:induction false} NothingHeld(orders: map<OrderId, Order>, f: (OrderId, Order) -> nat, p: ProductId)
    requires f == HeldBy(p)
    requires forall id, line :: id in orders && line in orders[id].lines ==> line.product != p
    ensures Sums.Total(orders, f) == 0
    decreases |orders|
  {
    if orders != map[] {
      var id :| id in orders && Sums.Total(orders, f) == f(id, orders[id]) + Sums.Total(orders - {id}, f);
      Sums.RemoveShrinks(orders, id);
      NoLineOf(orders[id].lines, p);
      NothingHeld(orders - {id}, f, p);
    }
  }

  lemma {:induction false} NoLineOf(lines: seq<Line>, p: ProductId)
    requires forall line :: line in lines ==> line.product != p
    ensures LineQuantity(lines, p) == 0
  {
    if lines != [] {
      assert lines[|lines| - 1] in lines;
      NoLineOf(lines[..|lines| - 1], p);
    }
  }

  lemma AddPromoKeepsSound(s: Shop, a: Action, limit: int)
    requires Sound(s, limit) && CanAct(s, a) && a.AddPromo?
    ensures Sound(Act(s, a, limit), limit)
  {
    NobodyUses(s.market.orders, a.promo);
  }

  lemma {:induction false} NobodyUses(orders: map<OrderId, Order>, c: PromoId)
    requires forall id :: id in orders ==> orders[id].promo != Some(c)
    ensures Sums.Total(orders, UsesOf(c)) == 0
    decreases |orders|
  {
    var f := UsesOf(c);
    if orders != map[] {
      var id :| id in orders && Sums.Total(orders, f) == f(id, orders[id]) + Sums.Total(orders - {id}, f);
      Sums.RemoveShrinks(orders, id);
      NobodyUses(orders - {id}, c);
    }
  }

  /** A change of status between uncancelled states moves no stock and no money. */
  lemma AdvanceKeepsStock(products: map<ProductId, Product>, orders: map<OrderId, Order>, supplied: map<ProductId, int>,
                          id: OrderId, status: OrderStatus)
    requires StockSound(products, orders, supplied)
    requires id in orders && orders[id].status != Canceled && status != Canceled
    ensures StockSound(products, orders[id := orders[id].(status := status)], supplied)
  {
    hide LineQuantity, Sums.Total;
    forall p | p in products
      ensures Sums.Total(orders[id := orders[id].(status := status)], HeldBy(p)) == Sums.Total(orders, HeldBy(p))
    {
      Sums.TotalUpdate(orders, HeldBy(p), id, orders[id].(status := status));
    }
  }

  lemma AdvanceKeepsSound(s: Shop, a: Action, limit: int)
    requires Sound(s, limit) && CanAct(s, a) && a.Advance?
    ensures Sound(Act(s, a, limit), limit)
  {
    hide StockSound, OperationsApart, OneActiveEach, Subtotal, Sums.Total;
    var order := s.market.orders[a.id].(status := a.status);
    AdvanceKeepsStock(s.market.products, s.market.orders, s.supplied, a.id, a.status);
    PromoCounts(s.market.promos, s.market.orders, s.market.promos, a.id, order);
    ChangeKeepsOneActive(s.market.orders, a.id, order);
  }

  lemma ActKeepsSound(s: Shop, a: Action, limit: int)
    requires Sound(s, limit) && CanAct(s, a)
    ensures Sound(Act(s, a, limit), limit)
  {
    match a
    case EditProduct(_, _) => EditKeepsSound(s, a, limit);
    case AddPromo(_, _) => AddPromoKeepsSound(s, a, limit);
    case Advance(_, _) => AdvanceKeepsSound(s, a, limit);
    case Create(id, user, items, code, now) =>
      if CreateOrder(s.market, id, user, items, code, now, limit).Success? {
        CreateKeepsSound(s, id, user, items, code, now, limit);
      }
    case Update(id, user, items, now) =>
      if UpdateOrder(s.market, id, user, items, now, limit).Success? {
        UpdateKeepsSound(s, id, user, items, now, limit);
      }
    case Cancel(id, user) =>
      if CancelOrder(s.market, id, user).Success? {
        CancelKeepsSound(s, id, user, limit);
      }
  }

  /** A run from empty tables. */
  ghost predicate IsRun(shops: seq<Shop>, actions: seq<Action>, limit: int) {
    && |shops| == |actions| + 1
    && shops[0].market == Market(map[], map[], map[], []) && shops[0].supplied == map[]
    && (forall i :: 0 <= i < |actions| ==>
          CanAct(shops[i], actions[i]) && shops[i + 1] == Act(shops[i], actions[i], limit))
  }

  lemma {:induction false} RunIsSound(shops: seq<Shop>, actions: seq<Action>, limit: int, n: nat)
    requires IsRun(shops, actions, limit) && n < |shops|
    ensures Sound(shops[n], limit)
  {
    if n > 0 {
      RunIsSound(shops, actions, limit, n - 1);
      ActKeepsSound(shops[n - 1], actions[n - 1], limit);
    }
  }

  // ---------------------------------------------------------------- laws of every run

  /** Stock on the shelf plus stock held by orders is what the sellers supplied; the shelf is never overdrawn. */
  lemma StockConserved(shops: seq<Shop>, actions: seq<Action>, limit: int, n: nat, p: ProductId)
    requires IsRun(shops, actions, limit) && n < |shops| && p in shops[n].market.products
    ensures p in shops[n].supplied
    ensures 0 <= shops[n].market.products[p].stock
    ensures shops[n].market.products[p].stock + Sums.Total(shops[n].market.orders, HeldBy(p)) == shops[n].supplied[p]
  {
    RunIsSound(shops, actions, limit, n);
  }

  /** A promo code counts exactly the orders that hold it, and is never used too often. */
  lemma PromoUsesCounted(shops: seq<Shop>, actions: seq<Action>, limit: int, n: nat, c: PromoId)
    requires IsRun(shops, actions, limit) && n < |shops| && c in shops[n].market.promos
    ensures shops[n].market.promos[c].uses ==
        Sums.Total(shops[n].market.orders, UsesOf(c)) <= shops[n].market.promos[c].maxUses
  {
    RunIsSound(shops, actions, limit, n);
  }

  /** Whenever a handler gives back a use of a code, there is one to give back. */
  lemma ReturnedUseExists(shops: seq<Shop>, actions: seq<Action>, limit: int, n: nat, id: OrderId)
    requires IsRun(shops, actions, limit) && n < |shops| && id in shops[n].market.orders
    requires shops[n].market.orders[id].status != Canceled && shops[n].market.orders[id].promo.Some?
    ensures var c := shops[n].market.orders[id].promo.value;
            c in shops[n].market.promos && shops[n].market.promos[c].uses > 0
  {
    RunIsSound(shops, actions, limit, n);
    HeldCodeIsCounted(shops[n].market.promos, shops[n].market.orders, id);
  }

  /** What is stored with an order adds up to its lines, or to one cent more. */
  lemma OrdersAddUp(shops: seq<Shop>, actions: seq<Action>, limit: int, n: nat, id: OrderId)
    requires IsRun(shops, actions, limit) && n < |shops| && id in shops[n].market.orders
    ensures MoneySound(shops[n].market.orders[id])
  {
    RunIsSound(shops, actions, limit, n);
  }

  lemma OneActiveOrder(shops: seq<Shop>, actions: seq<Action>, limit: int, n: nat, i: OrderId, j: OrderId, user: UserId)
    requires IsRun(shops, actions, limit) && n < |shops|
    requires ActiveOrderOf(shops[n].market.orders, i, user) && ActiveOrderOf(shops[n].market.orders, j, user)
    ensures i == j
  {
    RunIsSound(shops, actions, limit, n);
  }

  ghost function OperationsIn(operations: seq<Operation>, user: UserId, kind: OperationType, from: int,
                              length: nat): set<nat> {
    set i: nat | i < |operations| && operations[i].user == user && operations[i].kind == kind
                 && from <= operations[i].at <= from + length
  }

  /** In a window of time a user gets at most one operation of a kind per limit, plus one. */
  lemma OperationsPerWindow(shops: seq<Shop>, actions: seq<Action>, limit: nat, n: nat,
                            user: UserId, kind: OperationType, from: int, length: nat)
    requires IsRun(shops, actions, limit) && n < |shops| && limit >= 1
    ensures |OperationsIn(shops[n].market.operations, user, kind, from, length)| <= length / limit + 1
  {
    RunIsSound(shops, actions, limit, n);
    var operations := shops[n].market.operations;
    var at := seq(|operations|, i requires 0 <= i < |operations| => operations[i].at);
    Windows.WindowBound(at, OperationsIn(operations, user, kind, from, length), limit, from, length);
  }

  // ---------------------------------------------------------------- laws between handlers

  /** An update from the lines of an order to new items fits exactly if the shelf plus the old lines suffice. */
  lemma UpdateFitsIff(products: map<ProductId, Product>, lines: seq<Line>, items: seq<Item>)
    ensures StockProblem(Restocked(products, lines), items) == None <==>
            forall item :: item in items ==>
              && item.product in products && products[item.product].status == OnSale
              && products[item.product].stock + LineQuantity(lines, item.product) >= Quantity(items, item.product)
    ensures forall p :: p in products ==>
      Taken(Restocked(products, lines), items)[p].stock ==
          products[p].stock + LineQuantity(lines, p) - Quantity(items, p)
  {
    SellableIff(Restocked(products, lines), items);
  }

  /** Giving back what was just taken, and taking something else, amounts to taking the other thing at once. */
  lemma TakeBackAndTake(products: map<ProductId, Product>, items: seq<Item>)
    requires forall item :: item in items ==> item.product in products
    ensures Restocked(Taken(products, items), Priced(products, items)) == products
  {
    forall p | p in products
      ensures LineQuantity(Priced(products, items), p) == Quantity(items, p)
    {
      PricedQuantity(products, items, p);
    }
  }

  /** Two updates in a row leave the stock that the second one alone would have left, and it would have fitted. */
  lemma LastUpdateCounts(m: Market, id: OrderId, user: User, first: seq<Item>, at: int,
                         other: User, second: seq<Item>, later: int, limit: int)
    requires UpdateOrder(m, id, user, first, at, limit).Success?
    requires UpdateOrder(UpdateOrder(m, id, user, first, at, limit).market, id, other, second, later, limit).Success?
    ensures var back := Restocked(m.products, m.orders[id].lines);
            && StockProblem(back, second) == None
            && UpdateOrder(UpdateOrder(m, id, user, first, at, limit).market, id, other, second, later,
                limit).market.products
                 == Taken(back, second)
  {
    var order := UpdateWrites(m, id, user, first, at, limit);
    var m1 := UpdateOrder(m, id, user, first, at, limit).market;
    var order2 := UpdateWrites(m1, id, other, second, later, limit);
    TakeBackAndTake(Restocked(m.products, m.orders[id].lines), first);
  }

  /** Cancelling a fresh order undoes its creation, as far as stock and promo codes go. */
  lemma CancelUndoesCreate(m: Market, id: OrderId, user: User, items: seq<Item>, code: Option<PromoId>, now: int,
                           limit: int)
    requires CreateOrder(m, id, user, items, code, now, limit).Success?
    ensures var created := CreateOrder(m, id, user, items, code, now, limit).market;
            && CancelOrder(created, id, user).Success?
            && CancelOrder(created, id, user).market.products == m.products
            && CancelOrder(created, id, user).market.promos == m.promos
  {
    SellableIff(m.products, items);
    TakeBackAndTake(m.products, items);
  }

  /** What an order stores for an exact discount: the parts are off by a cent only at a half cent. */
  predicate Settles(order: Order, discount: real) {
    var amount := Subtotal(order.lines);
    && 0.0 <= discount <= amount as real
    && order.discount == RoundCents(discount)
    && order.total + order.discount == (if discount - discount.Floor as real == 0.5 then amount + 1 else amount)
  }

  /** The money of a new order: the discount of its code, within its bounds, or none. */
  lemma CreatedMoney(m: Market, id: OrderId, user: User, items: seq<Item>, code: Option<PromoId>, now: int, limit: int)
    requires CreateOrder(m, id, user, items, code, now, limit).Success?
    ensures var order := CreateOrder(m, id, user, items, code, now, limit).market.orders[id];
            order.promo == code && (code.Some? ==> code.value in m.promos) && CodeSettles(m.promos, order)
  {
    hide RoundCents;
    var order := CreateWrites(m, id, user, items, code, now, limit);
    CodeOrNone(m.promos, order);
  }

  /** An order settles for the discount of the code it keeps: at most 70 per cent for percentage codes. */
  predicate CodeSettles(promos: map<PromoId, Promo>, order: Order)
    requires order.promo.Some? ==> order.promo.value in promos
  {
    var amount := Subtotal(order.lines);
    match order.promo
    case None => Settles(order, 0.0)
    case Some(c) =>
      && amount >= promos[c].minAmount
      && Settles(order, Discount(promos[c], amount))
      && (promos[c].kind == Percentage ==> Discount(promos[c], amount) <= SeventyPercent(amount))
  }

  lemma CodeOrNone(promos: map<PromoId, Promo>, order: Order)
    requires order.promo.Some? ==> order.promo.value in promos
    requires order.promo.Some? ==> Subtotal(order.lines) >= promos[order.promo.value].minAmount
    requires var discount := if order.promo.Some? then Discount(promos[order.promo.value],
        Subtotal(order.lines)) else 0.0;
             && order.total == RoundCents(Subtotal(order.lines) as real - discount)
             && order.discount == RoundCents(discount)
    ensures CodeSettles(promos, order)
  {
    hide RoundCents, Discount;
    var amount := Subtotal(order.lines);
    if order.promo.Some? {
      DiscountBounds(promos[order.promo.value], amount);
      RoundedParts(amount, Discount(promos[order.promo.value], amount));
    } else {
      RoundedParts(amount, 0.0);
    }
  }

  /**
   The money of an updated order, recomputed from the new lines: its code is kept with its discount, or
   dropped exactly when the new lines no longer reach its least amount.
   */
  lemma UpdatedMoney(m: Market, id: OrderId, user: User, items: seq<Item>, now: int, limit: int)
    requires UpdateOrder(m, id, user, items, now, limit).Success?
    ensures id in m.orders && (m.orders[id].promo.Some? ==> m.orders[id].promo.value in m.promos)
    ensures var was := m.orders[id];
            var order := UpdateOrder(m, id, user, items, now, limit).market.orders[id];
            && (order.promo.Some? <==> was.promo.Some? && Subtotal(order.lines) >= m.promos[was.promo.value].minAmount)
            && (order.promo.Some? ==> order.promo == was.promo)
            && CodeSettles(m.promos, order)
  {
    hide RoundCents;
    var order := UpdateWrites(m, id, user, items, now, limit);
    CodeOrNone(m.promos, order);
  }

  /**
   Half a cent on both sides: a product for 1.01 with half of it off is stored as 0.51 and 0.51.  So the
   stored total and discount of a reachable order exceed what its lines cost.
   */
  lemma PartsCanExceedAmount(id: OrderId, user: User, p: ProductId, c: PromoId, limit: nat)
    returns (shops: seq<Shop>, actions: seq<Action>)
    ensures IsRun(shops, actions, limit) && |actions| == 3
    ensures var orders := shops[3].market.orders;
            id in orders && Subtotal(orders[id].lines) == 101 && orders[id].total == 51 && orders[id].discount == 51
  {
    var half := Promo(Percentage, 5000, 0, 1, 0, 0, 0, true);
    var edit, add := EditProduct(p, Product(101, 1, OnSale)), AddPromo(c, half);
    var create := Create(id, user, [Item(p, 1)], Some(c), 0);
    var s0 := Shop(Market(map[], map[], map[], []), map[], 0);
    var s1 := Act(s0, edit, limit);
    var s2 := Act(s1, add, limit);
    HalfOffIsStored(s2.market, id, user, p, c, half, limit);
    var s3 := Act(s2, create, limit);
    shops, actions := [s0, s1, s2, s3], [edit, add, create];
  }

  lemma HalfOffIsStored(m: Market, id: OrderId, user: User, p: ProductId, c: PromoId, half: Promo, limit: nat)
    requires m == Market(map[p := Product(101, 1, OnSale)], map[c := half], map[], [])
    requires half == Promo(Percentage, 5000, 0, 1, 0, 0, 0, true)
    ensures var result := CreateOrder(m, id, user, [Item(p, 1)], Some(c), 0, limit);
            && result.Success? && id in result.market.orders
            && var order := result.market.orders[id];
               Subtotal(order.lines) == 101 && order.total == 51 && order.discount == 51
  {
    var items := [Item(p, 1)];
    assert Quantity(items, p) == 1 by {
      assert items[..0] == [];
    }
    SellableIff(m.products, items);
    var lines := Priced(m.products, items);
    assert lines == [Line(p, 1, 101)];
    assert Subtotal(lines) == 101 by {
      assert lines[..0] == [];
    }
  }
}

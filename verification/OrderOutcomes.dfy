/**
 When each order handler succeeds, with which error it refuses, and what it stores: told from the tables
 and the request, handler by handler.
 */
module OrderOutcomes {
  import opened Options
  import opened Orders
  import opened OrderLaws

  // ---------------------------------------------------------------- quantities and amounts

  lemma {:induction false} SubtotalAdds(a: seq<Line>, b: seq<Line>)
    ensures Subtotal(a + b) == Subtotal(a) + Subtotal(b)
  {
    if b == [] {
      assert a + b == a;
    } else {
      var n := |b| - 1;
      assert (a + b)[..|a| + n] == a + b[..n];
      SubtotalAdds(a, b[..n]);
    }
  }

  lemma SubtotalOfOne(line: Line)
    ensures Subtotal([line]) == line.quantity * line.price
  {
    assert [line][..0] == [];
  }

  lemma {:induction false} QuantityAdds(a: seq<Item>, b: seq<Item>, p: ProductId)
    ensures Quantity(a + b, p) == Quantity(a, p) + Quantity(b, p)
  {
    if b == [] {
      assert a + b == a;
    } else {
      var n := |b| - 1;
      assert (a + b)[..|a| + n] == a + b[..n];
      QuantityAdds(a, b[..n], p);
    }
  }

  lemma QuantityOfOne(item: Item, p: ProductId)
    ensures Quantity([item], p) == if item.product == p then item.quantity else 0
  {
    assert [item][..0] == [];
  }

  lemma {:induction false} LineQuantityAdds(a: seq<Line>, b: seq<Line>, p: ProductId)
    ensures LineQuantity(a + b, p) == LineQuantity(a, p) + LineQuantity(b, p)
  {
    if b == [] {
      assert a + b == a;
    } else {
      var n := |b| - 1;
      assert (a + b)[..|a| + n] == a + b[..n];
      LineQuantityAdds(a, b[..n], p);
    }
  }

  lemma LineQuantityOfOne(line: Line, p: ProductId)
    ensures LineQuantity([line], p) == if line.product == p then line.quantity else 0
  {
    assert [line][..0] == [];
  }

  /** Rounding goes to the nearest cent, and half a cent goes up. */
  lemma RoundsToNearest(x: real)
    requires x >= 0.0
    ensures RoundCents(x) as real - 0.5 <= x < RoundCents(x) as real + 0.5
  {
  }

  /**
   The discount of a percentage code is that share of the amount, or 70 per cent if the share is more; that
   of a fixed code is its value, or the amount if the value is more.
   */
  lemma DiscountIs(promo: Promo, amount: nat)
    ensures promo.kind == Percentage && amount * promo.value <= amount * 7000 ==>
              Discount(promo, amount) * 10000.0 == (amount * promo.value) as real
    ensures promo.kind == Percentage && amount * promo.value >= amount * 7000 ==>
              Discount(promo, amount) * 10.0 == (amount * 7) as real
    ensures promo.kind == FixedAmount && promo.value <= amount ==> Discount(promo, amount) == promo.value as real
    ensures promo.kind == FixedAmount && promo.value >= amount ==> Discount(promo, amount) == amount as real
  {
    assert amount as real * promo.value as real == (amount * promo.value) as real;
  }

  // ---------------------------------------------------------------- what a handler asks of its tables

  /** The user did nothing of this kind within the limit. */
  predicate MayOperate(operations: seq<Operation>, user: UserId, kind: OperationType, now: int, limit: int) {
    forall i :: 0 <= i < |operations| && operations[i].user == user && operations[i].kind == kind ==>
      now - operations[i].at >= limit
  }

  predicate HasNothingOpen(orders: map<OrderId, Order>, user: UserId) {
    forall id :: id in orders && orders[id].user == user ==>
      orders[id].status != Created && orders[id].status != PaymentPending
  }

  predicate ForSale(products: map<ProductId, Product>, p: ProductId) {
    p in products && products[p].status == OnSale
  }

  predicate AllForSale(products: map<ProductId, Product>, items: seq<Item>) {
    forall i :: 0 <= i < |items| ==> ForSale(products, items[i].product)
  }

  predicate AllInStock(products: map<ProductId, Product>, items: seq<Item>) {
    forall i :: 0 <= i < |items| && items[i].product in products ==>
      Quantity(items, items[i].product) <= products[items[i].product].stock
  }

  predicate IsOpen(promo: Promo, now: int) {
    promo.active && promo.validFrom <= now <= promo.validUntil
  }

  function Amount(products: map<ProductId, Product>, items: seq<Item>): nat
    requires AllForSale(products, items)
  {
    if items == [] then 0
    else items[0].quantity * products[items[0].product].price + Amount(products, items[1..])
  }

  /** The amount of an order is the sum of quantity times price over its items. */
  lemma {:induction false} AmountIsSubtotal(products: map<ProductId, Product>, items: seq<Item>)
    requires AllForSale(products, items)
    ensures (forall item :: item in items ==> item.product in products)
    ensures Subtotal(Priced(products, items)) == Amount(products, items)
  {
    if items != [] {
      AmountIsSubtotal(products, items[1..]);
      var first := Priced(products, items)[..1];
      assert first == [Line(items[0].product, items[0].quantity, products[items[0].product].price)];
      SubtotalOfOne(first[0]);
      SubtotalAdds(first, Priced(products, items[1..]));
      assert Priced(products, items) == first + Priced(products, items[1..]);
    }
  }

  // ---------------------------------------------------------------- problems with products

  /** Item `i` is the first whose product is missing or not for sale. */
  predicate FirstBad(products: map<ProductId, Product>, items: seq<Item>, i: int) {
    && 0 <= i < |items| && !ForSale(products, items[i].product)
    && forall j :: 0 <= j < i ==> ForSale(products, items[j].product)
  }

  lemma {:induction false} UnsellableIsFirstBad(products: map<ProductId, Product>, items: seq<Item>)
    ensures FirstUnsellable(products, Distinct(items)) == None <==> AllForSale(products, items)
    ensures FirstUnsellable(products, Distinct(items)) == Some(ProductNotFound) <==>
            exists i :: FirstBad(products, items, i) && items[i].product !in products
    ensures FirstUnsellable(products, Distinct(items)) == Some(ProductInactive) <==>
            exists i :: FirstBad(products, items, i) && items[i].product in products
  {
    if items != [] {
      var n := |items| - 1;
      UnsellableIsFirstBad(products, items[..n]);
      NoneUnsellable(products, Distinct(items[..n]));
      forall i
        ensures FirstBad(products, items, i) <==>
                FirstBad(products, items[..n], i)
                || (i == n && AllForSale(products, items[..n]) && !ForSale(products, items[n].product))
      {
        FirstBadLast(products, items, i);
      }
    }
  }

  lemma FirstBadLast(products: map<ProductId, Product>, items: seq<Item>, i: int)
    requires items != []
    ensures var n := |items| - 1;
            FirstBad(products, items, i) <==>
            FirstBad(products, items[..n], i)
            || (i == n && AllForSale(products, items[..n]) && !ForSale(products, items[n].product))
  {
    var n := |items| - 1;
    assert forall j :: 0 <= j < n ==> items[..n][j] == items[j];
  }

  /** The entry is right: it says what was asked for, what is there, and that this is not enough. */
  predicate IsShortage(products: map<ProductId, Product>, items: seq<Item>, s: Shortage) {
    && s.product in products && s.available == products[s.product].stock
    && s.requested == Quantity(items, s.product) && s.available < s.requested
  }

  predicate NoDouble(list: seq<Shortage>) {
    forall i, j :: 0 <= i < j < |list| ==> list[i].product != list[j].product
  }

  /** The list names exactly the products that are short, once each. */
  predicate NamesShortages(products: map<ProductId, Product>, items: seq<Item>, list: seq<Shortage>) {
    && (forall s :: s in list ==> IsShortage(products, items, s))
    && NoDouble(list)
    && (forall i :: 0 <= i < |items| && items[i].product in products
                    && products[items[i].product].stock < Quantity(items, items[i].product) ==>
          exists j :: 0 <= j < |list| && list[j].product == items[i].product)
  }

  /** The entries for some of the keys are right, and are about keys. */
  lemma {:induction false} ShortagesAreRight(products: map<ProductId, Product>, items: seq<Item>, keys: seq<ProductId>)
    ensures forall s :: s in Shortages(products, items, keys) ==> IsShortage(products, items, s) && s.product in keys
  {
    if keys != [] {
      var n := |keys| - 1;
      ShortagesAreRight(products, items, keys[..n]);
      assert keys == keys[..n] + [keys[n]];
    }
  }

  /** There is one for each key that is short. */
  lemma {:induction false} ShortagesAreAll(products: map<ProductId, Product>, items: seq<Item>, keys: seq<ProductId>,
                                           p: ProductId)
    requires p in keys && p in products && products[p].stock < Quantity(items, p)
    ensures exists j :: 0 <= j < |Shortages(products, items, keys)| && Shortages(products, items, keys)[j].product == p
  {
    var n := |keys| - 1;
    var before, list := Shortages(products, items, keys[..n]), Shortages(products, items, keys);
    if p == keys[n] {
      assert list[|before|].product == p;
    } else {
      assert keys == keys[..n] + [keys[n]];
      ShortagesAreAll(products, items, keys[..n], p);
      var j :| 0 <= j < |before| && before[j].product == p;
      assert list[j] == before[j];
    }
  }

  /** And none twice. */
  lemma {:induction false} ShortagesAreOnce(products: map<ProductId, Product>, items: seq<Item>, keys: seq<ProductId>)
    requires forall i, j :: 0 <= i < j < |keys| ==> keys[i] != keys[j]
    ensures NoDouble(Shortages(products, items, keys))
  {
    if keys != [] {
      var n := |keys| - 1;
      ShortagesAreOnce(products, items, keys[..n]);
      ShortagesAreRight(products, items, keys[..n]);
      var before, list := Shortages(products, items, keys[..n]), Shortages(products, items, keys);
      assert NoDouble(before);
      forall i, j | 0 <= i < j < |list|
        ensures list[i].product != list[j].product
      {
        assert list[i] == before[i] && before[i] in before;
        if j < |before| {
          assert list[j] == before[j];
          assert before[i].product != before[j].product;
        } else {
          var k :| 0 <= k < n && keys[..n][k] == before[i].product;
          assert keys[k] == before[i].product && keys[k] != keys[n];
          assert list[j].product == keys[n];
        }
      }
    }
  }

  /** Which problem the products of a request have. */
  lemma StockProblemIs(products: map<ProductId, Product>, items: seq<Item>)
    ensures var problem := StockProblem(products, items);
            && (problem == None <==> AllForSale(products, items) && AllInStock(products, items))
            && (problem == Some(ProductNotFound) <==>
                exists i :: FirstBad(products, items, i) && items[i].product !in products)
            && (problem == Some(ProductInactive) <==>
                exists i :: FirstBad(products, items, i) && items[i].product in products)
            && (problem.Some? && problem.value.InsufficientStock? <==>
                AllForSale(products, items) && !AllInStock(products, items))
            && (problem.Some? && problem.value.InsufficientStock? ==>
                  NamesShortages(products, items, problem.value.items))
            && (problem.Some? ==>
                  || problem.value == ProductNotFound || problem.value == ProductInactive
                  || problem.value.InsufficientStock?)
  {
    var keys := Distinct(items);
    UnsellableIsFirstBad(products, items);
    DistinctOnce(items);
    DistinctCovers(items);
    ShortagesAreRight(products, items, keys);
    ShortagesAreOnce(products, items, keys);
    forall i | 0 <= i < |items| && items[i].product in products
               && products[items[i].product].stock < Quantity(items, items[i].product)
      ensures exists j :: 0 <= j < |Shortages(products, items, keys)|
                          && Shortages(products, items, keys)[j].product == items[i].product
    {
      ShortagesAreAll(products, items, keys, items[i].product);
    }
    NoneShort(products, items, keys);
    UnsellableKinds(products, keys);
    if !AllForSale(products, items) {
      SomeFirstBad(products, items);
    }
  }

  lemma {:induction false} UnsellableKinds(products: map<ProductId, Product>, keys: seq<ProductId>)
    ensures var problem := FirstUnsellable(products, keys);
            problem == None || problem == Some(ProductNotFound) || problem == Some(ProductInactive)
  {
    if keys != [] {
      UnsellableKinds(products, keys[..|keys| - 1]);
    }
  }

  lemma {:induction false} SomeFirstBad(products: map<ProductId, Product>, items: seq<Item>)
    requires !AllForSale(products, items)
    ensures exists i :: FirstBad(products, items, i)
  {
    var n := |items| - 1;
    if AllForSale(products, items[..n]) {
      FirstBadLast(products, items, n);
    } else {
      SomeFirstBad(products, items[..n]);
      var i :| FirstBad(products, items[..n], i);
      FirstBadLast(products, items, i);
    }
  }

  // ---------------------------------------------------------------- create

  lemma LimitIs(operations: seq<Operation>, user: UserId, kind: OperationType, now: int, limit: int)
    ensures RateLimited(operations, user, kind, now, limit) <==> !MayOperate(operations, user, kind, now, limit)
  {
  }

  lemma ActiveIs(orders: map<OrderId, Order>, user: UserId)
    ensures HasActive(orders, user) <==> !HasNothingOpen(orders, user)
  {
  }

  /** A new order may use the code: it exists, is open and not exhausted. */
  predicate CodeFits(promos: map<PromoId, Promo>, c: PromoId, now: int) {
    c in promos && IsOpen(promos[c], now) && promos[c].uses < promos[c].maxUses
  }

  /** A create succeeds exactly if the limit, the one open order, the products and the code allow it. */
  lemma CreateSucceedsIff(m: Market, id: OrderId, user: User, items: seq<Item>, code: Option<PromoId>, now: int,
                          limit: int)
    ensures CreateOrder(m, id, user, items, code, now, limit).Success? <==>
            && MayOperate(m.operations, user.id, CreateOperation, now, limit) && HasNothingOpen(m.orders, user.id)
            && AllForSale(m.products, items) && AllInStock(m.products, items)
            && (code.Some? ==>
                  CodeFits(m.promos, code.value, now) && Amount(m.products, items) >= m.promos[code.value].minAmount)
  {
    hide Priced, Subtotal, Amount, Discount, Taken, StockProblem;
    LimitIs(m.operations, user.id, CreateOperation, now, limit);
    ActiveIs(m.orders, user.id);
    StockProblemIs(m.products, items);
    if AllForSale(m.products, items) {
      AmountIsSubtotal(m.products, items);
    }
  }

  /** A create may pass its user: the limit allows it, and nothing is open. */
  predicate UserMayCreate(m: Market, user: User, now: int, limit: int) {
    MayOperate(m.operations, user.id, CreateOperation, now, limit) && HasNothingOpen(m.orders, user.id)
  }

  /** Which refusal a create gives; each one takes precedence over those below it. */
  lemma CreateRefusesWith(m: Market, id: OrderId, user: User, items: seq<Item>, code: Option<PromoId>, now: int,
                          limit: int)
    ensures var result := CreateOrder(m, id, user, items, code, now, limit);
            && (result == Failure(OrderLimitExceeded) <==>
                !MayOperate(m.operations, user.id, CreateOperation, now, limit))
            && (result == Failure(OrderHasActive) <==>
                MayOperate(m.operations, user.id, CreateOperation, now, limit) && !HasNothingOpen(m.orders, user.id))
            && (result == Failure(ProductNotFound) <==>
                UserMayCreate(m, user, now, limit)
                && exists i :: FirstBad(m.products, items, i) && items[i].product !in m.products)
            && (result == Failure(ProductInactive) <==>
                UserMayCreate(m, user, now, limit)
                && exists i :: FirstBad(m.products, items, i) && items[i].product in m.products)
            && (result.Failure? && result.error.InsufficientStock? <==>
                UserMayCreate(m, user, now, limit) && AllForSale(m.products, items) && !AllInStock(m.products, items))
            && (result.Failure? && result.error.InsufficientStock? ==>
                  NamesShortages(m.products, items, result.error.items))
            && (result == Failure(PromoInvalid) <==>
                UserMayCreate(m, user, now, limit) && AllForSale(m.products, items) && AllInStock(m.products, items)
                && code.Some? && !CodeFits(m.promos, code.value, now))
            && (result == Failure(PromoMinAmount) <==>
                UserMayCreate(m, user, now, limit) && AllForSale(m.products, items) && AllInStock(m.products, items)
                && code.Some? && CodeFits(m.promos, code.value, now)
                && Amount(m.products, items) < m.promos[code.value].minAmount)
  {
    hide Priced, Subtotal, Amount, Discount, Taken, StockProblem, NamesShortages, FirstBad;
    LimitIs(m.operations, user.id, CreateOperation, now, limit);
    ActiveIs(m.orders, user.id);
    StockProblemIs(m.products, items);
    if AllForSale(m.products, items) {
      AmountIsSubtotal(m.products, items);
    }
  }

  /** Only the stock changes, by what was asked for. */
  predicate StockTaken(before: map<ProductId, Product>, after: map<ProductId, Product>, items: seq<Item>) {
    && after.Keys == before.Keys
    && forall p :: p in before ==> after[p] == before[p].(stock := before[p].stock - Quantity(items, p))
  }

  /** Only the uses of the code change: one more. */
  predicate UseAdded(before: map<PromoId, Promo>, after: map<PromoId, Promo>, code: Option<PromoId>) {
    && after.Keys == before.Keys
    && forall c :: c in before ==> after[c] == before[c].(uses := before[c].uses + (if code == Some(c) then 1 else 0))
  }

  /** Only the uses of the code change: one less, if there is one. */
  predicate UseGivenBack(before: map<PromoId, Promo>, after: map<PromoId, Promo>, code: Option<PromoId>) {
    && after.Keys == before.Keys
    && forall c :: c in before ==>
         after[c] == if code == Some(c) && before[c].uses > 0 then before[c].(uses := before[c].uses - 1) else before[c]
  }

  /** Each item has its line, at the current price. */
  predicate LinesFor(products: map<ProductId, Product>, items: seq<Item>, lines: seq<Line>) {
    && |lines| == |items|
    && forall i :: 0 <= i < |items| ==>
         && items[i].product in products
         && lines[i] == Line(items[i].product, items[i].quantity, products[items[i].product].price)
  }

  /** What a create stores: stock, one use of the code, one order, one operation. */
  lemma CreateStores(m: Market, id: OrderId, user: User, items: seq<Item>, code: Option<PromoId>, now: int, limit: int)
    requires CreateOrder(m, id, user, items, code, now, limit).Success?
    ensures var after := CreateOrder(m, id, user, items, code, now, limit).market;
            && StockTaken(m.products, after.products, items) && UseAdded(m.promos, after.promos, code)
            && id in after.orders && after.orders == m.orders[id := after.orders[id]]
            && after.orders[id].user == user.id && after.orders[id].status == Created
            && after.orders[id].promo == code && LinesFor(m.products, items, after.orders[id].lines)
            && after.operations == m.operations + [Operation(user.id, CreateOperation, now)]
  {
    hide RoundCents, Subtotal, Discount, StockProblem;
    var order := CreateWrites(m, id, user, items, code, now, limit);
  }

  /** Without a code the total is the amount: for one item, its quantity times its price. */
  lemma CreateCharges(m: Market, id: OrderId, user: User, items: seq<Item>, now: int, limit: int)
    requires CreateOrder(m, id, user, items, None, now, limit).Success?
    ensures AllForSale(m.products, items)
    ensures var order := CreateOrder(m, id, user, items, None, now, limit).market.orders[id];
            && order.total == Amount(m.products, items) && order.discount == 0
            && (|items| == 1 ==> order.total == items[0].quantity * m.products[items[0].product].price)
  {
    hide StockProblem, Taken, Priced;
    CreateSucceedsIff(m, id, user, items, None, now, limit);
    AmountIsSubtotal(m.products, items);
    var order := CreateWrites(m, id, user, items, None, now, limit);
    assert |items| == 1 ==> items[1..] == [];
  }

  // ---------------------------------------------------------------- update

  /** The user may change the order, which is still as it was created. */
  predicate MayChange(m: Market, id: OrderId, user: User) {
    && id in m.orders && (user.admin || m.orders[id].user == user.id) && m.orders[id].status == Created
  }

  predicate UserMayUpdate(m: Market, id: OrderId, user: User, now: int, limit: int) {
    MayChange(m, id, user) && MayOperate(m.operations, user.id, UpdateOperation, now, limit)
  }

  /** The stock that an update may draw on: what is there, and what its order holds. */
  function WithHeld(m: Market, id: OrderId): map<ProductId, Product>
    requires id in m.orders
  {
    map p | p in m.products ::
      m.products[p].(stock := m.products[p].stock + LineQuantity(m.orders[id].lines, p))
  }

  /** A kept code exists and is open; exhausted is no matter, as the order has its use already. */
  predicate CodeKeeps(promos: map<PromoId, Promo>, code: Option<PromoId>, now: int) {
    code.Some? ==> code.value in promos && IsOpen(promos[code.value], now)
  }

  /** An update succeeds exactly if owner, status, limit, products and code allow it. */
  lemma UpdateSucceedsIff(m: Market, id: OrderId, user: User, items: seq<Item>, now: int, limit: int)
    ensures UpdateOrder(m, id, user, items, now, limit).Success? <==>
            && UserMayUpdate(m, id, user, now, limit)
            && AllForSale(m.products, items) && AllInStock(WithHeld(m, id), items)
            && CodeKeeps(m.promos, m.orders[id].promo, now)
  {
    hide Priced, Subtotal, Discount, Taken, StockProblem;
    LimitIs(m.operations, user.id, UpdateOperation, now, limit);
    if id in m.orders {
      assert WithHeld(m, id) == Restocked(m.products, m.orders[id].lines);
      StockProblemIs(WithHeld(m, id), items);
    }
  }

  /** Which refusal an update gives; each one takes precedence over those below it. */
  lemma UpdateRefusesWith(m: Market, id: OrderId, user: User, items: seq<Item>, now: int, limit: int)
    ensures var result := UpdateOrder(m, id, user, items, now, limit);
            && (result == Failure(OrderNotFound) <==> id !in m.orders)
            && (result == Failure(OwnershipViolation) <==>
                id in m.orders && !user.admin && m.orders[id].user != user.id)
            && (result == Failure(InvalidStateTransition) <==>
                id in m.orders && (user.admin || m.orders[id].user == user.id) && m.orders[id].status != Created)
            && (result == Failure(OrderLimitExceeded) <==>
                MayChange(m, id, user) && !MayOperate(m.operations, user.id, UpdateOperation, now, limit))
            && (result == Failure(ProductNotFound) <==>
                UserMayUpdate(m, id, user, now, limit)
                && exists i :: FirstBad(m.products, items, i) && items[i].product !in m.products)
            && (result == Failure(ProductInactive) <==>
                UserMayUpdate(m, id, user, now, limit)
                && exists i :: FirstBad(m.products, items, i) && items[i].product in m.products)
            && (result.Failure? && result.error.InsufficientStock? <==>
                UserMayUpdate(m, id, user, now, limit)
                && AllForSale(m.products, items) && !AllInStock(WithHeld(m, id), items))
            && (result.Failure? && result.error.InsufficientStock? ==>
                  NamesShortages(WithHeld(m, id), items, result.error.items))
            && (result == Failure(PromoInvalid) <==>
                UserMayUpdate(m, id, user, now, limit)
                && AllForSale(m.products, items) && AllInStock(WithHeld(m, id), items)
                && !CodeKeeps(m.promos, m.orders[id].promo, now))
  {
    hide Priced, Subtotal, Discount, Taken, StockProblem, NamesShortages;
    LimitIs(m.operations, user.id, UpdateOperation, now, limit);
    if id in m.orders {
      assert WithHeld(m, id) == Restocked(m.products, m.orders[id].lines);
      StockProblemIs(WithHeld(m, id), items);
      forall i
        ensures FirstBad(WithHeld(m, id), items, i) <==> FirstBad(m.products, items, i)
      {
      }
    }
  }

  /** What an update stores: the difference in stock, the code or its use, the order's new lines, one operation. */
  lemma UpdateStores(m: Market, id: OrderId, user: User, items: seq<Item>, now: int, limit: int)
    requires UpdateOrder(m, id, user, items, now, limit).Success?
    ensures id in m.orders
    ensures var after := UpdateOrder(m, id, user, items, now, limit).market;
            && id in after.orders && after.orders == m.orders[id := after.orders[id]]
            && var was, order := m.orders[id], after.orders[id];
               && StockTaken(WithHeld(m, id), after.products, items)
               && order == was.(promo := order.promo, total := order.total, discount := order.discount,
                                lines := order.lines)
               && LinesFor(m.products, items, order.lines)
               && (if order.promo == was.promo then after.promos == m.promos
                   else UseGivenBack(m.promos, after.promos, was.promo))
               && after.operations == m.operations + [Operation(user.id, UpdateOperation, now)]
  {
    hide RoundCents, Subtotal, Discount, StockProblem;
    var order := UpdateWrites(m, id, user, items, now, limit);
    assert WithHeld(m, id) == Restocked(m.products, m.orders[id].lines);
  }

  // ---------------------------------------------------------------- cancel

  /** A cancel succeeds exactly for an owner or an administrator, on an order that is created or awaits payment. */
  lemma CancelSucceedsIff(m: Market, id: OrderId, user: User)
    ensures CancelOrder(m, id, user).Success? <==>
            && id in m.orders && (user.admin || m.orders[id].user == user.id)
            && (m.orders[id].status == Created || m.orders[id].status == PaymentPending)
  {
  }

  lemma CancelRefusesWith(m: Market, id: OrderId, user: User)
    ensures var result := CancelOrder(m, id, user);
            && (result == Failure(OrderNotFound) <==> id !in m.orders)
            && (result == Failure(OwnershipViolation) <==>
                id in m.orders && !user.admin && m.orders[id].user != user.id)
            && (result == Failure(InvalidStateTransition) <==>
                && id in m.orders && (user.admin || m.orders[id].user == user.id)
                && m.orders[id].status != Created && m.orders[id].status != PaymentPending)
  {
  }

  /** What a cancel stores: the order's stock and the use of its code given back, and its new status. */
  lemma CancelStores(m: Market, id: OrderId, user: User)
    requires CancelOrder(m, id, user).Success?
    ensures id in m.orders
    ensures var after := CancelOrder(m, id, user).market;
            && after.products == WithHeld(m, id) && UseGivenBack(m.promos, after.promos, m.orders[id].promo)
            && after.orders == m.orders[id := m.orders[id].(status := Canceled)] && after.operations == m.operations
  {
    assert WithHeld(m, id) == Restocked(m.products, m.orders[id].lines);
  }
}

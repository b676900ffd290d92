/** The order handlers, working on the tables in place; a failed handler leaves them as they were. */
module OrderService {
  import opened Options
  import opened Orders

  lemma {:induction false} QuantityOutside(items: seq<Item>, p: ProductId)
    requires p !in Distinct(items)
    ensures Quantity(items, p) == 0
  {
    if items != [] {
      QuantityOutside(items[..|items| - 1], p);
    }
  }

  /** The table with the stock of the first products on the list taken. */
  function TakenFor(products: map<ProductId, Product>, items: seq<Item>, keys: seq<ProductId>)
    : map<ProductId, Product>
  {
    map p | p in products ::
      if p in keys then products[p].(stock := products[p].stock - Quantity(items, p)) else products[p]
  }

  lemma TakenForAll(products: map<ProductId, Product>, items: seq<Item>)
    ensures TakenFor(products, items, Distinct(items)) == Taken(products, items)
  {
    forall p | p in products && p !in Distinct(items)
      ensures Quantity(items, p) == 0
    {
      QuantityOutside(items, p);
    }
  }

  /** Add up the quantities of each product; duplicate lines are allowed. */
  method Aggregate(items: seq<Item>) returns (keys: seq<ProductId>, requested: map<ProductId, nat>)
    ensures keys == Distinct(items)
    ensures forall p :: p in requested <==> p in keys
    ensures forall p :: p in requested ==> requested[p] == Quantity(items, p)
  {
    keys, requested := [], map[];
    for i := 0 to |items|
      invariant keys == Distinct(items[..i])
      invariant forall p :: p in requested <==> p in keys
      invariant forall p :: p in requested ==> requested[p] == Quantity(items[..i], p)
    {
      var p := items[i].product;
      assert items[..i + 1][..i] == items[..i];
      if p in requested {
        requested := requested[p := requested[p] + items[i].quantity];
      } else {
        QuantityOutside(items[..i], p);
        keys := keys + [p];
        requested := requested[p := items[i].quantity];
      }
    }
    assert items[..|items|] == items;
  }

  method CheckSellable(products: map<ProductId, Product>, keys: seq<ProductId>) returns (problem: Option<Error>)
    ensures problem == FirstUnsellable(products, keys)
  {
    for i := 0 to |keys|
      invariant FirstUnsellable(products, keys[..i]) == None
    {
      assert keys[..i + 1][..i] == keys[..i];
      if keys[i] !in products {
        UnsellableStays(products, keys, i + 1);
        return Some(ProductNotFound);
      }
      if products[keys[i]].status != OnSale {
        UnsellableStays(products, keys, i + 1);
        return Some(ProductInactive);
      }
    }
    assert keys[..|keys|] == keys;
    problem := None;
  }

  lemma {:induction false} UnsellableStays(products: map<ProductId, Product>, keys: seq<ProductId>, n: nat)
    requires n <= |keys| && FirstUnsellable(products, keys[..n]).Some?
    ensures FirstUnsellable(products, keys) == FirstUnsellable(products, keys[..n])
    decreases |keys|
  {
    if n == |keys| {
      assert keys[..n] == keys;
    } else {
      assert keys[..|keys| - 1][..n] == keys[..n];
      UnsellableStays(products, keys[..|keys| - 1], n);
    }
  }

  method FindShortages(products: map<ProductId, Product>, ghost items: seq<Item>, keys: seq<ProductId>,
                       requested: map<ProductId, nat>)
    returns (shortages: seq<Shortage>)
    requires forall p :: p in keys ==> p in products && p in requested && requested[p] == Quantity(items, p)
    ensures shortages == Shortages(products, items, keys)
  {
    shortages := [];
    for i := 0 to |keys|
      invariant shortages == Shortages(products, items, keys[..i])
    {
      var p := keys[i];
      assert keys[..i + 1][..i] == keys[..i];
      if products[p].stock < requested[p] {
        shortages := shortages + [Shortage(p, requested[p], products[p].stock)];
      }
    }
    assert keys[..|keys|] == keys;
  }

  /** The three stock checks of a handler, in order. */
  method CheckStock(products: map<ProductId, Product>, ghost items: seq<Item>, keys: seq<ProductId>,
                    requested: map<ProductId, nat>)
    returns (problem: Option<Error>)
    requires keys == Distinct(items)
    requires forall p :: p in keys ==> p in requested && requested[p] == Quantity(items, p)
    ensures problem == StockProblem(products, items)
  {
    problem := CheckSellable(products, keys);
    if problem == None {
      NoneUnsellable(products, keys);
      var shortages := FindShortages(products, items, keys, requested);
      if shortages != [] {
        problem := Some(InsufficientStock(shortages));
      }
    }
  }

  method TakeStock(products: map<ProductId, Product>, ghost items: seq<Item>, keys: seq<ProductId>,
                   requested: map<ProductId, nat>)
    returns (taken: map<ProductId, Product>)
    requires keys == Distinct(items)
    requires forall p :: p in keys ==> p in products && p in requested && requested[p] == Quantity(items, p)
    ensures taken == Taken(products, items)
  {
    taken := products;
    DistinctOnce(items);
    for i := 0 to |keys|
      invariant taken == TakenFor(products, items, keys[..i])
    {
      var p := keys[i];
      assert p !in keys[..i];
      assert keys[..i + 1] == keys[..i] + [p];
      taken := taken[p := taken[p].(stock := taken[p].stock - requested[p])];
    }
    assert keys[..|keys|] == keys;
    TakenForAll(products, items);
  }

  /** Give back what the lines of an order hold, line by line. */
  method Restock(products: map<ProductId, Product>, lines: seq<Line>) returns (restocked: map<ProductId, Product>)
    ensures restocked == Restocked(products, lines)
  {
    restocked := products;
    for i := 0 to |lines|
      invariant restocked == Restocked(products, lines[..i])
    {
      var p := lines[i].product;
      assert lines[..i + 1][..i] == lines[..i];
      if p in restocked {
        restocked := restocked[p := restocked[p].(stock := restocked[p].stock + lines[i].quantity)];
      }
    }
    assert lines[..|lines|] == lines;
  }

  /** The order lines at the current prices, and what they come to. */
  method PriceItems(products: map<ProductId, Product>, items: seq<Item>) returns (lines: seq<Line>, amount: nat)
    requires forall item :: item in items ==> item.product in products
    ensures lines == Priced(products, items) && amount == Subtotal(lines)
  {
    lines, amount := [], 0;
    for i := 0 to |items|
      invariant lines == Priced(products, items)[..i] && amount == Subtotal(lines)
    {
      assert items[i] in items;
      var line := Line(items[i].product, items[i].quantity, products[items[i].product].price);
      assert (lines + [line])[..i] == lines;
      lines := lines + [line];
      amount := amount + line.quantity * line.price;
    }
  }

  /** Check the stock, take it, and price the lines; `products` already has the stock of an old version back. */
  method Sell(products: map<ProductId, Product>, items: seq<Item>, keys: seq<ProductId>, requested: map<ProductId, nat>)
    returns (problem: Option<Error>, taken: map<ProductId, Product>, lines: seq<Line>, amount: nat)
    requires keys == Distinct(items)
    requires forall p :: p in keys ==> p in requested && requested[p] == Quantity(items, p)
    ensures problem == StockProblem(products, items)
    ensures problem == None ==>
      && (forall item :: item in items ==> item.product in products)
      && taken == Taken(products, items) && lines == Priced(products, items) && amount == Subtotal(lines)
  {
    taken, lines, amount := products, [], 0;
    problem := CheckStock(products, items, keys, requested);
    if problem == None {
      SellableIff(products, items);
      NoneUnsellable(products, keys);
      taken := TakeStock(products, items, keys, requested);
      lines, amount := PriceItems(products, items);
    }
  }

  method ApplyPromo(promos: map<PromoId, Promo>, code: Option<PromoId>, amount: nat, now: int) returns (deal: Deal)
    ensures deal == NewDeal(promos, code, amount, now)
  {
    if code.None? {
      return Deal(promos, None, 0.0);
    }
    if code.value !in promos {
      return NoDeal(PromoInvalid);
    }
    var row := promos[code.value];
    if !PromoUsable(row, now, false) {
      return NoDeal(PromoInvalid);
    }
    if amount < row.minAmount {
      return NoDeal(PromoMinAmount);
    }
    deal := Deal(promos[code.value := row.(uses := row.uses + 1)], code, Discount(row, amount));
  }

  /** The promo code of an order whose amount has changed: kept with a new discount, or dropped. */
  method ReviewPromo(promos: map<PromoId, Promo>, code: Option<PromoId>, amount: nat, now: int) returns (deal: Deal)
    ensures deal == KeptDeal(promos, code, amount, now)
  {
    if code.None? {
      return Deal(promos, None, 0.0);
    }
    if code.value !in promos {
      return NoDeal(PromoInvalid);
    }
    var row := promos[code.value];
    if !PromoUsable(row, now, true) {
      return NoDeal(PromoInvalid);
    }
    if amount >= row.minAmount {
      return Deal(promos, code, Discount(row, amount));
    }
    var returned := promos;
    if row.uses > 0 {
      returned := promos[code.value := row.(uses := row.uses - 1)];
    }
    deal := Deal(returned, None, 0.0);
  }

  class Service {
    var products: map<ProductId, Product>
    var promos: map<PromoId, Promo>
    var orders: map<OrderId, Order>
    var operations: seq<Operation>
    const limit: int

    ghost function Contents(): Market
      reads this
    {
      Market(products, promos, orders, operations)
    }

    constructor (limit: int)
      ensures this.limit == limit && Contents() == Market(map[], map[], map[], [])
    {
      this.limit := limit;
      products, promos, orders, operations := map[], map[], map[], [];
    }

    /** Looks at the latest operation of the user only. */
    method CheckRateLimit(user: UserId, kind: OperationType, now: int) returns (limited: bool)
      ensures limited == RateLimited(operations, user, kind, now, limit)
    {
      var last: Option<Operation> := None;
      for i := 0 to |operations|
        invariant last.Some? ==> last.value in operations && last.value.user == user && last.value.kind == kind
        invariant forall j :: 0 <= j < i && operations[j].user == user && operations[j].kind == kind ==>
                    last.Some? && operations[j].at <= last.value.at
      {
        var operation := operations[i];
        if operation.user == user && operation.kind == kind && (last.None? || operation.at > last.value.at) {
          last := Some(operation);
        }
      }
      limited := last.Some? && now - last.value.at < limit;
    }

    method CheckUser(user: UserId, now: int) returns (problem: Option<Error>)
      ensures problem == if RateLimited(operations, user, CreateOperation, now, limit) then Some(OrderLimitExceeded)
                         else if HasActive(orders, user) then Some(OrderHasActive)
                         else None
    {
      var limited := CheckRateLimit(user, CreateOperation, now);
      if limited {
        return Some(OrderLimitExceeded);
      }
      if HasActive(orders, user) {
        return Some(OrderHasActive);
      }
      problem := None;
    }

    method CreateOrder(id: OrderId, user: User, items: seq<Item>, code: Option<PromoId>, now: int)
      returns (problem: Option<Error>)
      modifies this
      ensures match Orders.CreateOrder(old(Contents()), id, user, items, code, now, limit)
              case Success(m) => problem == None && Contents() == m
              case Failure(e) => problem == Some(e) && Contents() == old(Contents())
    {
      var keys, requested := Aggregate(items);
      problem := CheckUser(user.id, now);
      if problem.Some? {
        return;
      }
      var taken, lines, amount;
      problem, taken, lines, amount := Sell(products, items, keys, requested);
      if problem.Some? {
        return;
      }
      var deal := ApplyPromo(promos, code, amount, now);
      if deal.NoDeal? {
        return Some(deal.error);
      }
      var total := RoundCents(amount as real - deal.discount);
      var order := Order(user.id, Created, deal.promo, total, RoundCents(deal.discount), lines);
      assert order == NewOrder(user.id, deal.promo, deal.discount, Priced(products, items));
      orders := orders[id := order];
      products, promos := taken, deal.promos;
      operations := operations + [Operation(user.id, CreateOperation, now)];
      problem := None;
    }

    method UpdateOrder(id: OrderId, user: User, items: seq<Item>, now: int) returns (problem: Option<Error>)
      modifies this
      ensures match Orders.UpdateOrder(old(Contents()), id, user, items, now, limit)
              case Success(m) => problem == None && Contents() == m
              case Failure(e) => problem == Some(e) && Contents() == old(Contents())
    {
      hide RateLimited, Owns, StockProblem, KeptDeal, Taken, Restocked, RoundCents;
      if id !in orders {
        return Some(OrderNotFound);
      }
      var order := orders[id];
      if !Owns(user, order) {
        return Some(OwnershipViolation);
      }
      if order.status != Created {
        return Some(InvalidStateTransition);
      }
      var keys, requested := Aggregate(items);
      var limited := CheckRateLimit(user.id, UpdateOperation, now);
      if limited {
        return Some(OrderLimitExceeded);
      }
      var restocked := Restock(products, order.lines);
      var taken, lines, amount;
      problem, taken, lines, amount := Sell(restocked, items, keys, requested);
      if problem.Some? {
        return;
      }
      var deal := ReviewPromo(promos, order.promo, amount, now);
      if deal.NoDeal? {
        return Some(deal.error);
      }
      var total := RoundCents(amount as real - deal.discount);
      orders := orders[id := order.(promo := deal.promo, total := total, discount := RoundCents(deal.discount),
          lines := lines)];
      products, promos := taken, deal.promos;
      operations := operations + [Operation(user.id, UpdateOperation, now)];
      problem := None;
    }

    method CancelOrder(id: OrderId, user: User) returns (problem: Option<Error>)
      modifies this
      ensures match Orders.CancelOrder(old(Contents()), id, user)
              case Success(m) => problem == None && Contents() == m
              case Failure(e) => problem == Some(e) && Contents() == old(Contents())
    {
      if id !in orders {
        return Some(OrderNotFound);
      }
      var order := orders[id];
      if !Owns(user, order) {
        return Some(OwnershipViolation);
      }
      if !IsActive(order.status) {
        return Some(InvalidStateTransition);
      }
      var restocked := Restock(products, order.lines);
      products := restocked;
      if order.promo.Some? && order.promo.value in promos && promos[order.promo.value].uses > 0 {
        var row := promos[order.promo.value];
        promos := promos[order.promo.value := row.(uses := row.uses - 1)];
      }
      orders := orders[id := order.(status := Canceled)];
      problem := None;
    }
  }
}

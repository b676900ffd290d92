/**
 The marketplace: products with stock, promo codes with a limited number of uses, orders, and the
 record of operations that the rate limit looks at.

 `CreateOrder`, `UpdateOrder` and `CancelOrder` say what one handler does as one transaction: either
 it fails with an error, or it yields the new contents of the tables.  Money is in cents; a promo value
 is in cents, or in hundredths of a per cent.  A promo code stands for the id of its row.
 */
module Orders {
  import opened Options

  type ProductId = nat
  type OrderId = nat
  type PromoId = nat
  type UserId = nat

  datatype ProductStatus = OnSale | Inactive | Archived

  datatype Product = Product(price: nat, stock: int, status: ProductStatus)

  datatype Item = Item(product: ProductId, quantity: nat)

  datatype Line = Line(product: ProductId, quantity: nat, price: nat)

  datatype OrderStatus = Created | PaymentPending | Paid | Shipped | Completed | Canceled

  datatype Order = Order(
    user: UserId, status: OrderStatus, promo: Option<PromoId>, total: int, discount: int, lines: seq<Line>)

  datatype DiscountType = Percentage | FixedAmount

  datatype Promo = Promo(
    kind: DiscountType, value: nat, minAmount: nat, maxUses: int, uses: nat, validFrom: int, validUntil: int,
        active: bool)

  datatype OperationType = CreateOperation | UpdateOperation

  datatype Operation = Operation(user: UserId, kind: OperationType, at: int)

  datatype User = User(id: UserId, admin: bool)

  datatype Market = Market(
    products: map<ProductId, Product>,
    promos: map<PromoId, Promo>,
    orders: map<OrderId, Order>,
    operations: seq<Operation>)

  datatype Shortage = Shortage(product: ProductId, requested: nat, available: int)

  datatype Error =
    | ProductNotFound | ProductInactive | InsufficientStock(items: seq<Shortage>)
    | OrderNotFound | OrderLimitExceeded | OrderHasActive | InvalidStateTransition | OwnershipViolation
    | PromoInvalid | PromoMinAmount

  datatype Result = Success(market: Market) | Failure(error: Error)

  // ---------------------------------------------------------------- items and lines

  /** How much of product `p` the items ask for together. */
  function Quantity(items: seq<Item>, p: ProductId): nat {
    if items == [] then 0
    else
      var last := items[|items| - 1];
      Quantity(items[..|items| - 1], p) + (if last.product == p then last.quantity else 0)
  }

  /** The products asked for, in the order in which they first appear. */
  function Distinct(items: seq<Item>): seq<ProductId> {
    if items == [] then []
    else
      var keys := Distinct(items[..|items| - 1]);
      var p := items[|items| - 1].product;
      if p in keys then keys else keys + [p]
  }

  function LineQuantity(lines: seq<Line>, p: ProductId): nat {
    if lines == [] then 0
    else
      var last := lines[|lines| - 1];
      LineQuantity(lines[..|lines| - 1], p) + (if last.product == p then last.quantity else 0)
  }

  function Subtotal(lines: seq<Line>): nat {
    if lines == [] then 0
    else
      var last := lines[|lines| - 1];
      Subtotal(lines[..|lines| - 1]) + last.quantity * last.price
  }

  /** The lines of an order for the items, at the current prices. */
  function Priced(products: map<ProductId, Product>, items: seq<Item>): (lines: seq<Line>)
    requires forall item :: item in items ==> item.product in products
    ensures |lines| == |items|
  {
    seq(|items|, i requires 0 <= i < |items| =>
      Line(items[i].product, items[i].quantity, products[items[i].product].price))
  }

  // ---------------------------------------------------------------- stock

  function Restocked(products: map<ProductId, Product>, lines: seq<Line>): map<ProductId, Product> {
    map p | p in products :: products[p].(stock := products[p].stock + LineQuantity(lines, p))
  }

  function Taken(products: map<ProductId, Product>, items: seq<Item>): map<ProductId, Product> {
    map p | p in products :: products[p].(stock := products[p].stock - Quantity(items, p))
  }

  /** The first product on the list that cannot be sold at all. */
  function FirstUnsellable(products: map<ProductId, Product>, keys: seq<ProductId>): Option<Error> {
    if keys == [] then None
    else
      var p := keys[|keys| - 1];
      match FirstUnsellable(products, keys[..|keys| - 1])
      case Some(e) => Some(e)
      case None =>
        if p !in products then Some(ProductNotFound)
        else if products[p].status != OnSale then Some(ProductInactive)
        else None
  }

  function Shortages(products: map<ProductId, Product>, items: seq<Item>, keys: seq<ProductId>): seq<Shortage> {
    if keys == [] then []
    else
      var p := keys[|keys| - 1];
      Shortages(products, items, keys[..|keys| - 1])
      + (if p in products && products[p].stock < Quantity(items, p)
         then [Shortage(p, Quantity(items, p), products[p].stock)] else [])
  }

  /** Why the items cannot be sold, if they cannot. */
  function StockProblem(products: map<ProductId, Product>, items: seq<Item>): Option<Error> {
    var keys := Distinct(items);
    var unsellable := FirstUnsellable(products, keys);
    var shortages := Shortages(products, items, keys);
    if unsellable.Some? then unsellable
    else if shortages != [] then Some(InsufficientStock(shortages))
    else None
  }

  // ---------------------------------------------------------------- money

  /** Rounding to a whole cent, half away from zero. */
  function RoundCents(x: real): int {
    if x >= 0.0 then (x + 0.5).Floor else -((-x + 0.5).Floor)
  }

  /** The exact discount on an amount that reaches the minimum of the promo code. */
  function Discount(promo: Promo, amount: nat): real {
    match promo.kind
    case Percentage => AtMost(Portion(amount, promo.value), SeventyPercent(amount))
    case FixedAmount => AtMost(promo.value as real, amount as real)
  }

  /** `value` counts hundredths of a per cent. */
  function Portion(amount: nat, value: nat): real {
    amount as real * value as real / 10000.0
  }

  function SeventyPercent(amount: nat): real {
    amount as real * 0.7
  }

  function AtMost(x: real, cap: real): real {
    if x > cap then cap else x
  }

  predicate PromoUsable(promo: Promo, now: int, exhaustedToo: bool) {
    && promo.active && (exhaustedToo || promo.uses < promo.maxUses)
    && promo.validFrom <= now <= promo.validUntil
  }

  /** What a promo code comes to: the promo table afterwards, the code that the order keeps, the discount. */
  datatype Deal = Deal(promos: map<PromoId, Promo>, promo: Option<PromoId>, discount: real) | NoDeal(error: Error)

  function NewDeal(promos: map<PromoId, Promo>, code: Option<PromoId>, amount: nat, now: int): Deal {
    match code
    case None => Deal(promos, None, 0.0)
    case Some(c) =>
      if c !in promos || !PromoUsable(promos[c], now, false) then NoDeal(PromoInvalid)
      else if amount < promos[c].minAmount then NoDeal(PromoMinAmount)
      else Deal(promos[c := promos[c].(uses := promos[c].uses + 1)], code, Discount(promos[c], amount))
  }

  /** One use less, but never below zero. */
  function UseReturned(promos: map<PromoId, Promo>, c: PromoId): map<PromoId, Promo>
    requires c in promos
  {
    if promos[c].uses > 0 then promos[c := promos[c].(uses := promos[c].uses - 1)] else promos
  }

  function KeptDeal(promos: map<PromoId, Promo>, code: Option<PromoId>, amount: nat, now: int): Deal {
    match code
    case None => Deal(promos, None, 0.0)
    case Some(c) =>
      if c !in promos || !PromoUsable(promos[c], now, true) then NoDeal(PromoInvalid)
      else if amount < promos[c].minAmount then Deal(UseReturned(promos, c), None, 0.0)
      else Deal(promos, code, Discount(promos[c], amount))
  }

  // ---------------------------------------------------------------- the handlers

  predicate IsActive(status: OrderStatus) {
    status == Created || status == PaymentPending
  }

  predicate HasActive(orders: map<OrderId, Order>, user: UserId) {
    exists id :: id in orders && orders[id].user == user && IsActive(orders[id].status)
  }

  /** The user did an operation of this kind less than `limit` ago. */
  predicate RateLimited(operations: seq<Operation>, user: UserId, kind: OperationType, now: int, limit: int) {
    exists i :: 0 <= i < |operations| && operations[i].user == user && operations[i].kind == kind
                && now - operations[i].at < limit
  }

  predicate Owns(user: User, order: Order) {
    user.admin || order.user == user.id
  }

  lemma {:induction false} DistinctCovers(items: seq<Item>)
    ensures forall p :: p in Distinct(items) <==> exists i :: 0 <= i < |items| && items[i].product == p
  {
    if items != [] {
      var n := |items| - 1;
      DistinctCovers(items[..n]);
      assert forall i :: 0 <= i < n ==> items[..n][i] == items[i];
    }
  }

  lemma {:induction false} DistinctOnce(items: seq<Item>)
    ensures forall i, j :: 0 <= i < j < |Distinct(items)| ==> Distinct(items)[i] != Distinct(items)[j]
  {
    if items != [] {
      DistinctOnce(items[..|items| - 1]);
    }
  }

  lemma {:induction false} NoneUnsellable(products: map<ProductId, Product>, keys: seq<ProductId>)
    ensures FirstUnsellable(products, keys) == None <==>
            forall p :: p in keys ==> p in products && products[p].status == OnSale
  {
    if keys != [] {
      var n := |keys| - 1;
      NoneUnsellable(products, keys[..n]);
      assert keys == keys[..n] + [keys[n]];
    }
  }

  lemma {:induction false} NoneShort(products: map<ProductId, Product>, items: seq<Item>, keys: seq<ProductId>)
    ensures Shortages(products, items, keys) == [] <==>
            forall p :: p in keys && p in products ==> products[p].stock >= Quantity(items, p)
  {
    if keys != [] {
      var n := |keys| - 1;
      NoneShort(products, items, keys[..n]);
      assert keys == keys[..n] + [keys[n]];
    }
  }

  /** The items can be sold exactly if each of their products is on sale and has stock for all of them together. */
  lemma SellableIff(products: map<ProductId, Product>, items: seq<Item>)
    ensures StockProblem(products, items) == None <==>
            forall item :: item in items ==>
              && item.product in products && products[item.product].status == OnSale
              && products[item.product].stock >= Quantity(items, item.product)
  {
    var keys := Distinct(items);
    DistinctCovers(items);
    NoneUnsellable(products, keys);
    NoneShort(products, items, keys);
    forall item | item in items
      ensures item.product in keys
    {
      var i :| 0 <= i < |items| && items[i] == item;
      assert items[i].product == item.product;
    }
    forall p | p in keys
      ensures exists item :: item in items && item.product == p
    {
      var i :| 0 <= i < |items| && items[i].product == p;
      assert items[i] in items;
    }
  }

  function NewOrder(user: UserId, promo: Option<PromoId>, discount: real, lines: seq<Line>): Order {
    Order(user, Created, promo, RoundCents(Subtotal(lines) as real - discount), RoundCents(discount), lines)
  }

  function CreateOrder(m: Market, id: OrderId, user: User, items: seq<Item>, code: Option<PromoId>,
                       now: int, limit: int): Result
  {
    if RateLimited(m.operations, user.id, CreateOperation, now, limit) then Failure(OrderLimitExceeded)
    else if HasActive(m.orders, user.id) then Failure(OrderHasActive)
    else
      match StockProblem(m.products, items)
      case Some(e) => Failure(e)
      case None =>
        SellableIff(m.products, items);
        var lines := Priced(m.products, items);
        match NewDeal(m.promos, code, Subtotal(lines), now)
        case NoDeal(e) => Failure(e)
        case Deal(promos, promo, discount) =>
          Success(Market(Taken(m.products, items), promos, m.orders[id := NewOrder(user.id, promo, discount, lines)],
                         m.operations + [Operation(user.id, CreateOperation, now)]))
  }

  function UpdateOrder(m: Market, id: OrderId, user: User, items: seq<Item>, now: int, limit: int): Result {
    if id !in m.orders then Failure(OrderNotFound)
    else if !Owns(user, m.orders[id]) then Failure(OwnershipViolation)
    else if m.orders[id].status != Created then Failure(InvalidStateTransition)
    else if RateLimited(m.operations, user.id, UpdateOperation, now, limit) then Failure(OrderLimitExceeded)
    else
      var restocked := Restocked(m.products, m.orders[id].lines);
      match StockProblem(restocked, items)
      case Some(e) => Failure(e)
      case None =>
        SellableIff(restocked, items);
        var lines := Priced(restocked, items);
        match KeptDeal(m.promos, m.orders[id].promo, Subtotal(lines), now)
        case NoDeal(e) => Failure(e)
        case Deal(promos, promo, discount) =>
          var order := m.orders[id].(promo := promo, total := RoundCents(Subtotal(lines) as real - discount),
                                     discount := RoundCents(discount), lines := lines);
          Success(Market(Taken(restocked, items), promos, m.orders[id := order],
                         m.operations + [Operation(user.id, UpdateOperation, now)]))
  }

  function CancelOrder(m: Market, id: OrderId, user: User): Result {
    if id !in m.orders then Failure(OrderNotFound)
    else if !Owns(user, m.orders[id]) then Failure(OwnershipViolation)
    else if !IsActive(m.orders[id].status) then Failure(InvalidStateTransition)
    else
      var order := m.orders[id];
      Success(Market(Restocked(m.products, order.lines),
                     if order.promo.Some? && order.promo.value in m.promos
                     then UseReturned(m.promos, order.promo.value) else m.promos,
                     m.orders[id := order.(status := Canceled)], m.operations))
  }
}

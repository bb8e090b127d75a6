/**
 Checkout (ecommerce/views.py): `create_checkout_session` gates on the
 resolved total and builds one payment line per cart entry from the current
 prices; `payment_success` turns the cart into an Order with one OrderItem per
 entry, reading the prices a second time, and empties the cart.  The payment
 provider's session creation is an input: the reply it gives.
 */
module CheckoutViews {
  import opened Wrappers
  import opened Models
  import opened Cart
  import opened CartUtils
  import opened Store

  /** The minimum order value, 50 rupees, in paise. */
  const MinimumOrder: Paise := 5000

  /** The currency every payment line is priced in. */
  const Currency: string := "inr"

  /** Python's `int()` of the rational n / d: truncation toward zero. */
  function TruncateTowardZero(n: int, d: nat): int
    requires d > 0
  {
    if n >= 0 then n / d else -((-n) / d)
  }

  /**
   `int(Decimal(product.product_price) * 100)`: the price (n paise, so n / 100
   rupees) scaled by 100 and truncated.  Two decimal places make it exact.
   */
  function UnitAmount(price: Paise): (amount: int)
    ensures amount == price
  {
    TruncateTowardZero(price * 100, 100)
  }

  /** One entry of the provider's `line_items`. */
  datatype CheckoutLine = CheckoutLine(currency: string, name: string, unitAmount: int, quantity: int)

  /** Every entry's product exists. */
  predicate AllPresent(c: seq<Entry>, catalog: Catalog)
  {
    forall i :: 0 <= i < |c| ==> c[i].id in catalog
  }

  /** The position of the first entry whose product does not exist, or |c| when all exist. */
  function FirstMissing(c: seq<Entry>, catalog: Catalog): (k: nat)
    ensures k <= |c|
    ensures AllPresent(c[..k], catalog)
    ensures k < |c| ==> c[k].id !in catalog
  {
    if |c| == 0 then 0
    else if c[0].id !in catalog then 0
    else
      var k := 1 + FirstMissing(c[1..], catalog);
      assert forall i :: 1 <= i < k ==> c[..k][i] == c[1..][..k - 1][i - 1];
      k
  }

  lemma FirstMissingAt(c: seq<Entry>, catalog: Catalog, i: nat)
    requires i <= |c| && AllPresent(c[..i], catalog)
    requires i < |c| ==> c[i].id !in catalog
    ensures FirstMissing(c, catalog) == i
  {
  }

  /** The payment line for one entry: product name, unit amount in paise, cart quantity. */
  function LineFor(e: Entry, catalog: Catalog): CheckoutLine
    requires e.id in catalog
  {
    CheckoutLine(Currency, catalog[e.id].name, UnitAmount(catalog[e.id].price), e.quantity)
  }

  /** The line items for a cart: one per entry, in cart order. */
  function CheckoutLines(c: seq<Entry>, catalog: Catalog): (lines: seq<CheckoutLine>)
    requires AllPresent(c, catalog)
    ensures |lines| == |c|
    ensures forall i :: 0 <= i < |c| ==>
      lines[i] == CheckoutLine("inr", catalog[c[i].id].name, catalog[c[i].id].price, c[i].quantity)
  {
    if |c| == 0 then []
    else CheckoutLines(c[..|c| - 1], catalog) + [LineFor(c[|c| - 1], catalog)]
  }

  /** What the provider is asked to charge: Σ unit_amount × quantity. */
  function LinesAmount(lines: seq<CheckoutLine>): int
  {
    if |lines| == 0 then 0
    else LinesAmount(lines[..|lines| - 1]) + lines[|lines| - 1].unitAmount * lines[|lines| - 1].quantity
  }

  /** A total that reaches the minimum needs at least one priced entry: the source's empty-line-items branch is unreachable. */
  lemma {:induction false} GateNeedsPricedEntry(c: seq<Entry>, catalog: Catalog)
    requires CartTotal(c, catalog) >= MinimumOrder
    ensures |c| > 0
    ensures exists i :: 0 <= i < |c| && c[i].id in catalog
  {
    if |c| > 0 {
      var e := c[|c| - 1];
      if e.id !in catalog {
        GateNeedsPricedEntry(c[..|c| - 1], catalog);
        var i :| 0 <= i < |c| - 1 && c[..|c| - 1][i].id in catalog;
        assert c[i].id in catalog;
      }
    }
  }

  /** With one catalog for both reads, the amount charged equals the cart total the order records. */
  lemma {:induction false} ChargeMatchesCartTotal(c: seq<Entry>, catalog: Catalog)
    requires AllPresent(c, catalog)
    ensures LinesAmount(CheckoutLines(c, catalog)) == CartTotal(c, catalog)
  {
    if |c| > 0 {
      var p := c[..|c| - 1];
      ChargeMatchesCartTotal(p, catalog);
      assert CheckoutLines(c, catalog)[..|c| - 1] == CheckoutLines(p, catalog);
    }
  }

  /** A price change between the two reads makes the charged amount and the recorded total differ. */
  lemma PriceChangeBetweenReads()
    ensures var c := [Entry(3, 2)];
      var before := map[3 := Product("Tea", 3000, "1 kg", "http://img/tea.png", 1)];
      var after := map[3 := Product("Tea", 3500, "1 kg", "http://img/tea.png", 1)];
      LinesAmount(CheckoutLines(c, before)) == 6000 && CartTotal(c, after) == 7000
  {
    var c := [Entry(3, 2)];
    assert c[..0] == [];
  }

  /** The payment provider's answer to the session-creation call. */
  datatype ProviderReply = SessionCreated(url: string) | ProviderRaised(message: string)

  /** What `create_checkout_session` answers. */
  datatype CheckoutOutcome =
    | LoginRequired
    | ServerError                       // the session value is not a dict
    | BelowMinimum                      // flash message, back to the cart
    | ProductNotFound(id: ProductId)    // get_object_or_404 while building the lines
    | RedirectToProvider(url: string, lines: seq<CheckoutLine>)
    | PaymentError(message: string, lines: seq<CheckoutLine>)

  /**
   `create_checkout_session`: resolve the cart; below the minimum nothing is
   requested; otherwise one line per cart entry, in cart order, each with the
   cart quantity and the price in paise, and the provider's reply decides
   between the redirect and the error message.  The cart is not changed.
   */
  method CreateCheckoutSession(session: Session, catalog: Catalog, authenticated: bool, reply: ProviderReply)
    returns (r: CheckoutOutcome)
    ensures !authenticated ==> r == LoginRequired
    ensures authenticated && session.cart.NotADict? ==> r == ServerError
    ensures authenticated && !session.cart.NotADict? && CartTotal(Read(session.cart), catalog) < MinimumOrder ==>
      r == BelowMinimum
    ensures authenticated && !session.cart.NotADict? && CartTotal(Read(session.cart), catalog) >= MinimumOrder ==>
      var c := Read(session.cart);
      var k := FirstMissing(c, catalog);
      && (k < |c| ==> r == ProductNotFound(c[k].id))
      && (k == |c| ==> |c| > 0 && r == match reply
            case SessionCreated(url) => RedirectToProvider(url, CheckoutLines(c, catalog))
            case ProviderRaised(m) => PaymentError(m, CheckoutLines(c, catalog)))
  {
    if !authenticated {
      return LoginRequired;
    }
    if session.cart.NotADict? {
      return ServerError;
    }
    var cart := Read(session.cart);
    var _, total := GetCartItemsAndTotal(cart, catalog);
    if total < MinimumOrder {
      return BelowMinimum;
    }
    var lines: seq<CheckoutLine> := [];
    var i := 0;
    while i < |cart|
      invariant 0 <= i <= |cart|
      invariant AllPresent(cart[..i], catalog)
      invariant lines == CheckoutLines(cart[..i], catalog)
    {
      var e := cart[i];
      if e.id !in catalog {
        FirstMissingAt(cart, catalog, i);
        return ProductNotFound(e.id);
      }
      assert cart[..i + 1] == cart[..i] + [e];
      lines := lines + [LineFor(e, catalog)];
      i := i + 1;
    }
    assert cart[..i] == cart;
    FirstMissingAt(cart, catalog, i);
    GateNeedsPricedEntry(cart, catalog);
    match reply
    case SessionCreated(url) =>
      r := RedirectToProvider(url, lines);
    case ProviderRaised(m) =>
      r := PaymentError(m, lines);
  }

  /** The order items for a cart: one per entry, with its quantity and the price read now. */
  function OrderItemsFor(order: OrderId, c: seq<Entry>, catalog: Catalog): (items: seq<OrderItem>)
    requires AllPresent(c, catalog)
    ensures |items| == |c|
    ensures forall i :: 0 <= i < |c| ==>
      items[i] == OrderItem(order, c[i].id, c[i].quantity, catalog[c[i].id].price)
  {
    if |c| == 0 then []
    else
      var e := c[|c| - 1];
      OrderItemsFor(order, c[..|c| - 1], catalog) + [OrderItem(order, e.id, e.quantity, catalog[e.id].price)]
  }

  /** One more present entry: one more item and its price × quantity on the total. */
  lemma ExtendByPresent(c: seq<Entry>, i: nat, catalog: Catalog, order: OrderId)
    requires i < |c| && c[i].id in catalog && AllPresent(c[..i], catalog)
    ensures AllPresent(c[..i + 1], catalog)
    ensures OrderItemsFor(order, c[..i + 1], catalog)
         == OrderItemsFor(order, c[..i], catalog) + [OrderItem(order, c[i].id, c[i].quantity, catalog[c[i].id].price)]
    ensures CartTotal(c[..i + 1], catalog) == CartTotal(c[..i], catalog) + catalog[c[i].id].price * c[i].quantity
  {
    assert c[..i + 1][..i] == c[..i];
  }

  /**
   With positive cart quantities and a product table within its column
   constraints, every item made for an order satisfies the OrderItem
   constraints.
   */
  lemma OrderItemsValid(order: OrderId, c: seq<Entry>, catalog: Catalog)
    requires AllPresent(c, catalog) && QuantitiesPositive(c) && ValidCatalog(catalog)
    ensures forall i :: 0 <= i < |c| ==> ValidOrderItem(OrderItemsFor(order, c, catalog)[i])
  {
    var items := OrderItemsFor(order, c, catalog);
    forall i | 0 <= i < |c|
      ensures ValidOrderItem(items[i])
    {
      assert ValidProduct(catalog[c[i].id]);
    }
  }

  /** The items made for an order add up to the cart total under that order, and to nothing under any other order. */
  lemma {:induction false} OrderItemsSum(order: OrderId, c: seq<Entry>, catalog: Catalog, other: OrderId)
    requires AllPresent(c, catalog)
    ensures ItemsSum(OrderItemsFor(order, c, catalog), order) == CartTotal(c, catalog)
    ensures other != order ==> ItemsSum(OrderItemsFor(order, c, catalog), other) == 0
  {
    if |c| > 0 {
      var p := c[..|c| - 1];
      OrderItemsSum(order, p, catalog, other);
      assert OrderItemsFor(order, c, catalog)[..|c| - 1] == OrderItemsFor(order, p, catalog);
    }
  }

  /** Appending a new order together with items whose prices sum to its total keeps every order's total equal to its items' sum. */
  lemma AppendOrderKeepsConsistency(orders: seq<Order>, items: seq<OrderItem>, o: Order, c: seq<Entry>, catalog: Catalog)
    requires OrdersConsistent(orders, items)
    requires forall i :: 0 <= i < |orders| ==> orders[i].id != o.id
    requires AllPresent(c, catalog) && o.totalAmount == CartTotal(c, catalog)
    requires forall j :: 0 <= j < |items| ==> items[j].order != o.id
    ensures OrdersConsistent(orders + [o], items + OrderItemsFor(o.id, c, catalog))
  {
    var fresh_ := OrderItemsFor(o.id, c, catalog);
    var all := items + fresh_;
    forall i | 0 <= i < |orders + [o]|
      ensures (orders + [o])[i].totalAmount == ItemsSum(all, (orders + [o])[i].id)
    {
      var oi := (orders + [o])[i];
      ItemsSumAppend(items, fresh_, oi.id);
      OrderItemsSum(o.id, c, catalog, oi.id);
      if i == |orders| {
        ItemsSumNone(items, o.id);
      }
    }
  }

  lemma {:induction false} ItemsSumNone(items: seq<OrderItem>, order: OrderId)
    requires forall j :: 0 <= j < |items| ==> items[j].order != order
    ensures ItemsSum(items, order) == 0
  {
    if |items| > 0 {
      ItemsSumNone(items[..|items| - 1], order);
    }
  }

  /** What `payment_success` answers. */
  datatype SuccessOutcome = RedirectHome | FinalizeFailed | OrderPlaced(order: Order)

  /** `if not cart`: an absent or empty cart, or a falsy non-dict value. */
  predicate Truthy(s: Stored)
  {
    match s
    case Missing => false
    case Dict(c) => |c| > 0
    case NotADict(t) => t
  }

  /**
   The item loop of `payment_success`: one OrderItem per cart entry, in cart
   order, until the first entry whose product is missing; `complete` tells
   whether every entry was written, and then `total` is the cart total.
   */
  method CreateOrderItems(db: Database, cart: seq<Entry>, catalog: Catalog, id: OrderId)
    returns (total: Paise, complete: bool)
    modifies db
    ensures db.orders == old(db.orders) && db.reviews == old(db.reviews) && db.saved == old(db.saved)
    ensures complete <==> FirstMissing(cart, catalog) == |cart|
    ensures db.orderItems == old(db.orderItems) + OrderItemsFor(id, cart[..FirstMissing(cart, catalog)], catalog)
    ensures complete ==> total == CartTotal(cart, catalog)
  {
    total := 0;
    var i := 0;
    while i < |cart|
      invariant 0 <= i <= |cart|
      invariant AllPresent(cart[..i], catalog)
      invariant db.orderItems == old(db.orderItems) + OrderItemsFor(id, cart[..i], catalog)
      invariant total == CartTotal(cart[..i], catalog)
      invariant db.orders == old(db.orders) && db.reviews == old(db.reviews) && db.saved == old(db.saved)
    {
      var e := cart[i];
      if e.id !in catalog {
        FirstMissingAt(cart, catalog, i);
        return total, false;
      }
      ExtendByPresent(cart, i, catalog, id);
      var price := catalog[e.id].price;
      total := total + price * e.quantity;
      db.orderItems := db.orderItems + [OrderItem(id, e.id, e.quantity, price)];
      i := i + 1;
    }
    assert cart[..i] == cart;
    FirstMissingAt(cart, catalog, i);
    complete := true;
  }

  /**
   `payment_success` as written: the Order row (status "processing", total 0)
   is created before the items; a product lookup that fails inside the loop
   is caught, the cart is kept and the error reported, but the Order row and
   the items created so far remain.  On success the total is set to
   Σ price × quantity and the cart emptied.  An anonymous user makes the
   Order creation itself fail.
   */
  method PaymentSuccess(session: Session, db: Database, catalog: Catalog, user: Option<UserId>, paymentId: Option<string>)
    returns (r: SuccessOutcome)
    requires db.Valid() && session.Valid() && ValidCatalog(catalog)
    modifies session, db
    ensures db.Valid()
    ensures db.reviews == old(db.reviews) && db.saved == old(db.saved)
    ensures !Truthy(old(session.cart)) || user.None? ==>
      r == (if Truthy(old(session.cart)) then FinalizeFailed else RedirectHome)
      && unchanged(session) && db.orders == old(db.orders) && db.orderItems == old(db.orderItems)
    ensures Truthy(old(session.cart)) && user.Some? && old(session.cart).NotADict? ==>
      && r == FinalizeFailed && unchanged(session)
      && db.orders == old(db.orders) + [Order(old(db.NextOrderId()), user.value, 0, paymentId, Processing)]
      && db.orderItems == old(db.orderItems)
    ensures Truthy(old(session.cart)) && user.Some? && old(session.cart).Dict? ==>
      var c := old(session.cart).entries;
      var k := FirstMissing(c, catalog);
      var id := old(db.NextOrderId());
      && db.orderItems == old(db.orderItems) + OrderItemsFor(id, c[..k], catalog)
      && (k == |c| ==>
            && r == OrderPlaced(Order(id, user.value, CartTotal(c, catalog), paymentId, Processing))
            && db.orders == old(db.orders) + [r.order]
            && session.cart == Dict([]))
      && (k < |c| ==>
            && r == FinalizeFailed
            && db.orders == old(db.orders) + [Order(id, user.value, 0, paymentId, Processing)]
            && unchanged(session))
    ensures r.OrderPlaced? && OrdersConsistent(old(db.orders), old(db.orderItems)) ==>
      OrdersConsistent(db.orders, db.orderItems)
  {
    if !Truthy(session.cart) {
      return RedirectHome;
    }
    if user.None? {
      return FinalizeFailed;
    }
    var id := db.NextOrderId();
    var order := Order(id, user.value, 0, paymentId, Processing);
    db.orders := db.orders + [order];
    if session.cart.NotADict? {
      return FinalizeFailed;
    }
    var cart := session.cart.entries;
    var total, complete := CreateOrderItems(db, cart, catalog, id);
    if !complete {
      return FinalizeFailed;
    }
    assert cart[..|cart|] == cart;
    order := order.(totalAmount := total);
    db.orders := db.orders[|db.orders| - 1 := order];
    session.cart := Dict([]);
    r := OrderPlaced(order);
    if OrdersConsistent(old(db.orders), old(db.orderItems)) {
      AppendOrderKeepsConsistency(old(db.orders), old(db.orderItems), order, cart, catalog);
    }
  }

  /**
   The leftover of a failed finalisation breaks the Order invariant: when an
   entry before the missing product has a non-zero price × quantity, the Order
   row says 0 while its items add up to more.
   */
  lemma FailedFinalisationBreaksTotals(orders: seq<Order>, items: seq<OrderItem>, u: UserId,
                                       paymentId: Option<string>, c: seq<Entry>, catalog: Catalog)
    requires forall j :: 0 <= j < |items| ==> items[j].order != |orders| + 1
    requires FirstMissing(c, catalog) < |c|
    requires CartTotal(c[..FirstMissing(c, catalog)], catalog) != 0
    ensures !OrdersConsistent(orders + [Order(|orders| + 1, u, 0, paymentId, Processing)],
                              items + OrderItemsFor(|orders| + 1, c[..FirstMissing(c, catalog)], catalog))
  {
    var k := FirstMissing(c, catalog);
    var id := |orders| + 1;
    ItemsSumAppend(items, OrderItemsFor(id, c[..k], catalog), id);
    ItemsSumNone(items, id);
    OrderItemsSum(id, c[..k], catalog, id);
    assert (orders + [Order(id, u, 0, paymentId, Processing)])[|orders|].id == id;
  }

  /**
   The cart {"3": 2, "9": 1} with product 3 at 30.00 and product 9 deleted:
   finalisation fails at product 9 and leaves Order 1 at 0 with one item worth 60.00.
   */
  lemma FailedFinalisationExample(u: UserId)
    ensures var c := [Entry(3, 2), Entry(9, 1)];
      var catalog := map[3 := Product("Tea", 3000, "1 kg", "http://img/tea.png", 1)];
      && FirstMissing(c, catalog) == 1
      && !OrdersConsistent([Order(1, u, 0, None, Processing)], OrderItemsFor(1, c[..1], catalog))
  {
    var c := [Entry(3, 2), Entry(9, 1)];
    var catalog := map[3 := Product("Tea", 3000, "1 kg", "http://img/tea.png", 1)];
    assert c[..1] == [Entry(3, 2)];
    FirstMissingAt(c, catalog, 1);
    assert c[..1][..0] == [];
    assert CartTotal(c[..1], catalog) == 6000;
    FailedFinalisationBreaksTotals([], [], u, None, c, catalog);
  }

  /**
   The item loop without writing: the OrderItems for every cart entry and
   their total, or `complete == false` at the first missing product.
   */
  method CollectOrderItems(cart: seq<Entry>, catalog: Catalog, id: OrderId)
    returns (pending: seq<OrderItem>, total: Paise, complete: bool)
    ensures complete <==> FirstMissing(cart, catalog) == |cart|
    ensures complete ==>
      AllPresent(cart, catalog) && pending == OrderItemsFor(id, cart, catalog) && total == CartTotal(cart, catalog)
  {
    pending, total := [], 0;
    var i := 0;
    while i < |cart|
      invariant 0 <= i <= |cart|
      invariant AllPresent(cart[..i], catalog)
      invariant pending == OrderItemsFor(id, cart[..i], catalog)
      invariant total == CartTotal(cart[..i], catalog)
    {
      var e := cart[i];
      if e.id !in catalog {
        FirstMissingAt(cart, catalog, i);
        return pending, total, false;
      }
      ExtendByPresent(cart, i, catalog, id);
      var price := catalog[e.id].price;
      total := total + price * e.quantity;
      pending := pending + [OrderItem(id, e.id, e.quantity, price)];
      i := i + 1;
    }
    assert cart[..i] == cart;
    FirstMissingAt(cart, catalog, i);
    complete := true;
  }

  /**
   `payment_success` with the Order and its items written all at once: when
   a product lookup fails nothing is written and the cart is kept; every
   order's total stays the sum of its items.
   */
  method PaymentSuccessAtomic(session: Session, db: Database, catalog: Catalog, user: Option<UserId>, paymentId: Option<string>)
    returns (r: SuccessOutcome)
    requires db.Valid() && session.Valid() && ValidCatalog(catalog)
    modifies session, db
    ensures db.Valid()
    ensures db.reviews == old(db.reviews) && db.saved == old(db.saved)
    ensures !Truthy(old(session.cart)) ==> r == RedirectHome
    ensures !r.OrderPlaced? ==> unchanged(session) && unchanged(db)
    ensures Truthy(old(session.cart)) && (user.None? || old(session.cart).NotADict?) ==> r == FinalizeFailed
    ensures Truthy(old(session.cart)) && user.Some? && old(session.cart).Dict? ==>
      var c := old(session.cart).entries;
      var id := old(db.NextOrderId());
      && (FirstMissing(c, catalog) < |c| ==> r == FinalizeFailed)
      && (FirstMissing(c, catalog) == |c| ==>
            && r == OrderPlaced(Order(id, user.value, CartTotal(c, catalog), paymentId, Processing))
            && db.orders == old(db.orders) + [r.order]
            && db.orderItems == old(db.orderItems) + OrderItemsFor(id, c, catalog)
            && session.cart == Dict([]))
    ensures OrdersConsistent(old(db.orders), old(db.orderItems)) ==> OrdersConsistent(db.orders, db.orderItems)
  {
    if !Truthy(session.cart) {
      return RedirectHome;
    }
    if user.None? || session.cart.NotADict? {
      return FinalizeFailed;
    }
    var id := db.NextOrderId();
    var cart := session.cart.entries;
    var pending, total, complete := CollectOrderItems(cart, catalog, id);
    if !complete {
      return FinalizeFailed;
    }
    var order := Order(id, user.value, total, paymentId, Processing);
    db.orders := db.orders + [order];
    db.orderItems := db.orderItems + pending;
    session.cart := Dict([]);
    r := OrderPlaced(order);
    if OrdersConsistent(old(db.orders), old(db.orderItems)) {
      AppendOrderKeepsConsistency(old(db.orders), old(db.orderItems), order, cart, catalog);
    }
  }

  /**
   A whole purchase: cart {"3": 2}, product 3 "Tea" at 30.00, user 7.
   The cart resolves to 60.00, checkout sends one line of 2 × 3000 paise, and
   the success callback records Order 1 for 60.00 with one item and empties
   the cart.
   */
  method PurchaseScenario() returns (lines: seq<CheckoutLine>, order: Order, items: seq<OrderItem>, cartAfter: Stored)
    ensures lines == [CheckoutLine(Currency, "Tea", 3000, 2)]
    ensures order == Order(1, 7, 6000, Some("cs_1"), Processing)
    ensures items == [OrderItem(1, 3, 2, 3000)]
    ensures cartAfter == Dict([])
  {
    var catalog := map[3 := Product("Tea", 3000, "1 kg", "http://img/tea.png", 1)];
    var c := [Entry(3, 2)];
    assert c[..0] == [];
    assert CartTotal(c, catalog) == 6000;
    FirstMissingAt(c, catalog, 1);
    var session := new Session(Dict(c));
    var db := new Database();
    var checkout := CreateCheckoutSession(session, catalog, true, SessionCreated("https://pay.example/cs_1"));
    lines := checkout.lines;
    var done := PaymentSuccess(session, db, catalog, Some(7), Some("cs_1"));
    order := done.order;
    items := db.orderItems;
    cartAfter := session.cart;
  }
}

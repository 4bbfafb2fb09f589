/**
 * OrderServiceImpl: placing an order against the product catalog (stock check, stock decrement,
 * one line per requested item, subtotal, discount, total) and fetching an order by id.
 */
module Orders {
  import opened Common
  import opened Roles
  import opened Entities
  import opened Discount
  import opened Catalog

  /** OrderItemRequest: a product id and a quantity. */
  datatype ItemRequest = ItemRequest(productId: int, quantity: int)

  /** What placing a list of request lines produces: the updated catalog, the order lines and the subtotal. */
  datatype Placement = Placement(catalog: map<int, ProductData>, lines: seq<Line>, subtotal: int)

  /**
   * One iteration of createOrder's loop: find the product (not found fails), compare the stock
   * against the requested quantity (too little fails with the product's name, the requested and
   * the available quantity), decrease the stock and build the line at the product's unit price
   * with no line discount.
   */
  function PlaceLine(catalog: map<int, ProductData>, request: ItemRequest): (r: Result<(map<int, ProductData>, Line)>)
    ensures var id := request.productId;
      r.Ok? <==> id in catalog && !catalog[id].deleted && request.quantity <= catalog[id].quantity
    ensures var id := request.productId;
      (id !in catalog || catalog[id].deleted) ==> r == Err(NotFound("Product", "id", id))
    ensures var id := request.productId;
      id in catalog && !catalog[id].deleted && catalog[id].quantity < request.quantity ==>
        r == Err(InsufficientStock(catalog[id].name, request.quantity, catalog[id].quantity))
    ensures var id := request.productId;
      r.Ok? ==> (&& r.value.0.Keys == catalog.Keys
                 && (forall k :: k in catalog && k != id ==> r.value.0[k] == catalog[k])
                 && r.value.0[id].quantity == catalog[id].quantity - request.quantity
                 && r.value.1.unitPrice == catalog[id].price
                 && r.value.1.totalPrice == catalog[id].price * request.quantity)
  {
    match FindLive(catalog, request.productId)
    case Err(e) => Err(e)
    case Ok(p) =>
      if p.quantity < request.quantity then
        Err(InsufficientStock(p.name, request.quantity, p.quantity))
      else
        Ok((catalog[request.productId := p.(quantity := p.quantity - request.quantity)],
            Line(request.productId, request.quantity, p.price, 0, p.price * request.quantity)))
  }

  /** createOrder's loop over the request lines, in order; the first failing line's error ends it. */
  function PlaceLines(catalog: map<int, ProductData>, requests: seq<ItemRequest>): Result<Placement> {
    if requests == [] then Ok(Placement(catalog, [], 0))
    else
      match PlaceLines(catalog, requests[..|requests| - 1])
      case Err(e) => Err(e)
      case Ok(before) =>
        match PlaceLine(before.catalog, requests[|requests| - 1])
        case Err(e) => Err(e)
        case Ok(step) =>
          Ok(Placement(step.0, before.lines + [step.1], before.subtotal + step.1.totalPrice))
  }

  /** The total quantity of product `id` that a list of request lines asks for. */
  function QuantityFor(requests: seq<ItemRequest>, id: int): int {
    if requests == [] then 0
    else
      QuantityFor(requests[..|requests| - 1], id)
      + (if requests[|requests| - 1].productId == id then requests[|requests| - 1].quantity else 0)
  }

  /** The sum of the lines' totals. */
  function LineTotals(lines: seq<Line>): int {
    if lines == [] then 0 else LineTotals(lines[..|lines| - 1]) + lines[|lines| - 1].totalPrice
  }

  /** The item at position i can be served: its product is live and, counting this line and every earlier line for the same product, has enough stock. */
  predicate Serviceable(catalog: map<int, ProductData>, requests: seq<ItemRequest>, i: int)
    requires 0 <= i < |requests|
  {
    var id := requests[i].productId;
    id in catalog && !catalog[id].deleted && QuantityFor(requests[..i + 1], id) <= catalog[id].quantity
  }

  /** The error createOrder reports when line k is the first one that cannot be served. */
  function FailureAt(catalog: map<int, ProductData>, requests: seq<ItemRequest>, k: int): Error
    requires 0 <= k < |requests|
  {
    var id := requests[k].productId;
    if id !in catalog || catalog[id].deleted then NotFound("Product", "id", id)
    else InsufficientStock(catalog[id].name, requests[k].quantity, catalog[id].quantity - QuantityFor(requests[..k], id))
  }

  /** The catalog after every request line was served: each product loses what was asked of it. */
  ghost predicate StockDecreased(before: map<int, ProductData>, requests: seq<ItemRequest>, after: map<int, ProductData>) {
    && after.Keys == before.Keys
    && forall id :: id in before ==> after[id] == before[id].(quantity := before[id].quantity - QuantityFor(requests, id))
  }

  /** The lines of a placed order: in request order, at the catalog's unit price, with no line discount. */
  ghost predicate LinesFor(catalog: map<int, ProductData>, requests: seq<ItemRequest>, lines: seq<Line>) {
    && |lines| == |requests|
    && forall i :: 0 <= i < |requests| ==>
        && requests[i].productId in catalog
        && lines[i] == Line(requests[i].productId, requests[i].quantity, catalog[requests[i].productId].price,
                            0, catalog[requests[i].productId].price * requests[i].quantity)
  }

  /**
   * A successful placement leaves every product with its stock reduced by the quantity requested
   * of it, produces one line per request line at the product's price, and a subtotal equal to the
   * sum of the line totals.
   */
  lemma {:induction false} PlaceLinesResult(catalog: map<int, ProductData>, requests: seq<ItemRequest>)
    requires PlaceLines(catalog, requests).Ok?
    ensures StockDecreased(catalog, requests, PlaceLines(catalog, requests).value.catalog)
    ensures LinesFor(catalog, requests, PlaceLines(catalog, requests).value.lines)
    ensures PlaceLines(catalog, requests).value.subtotal == LineTotals(PlaceLines(catalog, requests).value.lines)
  {
    if requests != [] {
      var prefix, last := requests[..|requests| - 1], requests[|requests| - 1];
      PlaceLinesResult(catalog, prefix);
      var before := PlaceLines(catalog, prefix).value;
      var after := PlaceLines(catalog, requests).value;
      assert after.lines[..|after.lines| - 1] == before.lines;
      forall i | 0 <= i < |prefix|
        ensures requests[i] == prefix[i]
      {
      }
    }
  }

  /**
   * Serving one more line after a successful prefix: it succeeds exactly when that line is
   * serviceable against the original catalog, and fails with FailureAt otherwise.
   */
  lemma NextLine(catalog: map<int, ProductData>, prefix: seq<ItemRequest>, last: ItemRequest)
    requires PlaceLines(catalog, prefix).Ok?
    ensures var before := PlaceLines(catalog, prefix).value;
      && (PlaceLine(before.catalog, last).Ok? <==> Serviceable(catalog, prefix + [last], |prefix|))
      && (PlaceLine(before.catalog, last).Err? ==>
            PlaceLine(before.catalog, last).error == FailureAt(catalog, prefix + [last], |prefix|))
  {
    var requests := prefix + [last];
    assert requests[..|prefix| + 1] == requests && requests[..|prefix|] == prefix;
    assert requests[..|requests| - 1] == prefix && requests[|requests| - 1] == last;
    PlaceLinesResult(catalog, prefix);
    var before := PlaceLines(catalog, prefix).value;
    var id := last.productId;
    assert QuantityFor(requests, id) == QuantityFor(prefix, id) + last.quantity;
    if id in catalog {
      assert before.catalog[id] == catalog[id].(quantity := catalog[id].quantity - QuantityFor(prefix, id));
    }
  }

  /** PlaceLines on a request extended by one line, after a successful prefix. */
  lemma Snoc(catalog: map<int, ProductData>, prefix: seq<ItemRequest>, last: ItemRequest)
    requires PlaceLines(catalog, prefix).Ok?
    ensures var before := PlaceLines(catalog, prefix).value;
      PlaceLines(catalog, prefix + [last]) ==
        match PlaceLine(before.catalog, last)
        case Err(e) => Err(e)
        case Ok(step) => Ok(Placement(step.0, before.lines + [step.1], before.subtotal + step.1.totalPrice))
  {
    assert (prefix + [last])[..|prefix|] == prefix;
  }

  /** Placement succeeds exactly when every request line is serviceable. */
  lemma {:induction false} PlaceLinesSucceedsIff(catalog: map<int, ProductData>, requests: seq<ItemRequest>)
    ensures PlaceLines(catalog, requests).Ok? <==> forall i :: 0 <= i < |requests| ==> Serviceable(catalog, requests, i)
  {
    if requests != [] {
      var prefix, last := requests[..|requests| - 1], requests[|requests| - 1];
      assert requests == prefix + [last];
      PlaceLinesSucceedsIff(catalog, prefix);
      forall i | 0 <= i < |prefix|
        ensures Serviceable(catalog, requests, i) == Serviceable(catalog, prefix, i)
      {
        assert requests[..i + 1] == prefix[..i + 1];
      }
      if PlaceLines(catalog, prefix).Ok? {
        NextLine(catalog, prefix, last);
      }
    }
  }

  /** When line k is the first one that cannot be served, placement fails with FailureAt(k). */
  lemma PlaceLinesFirstFailure(catalog: map<int, ProductData>, requests: seq<ItemRequest>, k: int)
    requires 0 <= k < |requests|
    requires forall j :: 0 <= j < k ==> Serviceable(catalog, requests, j)
    requires !Serviceable(catalog, requests, k)
    ensures PlaceLines(catalog, requests) == Err(FailureAt(catalog, requests, k))
  {
    var prefix := requests[..k];
    var upTo := requests[..k + 1];
    assert upTo == prefix + [requests[k]];
    forall j | 0 <= j < k
      ensures Serviceable(catalog, prefix, j)
    {
      assert Serviceable(catalog, requests, j);
      assert prefix[j] == requests[j];
      assert prefix[..j + 1] == requests[..j + 1];
    }
    PlaceLinesSucceedsIff(catalog, prefix);
    NextLine(catalog, prefix, requests[k]);
    assert Serviceable(catalog, upTo, k) == Serviceable(catalog, requests, k) by {
      assert upTo[..k + 1] == requests[..k + 1];
    }
    assert FailureAt(catalog, upTo, k) == FailureAt(catalog, requests, k) by {
      assert upTo[..k] == requests[..k];
    }
    Snoc(catalog, prefix, requests[k]);
    FailurePropagates(catalog, upTo, requests[k + 1..]);
    assert upTo + requests[k + 1..] == requests;
  }

  /** A request whose line i fails, after a successful prefix, fails with that line's error. */
  lemma Abandon(catalog: map<int, ProductData>, requests: seq<ItemRequest>, i: int)
    requires 0 <= i < |requests| && PlaceLines(catalog, requests[..i + 1]).Err?
    ensures PlaceLines(catalog, requests) == PlaceLines(catalog, requests[..i + 1])
  {
    FailurePropagates(catalog, requests[..i + 1], requests[i + 1..]);
    assert requests[..i + 1] + requests[i + 1..] == requests;
  }

  /** Once a prefix of the request fails, the whole request fails with the same error. */
  lemma {:induction false} FailurePropagates(catalog: map<int, ProductData>, prefix: seq<ItemRequest>, rest: seq<ItemRequest>)
    requires PlaceLines(catalog, prefix).Err?
    ensures PlaceLines(catalog, prefix + rest) == PlaceLines(catalog, prefix)
  {
    if rest != [] {
      var shorter := rest[..|rest| - 1];
      FailurePropagates(catalog, prefix, shorter);
      assert (prefix + rest)[..|prefix + rest| - 1] == prefix + shorter;
      assert prefix + rest != [];
    } else {
      assert prefix + rest == prefix;
    }
  }

  /** Placement never drives a stock below zero: it only ever takes what is available. */
  lemma {:induction false} StockNeverNegative(catalog: map<int, ProductData>, requests: seq<ItemRequest>)
    requires forall id :: id in catalog ==> catalog[id].quantity >= 0
    requires PlaceLines(catalog, requests).Ok?
    ensures forall id :: id in PlaceLines(catalog, requests).value.catalog ==>
      PlaceLines(catalog, requests).value.catalog[id].quantity >= 0
  {
    if requests != [] {
      StockNeverNegative(catalog, requests[..|requests| - 1]);
    }
  }

  /** Placement touches no row other than the requested products, and never a name, price or deleted flag. */
  lemma PlacementOnlyChangesStock(catalog: map<int, ProductData>, requests: seq<ItemRequest>, id: int)
    requires PlaceLines(catalog, requests).Ok? && id in catalog
    ensures var after := PlaceLines(catalog, requests).value.catalog;
      && id in after
      && after[id].name == catalog[id].name && after[id].price == catalog[id].price
      && after[id].description == catalog[id].description && after[id].deleted == catalog[id].deleted
      && ((forall i :: 0 <= i < |requests| ==> requests[i].productId != id) ==> after[id] == catalog[id])
  {
    PlaceLinesResult(catalog, requests);
    QuantityForAbsent(requests, id);
  }

  lemma {:induction false} QuantityForAbsent(requests: seq<ItemRequest>, id: int)
    ensures (forall i :: 0 <= i < |requests| ==> requests[i].productId != id) ==> QuantityFor(requests, id) == 0
  {
    if requests != [] {
      QuantityForAbsent(requests[..|requests| - 1], id);
    }
  }

  /** OrderResponse (without timestamps and product names): the order's id, owner, lines and totals. */
  datatype OrderResponse = OrderResponse(id: int, userId: int, username: string, items: seq<Line>,
                                         orderTotal: int, totalDiscount: int)

  /** The orders table and the service operations on it. */
  class OrderService {
    const catalog: ProductStore
    /** The discount strategies the calculator was configured with. */
    const rules: seq<Rule>
    var orders: map<int, Order>
    var nextOrderId: int

    ghost predicate Valid()
      reads this, catalog
    {
      && catalog.Valid()
      && (forall id :: id in orders ==> id < nextOrderId)
    }

    constructor (catalog: ProductStore, rules: seq<Rule>)
      requires catalog.Valid()
      ensures Valid() && this.catalog == catalog && this.rules == rules && orders == map[]
    {
      this.catalog := catalog;
      this.rules := rules;
      orders := map[];
      nextOrderId := 1;
    }

    /** OrderServiceImpl.mapToResponse(order), for the order stored under `id`. */
    function MapToResponse(id: int, order: Order): (r: OrderResponse)
      reads order
    {
      OrderResponse(id, order.user.id, order.user.username, order.Lines(), order.orderTotal, order.totalDiscount)
    }

    /**
     * OrderServiceImpl.getOrderById(orderId): the order, for an administrator or for the user who
     * placed it; anybody else is told that it does not exist.
     */
    function GetOrderById(caller: Identity, orderId: int): (r: Result<OrderResponse>)
      reads this, orders.Values
      ensures r.Ok? <==> orderId in orders && (caller.role == Admin || orders[orderId].user.username == caller.username)
      ensures r.Ok? ==> r.value == MapToResponse(orderId, orders[orderId])
      ensures r.Err? ==> r.error == NotFound("Order", "id", orderId)
    {
      if orderId !in orders then Err(NotFound("Order", "id", orderId))
      else if caller.role != Admin && orders[orderId].user.username != caller.username then
        Err(NotFound("Order", "id", orderId))
      else Ok(MapToResponse(orderId, orders[orderId]))
    }

    /**
     * The body of createOrder's loop for one request line: getProduct, the stock check,
     * decreaseQuantity and saveProduct, then the new line is built and added to the order.
     * It does what PlaceLine says and reports the line it added.
     */
    method ServeLine(order: Order, line: ItemRequest) returns (r: Result<Line>)
      requires catalog.Valid()
      modifies catalog, order
      ensures catalog.Valid() && catalog.nextId == old(catalog.nextId) && order.user == old(order.user)
      ensures match PlaceLine(old(catalog.products), line)
        case Err(e) =>
          && r == Err(e)
          && catalog.products == old(catalog.products) && catalog.saved == old(catalog.saved)
          && order.Lines() == old(order.Lines())
        case Ok(step) =>
          && r == Ok(step.1)
          && catalog.products == step.0 && catalog.saved == old(catalog.saved) + [line.productId]
          && order.Lines() == old(order.Lines()) + [step.1]
    {
      var found := catalog.GetProduct(line.productId);
      if found.Err? {
        return Err(found.error);
      }
      var product := new Product.Load(line.productId, found.value);
      if product.quantity < line.quantity {
        return Err(InsufficientStock(product.name, line.quantity, product.quantity));
      }
      var decreased := product.DecreaseQuantity(line.quantity);
      catalog.SaveProduct(product);
      var totalPrice := product.price * line.quantity;
      var item := new OrderItem(Line(line.productId, line.quantity, product.price, 0, totalPrice));
      order.AddItem(item);
      r := Ok(item.Values());
    }

    /**
     * The for loop of createOrder: serve the request lines in order, adding their lines to
     * `order`, and return the subtotal. It stops at the first line that fails; the changes made so
     * far are then undone by the caller's rollback.
     */
    method PlaceItems(order: Order, request: seq<ItemRequest>) returns (r: Result<int>)
      requires catalog.Valid()
      modifies catalog, order
      ensures catalog.Valid() && catalog.nextId == old(catalog.nextId) && order.user == old(order.user)
      ensures r.Ok? <==> PlaceLines(old(catalog.products), request).Ok?
      ensures r.Err? ==> r.error == PlaceLines(old(catalog.products), request).error
      ensures r.Ok? ==>
        var placed := PlaceLines(old(catalog.products), request).value;
        && catalog.products == placed.catalog && r.value == placed.subtotal
        && order.Lines() == old(order.Lines()) + placed.lines
        && catalog.saved == old(catalog.saved) + ProductIds(request)
    {
      var snapshot := catalog.products;
      var subtotal := 0;
      var i := 0;
      ghost var placed := Placement(snapshot, [], 0);
      while i < |request|
        invariant 0 <= i <= |request|
        invariant catalog.Valid() && catalog.nextId == old(catalog.nextId) && order.user == old(order.user)
        invariant PlaceLines(snapshot, request[..i]) == Ok(placed)
        invariant catalog.products == placed.catalog && subtotal == placed.subtotal
        invariant order.Lines() == old(order.Lines()) + placed.lines
        invariant catalog.saved == old(catalog.saved) + ProductIds(request[..i])
      {
        var line := request[i];
        assert request[..i + 1] == request[..i] + [line];
        Snoc(snapshot, request[..i], line);
        var served := ServeLine(order, line);
        if served.Err? {
          Abandon(snapshot, request, i);
          return Err(served.error);
        }
        subtotal := subtotal + served.value.totalPrice;
        placed := Placement(catalog.products, placed.lines + [served.value], subtotal);
        assert ProductIds(request[..i + 1]) == ProductIds(request[..i]) + [line.productId] by {
          assert request[..i + 1][..i] == request[..i];
        }
        i := i + 1;
      }
      assert request[..i] == request;
      r := Ok(subtotal);
    }

    /**
     * OrderServiceImpl.createOrder(request) for the logged-in `user`: build an empty order for the
     * user, place the request lines (see PlaceLines), apply the discount calculator to the subtotal,
     * set the totals and save the order. Any failure rolls the transaction back: the catalog is as
     * before and no order is saved.
     */
    method CreateOrder(user: Identity, request: seq<ItemRequest>) returns (r: Result<OrderResponse>)
      requires Valid()
      modifies this, catalog
      ensures Valid() && catalog.nextId == old(catalog.nextId)
      ensures r.Ok? <==> PlaceLines(old(catalog.products), request).Ok?
      ensures r.Err? ==>
        && r.error == PlaceLines(old(catalog.products), request).error
        && catalog.products == old(catalog.products) && catalog.saved == old(catalog.saved)
        && orders == old(orders) && nextOrderId == old(nextOrderId)
      ensures r.Ok? ==>
        var placed := PlaceLines(old(catalog.products), request).value;
        var discount := TotalDiscount(rules, placed.subtotal, user.role);
        && catalog.products == placed.catalog
        && catalog.saved == old(catalog.saved) + ProductIds(request)
        && old(nextOrderId) !in old(orders) && nextOrderId == old(nextOrderId) + 1
        && old(nextOrderId) in orders && orders == old(orders)[old(nextOrderId) := orders[old(nextOrderId)]]
        && fresh(orders[old(nextOrderId)])
        && r.value == OrderResponse(old(nextOrderId), user.id, user.username, placed.lines,
                                    placed.subtotal - discount, discount)
        && r.value == MapToResponse(old(nextOrderId), orders[old(nextOrderId)])
    {
      var snapshot, savedBefore := catalog.products, catalog.saved;
      var order := new Order(user);
      var placed := PlaceItems(order, request);
      if placed.Err? {
        catalog.Rollback(snapshot, savedBefore);
        return Err(placed.error);
      }
      var subtotal := placed.value;
      var discount := TotalDiscount(rules, subtotal, user.role);
      order.totalDiscount := discount;
      order.orderTotal := subtotal - discount;
      var id := nextOrderId;
      orders := orders[id := order];
      nextOrderId := nextOrderId + 1;
      r := Ok(MapToResponse(id, order));
    }
  }

  /** The product ids of the request lines, in order: the ids createOrder passes to saveProduct. */
  function ProductIds(requests: seq<ItemRequest>): seq<int> {
    if requests == [] then [] else ProductIds(requests[..|requests| - 1]) + [requests[|requests| - 1].productId]
  }

  /** One save per request line, in request order, of that line's product. */
  lemma {:induction false} ProductIdsPointwise(requests: seq<ItemRequest>)
    ensures |ProductIds(requests)| == |requests|
    ensures forall i :: 0 <= i < |requests| ==> ProductIds(requests)[i] == requests[i].productId
  {
    if requests != [] {
      var prefix := requests[..|requests| - 1];
      ProductIdsPointwise(prefix);
      assert forall i :: 0 <= i < |prefix| ==> prefix[i] == requests[i];
    }
  }
}

/** Properties of placed orders: totals, and the scenarios of the service's test suite. */
module OrderProperties {
  import opened Common
  import opened Roles
  import opened Entities
  import opened Discount
  import opened Orders
  import opened Money

  /** With non-negative prices and quantities the subtotal is non-negative. */
  lemma {:induction false} SubtotalNonNegative(catalog: map<int, ProductData>, requests: seq<ItemRequest>)
    requires forall id :: id in catalog ==> catalog[id].price >= 0
    requires forall i :: 0 <= i < |requests| ==> requests[i].quantity >= 0
    requires PlaceLines(catalog, requests).Ok?
    ensures PlaceLines(catalog, requests).value.subtotal >= 0
  {
    if requests != [] {
      var prefix := requests[..|requests| - 1];
      assert forall i :: 0 <= i < |prefix| ==> prefix[i] == requests[i];
      SubtotalNonNegative(catalog, prefix);
      var before := PlaceLines(catalog, prefix).value;
      PlaceLinesResult(catalog, prefix);
      var last := requests[|requests| - 1];
      var step := PlaceLine(before.catalog, last).value;
      assert last.productId in catalog;
      assert before.catalog[last.productId].price == catalog[last.productId].price;
      MulNonNegative(catalog[last.productId].price, last.quantity);
      assert PlaceLines(catalog, requests).value.subtotal == before.subtotal + step.1.totalPrice;
    }
  }

  /**
   * With the test suite's discount configuration, an order of non-negative prices and quantities
   * is charged between nothing and its subtotal.
   */
  lemma OrderTotalWithinSubtotal(catalog: map<int, ProductData>, requests: seq<ItemRequest>, role: UserRole)
    requires forall id :: id in catalog ==> catalog[id].price >= 0
    requires forall i :: 0 <= i < |requests| ==> requests[i].quantity >= 0
    requires PlaceLines(catalog, requests).Ok?
    ensures var subtotal := PlaceLines(catalog, requests).value.subtotal;
      0 <= subtotal - TotalDiscount(TestRules, subtotal, role) <= subtotal
  {
    SubtotalNonNegative(catalog, requests);
    TestConfigurationWithinSubtotal(PlaceLines(catalog, requests).value.subtotal, role);
  }

  const TestProduct := ProductData("Test Product", "Test Description", 10000, 10, false)
  const TestCatalog := map[1 := TestProduct]

  /** Two units of a product priced 100.00 with stock 10: one line of 200.00, stock now 8. */
  lemma CreateOrderScenario()
    ensures PlaceLines(TestCatalog, [ItemRequest(1, 2)])
         == Ok(Placement(map[1 := TestProduct.(quantity := 8)], [Line(1, 2, 10000, 0, 20000)], 20000))
    ensures TotalDiscount(TestRules, 20000, User) == 0
  {
    assert [ItemRequest(1, 2)][..0] == [];
    assert TestCatalog[1 := TestProduct.(quantity := 8)] == map[1 := TestProduct.(quantity := 8)];
    assert [] + [Line(1, 2, 10000, 0, 20000)] == [Line(1, 2, 10000, 0, 20000)];
    TestConfigurationComposition(20000, User);
  }

  /** Asking for two units of a product with one in stock fails with the product's name and both quantities. */
  lemma InsufficientStockScenario()
    ensures PlaceLines(map[1 := TestProduct.(name := "Low Stock Product", quantity := 1)], [ItemRequest(1, 2)])
         == Err(InsufficientStock("Low Stock Product", 2, 1))
  {
    assert [ItemRequest(1, 2)][..0] == [];
  }

  /** Ordering a product that does not exist fails with "not found" for its id. */
  lemma ProductNotFoundScenario()
    ensures PlaceLines(TestCatalog, [ItemRequest(999, 2)]) == Err(NotFound("Product", "id", 999))
  {
    assert [ItemRequest(999, 2)][..0] == [];
  }

  /** Two lines for the same product see each other's decrement: 6 + 6 of a stock of 10 fails at the second line, with 4 available. */
  lemma RepeatedProductScenario()
    ensures PlaceLines(TestCatalog, [ItemRequest(1, 6), ItemRequest(1, 6)])
         == Err(InsufficientStock("Test Product", 6, 4))
  {
    var requests := [ItemRequest(1, 6), ItemRequest(1, 6)];
    assert requests[..1] == [ItemRequest(1, 6)];
    assert [ItemRequest(1, 6)][..0] == [];
    assert PlaceLine(TestCatalog, ItemRequest(1, 6)).Ok?;
    assert PlaceLines(TestCatalog, []) == Ok(Placement(TestCatalog, [], 0));
    var first := PlaceLines(TestCatalog, [ItemRequest(1, 6)]);
    assert first.Ok? && first.value.catalog == TestCatalog[1 := TestProduct.(quantity := 4)];
  }

  /** A premium user's order of 2 x 300.00: subtotal 600.00, discount 60.00 + 30.00, total 510.00. */
  lemma PremiumOrderScenario()
    ensures var catalog := map[7 := ProductData("Laptop", "", 30000, 5, false)];
      && PlaceLines(catalog, [ItemRequest(7, 2)]).Ok?
      && PlaceLines(catalog, [ItemRequest(7, 2)]).value.subtotal == 60000
      && TotalDiscount(TestRules, 60000, PremiumUser) == 9000
      && 60000 - TotalDiscount(TestRules, 60000, PremiumUser) == 51000
  {
    assert [ItemRequest(7, 2)][..0] == [];
    TestConfigurationExamples();
  }
}

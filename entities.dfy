/** The JPA entities the order path changes: Product, OrderItem and Order. */
module Entities {
  import opened Common
  import opened Roles

  /** The persistent state of a product: its row in the products table (prices in cents). */
  datatype ProductData = ProductData(name: string, description: string, price: int, quantity: int, deleted: bool)
  {
    /** Product.isAvailable(): in stock and not soft-deleted. */
    predicate IsAvailable() {
      quantity > 0 && !deleted
    }
  }

  /** The Product entity, loaded from its row and changed in place. */
  class Product {
    var id: int
    var name: string
    var description: string
    var price: int
    var quantity: int
    var deleted: bool

    /** The entity that findById materialises from a row. */
    constructor Load(id: int, row: ProductData)
      ensures this.id == id && Data() == row
    {
      this.id := id;
      name, description, price, quantity, deleted := row.name, row.description, row.price, row.quantity, row.deleted;
    }

    function Data(): ProductData
      reads this
    {
      ProductData(name, description, price, quantity, deleted)
    }

    /**
     * Product.decreaseQuantity(amount): fails with IllegalStateException when the stock is below
     * the amount, otherwise subtracts it. No other field changes.
     */
    method DecreaseQuantity(amount: int) returns (r: Outcome)
      modifies this
      ensures r.Pass? <==> old(quantity) >= amount
      ensures r.Pass? ==> quantity == old(quantity) - amount
      ensures r.Fail? ==>
        quantity == old(quantity) && r.error == IllegalState("Insufficient stock for product: " + name)
      ensures Data() == old(Data()).(quantity := quantity) && id == old(id)
      ensures old(quantity) >= 0 ==> quantity >= 0
    {
      if quantity < amount {
        return Fail(IllegalState("Insufficient stock for product: " + name));
      }
      quantity := quantity - amount;
      r := Pass;
    }
  }

  /** The values an order line holds: what was bought, at what unit price, for what total. */
  datatype Line = Line(productId: int, quantity: int, unitPrice: int, discountApplied: int, totalPrice: int)

  /**
   * An order line. Its values are fixed when it is built; only the back-reference to its order
   * is changed afterwards, by Order.addItem and Order.removeItem.
   */
  class OrderItem {
    const productId: int
    const quantity: int
    const unitPrice: int
    const discountApplied: int
    const totalPrice: int
    var order: Order?

    constructor (line: Line)
      ensures Values() == line && order == null
    {
      productId, quantity, unitPrice := line.productId, line.quantity, line.unitPrice;
      discountApplied, totalPrice := line.discountApplied, line.totalPrice;
      order := null;
    }

    function Values(): Line {
      Line(productId, quantity, unitPrice, discountApplied, totalPrice)
    }
  }

  /** Lombok's equals on OrderItem: the same values and the same order. */
  predicate SameItem(a: OrderItem, b: OrderItem)
    reads a, b
  {
    a.Values() == b.Values() && a.order == b.order
  }

  /** The position List.remove(Object) removes: the first element equal to x, or |xs| if there is none. */
  function IndexOfEqual(xs: seq<OrderItem>, x: OrderItem): (k: nat)
    reads x, set y | y in xs
    ensures k <= |xs|
    ensures k < |xs| ==> SameItem(xs[k], x)
    ensures forall j :: 0 <= j < k ==> !SameItem(xs[j], x)
  {
    if xs == [] then 0
    else if SameItem(xs[0], x) then 0
    else 1 + IndexOfEqual(xs[1..], x)
  }

  /** The lines of a list of order items, in list order. */
  function LinesOf(items: seq<OrderItem>): (r: seq<Line>)
    ensures |r| == |items|
    ensures forall i :: 0 <= i < |items| ==> r[i] == items[i].Values()
  {
    if items == [] then [] else [items[0].Values()] + LinesOf(items[1..])
  }

  /** The Order entity: its owner, its lines in insertion order and its totals (cents). */
  class Order {
    var user: Identity
    var items: seq<OrderItem>
    var orderTotal: int
    var totalDiscount: int

    /** OrderServiceImpl.buildOrder(user): an order of this user with no items. */
    constructor (user: Identity)
      ensures this.user == user && items == []
      ensures orderTotal == 0 && totalDiscount == 0
    {
      this.user := user;
      items := [];
      orderTotal, totalDiscount := 0, 0;
    }

    function Lines(): seq<Line>
      reads this
    {
      LinesOf(items)
    }

    /** Order.addItem(item): append the item and point it at this order. */
    method AddItem(item: OrderItem)
      modifies this, item
      ensures items == old(items) + [item] && item.order == this
      ensures Lines() == old(Lines()) + [item.Values()]
      ensures user == old(user) && orderTotal == old(orderTotal) && totalDiscount == old(totalDiscount)
    {
      items := items + [item];
      item.order := this;
    }

    /** Order.removeItem(item): remove the first equal item, if any, and clear the item's order. */
    method RemoveItem(item: OrderItem)
      modifies this, item
      ensures var k := old(IndexOfEqual(items, item));
        items == if k < |old(items)| then old(items)[..k] + old(items)[k + 1..] else old(items)
      ensures item.order == null
      ensures user == old(user) && orderTotal == old(orderTotal) && totalDiscount == old(totalDiscount)
    {
      var k := IndexOfEqual(items, item);
      if k < |items| {
        items := items[..k] + items[k + 1..];
      }
      item.order := null;
    }
  }

  /** Appending an item no element is equal to, then removing it, gives back the original list. */
  lemma {:induction false} RemoveAppended(xs: seq<OrderItem>, x: OrderItem)
    requires forall j :: 0 <= j < |xs| ==> !SameItem(xs[j], x)
    ensures IndexOfEqual(xs + [x], x) == |xs|
  {
    if xs != [] {
      assert (xs + [x])[1..] == xs[1..] + [x];
      RemoveAppended(xs[1..], x);
    }
  }

  /**
   * On an order holding no item equal to the new one (once it points at the order),
   * addItem followed by removeItem of the same item restores the original list.
   */
  method AddThenRemove(order: Order, item: OrderItem)
    requires item !in order.items
    requires forall j :: 0 <= j < |order.items| ==>
      !(order.items[j].Values() == item.Values() && order.items[j].order == order)
    modifies order, item
    ensures order.items == old(order.items) && item.order == null
  {
    order.AddItem(item);
    RemoveAppended(old(order.items), item);
    order.RemoveItem(item);
  }
}

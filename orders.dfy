/** The cart and order handlers (controllers/cartController.js,
    controllers/orderController.js) over one store: the single cart, the order
    collection in storage order, and the log of events emitted to connected
    clients. Every handler is one sequential step that answers with an HTTP
    status code. */
module Orders {
  import opened Seqs
  import opened Cart
  import opened OrderModel
  import opened Accounts

  /** What `io.emit` publishes. */
  datatype Event = OrderUpdated(order: Order) | OrderDeleted(id: OrderId)

  function IdOf(o: Order): int {
    o.id
  }

  /** The query filter `{ user: u }`. */
  function PlacedBy(u: UserId): Order -> bool {
    (o: Order) => o.user == Some(u)
  }

  /** Its complement: the orders a `deleteMany({ user: u })` leaves behind. */
  function NotPlacedBy(u: UserId): Order -> bool {
    (o: Order) => o.user != Some(u)
  }

  /** The query filter `{ _id: id }`. */
  function HasId(id: OrderId): Order -> bool {
    (o: Order) => o.id == id
  }

  /** `findById`: the position of the order with that id. */
  function FindOrder(orders: seq<Order>, id: OrderId): Option<nat> {
    FindFirst(HasId(id), orders)
  }

  /** A purge by user spares every other user's orders, in their order. */
  lemma {:induction false} PurgeSparesOthers(orders: seq<Order>, u: UserId, v: UserId)
    requires u != v
    ensures Filter(PlacedBy(v), Filter(NotPlacedBy(u), orders)) == Filter(PlacedBy(v), orders)
  {
    if orders != [] {
      PurgeSparesOthers(orders[1..], u, v);
      if NotPlacedBy(u)(orders[0]) {
        assert ([orders[0]] + Filter(NotPlacedBy(u), orders[1..]))[1..] == Filter(NotPlacedBy(u), orders[1..]);
      }
    }
  }

  /** After a purge by user, none of that user's orders is left. */
  lemma {:induction false} PurgeLeavesNoneOf(orders: seq<Order>, u: UserId)
    ensures Filter(PlacedBy(u), Filter(NotPlacedBy(u), orders)) == []
  {
    if orders != [] {
      PurgeLeavesNoneOf(orders[1..], u);
      if NotPlacedBy(u)(orders[0]) {
        assert ([orders[0]] + Filter(NotPlacedBy(u), orders[1..]))[1..] == Filter(NotPlacedBy(u), orders[1..]);
      }
    }
  }

  /** Taking one order out keeps ids increasing and keeps no id that was not there. */
  lemma RemoveAtKeepsIncreasing(orders: seq<Order>, i: nat)
    requires i < |orders| && StrictlyIncreasing(IdOf, orders)
    ensures StrictlyIncreasing(IdOf, orders[..i] + orders[i + 1..])
    ensures forall o :: o in orders[..i] + orders[i + 1..] ==> o in orders
  {
    var rest := orders[..i] + orders[i + 1..];
    forall a, b | 0 <= a < b < |rest| ensures rest[a].id < rest[b].id {
      var a', b' := if a < i then a else a + 1, if b < i then b else b + 1;
      assert rest[a] == orders[a'] && rest[b] == orders[b'];
    }
  }

  class Store {
    var cart: Option<seq<CartItem>>
    var orders: seq<Order>
    var events: seq<Event>
    var nextId: OrderId

    /** Order ids are fresh when issued: they increase along storage order and
        stay below the next one to be issued. */
    ghost predicate Valid()
      reads this
    {
      && StrictlyIncreasing(IdOf, orders)
      && forall i :: 0 <= i < |orders| ==> orders[i].id < nextId
    }

    constructor (cart: Option<seq<CartItem>>)
      ensures Valid()
      ensures this.cart == cart && orders == [] && events == []
    {
      this.cart := cart;
      orders := [];
      events := [];
      nextId := 0;
    }

    // ----- cartController.js -----

    /** getAllCartItems: the items of the cart, or 500 when there is no cart. */
    method GetAllCartItems() returns (code: int, data: Option<seq<CartItem>>)
      ensures cart.None? ==> code == 500 && data.None?
      ensures cart.Some? ==> code == 200 && data == cart
    {
      if cart.None? {
        return 500, None;
      }
      return 200, cart;
    }

    /** addItemToCart: appends the request item unchecked; 400 without a cart. */
    method AddItemToCart(item: CartItem) returns (code: int, data: Option<seq<CartItem>>)
      modifies this`cart
      ensures old(cart).None? ==> code == 400 && data.None? && cart.None?
      ensures old(cart).Some? ==> code == 201 && data == cart
      ensures old(cart).Some? ==> cart.Some? && |cart.value| == |old(cart).value| + 1
      ensures old(cart).Some? ==> cart.value[..|old(cart).value|] == old(cart).value
      ensures old(cart).Some? ==> cart.value[|old(cart).value|] == item
    {
      if cart.None? {
        return 400, None;
      }
      cart := Some(cart.value + [item]);
      return 201, cart;
    }

    /** removeItemFromCart: keeps the items whose id differs from `itemId`;
        500 without a cart. */
    method RemoveItemFromCart(itemId: ItemId) returns (code: int, data: Option<seq<CartItem>>)
      modifies this`cart
      ensures old(cart).None? ==> code == 500 && data.None? && cart.None?
      ensures old(cart).Some? ==> code == 200 && data == cart
      ensures old(cart).Some? ==> cart == Some(WithoutItem(old(cart).value, itemId))
    {
      if cart.None? {
        return 500, None;
      }
      cart := Some(WithoutItem(cart.value, itemId));
      return 200, cart;
    }

    /** clearCart: empties the cart; 500 without a cart. */
    method ClearCart() returns (code: int, data: Option<seq<CartItem>>)
      modifies this`cart
      ensures old(cart).None? ==> code == 500 && data.None? && cart.None?
      ensures old(cart).Some? ==> code == 200 && cart == Some([]) && data == cart
    {
      if cart.None? {
        return 500, None;
      }
      cart := Some([]);
      return 200, cart;
    }

    // ----- orderController.js -----

    /** placeOrder. `cartFound` says whether the lookup of the caller's cart hits
        the cart; `cartWriteFails` whether the store rejects the second write
        (emptying the cart) after the order was saved. */
    method PlaceOrder(user: UserId, total: Option<int>, cartFound: bool, cartWriteFails: bool)
      returns (code: int, placed: Option<Order>)
      requires Valid()
      modifies this`cart, this`orders, this`events, this`nextId
      ensures Valid()
      // no cart: 404, nothing changes
      ensures !cartFound || old(cart).None? ==>
        code == 404 && placed.None? && unchanged(this)
      // empty cart: 400, nothing changes
      ensures cartFound && old(cart) == Some([]) ==>
        code == 400 && placed.None? && unchanged(this)
      // an item without product: the order save fails, nothing changes
      ensures cartFound && old(cart).Some? && old(cart).value != [] &&
              NewOrder(old(nextId), old(cart).value, total, user).None? ==>
        code == 500 && placed.None? && unchanged(this)
      // the order is saved first, with a fresh id
      ensures cartFound && old(cart).Some? && old(cart).value != [] &&
              NewOrder(old(nextId), old(cart).value, total, user).Some? ==>
        && orders == old(orders) + [NewOrder(old(nextId), old(cart).value, total, user).value]
        && (forall i :: 0 <= i < |old(orders)| ==> old(orders)[i].id != old(nextId))
      // then the cart is emptied and the order announced, unless that write fails
      ensures cartFound && old(cart).Some? && old(cart).value != [] &&
              NewOrder(old(nextId), old(cart).value, total, user).Some? ==>
        if cartWriteFails then
          code == 500 && placed.None? && cart == old(cart) && events == old(events)
        else
          && code == 201
          && placed == NewOrder(old(nextId), old(cart).value, total, user)
          && cart == Some([])
          && events == old(events) + [OrderUpdated(placed.value)]
    {
      var found := if cartFound then cart else None;
      if found.None? {
        return 404, None;
      }
      var items := found.value;
      if |items| == 0 {
        return 400, None;
      }
      var built := NewOrder(nextId, items, total, user);
      if built.None? {
        return 500, None;
      }
      var order := built.value;
      orders := orders + [order];
      nextId := nextId + 1;
      if cartWriteFails {
        return 500, None;
      }
      cart := Some([]);
      events := events + [OrderUpdated(order)];
      return 201, Some(order);
    }

    /** getOrders: the caller's orders, in storage order. */
    method GetOrders(user: UserId) returns (code: int, data: seq<Order>)
      ensures code == 200
      ensures forall i :: 0 <= i < |data| ==> data[i].user == Some(user) && data[i] in orders
      ensures forall i :: 0 <= i < |orders| && orders[i].user == Some(user) ==> orders[i] in data
      ensures data == Filter(PlacedBy(user), orders)
    {
      return 200, Filter(PlacedBy(user), orders);
    }

    /** getAllOrders: every order, in storage order. */
    method GetAllOrders() returns (code: int, data: seq<Order>)
      ensures code == 200 && data == orders
    {
      return 200, orders;
    }

    /** updateOrderStatus: any value of the enum is accepted, from any status;
        404 for an unknown id, 500 when the value fails the enum validator. */
    method UpdateOrderStatus(orderId: OrderId, status: string) returns (code: int, updated: Option<Order>)
      requires Valid()
      modifies this`orders, this`events
      ensures Valid()
      ensures FindOrder(old(orders), orderId).None? ==>
        code == 404 && updated.None? && unchanged(this)
      ensures FindOrder(old(orders), orderId).Some? && ParseStatus(status).None? ==>
        code == 500 && updated.None? && unchanged(this)
      ensures FindOrder(old(orders), orderId).Some? && ParseStatus(status).Some? ==>
        var i := FindOrder(old(orders), orderId).value;
        && code == 200
        && orders == old(orders)[i := old(orders)[i].(status := ParseStatus(status).value)]
        && updated == Some(orders[i])
        && events == old(events) + [OrderUpdated(orders[i])]
    {
      var found := FindOrder(orders, orderId);
      if found.None? {
        return 404, None;
      }
      var target := ParseStatus(status);
      if target.None? {
        return 500, None;
      }
      var i := found.value;
      var order := orders[i].(status := target.value);
      orders := orders[i := order];
      assert forall k :: 0 <= k < |orders| ==> orders[k].id == old(orders)[k].id;
      events := events + [OrderUpdated(order)];
      return 200, Some(order);
    }

    /** updatePaymentStatus: changes only the payment status, whatever the
        order status is. */
    method UpdatePaymentStatus(orderId: OrderId, status: string) returns (code: int, updated: Option<Order>)
      requires Valid()
      modifies this`orders, this`events
      ensures Valid()
      ensures FindOrder(old(orders), orderId).None? ==>
        code == 404 && updated.None? && unchanged(this)
      ensures FindOrder(old(orders), orderId).Some? && ParsePayment(status).None? ==>
        code == 500 && updated.None? && unchanged(this)
      ensures FindOrder(old(orders), orderId).Some? && ParsePayment(status).Some? ==>
        var i := FindOrder(old(orders), orderId).value;
        && code == 200
        && orders == old(orders)[i := old(orders)[i].(paymentStatus := ParsePayment(status).value)]
        && updated == Some(orders[i])
        && events == old(events) + [OrderUpdated(orders[i])]
    {
      var found := FindOrder(orders, orderId);
      if found.None? {
        return 404, None;
      }
      var target := ParsePayment(status);
      if target.None? {
        return 500, None;
      }
      var i := found.value;
      var order := orders[i].(paymentStatus := target.value);
      orders := orders[i := order];
      assert forall k :: 0 <= k < |orders| ==> orders[k].id == old(orders)[k].id;
      events := events + [OrderUpdated(order)];
      return 200, Some(order);
    }

    /** deleteOrder: removes the order and announces its id; 404 for an unknown id. */
    method DeleteOrder(orderId: OrderId) returns (code: int, deleted: Option<Order>)
      requires Valid()
      modifies this`orders, this`events
      ensures Valid()
      ensures FindOrder(old(orders), orderId).None? ==>
        code == 404 && deleted.None? && unchanged(this)
      ensures FindOrder(old(orders), orderId).Some? ==>
        var i := FindOrder(old(orders), orderId).value;
        && code == 200
        && deleted == Some(old(orders)[i])
        && orders == old(orders)[..i] + old(orders)[i + 1..]
        && events == old(events) + [OrderDeleted(orderId)]
    {
      var found := FindOrder(orders, orderId);
      if found.None? {
        return 404, None;
      }
      var i := found.value;
      var order := orders[i];
      RemoveAtKeepsIncreasing(orders, i);
      orders := orders[..i] + orders[i + 1..];
      events := events + [OrderDeleted(orderId)];
      return 200, Some(order);
    }

    /** `Order.deleteMany({ user: u })`, the purge step of the archive. */
    method DeleteOrdersOf(u: UserId)
      requires Valid()
      modifies this`orders
      ensures Valid()
      ensures orders == Filter(NotPlacedBy(u), old(orders))
    {
      FilterKeepsIncreasing(IdOf, NotPlacedBy(u), orders);
      orders := Filter(NotPlacedBy(u), orders);
    }
  }
}

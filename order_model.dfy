/** The order document (models/orderModel.js): its two enums, its defaults, and
    what saving a freshly built order accepts. */
module OrderModel {
  import opened Seqs
  import opened Cart
  import opened Accounts

  type OrderId = nat

  /** The values the `status` enum admits. */
  datatype OrderStatus = Pending | Started | Ready | Delivered | Cancelled

  function StatusName(s: OrderStatus): string {
    match s
    case Pending => "Pending"
    case Started => "Started"
    case Ready => "Ready"
    case Delivered => "Delivered"
    case Cancelled => "Cancelled"
  }

  /** The enum validator run on save: a string is accepted exactly when it is
      the name of one of the five statuses. */
  function ParseStatus(name: string): (r: Option<OrderStatus>)
    ensures r.Some? ==> StatusName(r.value) == name
    ensures r.None? ==> forall s: OrderStatus :: StatusName(s) != name
  {
    if name == "Pending" then Some(Pending)
    else if name == "Started" then Some(Started)
    else if name == "Ready" then Some(Ready)
    else if name == "Delivered" then Some(Delivered)
    else if name == "Cancelled" then Some(Cancelled)
    else None
  }

  /** The values the `paymentStatus` enum admits; the second is spelt with a space. */
  datatype PaymentStatus = Paid | NotPaid

  function PaymentName(p: PaymentStatus): string {
    match p
    case Paid => "Paid"
    case NotPaid => "Not Paid"
  }

  function ParsePayment(name: string): (r: Option<PaymentStatus>)
    ensures r.Some? ==> PaymentName(r.value) == name
    ensures r.None? ==> forall p: PaymentStatus :: PaymentName(p) != name
  {
    if name == "Paid" then Some(Paid)
    else if name == "Not Paid" then Some(NotPaid)
    else None
  }

  /** Every status name parses back to its status, so no two statuses share a name. */
  lemma StatusNamesRoundTrip(s: OrderStatus)
    ensures ParseStatus(StatusName(s)) == Some(s)
  {
  }

  lemma PaymentNamesRoundTrip(p: PaymentStatus)
    ensures ParsePayment(PaymentName(p)) == Some(p)
  {
  }

  /** Schema defaults. */
  const DefaultPayment: PaymentStatus := NotPaid
  const DefaultQuantity: int := 1
  const DefaultTotal: int := 0

  /** A stored order line: the product reference is required, the quantity
      is required with default 1 and has no lower bound. */
  datatype OrderItem = OrderItem(product: ProductId, quantity: int)

  datatype Order = Order(
    id: OrderId,
    products: seq<OrderItem>,
    totalMoney: int,
    status: OrderStatus,
    paymentStatus: PaymentStatus,
    user: Option<UserId>)

  /** The object `{product: item.product, quantity: item.quantity}` built from a
      cart item before the schema casts it. */
  datatype ItemDraft = ItemDraft(product: Option<ProductId>, quantity: Option<int>)

  /** The `cart.items.map(...)` of placeOrder. */
  function Snapshot(items: seq<CartItem>): (r: seq<ItemDraft>)
    ensures |r| == |items|
    ensures forall i :: 0 <= i < |items| ==>
      r[i].product == items[i].product && r[i].quantity == items[i].quantity
  {
    if items == [] then []
    else [ItemDraft(items[0].product, items[0].quantity)] + Snapshot(items[1..])
  }

  function QuantityOrDefault(q: Option<int>): int {
    if q.Some? then q.value else DefaultQuantity
  }

  /** Casting the drafts to order lines: rejected as soon as one lacks its
      product; a missing quantity takes the default. */
  function CastItems(ds: seq<ItemDraft>): (r: Option<seq<OrderItem>>)
    ensures r.Some? <==> forall i :: 0 <= i < |ds| ==> ds[i].product.Some?
    ensures r.Some? ==> |r.value| == |ds|
    ensures r.Some? ==> forall i :: 0 <= i < |ds| ==>
      r.value[i].product == ds[i].product.value &&
      r.value[i].quantity == QuantityOrDefault(ds[i].quantity)
  {
    if ds == [] then Some([])
    else if ds[0].product.None? then None
    else match CastItems(ds[1..])
      case None => None
      case Some(rest) =>
        Some([OrderItem(ds[0].product.value, QuantityOrDefault(ds[0].quantity))] + rest)
  }

  /** `new Order({...})` followed by `order.save()` in placeOrder: the order built
      from the cart items, the request's total and the caller; `None` when the
      save is rejected. */
  function NewOrder(id: OrderId, items: seq<CartItem>, total: Option<int>, user: UserId): (r: Option<Order>)
    ensures r.Some? <==> forall i :: 0 <= i < |items| ==> items[i].product.Some?
    ensures r.Some? ==>
      && r.value.id == id
      && r.value.status == Pending
      && r.value.paymentStatus == NotPaid
      && r.value.user == Some(user)
      && r.value.totalMoney == (if total.Some? then total.value else DefaultTotal)
      && |r.value.products| == |items|
      && forall i :: 0 <= i < |items| ==>
           r.value.products[i].product == items[i].product.value &&
           r.value.products[i].quantity == QuantityOrDefault(items[i].quantity)
  {
    match CastItems(Snapshot(items))
    case None => None
    case Some(lines) =>
      Some(Order(id, lines, if total.Some? then total.value else DefaultTotal,
                 Pending, DefaultPayment, Some(user)))
  }

  /** The total is the request's figure, whatever the prices of the items: two
      carts that differ only in prices yield the same order. */
  lemma TotalIgnoresPrices(id: OrderId, a: seq<CartItem>, b: seq<CartItem>, total: Option<int>, user: UserId)
    requires |a| == |b|
    requires forall i :: 0 <= i < |a| ==> a[i].product == b[i].product && a[i].quantity == b[i].quantity
    ensures NewOrder(id, a, total, user) == NewOrder(id, b, total, user)
  {
    var ra, rb := NewOrder(id, a, total, user), NewOrder(id, b, total, user);
    assert ra.Some? <==> rb.Some?;
    if ra.Some? {
      assert ra.value.products == rb.value.products;
    }
  }
}

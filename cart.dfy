/** The cart document (models/cartModel.js) and the pure part of the cart
    handlers: which items survive `removeItemFromCart`. The handlers themselves
    change the one cart in place and live on `Orders.Store`. */
module Cart {
  import opened Seqs

  /** The subdocument id of a cart item, as `item.id` reads it. */
  type ItemId = nat
  type ProductId = nat

  /** A cart item. The schema declares caption, img, price and quantity, none of
      them required; it declares no product field, so the product reference is
      optional here (and absent whenever the schema's strict mode strips it). */
  datatype CartItem = CartItem(
    id: ItemId,
    caption: Option<string>,
    img: Option<string>,
    price: Option<int>,
    quantity: Option<int>,
    product: Option<ProductId>)

  /** The filter callback `item => item.id !== itemId`. */
  function IdIsNot(itemId: ItemId): CartItem -> bool {
    (item: CartItem) => item.id != itemId
  }

  /** The items `removeItemFromCart` keeps. */
  function WithoutItem(items: seq<CartItem>, itemId: ItemId): (r: seq<CartItem>)
    ensures forall i :: 0 <= i < |r| ==> r[i].id != itemId && r[i] in items
    ensures forall i :: 0 <= i < |items| && items[i].id != itemId ==> items[i] in r
  {
    Filter(IdIsNot(itemId), items)
  }

  /** Removing an id no item carries leaves the items as they were. */
  lemma RemoveAbsentIsIdentity(items: seq<CartItem>, itemId: ItemId)
    requires forall i :: 0 <= i < |items| ==> items[i].id != itemId
    ensures WithoutItem(items, itemId) == items
  {
    FilterKeepsAll(IdIsNot(itemId), items);
  }

  /** Removing the same id twice is removing it once. */
  lemma RemoveTwiceIsRemoveOnce(items: seq<CartItem>, itemId: ItemId)
    ensures WithoutItem(WithoutItem(items, itemId), itemId) == WithoutItem(items, itemId)
  {
    FilterIdempotent(IdIsNot(itemId), items);
  }

  /** Removal keeps relative order: removing from a concatenation removes from
      each part and concatenates the survivors in the same order. */
  lemma RemoveKeepsOrder(front: seq<CartItem>, back: seq<CartItem>, itemId: ItemId)
    ensures WithoutItem(front + back, itemId) == WithoutItem(front, itemId) + WithoutItem(back, itemId)
  {
    FilterAppend(IdIsNot(itemId), front, back);
  }
}

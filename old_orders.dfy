/** The order archive (controllers/oldOrderController.js over
    models/oldOrderModel.js): moving a user's current orders into the archive,
    and the archive's listings. */
module OldOrders {
  import opened Seqs
  import opened OrderModel
  import opened Accounts
  import opened Orders

  /** An archived order: the products and total of an order, and its owner. */
  datatype OldOrder = OldOrder(products: seq<OrderItem>, totalMoney: int, user: UserId)

  /** The query filter `{ user: u }` on the archive. */
  function OwnedBy(u: UserId): OldOrder -> bool {
    (e: OldOrder) => e.user == u
  }

  /** The archive entry built from the first of a user's current orders. */
  function ArchiveEntry(first: Order, user: UserId): OldOrder {
    OldOrder(first.products, first.totalMoney, user)
  }

  /** The per-user reversed listing holds the user's entries, newest first:
      it is the reversed archive narrowed to the user. */
  lemma UserListingIsNarrowedReverse(entries: seq<OldOrder>, u: UserId)
    ensures Reversed(Filter(OwnedBy(u), entries)) == Filter(OwnedBy(u), Reversed(entries))
  {
    FilterReversed(OwnedBy(u), entries);
  }

  class Archive {
    var entries: seq<OldOrder>

    constructor ()
      ensures entries == []
    {
      entries := [];
    }

    /** addOrder: archives the first of the caller's current orders, then
        deletes all of them. With no current order, `order[0]` throws and the
        answer is 500 with nothing changed. `purgeFails` says whether the store
        rejects the deletion after the archive entry was saved. */
    method AddOrder(store: Store, user: UserId, purgeFails: bool) returns (code: int, added: Option<OldOrder>)
      requires store.Valid()
      modifies this, store`orders
      ensures store.Valid()
      ensures Filter(PlacedBy(user), old(store.orders)) == [] ==>
        code == 500 && added.None? && entries == old(entries) && store.orders == old(store.orders)
      ensures Filter(PlacedBy(user), old(store.orders)) != [] ==>
        entries == old(entries) + [ArchiveEntry(Filter(PlacedBy(user), old(store.orders))[0], user)]
      ensures Filter(PlacedBy(user), old(store.orders)) != [] ==>
        if purgeFails then
          code == 500 && added.None? && store.orders == old(store.orders)
        else
          && code == 201
          && added == Some(ArchiveEntry(Filter(PlacedBy(user), old(store.orders))[0], user))
          && store.orders == Filter(NotPlacedBy(user), old(store.orders))
    {
      var mine := Filter(PlacedBy(user), store.orders);
      if |mine| == 0 {
        return 500, None;
      }
      var entry := ArchiveEntry(mine[0], user);
      entries := entries + [entry];
      if purgeFails {
        return 500, None;
      }
      store.DeleteOrdersOf(user);
      return 201, Some(entry);
    }

    /** getOrders: the caller's archived orders, in storage order. */
    method GetOrders(user: UserId) returns (code: int, data: seq<OldOrder>)
      ensures code == 200
      ensures forall i :: 0 <= i < |data| ==> data[i].user == user && data[i] in entries
      ensures forall i :: 0 <= i < |entries| && entries[i].user == user ==> entries[i] in data
      ensures data == Filter(OwnedBy(user), entries)
    {
      return 200, Filter(OwnedBy(user), entries);
    }

    /** getAllOrders: the caller's archived orders, newest first. */
    method GetAllOrders(user: UserId) returns (code: int, data: seq<OldOrder>)
      ensures code == 200
      ensures data == Filter(OwnedBy(user), Reversed(entries))
    {
      var mine := Filter(OwnedBy(user), entries);
      UserListingIsNarrowedReverse(entries, user);
      return 200, Reversed(mine);
    }

    /** getAllOrdersOfAllUser: the whole archive, newest first. */
    method GetAllOrdersOfAllUser() returns (code: int, data: seq<OldOrder>)
      ensures code == 200
      ensures |data| == |entries|
      ensures forall k :: 0 <= k < |entries| ==> data[k] == entries[|entries| - 1 - k]
    {
      return 200, Reversed(entries);
    }
  }
}

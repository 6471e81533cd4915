/** The logistics consumer (services/logistics-service/internal/consumer/consumer.go), which creates a
    shipment when an order is confirmed, unless its lookup finds one. Handlers run one at a time. */
module ShipmentConsumer {
  type OrderId = nat

  datatype OrderStatus = Confirmed | Other(name: string)

  /** One `order.status_changed` event, with what the handler meets on the way: whether the lookup
      answers, and whether a shipment can be created at all. */
  datatype Delivery = Delivery(order: OrderId, newStatus: OrderStatus, lookupWorks: bool, createWorks: bool)

  /** The orders of the shipments in the table, in order of creation. */
  type Table = seq<OrderId>

  function Count(table: Table, order: OrderId): nat {
    multiset(table)[order]
  }

  class Consumer {
    var shipments: Table

    constructor ()
      ensures shipments == []
    {
      shipments := [];
    }

    method HandleOrderStatusChanged(d: Delivery)
      modifies this
      ensures shipments == After(old(shipments), d)
    {
      if d.newStatus != Confirmed {
        return;
      }
      if d.lookupWorks {
        var existing := FindByOrderID(d.order);
        if existing > 0 {
          return;
        }
      }
      if !d.createWorks {
        return;
      }
      shipments := shipments + [d.order];
    }

    /** The number of shipments found, at most 16. */
    method FindByOrderID(order: OrderId) returns (found: nat)
      ensures found == if Count(shipments, order) < 16 then Count(shipments, order) else 16
    {
      found := 0;
      for i := 0 to |shipments|
        invariant found == if Count(shipments[..i], order) < 16 then Count(shipments[..i], order) else 16
      {
        assert shipments[..i + 1] == shipments[..i] + [shipments[i]];
        if shipments[i] == order && found < 16 {
          found := found + 1;
        }
      }
      assert shipments[..|shipments|] == shipments;
    }
  }

  /** The table after one event has been handled. */
  function After(table: Table, d: Delivery): Table {
    if d.newStatus == Confirmed && (d.lookupWorks ==> Count(table, d.order) == 0) && d.createWorks
    then table + [d.order]
    else table
  }

  function AfterAll(table: Table, ds: seq<Delivery>): Table {
    if ds == [] then table else After(AfterAll(table, ds[..|ds| - 1]), ds[|ds| - 1])
  }

  /** Confirmations of the order that were handled while the lookup failed. */
  function BlindConfirmations(ds: seq<Delivery>, order: OrderId): nat {
    if ds == [] then 0
    else
      var last := ds[|ds| - 1];
      BlindConfirmations(ds[..|ds| - 1], order) +
      if last.order == order && last.newStatus == Confirmed && !last.lookupWorks then 1 else 0
  }

  /** From any table, however often an order is confirmed again, every shipment beyond the first, or
      beyond those it had, is owed to a lookup that failed. */
  lemma {:induction false} ExtraShipmentsAreBlind(table: Table, ds: seq<Delivery>, order: OrderId)
    ensures Count(AfterAll(table, ds), order) <=
            (if Count(table, order) == 0 then 1 else Count(table, order)) + BlindConfirmations(ds, order)
  {
    if ds != [] { ExtraShipmentsAreBlind(table, ds[..|ds| - 1], order); }
  }

  /** A confirmation of the order for which a shipment could be created. */
  predicate Creates(ds: seq<Delivery>, order: OrderId) {
    exists d | d in ds :: d.order == order && d.newStatus == Confirmed && d.createWorks
  }

  /** With successful lookups, and from any table: an order that has shipments keeps exactly those, and
      one that has none gets one exactly when some confirmation met a working creation. */
  lemma {:induction false} OneShipmentPerOrder(table: Table, ds: seq<Delivery>, order: OrderId)
    requires forall d | d in ds && d.order == order :: d.lookupWorks
    ensures Count(AfterAll(table, ds), order) ==
            if Count(table, order) > 0 then Count(table, order) else if Creates(ds, order) then 1 else 0
  {
    if ds != [] {
      var before, last := ds[..|ds| - 1], ds[|ds| - 1];
      OneShipmentPerOrder(table, before, order);
      assert ds == before + [last];
    }
  }

  /** Exactly when a handler adds a second shipment: the lookup failed and creation works. */
  lemma DuplicateExactly(table: Table, d: Delivery)
    requires d.newStatus == Confirmed && Count(table, d.order) > 0
    ensures Count(After(table, d), d.order) == Count(table, d.order) + 1 <==> !d.lookupWorks && d.createWorks
  {
  }
}

/**
 * The HTTP endpoints of the API that change or filter purchase orders: the
 * acknowledge endpoint, the list filter by vendor, and the update of a
 * purchase order with its delivery-date guard.
 */
module Views {
  import opened Wrappers
  import opened Orders
  import Models
  import Performance

  const HTTP_200_OK := 200
  const HTTP_400_BAD_REQUEST := 400

  const NO_SUCH_ORDER := "No po order with this ide ."
  const ACKNOWLEDGED := "Purchase Order acknowledged successfully"
  const MISSING_PO_ID := "Missing po_id in request data"
  const INVALID_DATE_FORMAT := "Invalid date format for delivery date."
  const NOT_ACKNOWLEDGED := "Purchase Order must be acknowledged before updating delivery date."
  const DATE_BEFORE_ACK := "New delivery date must be equal to or greater than the acknowledgment date."

  /** The exception that escapes a call of the date parser with no string to parse. */
  const TYPE_ERROR := "TypeError"

  /**
   * What an endpoint produces: a response with a `detail` message, the
   * serialized purchase order after a successful update, the 404 response
   * of a failed lookup, or an exception that escapes the view.
   */
  datatype Response =
    | Reply(status: int, detail: string)
    | Serialized(status: int, order: PurchaseOrder)
    | NotFound
    | Raised(exception: string)

  /** The verdict of the delivery-date guard. */
  datatype Decision =
    | Write(deliveryDate: Timestamp)
    | Reject(detail: string)
    | Raise(exception: string)

  /**
   * The checks of a delivery-date update, in the order the view makes them:
   * the new date must parse (a missing field is handed to the parser and
   * raises instead of being rejected), the order must have been
   * acknowledged, and the new date must not be earlier than the
   * acknowledgment date. `parse` stands for the library date parser with
   * the fixed format `%Y-%m-%dT%H:%M:%SZ`.
   */
  function DeliveryDateGuard(ack: Option<Timestamp>, field: Option<string>, parse: string -> Option<Timestamp>): (d: Decision)
    ensures d.Write? <==> field.Some? && parse(field.value).Some? && ack.Some? && ack.value <= parse(field.value).value
    ensures d.Write? ==> d.deliveryDate == parse(field.value).value
    ensures d.Raise? <==> field.None?
    ensures d.Raise? ==> d.exception == TYPE_ERROR
    ensures d == Reject(INVALID_DATE_FORMAT) <==> field.Some? && parse(field.value).None?
    ensures d == Reject(NOT_ACKNOWLEDGED) <==> field.Some? && parse(field.value).Some? && ack.None?
    ensures d == Reject(DATE_BEFORE_ACK) <==>
      field.Some? && parse(field.value).Some? && ack.Some? && parse(field.value).value < ack.value
  {
    match field
    case None => Raise(TYPE_ERROR)
    case Some(text) =>
      match parse(text)
      case None => Reject(INVALID_DATE_FORMAT)
      case Some(date) =>
        if ack.None? then Reject(NOT_ACKNOWLEDGED)
        else if date < ack.value then Reject(DATE_BEFORE_ACK)
        else Write(date)
  }

  /** A delivery date equal to the acknowledgment date is accepted; one a second earlier is not. */
  lemma DateOrderingBoundary(ack: Timestamp, text: string, parse: string -> Option<Timestamp>)
    requires parse(text).Some?
    ensures parse(text).value == ack ==> DeliveryDateGuard(Some(ack), Some(text), parse) == Write(ack)
    ensures parse(text).value == ack - 1 ==> DeliveryDateGuard(Some(ack), Some(text), parse) == Reject(DATE_BEFORE_ACK)
  {
  }

  /**
   * The purchase-order list: every order, or, with a `vendor_id` query
   * parameter, exactly the orders of that vendor. An absent
   * or empty parameter is `None`.
   */
  function ListPurchaseOrders(db: Models.Database, vendorId: Option<VendorId>): (r: seq<PurchaseOrder>)
    reads db
    ensures vendorId.None? ==> r == db.orders
    ensures vendorId.Some? ==> forall po :: po in r <==> po in db.orders && po.vendor == vendorId.value
  {
    match vendorId
    case None => db.orders
    case Some(v) => OrdersOfMembers(db.orders, v); OrdersOf(db.orders, v)
  }

  /**
   * The acknowledge endpoint, with the `pod_id` of its route (`None` when the
   * view is reached by one of the vendor routes, which carry no `pod_id`). The
   * route names no vendor: the order is looked up among all orders and
   * acknowledged through its own vendor. An id of 0 is looked up like any
   * other, but it is falsy and answered as a missing id.
   */
  method AcknowledgeEndpoint(db: Models.Database, podId: Option<OrderId>, now: Timestamp) returns (resp: Response)
    requires db.Valid()
    modifies db
    modifies db.vendors.Values`onTimeDeliveryRate, db.vendors.Values`qualityRatingAvg
    modifies db.vendors.Values`averageResponseTime, db.vendors.Values`fulfillmentRate
    ensures db.Valid() && db.vendors == old(db.vendors)
    ensures podId.None? || OwnerOf(old(db.orders), podId.value).None? ==>
      resp == Reply(HTTP_400_BAD_REQUEST, NO_SUCH_ORDER) && db.orders == old(db.orders) && unchanged(db.vendors.Values)
    ensures podId == Some(0) && OwnerOf(old(db.orders), 0).Some? ==>
      resp == Reply(HTTP_400_BAD_REQUEST, MISSING_PO_ID) && db.orders == old(db.orders) && unchanged(db.vendors.Values)
    ensures resp == Reply(HTTP_200_OK, ACKNOWLEDGED) <==>
      podId.Some? && podId.value != 0 && OwnerOf(old(db.orders), podId.value).Some?
    ensures resp == Reply(HTTP_200_OK, ACKNOWLEDGED) ==>
      && db.orders == Acknowledge(old(db.orders), podId.value, now)
      && var owner := OwnerOf(old(db.orders), podId.value).value;
      && db.vendors[owner].GetPerformanceMetrics() == Models.Reported(Performance.Compute(OrdersOf(db.orders, owner)))
      && forall w :: w in db.vendors && w != owner ==> unchanged(db.vendors[w])
    ensures old(db.Synced()) ==> db.Synced()
  {
    if podId.None? {
      return Reply(HTTP_400_BAD_REQUEST, NO_SUCH_ORDER);
    }
    var id := podId.value;
    var k := Find(db.orders, id);
    if k.None? {
      return Reply(HTTP_400_BAD_REQUEST, NO_SUCH_ORDER);
    }
    if id == 0 {
      return Reply(HTTP_400_BAD_REQUEST, MISSING_PO_ID);
    }
    var owner := db.orders[k.value].vendor;
    var vendor := db.vendors[owner];
    assert forall w :: w in db.vendors && w != owner ==> db.vendors[w] != vendor by {
      forall w | w in db.vendors && w != owner ensures db.vendors[w] != vendor {
        assert db.vendors[w].id == w;
      }
    }
    var r := vendor.AcknowledgePurchaseOrder(db, id, now);
    assert r.Pass?;
    resp := Reply(HTTP_200_OK, ACKNOWLEDGED);
  }

  /**
   * The update endpoint for the purchase order with primary key `pk`: a
   * missing order is not found; otherwise the guard decides, and only a
   * `Write` verdict runs the standard update, which saves the order with its
   * new delivery date (recalculating its vendor) and returns it serialized.
   * Every other verdict leaves the database as it was.
   */
  method UpdatePurchaseOrder(db: Models.Database, pk: OrderId, field: Option<string>,
                             parse: string -> Option<Timestamp>, now: Timestamp) returns (resp: Response)
    requires db.Valid()
    modifies db
    modifies db.vendors.Values`onTimeDeliveryRate, db.vendors.Values`qualityRatingAvg
    modifies db.vendors.Values`averageResponseTime, db.vendors.Values`fulfillmentRate
    ensures db.Valid() && db.vendors == old(db.vendors)
    ensures Find(old(db.orders), pk).None? ==>
      resp == NotFound && db.orders == old(db.orders) && unchanged(db.vendors.Values)
    ensures Find(old(db.orders), pk).Some? ==>
      var i := Find(old(db.orders), pk).value;
      var po := old(db.orders)[i];
      match DeliveryDateGuard(po.acknowledgmentDate, field, parse)
      case Write(date) =>
        && resp == Serialized(HTTP_200_OK, po.(deliveryDate := Some(date)))
        && db.orders == old(db.orders)[i := po.(deliveryDate := Some(date))]
        && db.vendors[po.vendor].GetPerformanceMetrics() == Models.Reported(Performance.Compute(OrdersOf(db.orders, po.vendor)))
        && forall w :: w in db.vendors && w != po.vendor ==> unchanged(db.vendors[w])
      case Reject(detail) =>
        resp == Reply(HTTP_400_BAD_REQUEST, detail) && db.orders == old(db.orders) && unchanged(db.vendors.Values)
      case Raise(exception) =>
        resp == Raised(exception) && db.orders == old(db.orders) && unchanged(db.vendors.Values)
    ensures old(db.Synced()) ==> db.Synced()
  {
    var k := Find(db.orders, pk);
    if k.None? {
      return NotFound;
    }
    var instance := db.orders[k.value];
    match DeliveryDateGuard(instance.acknowledgmentDate, field, parse)
    case Raise(exception) =>
      resp := Raised(exception);
    case Reject(detail) =>
      resp := Reply(HTTP_400_BAD_REQUEST, detail);
    case Write(date) =>
      var updated := instance.(deliveryDate := Some(date));
      db.SavePurchaseOrder(updated, now);
      resp := Serialized(HTTP_200_OK, updated);
  }
}

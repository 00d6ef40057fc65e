# Vendor performance metrics — a Dafny model

This project models the core of a Django vendor-management service. Vendors
receive purchase orders. Each vendor stores four performance metrics:

- on-time delivery rate;
- quality rating average;
- average response time;
- fulfilment rate.

The metrics are recalculated from the vendor's purchase orders whenever one
of them is saved or deleted. A vendor acknowledges an order, which stamps its
acknowledgment date. An update endpoint guards changes of an order's delivery
date.

Modules:

- `Wrappers`: `Option` (a nullable column or optional request field) and
  `Outcome` (an operation that completes or raises).
- `Aggregates`: `COUNT` and `SUM` under a filter (`CountWhere`, `SumWhere`)
  over a sequence, with their algebra. This covers the count as the size of
  the filtered index set, concatenation, removal of one element, invariance
  under permutation, congruence, and bounds on a mean.
- `Orders`: the purchase-order record and the table operations. These are
  the per-vendor filter (a vendor's related set), lookup by primary key,
  insert-or-update with creation timestamps, delete, and acknowledgement of
  one row.
- `Performance`: the four metric formulas as functions of a vendor's orders,
  and lemmas stating what each one means.
- `Models`: the `Vendor` class (four nullable metric fields rewritten in place
  by the recalculator, its acknowledge method) and the `Database` class (the
  order table and the vendors). The `Database` class includes the save and
  delete of a purchase order, each followed by the recalculation hook. The
  invariant `Synced` says that every vendor's stored metrics are the formulas
  over its current orders.
- `Views`: the acknowledge endpoint, the list filter, and the update endpoint
  with its delivery-date guard.

Modelling choices:

- **Timestamps** are whole seconds (`int`).
- **Arithmetic** is exact (`real`).
- **`now` and the date parser are parameters.** The current time (`now`) is
  passed in. `parse: string -> Option<Timestamp>` stands for
  `datetime.strptime` with the fixed format.
- **On-time filter.** It compares `delivery_date` with itself
  (`delivery_date <= delivery_date`). Under SQL semantics a comparison with
  NULL is unknown and the row is dropped. So a completed order counts as on
  time exactly when it has a delivery date (`Performance.IsOnTime`,
  `Performance.OnTimeIsDelivered`).
- **Response time.** Each response time is `((ack - issue) % 86400) / 3600`
  hours. This is the `seconds` field of a Python `timedelta`: the within-day
  remainder, never negative. Dafny's `%` with a positive divisor gives the
  same value as Python's.
- **Creation dates.** `order_date` and `issue_date` are set automatically on
  insert (`auto_now_add`). They are therefore stamped with `now` on insert
  and kept on every later save (`Orders.Upsert`).
- **Acknowledge endpoint id.** The `pod_id` route parameter is `None` when
  the view is reached by a route without it. The lookup then fails and the
  answer is "No po order with this ide .". An id of 0 is found like any
  other, but it is falsy, so the answer is "Missing po_id in request data".
- **Update guard order.** The guard checks the date format first, then the
  acknowledgement, then the date ordering.
- **Missing delivery date.** A request without `delivery_date` passes `None`
  to `strptime`. That raises `TypeError`, which the view does not catch, so
  it is not turned into a 400 (`Raise(TYPE_ERROR)`).

The model takes these decisions, each as the views and models behave
rather than as a reader of the endpoint's names might expect:

- The update guard checks the date format before the acknowledgement, so an
  unacknowledged order with a malformed date gets the format error.
- Acknowledging again overwrites the acknowledgment date
  (`Orders.AcknowledgeOverwrites`); nothing makes it set-once.
- The acknowledge endpoint answers an unknown order with 400, not 404. Its
  route (url.py:10) names no vendor: the order is looked up among all orders
  and acknowledged through its own vendor (views.py:30,35). The vendor
  routes reach the same view without a `pod_id` and get the same 400.

## Model

| member | source | states |
|---|---|---|
| Aggregates.CountIsCardinality | vendorapp/models.py:25 | COUNT(*) of a filtered set is the size of the set of indices whose row passes the filter |
| Aggregates.PermutationInvariant | vendorapp/models.py:24-25 | a filtered count and sum depend only on the multiset of rows, not on the order the table lists them |
| Aggregates.MeanWhereBounds | vendorapp/models.py:32 | the mean of values that all lie in [lo, hi] lies in [lo, hi], and the mean times the count is the sum |
| Orders.OrdersOf | vendorapp/models.py:24 | a vendor's related set `purchaseorder_set`, as a filter of the table; it is never longer than the table, and `Orders.OrdersOfMembers` states which rows it holds |
| Orders.OrdersOfMembers | vendorapp/models.py:24 | a vendor's related set holds exactly the orders whose foreign key is that vendor |
| Orders.Find | vendorapp/models.py:70 | lookup by primary key: a found index holds that key; when nothing is found no row has it |
| Orders.Upsert | vendorapp/models.py:78-88 | the row-level save with the `auto_now_add` stamping of the order and issue dates; its meaning is stated by `Orders.UpsertMeaning`, `Orders.UpsertValid` and `Orders.UpsertOthers` |
| Orders.UpsertMeaning | vendorapp/models.py:76-90 | after a save the row is stored under its key; the creation dates are `now` on insert and kept on update; all other rows stay |
| Orders.UpsertValid | vendorapp/models.py:76-90 | a save keeps primary keys unique and every vendor reference valid |
| Orders.UpsertOthers | vendorapp/models.py:87-90 | a save changes the orders of no vendor other than the saved order's vendor and the row's previous owner |
| Orders.Remove | vendorapp/models.py:114-118 | a delete keeps keys unique, removes exactly the row with that key, and shortens the table by one iff the key existed |
| Orders.RemoveOthers | vendorapp/models.py:114-118 | a delete changes the orders of no vendor other than the owner of the deleted row |
| Orders.Acknowledge | vendorapp/models.py:69-73 | acknowledging sets the acknowledgment date to `now` on exactly the row with that id; every other row is unchanged |
| Orders.AcknowledgeOverwrites | vendorapp/models.py:71-72 | acknowledging the same row twice leaves only the second date |
| Performance.ResponseHours | vendorapp/models.py:37 | one response time, `((ack - issue) mod 86400) / 3600`, lies in [0, 86399/3600], below 24 hours |
| Performance.OnTimeIsDelivered | vendorapp/models.py:26 | under SQL NULL semantics, a row passes `delivery_date <= delivery_date` iff it is completed and its delivery date is not null |
| Performance.OnTimeDeliveryRate | vendorapp/models.py:23-28 | the on-time delivery rate formula; `Performance.OnTimeDeliveryRateMeaning` proves what it means |
| Performance.QualityRatingAvg | vendorapp/models.py:30-33 | the quality rating average formula; `Performance.QualityRatingAvgMeaning` proves what it means |
| Performance.AverageResponseTime | vendorapp/models.py:35-40 | the average response time formula; `Performance.AverageResponseTimeMeaning` proves what it means |
| Performance.FulfillmentRate | vendorapp/models.py:42-47 | the fulfilment rate formula; `Performance.FulfillmentRateMeaning` proves what it means |
| Performance.Compute | vendorapp/models.py:49-53 | the four metrics the recalculator assigns; `Performance.ComputeIgnoresOrder` and `Performance.NoOrdersAllZero` state what holds of them together |
| Performance.OnTimeDeliveryRateMeaning | vendorapp/models.py:23-28 | on-time rows ⊆ completed rows; the rate lies in [0, 100]; it is 0 without completed orders and otherwise 100·on-time/completed; it is 100 iff there are completed orders and all have a delivery date |
| Performance.QualityRatingAvgMeaning | vendorapp/models.py:30-33 | 0.0 without rated completed orders; otherwise the sum of their ratings over their count, within the bounds of those ratings |
| Performance.QualityIgnoresOpenOrders | vendorapp/models.py:31 | ratings of pending or canceled orders never affect the quality average |
| Performance.QualityExample | vendorapp/models.py:30-33 | ratings 4 and 5 on completed orders, an unrated completed order and a pending order rated 1 average to 4.5 |
| Performance.AverageResponseTimeMeaning | vendorapp/models.py:35-40 | the average lies in [0, 24); it is 0 without acknowledged orders and otherwise the sum of response times over their count |
| Performance.UnacknowledgedIgnored | vendorapp/models.py:36 | an order without acknowledgment date does not affect the average response time |
| Performance.FulfillmentRateMeaning | vendorapp/models.py:42-47 | the rate lies in [0, 100]; it is 0 without orders and otherwise 100·completed/total; it is 100 iff every order is completed |
| Performance.ComputeIgnoresOrder | vendorapp/models.py:23-47 | all four metrics depend only on the multiset of the vendor's orders |
| Models.Vendor.constructor | vendorapp/models.py:14-21 | a new vendor holds the given name, contact details and address, and all four metrics are null |
| Models.Vendor.GetPerformanceMetrics | vendorapp/models.py:56-62 | the lookup returns exactly the four stored metric fields |
| Models.Vendor.UpdatePerformanceMetrics | vendorapp/models.py:49-54 | the four fields become the formulas over the given orders, whatever they held before, so a second run changes nothing; only the metric fields may change |
| Models.Vendor.AcknowledgePurchaseOrder | vendorapp/models.py:69-73 | succeeds iff the order belongs to this vendor, and fails with DoesNotExist and no change otherwise; on success the table is the acknowledged table, this vendor's metrics are recalculated, and `Synced` is kept |
| Models.Database.CreateVendor | vendorapp/models.py:14-21 | a vendor under a new id has null metrics and no orders; `Synced` is kept |
| Models.Database.SavePurchaseOrder | vendorapp/models.py:87-90 | the table is the upserted table; the saved order's vendor holds the formulas over its new orders; every other vendor keeps its metrics; every vendor except a previous owner the order moved away from stays in sync |
| Models.Database.DeletePurchaseOrder | vendorapp/models.py:114-118 | the row is removed iff it existed; its owner holds the formulas over its remaining orders, and only its metric fields may change; every other vendor and its orders are unchanged; `Synced` is kept |
| Models.Database.RetrieveVendorPerformance | vendorapp/models.py:64-67 | no result iff there is no vendor with that id; otherwise that vendor's metrics lookup |
| Views.DeliveryDateGuard | vendorapp/api/views.py:57-74 | a write happens iff the field is present, parses, the order is acknowledged and the new date is not earlier than the acknowledgment date; a missing field raises TypeError; each 400 message is returned exactly in its case, with the format checked before the acknowledgement |
| Views.DateOrderingBoundary | vendorapp/api/views.py:71-72 | a delivery date equal to the acknowledgment date is accepted; one second earlier is rejected |
| Views.ListPurchaseOrders | vendorapp/api/views.py:46-51 | without `vendor_id`, every order; with it, exactly the orders of that vendor |
| Views.AcknowledgeEndpoint | vendorapp/api/views.py:25-39 | a missing or unknown id gives 400 "No po order with this ide ." and no change; id 0 gives 400 "Missing po_id in request data" and no change; 200 iff the id is known and non-zero, and then the order is acknowledged through its own vendor, which is recalculated; only its metric fields may change, and no other vendor changes |
| Views.UpdatePurchaseOrder | vendorapp/api/views.py:57-74 | an unknown key gives 404 and no change; a rejection or exception from the guard leaves the database unchanged; a write stores the order with the parsed delivery date, recalculates its vendor (only its metric fields may change), leaves every other vendor unchanged, returns the order serialized, and keeps `Synced` |

## Left out

- `round(x, 2)` on the average response time (models.py:39): the model keeps the exact mean, because rounding binary floats is not modelled.
- Floating point in general: all metric arithmetic is exact `real`.
- `datetime.strptime` is the parameter `parse`: its leniency belongs to the library. A JSON value that is not a string (raising `TypeError`) is not modelled; the field is either absent or a string.
- `timezone.now()` is the parameter `now`; sub-second precision of timestamps is not modelled. The acknowledgment stamp carries microseconds (models.py:71) while the parsed delivery date has none (views.py:64), so the source rejects a delivery date in the same second as a stamp with a non-zero microsecond part (views.py:71); the model, with whole seconds, accepts it (`Views.DateOrderingBoundary`).
- The JSON `items` payload and the serializer's handling of fields other than `delivery_date`: the update writes the parsed delivery date only.
- The HTTP layer, URL routing (note that url.py:9 routes the performance path to the generic detail view) and the generic list, create, retrieve and destroy views other than the three modelled here.
- A non-numeric `vendor_id` query parameter, which the ORM rejects: the parameter is modelled as an optional vendor id.
- `HistoricalPerformance`, `__str__` and the `print` calls: they have no effect on the modelled state.
- Cascade deletes of orders with their vendor, vendor updates and deletes, and migrations.
- Concurrency and request interleaving.
- Models.Database.SavePurchaseOrder: when a save moves an existing order to another vendor, only the new vendor is recalculated and the previous owner keeps stale metrics. The contract states this as the source behaves; `Synced` is promised only for the other vendors.

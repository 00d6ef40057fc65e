/**
 * The purchase-order record and the operations on the table of purchase
 * orders that the rest of the model uses: the per-vendor filter (a vendor's
 * related set, and the list endpoint's `vendor_id` filter), lookup by primary
 * key, insert-or-update, delete and acknowledgement of one row.
 */
module Orders {
  import opened Wrappers

  /** A point in time, in whole seconds. */
  type Timestamp = int
  type OrderId = int
  type VendorId = int

  datatype Status = Pending | Completed | Canceled

  /**
   * One purchase order. The `items` payload is opaque to every operation
   * modelled here and is not represented.
   */
  datatype PurchaseOrder = PurchaseOrder(
    id: OrderId,
    vendor: VendorId,
    orderDate: Timestamp,
    deliveryDate: Option<Timestamp>,
    quantity: int,
    status: Status,
    qualityRating: Option<real>,
    issueDate: Timestamp,
    acknowledgmentDate: Option<Timestamp>)

  /** Primary keys are unique in the table. */
  ghost predicate DistinctIds(pos: seq<PurchaseOrder>)
  {
    forall i, j :: 0 <= i < j < |pos| ==> pos[i].id != pos[j].id
  }

  /** The orders that belong to vendor `v`, in table order. */
  function OrdersOf(pos: seq<PurchaseOrder>, v: VendorId): (r: seq<PurchaseOrder>)
    ensures |r| <= |pos|
  {
    if pos == [] then []
    else
      var last := pos[|pos| - 1];
      OrdersOf(pos[..|pos| - 1], v) + (if last.vendor == v then [last] else [])
  }

  /** The filter keeps exactly the orders of `v`. */
  lemma {:induction false} OrdersOfMembers(pos: seq<PurchaseOrder>, v: VendorId)
    ensures forall po :: po in OrdersOf(pos, v) <==> po in pos && po.vendor == v
  {
    if pos != [] {
      var n := |pos| - 1;
      OrdersOfMembers(pos[..n], v);
      assert pos == pos[..n] + [pos[n]];
    }
  }

  /** Every order names a vendor in `vs`. */
  ghost predicate VendorsIn(pos: seq<PurchaseOrder>, vs: set<VendorId>)
  {
    forall i :: 0 <= i < |pos| ==> pos[i].vendor in vs
  }

  /** A vendor that no order refers to has no orders. */
  lemma {:induction false} OrdersOfAbsent(pos: seq<PurchaseOrder>, vs: set<VendorId>, v: VendorId)
    requires VendorsIn(pos, vs) && v !in vs
    ensures OrdersOf(pos, v) == []
  {
    if pos != [] {
      var n := |pos| - 1;
      assert pos[n].vendor != v;
      assert VendorsIn(pos[..n], vs) by {
        forall i | 0 <= i < n ensures pos[..n][i].vendor in vs {
          assert pos[..n][i] == pos[i];
        }
      }
      OrdersOfAbsent(pos[..n], vs, v);
    }
  }

  lemma {:induction false} OrdersOfConcat(a: seq<PurchaseOrder>, b: seq<PurchaseOrder>, v: VendorId)
    ensures OrdersOf(a + b, v) == OrdersOf(a, v) + OrdersOf(b, v)
  {
    if b == [] {
      assert a + b == a;
    } else {
      var n := |b| - 1;
      assert (a + b)[..|a + b| - 1] == a + b[..n];
      OrdersOfConcat(a, b[..n], v);
    }
  }

  /** Replacing a row that belongs neither before nor after to `v` leaves `v`'s orders as they were. */
  lemma {:induction false} OrdersOfReplace(pos: seq<PurchaseOrder>, i: int, x: PurchaseOrder, v: VendorId)
    requires 0 <= i < |pos|
    requires pos[i].vendor != v && x.vendor != v
    ensures OrdersOf(pos[i := x], v) == OrdersOf(pos, v)
  {
    assert pos == pos[..i] + [pos[i]] + pos[i + 1..];
    assert pos[i := x] == pos[..i] + [x] + pos[i + 1..];
    OrdersOfConcat(pos[..i] + [pos[i]], pos[i + 1..], v);
    OrdersOfConcat(pos[..i], [pos[i]], v);
    OrdersOfConcat(pos[..i] + [x], pos[i + 1..], v);
    OrdersOfConcat(pos[..i], [x], v);
    assert [x][..0] == [] && [pos[i]][..0] == [];
  }

  /** Deleting a row that does not belong to `v` leaves `v`'s orders as they were. */
  lemma {:induction false} OrdersOfDelete(pos: seq<PurchaseOrder>, i: int, v: VendorId)
    requires 0 <= i < |pos|
    requires pos[i].vendor != v
    ensures OrdersOf(pos[..i] + pos[i + 1..], v) == OrdersOf(pos, v)
  {
    var left, right := pos[..i], pos[i + 1..];
    assert pos == left + [pos[i]] + right;
    OrdersOfConcat(left + [pos[i]], right, v);
    OrdersOfConcat(left, [pos[i]], v);
    OrdersOfConcat(left, right, v);
    assert [pos[i]][..0] == [];
    assert OrdersOf([pos[i]], v) == [];
  }

  /** The position of the row with primary key `id`, if there is one. */
  function Find(pos: seq<PurchaseOrder>, id: OrderId): (r: Option<nat>)
    ensures r.Some? ==> r.value < |pos| && pos[r.value].id == id
    ensures r.None? ==> forall j :: 0 <= j < |pos| ==> pos[j].id != id
  {
    if pos == [] then None
    else if pos[0].id == id then Some(0)
    else
      match Find(pos[1..], id)
      case None => None
      case Some(k) => Some(k + 1)
  }

  /** The vendor that owns the row with primary key `id`, if there is such a row. */
  function OwnerOf(pos: seq<PurchaseOrder>, id: OrderId): Option<VendorId>
  {
    match Find(pos, id)
    case None => None
    case Some(i) => Some(pos[i].vendor)
  }

  /**
   * Saving a record: a new primary key is inserted with its order and issue
   * dates stamped `now` (they are set automatically on creation); an existing
   * one is overwritten, keeping the stored order and issue dates.
   */
  function Upsert(pos: seq<PurchaseOrder>, po: PurchaseOrder, now: Timestamp): (r: seq<PurchaseOrder>)
  {
    match Find(pos, po.id)
    case None => pos + [po.(orderDate := now, issueDate := now)]
    case Some(i) => pos[i := po.(orderDate := pos[i].orderDate, issueDate := pos[i].issueDate)]
  }

  /**
   * After a save the table holds `po` under its primary key, with the
   * creation dates set on insert and kept on update, and every other row as
   * it was.
   */
  lemma UpsertMeaning(pos: seq<PurchaseOrder>, po: PurchaseOrder, now: Timestamp)
    requires DistinctIds(pos)
    ensures var r := Upsert(pos, po, now);
      && Find(r, po.id).Some?
      && var stored := r[Find(r, po.id).value];
      && stored.(orderDate := po.orderDate, issueDate := po.issueDate) == po
      && (Find(pos, po.id).None? ==> stored.orderDate == now && stored.issueDate == now && |r| == |pos| + 1)
      && (Find(pos, po.id).Some? ==>
            var prev := pos[Find(pos, po.id).value];
            stored.orderDate == prev.orderDate && stored.issueDate == prev.issueDate && |r| == |pos|)
      && forall j :: 0 <= j < |pos| && pos[j].id != po.id ==> pos[j] in r
  {
    var r := Upsert(pos, po, now);
    match Find(pos, po.id)
    case None =>
      assert r[|pos|].id == po.id;
      assert forall j :: 0 <= j < |pos| ==> r[j] == pos[j];
    case Some(i) =>
      assert r[i].id == po.id;
      assert forall j :: 0 <= j < |pos| && j != i ==> r[j] == pos[j];
  }

  /** A save keeps primary keys unique and vendor references valid. */
  lemma UpsertValid(pos: seq<PurchaseOrder>, po: PurchaseOrder, now: Timestamp, vs: set<VendorId>)
    requires DistinctIds(pos) && VendorsIn(pos, vs) && po.vendor in vs
    ensures DistinctIds(Upsert(pos, po, now)) && VendorsIn(Upsert(pos, po, now), vs)
  {
    var r := Upsert(pos, po, now);
    match Find(pos, po.id)
    case None =>
      assert forall j :: 0 <= j < |pos| ==> r[j] == pos[j];
    case Some(i) =>
      assert forall j :: 0 <= j < |pos| && j != i ==> r[j] == pos[j];
  }

  /** A save changes the orders of no vendor other than the record's vendor and the row's previous owner. */
  lemma UpsertOthers(pos: seq<PurchaseOrder>, po: PurchaseOrder, now: Timestamp, w: VendorId)
    requires w != po.vendor && OwnerOf(pos, po.id) != Some(w)
    ensures OrdersOf(Upsert(pos, po, now), w) == OrdersOf(pos, w)
  {
    match Find(pos, po.id)
    case None =>
      var x := po.(orderDate := now, issueDate := now);
      OrdersOfConcat(pos, [x], w);
      assert [x][..0] == [];
    case Some(i) =>
      OrdersOfReplace(pos, i, po.(orderDate := pos[i].orderDate, issueDate := pos[i].issueDate), w);
  }

  /** Deleting the row with primary key `id`; nothing happens if there is none. */
  function Remove(pos: seq<PurchaseOrder>, id: OrderId): (r: seq<PurchaseOrder>)
    ensures DistinctIds(pos) ==> DistinctIds(r)
    ensures DistinctIds(pos) ==> forall po :: po in r <==> po in pos && po.id != id
    ensures |r| == if Find(pos, id).Some? then |pos| - 1 else |pos|
  {
    match Find(pos, id)
    case None => pos
    case Some(i) =>
      var r := pos[..i] + pos[i + 1..];
      assert forall j :: 0 <= j < |r| ==> r[j] == if j < i then pos[j] else pos[j + 1];
      r
  }

  /** A delete keeps every vendor reference valid. */
  lemma RemoveValid(pos: seq<PurchaseOrder>, id: OrderId, vs: set<VendorId>)
    requires VendorsIn(pos, vs)
    ensures VendorsIn(Remove(pos, id), vs)
  {
    match Find(pos, id)
    case None =>
    case Some(i) =>
      var r := Remove(pos, id);
      forall j | 0 <= j < |r| ensures r[j].vendor in vs {
        assert r[j] == if j < i then pos[j] else pos[j + 1];
      }
  }

  /** A delete changes the orders of no vendor other than the owner of the deleted row. */
  lemma RemoveOthers(pos: seq<PurchaseOrder>, id: OrderId, w: VendorId)
    requires OwnerOf(pos, id) != Some(w)
    ensures OrdersOf(Remove(pos, id), w) == OrdersOf(pos, w)
  {
    match Find(pos, id)
    case None =>
    case Some(i) =>
      OrdersOfDelete(pos, i, w);
  }

  /**
   * Acknowledging the row with primary key `id` at time `now`: that row, and
   * only that row, gets `now` as its acknowledgment date, whatever it held before.
   */
  function Acknowledge(pos: seq<PurchaseOrder>, id: OrderId, now: Timestamp): (r: seq<PurchaseOrder>)
    ensures |r| == |pos|
    ensures DistinctIds(pos) ==> forall j :: 0 <= j < |pos| ==>
      r[j] == if pos[j].id == id then pos[j].(acknowledgmentDate := Some(now)) else pos[j]
  {
    match Find(pos, id)
    case None => pos
    case Some(i) => pos[i := pos[i].(acknowledgmentDate := Some(now))]
  }

  /** Acknowledging a row again overwrites the earlier acknowledgment date. */
  lemma AcknowledgeOverwrites(pos: seq<PurchaseOrder>, id: OrderId, first: Timestamp, second: Timestamp)
    requires DistinctIds(pos)
    ensures Acknowledge(Acknowledge(pos, id, first), id, second) == Acknowledge(pos, id, second)
  {
    var once := Acknowledge(pos, id, first);
    assert forall j :: 0 <= j < |pos| ==> once[j].id == pos[j].id;
    assert DistinctIds(once);
  }
}

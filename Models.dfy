/**
 * The stored state: vendors, whose four metric fields are rewritten in place
 * by the recalculator, and the purchase-order table, whose every save and
 * delete recalculates the owning vendor's metrics.
 */
module Models {
  import opened Wrappers
  import opened Orders
  import Performance

  /** The four metric fields as stored and as the metrics lookup reports them; null until first computed. */
  datatype PerformanceReport = PerformanceReport(
    onTimeDeliveryRate: Option<real>,
    qualityRatingAvg: Option<real>,
    averageResponseTime: Option<real>,
    fulfillmentRate: Option<real>)

  const NOT_COMPUTED := PerformanceReport(None, None, None, None)

  /** The report of freshly computed metrics: every field is set. */
  function Reported(m: Performance.Metrics): PerformanceReport
  {
    PerformanceReport(Some(m.onTimeDeliveryRate), Some(m.qualityRatingAvg), Some(m.averageResponseTime), Some(m.fulfillmentRate))
  }

  const DOES_NOT_EXIST := "DoesNotExist"

  class Vendor {
    const id: VendorId
    var name: string
    var contactDetails: string
    var address: string
    var onTimeDeliveryRate: Option<real>
    var qualityRatingAvg: Option<real>
    var averageResponseTime: Option<real>
    var fulfillmentRate: Option<real>

    /** A new vendor: its metrics are null until one of its orders is saved. */
    constructor (id: VendorId, name: string, contactDetails: string, address: string)
      ensures this.id == id && this.name == name
      ensures this.contactDetails == contactDetails && this.address == address
      ensures GetPerformanceMetrics() == NOT_COMPUTED
    {
      this.id := id;
      this.name := name;
      this.contactDetails := contactDetails;
      this.address := address;
      onTimeDeliveryRate, qualityRatingAvg, averageResponseTime, fulfillmentRate := None, None, None, None;
    }

    /** The metrics lookup: the four stored metric fields and nothing else. */
    function GetPerformanceMetrics(): (r: PerformanceReport)
      reads this
      ensures r.onTimeDeliveryRate == onTimeDeliveryRate && r.qualityRatingAvg == qualityRatingAvg
      ensures r.averageResponseTime == averageResponseTime && r.fulfillmentRate == fulfillmentRate
    {
      PerformanceReport(onTimeDeliveryRate, qualityRatingAvg, averageResponseTime, fulfillmentRate)
    }

    /**
     * The recalculator: every metric field is set from the vendor's current
     * orders `pos` alone, whatever it held before; name, contact details and
     * address are untouched. So a second run right after the first changes
     * nothing.
     */
    method UpdatePerformanceMetrics(pos: seq<PurchaseOrder>)
      modifies this`onTimeDeliveryRate, this`qualityRatingAvg, this`averageResponseTime, this`fulfillmentRate
      ensures GetPerformanceMetrics() == Reported(Performance.Compute(pos))
    {
      onTimeDeliveryRate := Some(Performance.OnTimeDeliveryRate(pos));
      qualityRatingAvg := Some(Performance.QualityRatingAvg(pos));
      averageResponseTime := Some(Performance.AverageResponseTime(pos));
      fulfillmentRate := Some(Performance.FulfillmentRate(pos));
    }

    /**
     * Acknowledging one of this vendor's orders at time `now`: the order is
     * looked up among this vendor's orders only (DoesNotExist otherwise),
     * its acknowledgment date is overwritten with `now`, it is saved (which
     * recalculates this vendor) and this vendor is recalculated once more.
     */
    method AcknowledgePurchaseOrder(db: Database, poId: OrderId, now: Timestamp) returns (r: Outcome<string>)
      requires db.Valid() && id in db.vendors && db.vendors[id] == this
      modifies db, this`onTimeDeliveryRate, this`qualityRatingAvg, this`averageResponseTime, this`fulfillmentRate
      ensures db.Valid() && db.vendors == old(db.vendors)
      ensures r.Pass? <==> OwnerOf(old(db.orders), poId) == Some(id)
      ensures r.Fail? ==> r.error == DOES_NOT_EXIST && db.orders == old(db.orders)
      ensures r.Fail? ==> GetPerformanceMetrics() == old(GetPerformanceMetrics())
      ensures r.Pass? ==> db.orders == Acknowledge(old(db.orders), poId, now)
      ensures r.Pass? ==> GetPerformanceMetrics() == Reported(Performance.Compute(OrdersOf(db.orders, id)))
      ensures old(db.Synced()) ==> db.Synced()
    {
      var k := Find(db.orders, poId);
      if k.None? || db.orders[k.value].vendor != id {
        return Fail(DOES_NOT_EXIST);
      }
      var po := db.orders[k.value].(acknowledgmentDate := Some(now));
      assert forall w :: w in db.vendors && w != id ==> db.vendors[w] != this by {
        forall w | w in db.vendors && w != id ensures db.vendors[w] != this {
          assert db.vendors[w].id == w;
        }
      }
      db.SavePurchaseOrder(po, now);
      ghost var saved := GetPerformanceMetrics();
      UpdatePerformanceMetrics(OrdersOf(db.orders, id));
      assert GetPerformanceMetrics() == saved;
      r := Pass;
    }
  }

  /** The vendor that owned the row with primary key `id` before a save, when it is not `v`. */
  predicate MovedFrom(pos: seq<PurchaseOrder>, id: OrderId, v: VendorId, w: VendorId)
  {
    OwnerOf(pos, id) == Some(w) && w != v
  }

  /**
   * Stored metrics agree with a vendor's orders `pos`: they are the four
   * formulas over `pos`, or, for a vendor that never had an order, still null.
   */
  ghost predicate Consistent(report: PerformanceReport, pos: seq<PurchaseOrder>)
  {
    report == Reported(Performance.Compute(pos)) || (report == NOT_COMPUTED && pos == [])
  }

  /**
   * The database: the purchase-order table and the vendors by primary key.
   * Every purchase order names an existing vendor, primary keys are unique,
   * and each vendor object is stored under its own id.
   */
  class Database {
    var orders: seq<PurchaseOrder>
    var vendors: map<VendorId, Vendor>

    ghost predicate Valid()
      reads this
    {
      && DistinctIds(orders)
      && VendorsIn(orders, vendors.Keys)
      && (forall v :: v in vendors ==> vendors[v].id == v)
    }

    /** The vendor stored under id `v`. */
    function VendorAt(v: VendorId): Vendor
      requires v in vendors
      reads this
    {
      vendors[v]
    }

    /** Vendor `v`'s stored metrics agree with its current orders. */
    ghost predicate InSync(v: VendorId)
      requires v in vendors
      reads this, vendors[v]
    {
      Consistent(vendors[v].GetPerformanceMetrics(), OrdersOf(orders, v))
    }

    ghost predicate Synced()
      reads this, vendors.Values
    {
      forall v {:trigger InSync(v)} :: v in vendors ==> InSync(v)
    }

    constructor ()
      ensures Valid() && Synced()
      ensures orders == [] && vendors == map[]
    {
      orders := [];
      vendors := map[];
    }

    /** Registering a new vendor under an unused id; its metrics start out null. */
    method CreateVendor(id: VendorId, name: string, contactDetails: string, address: string) returns (v: Vendor)
      requires Valid() && id !in vendors
      modifies this
      ensures Valid() && fresh(v)
      ensures vendors == old(vendors)[id := v] && orders == old(orders)
      ensures v.id == id && v.name == name && v.contactDetails == contactDetails && v.address == address
      ensures v.GetPerformanceMetrics() == NOT_COMPUTED
      ensures old(Synced()) ==> Synced()
    {
      OrdersOfAbsent(orders, vendors.Keys, id);
      v := new Vendor(id, name, contactDetails, address);
      vendors := vendors[id := v];
      assert VendorsIn(orders, vendors.Keys);
      if old(Synced()) {
        forall w | w in vendors
          ensures InSync(w)
        {
          if w != id {
            assert old(InSync(w));
          }
        }
      }
    }

    /**
     * Saving a purchase order, new or existing, followed by the post-save
     * hook and the save's own recalculation of the order's vendor. Only that
     * vendor is recalculated: if the save moves an existing order to another
     * vendor, the previous owner keeps its old metrics.
     */
    method SavePurchaseOrder(po: PurchaseOrder, now: Timestamp)
      requires Valid() && po.vendor in vendors
      modifies this
      modifies VendorAt(po.vendor)`onTimeDeliveryRate, VendorAt(po.vendor)`qualityRatingAvg
      modifies VendorAt(po.vendor)`averageResponseTime, VendorAt(po.vendor)`fulfillmentRate
      ensures Valid() && vendors == old(vendors)
      ensures orders == Upsert(old(orders), po, now)
      ensures vendors[po.vendor].GetPerformanceMetrics() == Reported(Performance.Compute(OrdersOf(orders, po.vendor)))
      ensures forall w :: w in vendors && w != po.vendor && !MovedFrom(old(orders), po.id, po.vendor, w) ==>
        OrdersOf(orders, w) == OrdersOf(old(orders), w)
      ensures forall w :: w in vendors && w != po.vendor ==>
        vendors[w].GetPerformanceMetrics() == old(vendors[w].GetPerformanceMetrics())
      ensures old(Synced()) ==> forall w :: w in vendors && !MovedFrom(old(orders), po.id, po.vendor, w) ==> InSync(w)
    {
      ghost var before := orders;
      var owner := vendors[po.vendor];
      assert forall w :: w in vendors && w != po.vendor ==> vendors[w] != owner by {
        forall w | w in vendors && w != po.vendor ensures vendors[w] != owner {
          assert vendors[w].id == w;
        }
      }
      UpsertValid(orders, po, now, vendors.Keys);
      orders := Upsert(orders, po, now);
      owner.UpdatePerformanceMetrics(OrdersOf(orders, po.vendor));
      owner.UpdatePerformanceMetrics(OrdersOf(orders, po.vendor));
      forall w | w != po.vendor && !MovedFrom(before, po.id, po.vendor, w)
        ensures OrdersOf(orders, w) == OrdersOf(before, w)
      {
        UpsertOthers(before, po, now, w);
      }
      if old(Synced()) {
        forall w | w in vendors && !MovedFrom(before, po.id, po.vendor, w)
          ensures InSync(w)
        {
          if w != po.vendor {
            assert old(InSync(w));
          }
        }
      }
    }

    /**
     * Deleting the purchase order with primary key `id`, followed by the
     * post-delete hook, which recalculates the vendor that owned it. When
     * there is no such order nothing changes.
     */
    method DeletePurchaseOrder(id: OrderId) returns (found: bool)
      requires Valid()
      modifies this
      modifies vendors.Values`onTimeDeliveryRate, vendors.Values`qualityRatingAvg
      modifies vendors.Values`averageResponseTime, vendors.Values`fulfillmentRate
      ensures Valid() && vendors == old(vendors)
      ensures found <==> OwnerOf(old(orders), id).Some?
      ensures orders == Remove(old(orders), id)
      ensures !found ==> unchanged(vendors.Values)
      ensures found ==> var owner := OwnerOf(old(orders), id).value;
        && vendors[owner].GetPerformanceMetrics() == Reported(Performance.Compute(OrdersOf(orders, owner)))
        && forall w :: w in vendors && w != owner ==>
             OrdersOf(orders, w) == OrdersOf(old(orders), w) && unchanged(vendors[w])
      ensures old(Synced()) ==> Synced()
    {
      var k := Find(orders, id);
      if k.None? {
        return false;
      }
      found := true;
      var instance := orders[k.value];
      ghost var before := orders;
      RemoveValid(orders, id, vendors.Keys);
      forall w | w != instance.vendor
        ensures OrdersOf(Remove(orders, id), w) == OrdersOf(orders, w)
      {
        RemoveOthers(orders, id, w);
      }
      orders := Remove(orders, id);
      vendors[instance.vendor].UpdatePerformanceMetrics(OrdersOf(orders, instance.vendor));
      if old(Synced()) {
        forall w | w in vendors
          ensures InSync(w)
        {
          if w != instance.vendor {
            assert old(InSync(w));
          }
        }
      }
    }

    /** The class-level metrics lookup by vendor id; DoesNotExist when there is no such vendor. */
    function RetrieveVendorPerformance(v: VendorId): (r: Option<PerformanceReport>)
      reads this, vendors.Values
      ensures r.None? <==> v !in vendors
      ensures r.Some? ==> r.value == vendors[v].GetPerformanceMetrics()
    {
      if v in vendors then Some(vendors[v].GetPerformanceMetrics()) else None
    }
  }
}

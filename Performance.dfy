/**
 * The four vendor performance metrics, each a function of the vendor's
 * current purchase orders alone, and what they are proved to mean.
 * Arithmetic is exact (`real`); the stored value of the response time is not
 * rounded to two decimals here.
 */
module Performance {
  import opened Wrappers
  import opened Orders
  import opened Aggregates

  const SECONDS_PER_DAY := 86400
  const SECONDS_PER_HOUR := 3600

  /** The largest value one response time can take: 86399 seconds, in hours. */
  const MAX_RESPONSE_HOURS: real := 86399.0 / 3600.0

  datatype Metrics = Metrics(
    onTimeDeliveryRate: real,
    qualityRatingAvg: real,
    averageResponseTime: real,
    fulfillmentRate: real)

  predicate IsCompleted(po: PurchaseOrder)
  {
    po.status == Completed
  }

  /**
   * The SQL comparison `a <= b` used as a filter: a comparison with NULL is
   * unknown, and a row whose condition is unknown is filtered out.
   */
  predicate SqlLessOrEqual(a: Option<Timestamp>, b: Option<Timestamp>)
  {
    a.Some? && b.Some? && a.value <= b.value
  }

  /** A completed order that passes the on-time filter, which compares the delivery date with itself. */
  predicate IsOnTime(po: PurchaseOrder)
  {
    IsCompleted(po) && SqlLessOrEqual(po.deliveryDate, po.deliveryDate)
  }

  predicate IsRatedCompleted(po: PurchaseOrder)
  {
    IsCompleted(po) && po.qualityRating.Some?
  }

  predicate IsAcknowledged(po: PurchaseOrder)
  {
    po.acknowledgmentDate.Some?
  }

  function Rating(po: PurchaseOrder): real
  {
    if po.qualityRating.Some? then po.qualityRating.value else 0.0
  }

  /**
   * The response time of an acknowledged order in hours, counting only the
   * within-day part of the elapsed time (the `seconds` field of a duration,
   * which is the elapsed seconds modulo one day, even for a negative duration).
   */
  function ResponseHours(po: PurchaseOrder): (h: real)
    ensures 0.0 <= h <= MAX_RESPONSE_HOURS < 24.0
  {
    match po.acknowledgmentDate
    case None => 0.0
    case Some(ack) =>
      var seconds := (ack - po.issueDate) % SECONDS_PER_DAY;
      assert 0 <= seconds <= 86399;
      seconds as real / SECONDS_PER_HOUR as real
  }

  function OnTimeDeliveryRate(pos: seq<PurchaseOrder>): real
  {
    var completed := CountWhere(pos, IsCompleted);
    if completed > 0 then CountWhere(pos, IsOnTime) as real / completed as real * 100.0 else 0.0
  }

  function QualityRatingAvg(pos: seq<PurchaseOrder>): real
  {
    var rated := CountWhere(pos, IsRatedCompleted);
    if rated > 0 then SumWhere(pos, IsRatedCompleted, Rating) / rated as real else 0.0
  }

  function AverageResponseTime(pos: seq<PurchaseOrder>): real
  {
    var acknowledged := CountWhere(pos, IsAcknowledged);
    if acknowledged > 0 then SumWhere(pos, IsAcknowledged, ResponseHours) / acknowledged as real else 0.0
  }

  function FulfillmentRate(pos: seq<PurchaseOrder>): real
  {
    if |pos| > 0 then CountWhere(pos, IsCompleted) as real / |pos| as real * 100.0 else 0.0
  }

  /** All four metrics of a vendor whose purchase orders are `pos`. */
  function Compute(pos: seq<PurchaseOrder>): Metrics
  {
    Metrics(OnTimeDeliveryRate(pos), QualityRatingAvg(pos), AverageResponseTime(pos), FulfillmentRate(pos))
  }

  /** A percentage `part / whole · 100` of a part of a non-empty whole. */
  lemma PercentageBounds(part: nat, whole: nat)
    requires 0 < whole && part <= whole
    ensures 0.0 <= part as real / whole as real * 100.0 <= 100.0
    ensures part as real / whole as real * 100.0 * whole as real == 100.0 * part as real
    ensures part as real / whole as real * 100.0 == 100.0 <==> part == whole
    ensures part as real / whole as real * 100.0 == 0.0 <==> part == 0
  {
    var q := part as real / whole as real;
    assert q * whole as real == part as real;
    TimesIsProduct(1.0, whole);
    TimesIsProduct(0.0, whole);
    MeanBounds(part as real, whole, 0.0, 1.0);
  }

  /** The on-time filter keeps exactly the completed orders that have a delivery date. */
  lemma OnTimeIsDelivered(po: PurchaseOrder)
    ensures IsOnTime(po) <==> po.status == Completed && po.deliveryDate.Some?
  {
  }

  /**
   * Fulfillment rate: the percentage of all orders that are completed, 0 for
   * a vendor without orders; 100 exactly when every order is completed.
   */
  lemma FulfillmentRateMeaning(pos: seq<PurchaseOrder>)
    ensures var r := FulfillmentRate(pos);
      && 0.0 <= r <= 100.0
      && (|pos| == 0 ==> r == 0.0)
      && (|pos| > 0 ==> r * |pos| as real == 100.0 * |IndicesWhere(pos, IsCompleted)| as real)
      && (r == 100.0 <==> |pos| > 0 && forall i :: 0 <= i < |pos| ==> pos[i].status == Completed)
  {
    CountIsCardinality(pos, IsCompleted);
    CountSubFilter(pos, IsCompleted, _ => true);
    assert CountWhere(pos, _ => true) == |pos| by { AllCount(pos); }
    if |pos| > 0 {
      PercentageBounds(CountWhere(pos, IsCompleted), |pos|);
    }
  }

  lemma {:induction false} AllCount(pos: seq<PurchaseOrder>)
    ensures CountWhere(pos, _ => true) == |pos|
  {
    if pos != [] {
      AllCount(pos[..|pos| - 1]);
    }
  }

  /**
   * On-time delivery rate: 0 without completed orders; otherwise the
   * percentage of completed orders that pass the on-time filter, a subset of
   * the completed ones; 100 exactly when every completed order has a
   * delivery date.
   */
  lemma OnTimeDeliveryRateMeaning(pos: seq<PurchaseOrder>)
    ensures var r := OnTimeDeliveryRate(pos);
      var completed := IndicesWhere(pos, IsCompleted);
      var onTime := IndicesWhere(pos, IsOnTime);
      && onTime <= completed
      && 0.0 <= r <= 100.0
      && (|completed| == 0 ==> r == 0.0)
      && (|completed| > 0 ==> r * |completed| as real == 100.0 * |onTime| as real)
      && (r == 100.0 <==>
            |completed| > 0 && forall i :: 0 <= i < |pos| && pos[i].status == Completed ==> pos[i].deliveryDate.Some?)
  {
    CountIsCardinality(pos, IsCompleted);
    CountIsCardinality(pos, IsOnTime);
    CountSubFilter(pos, IsOnTime, IsCompleted);
    var c := CountWhere(pos, IsCompleted);
    if c > 0 {
      PercentageBounds(CountWhere(pos, IsOnTime), c);
    }
  }

  /**
   * Quality rating average: the mean rating of the completed orders that
   * have a rating, 0 when there is none; it lies within any bounds that all
   * of those ratings respect.
   */
  lemma QualityRatingAvgMeaning(pos: seq<PurchaseOrder>, lo: real, hi: real)
    requires forall i :: 0 <= i < |pos| && IsRatedCompleted(pos[i]) ==> lo <= pos[i].qualityRating.value <= hi
    ensures |IndicesWhere(pos, IsRatedCompleted)| == 0 ==> QualityRatingAvg(pos) == 0.0
    ensures |IndicesWhere(pos, IsRatedCompleted)| > 0 ==>
      QualityRatingAvg(pos) == SumWhere(pos, IsRatedCompleted, Rating) / |IndicesWhere(pos, IsRatedCompleted)| as real
    ensures |IndicesWhere(pos, IsRatedCompleted)| > 0 ==> lo <= QualityRatingAvg(pos) <= hi
  {
    CountIsCardinality(pos, IsRatedCompleted);
    if CountWhere(pos, IsRatedCompleted) > 0 {
      forall i | 0 <= i < |pos| && IsRatedCompleted(pos[i])
        ensures lo <= Rating(pos[i]) <= hi
      {
        assert Rating(pos[i]) == pos[i].qualityRating.value;
      }
      MeanWhereBounds(pos, IsRatedCompleted, Rating, lo, hi);
      var mean := SumWhere(pos, IsRatedCompleted, Rating) / CountWhere(pos, IsRatedCompleted) as real;
      assert QualityRatingAvg(pos) == mean;
    }
  }

  /**
   * Ratings of pending or canceled orders never affect the quality average:
   * two order lists that agree on status everywhere and on the rating of
   * every completed order have the same average.
   */
  lemma QualityIgnoresOpenOrders(a: seq<PurchaseOrder>, b: seq<PurchaseOrder>)
    requires |a| == |b|
    requires forall i :: 0 <= i < |a| ==> a[i].status == b[i].status
    requires forall i :: 0 <= i < |a| && a[i].status == Completed ==> a[i].qualityRating == b[i].qualityRating
    ensures QualityRatingAvg(a) == QualityRatingAvg(b)
  {
    Congruence(a, b, IsRatedCompleted, Rating);
  }

  /**
   * The worked example: completed orders rated 4.0 and 5.0, a completed
   * unrated order and a pending order rated 1.0 average to 4.5.
   */
  lemma QualityExample(vendor: VendorId, t: Timestamp)
    ensures var po := PurchaseOrder(0, vendor, t, None, 1, Completed, None, t, None);
      QualityRatingAvg([
        po.(id := 1, qualityRating := Some(4.0)),
        po.(id := 2, qualityRating := Some(5.0)),
        po.(id := 3),
        po.(id := 4, status := Pending, qualityRating := Some(1.0))]) == 4.5
  {
    var po := PurchaseOrder(0, vendor, t, None, 1, Completed, None, t, None);
    var s := [
        po.(id := 1, qualityRating := Some(4.0)),
        po.(id := 2, qualityRating := Some(5.0)),
        po.(id := 3),
        po.(id := 4, status := Pending, qualityRating := Some(1.0))];
    assert s[..3] == s[..2] + [s[2]] && s[..2] == s[..1] + [s[1]] && s[..1] == [] + [s[0]];
    assert s[..3][..2] == s[..2] && s[..2][..1] == s[..1] && s[..1][..0] == [];
    assert CountWhere(s[..1], IsRatedCompleted) == 1 && SumWhere(s[..1], IsRatedCompleted, Rating) == 4.0;
    assert CountWhere(s[..2], IsRatedCompleted) == 2 && SumWhere(s[..2], IsRatedCompleted, Rating) == 9.0;
    assert CountWhere(s[..3], IsRatedCompleted) == 2 && SumWhere(s[..3], IsRatedCompleted, Rating) == 9.0;
    assert CountWhere(s, IsRatedCompleted) == 2 && SumWhere(s, IsRatedCompleted, Rating) == 9.0;
  }

  /**
   * Average response time: only acknowledged orders contribute; it is 0
   * without them and otherwise the mean of within-day hours, so it lies in
   * [0, 24).
   */
  lemma AverageResponseTimeMeaning(pos: seq<PurchaseOrder>)
    ensures 0.0 <= AverageResponseTime(pos) <= MAX_RESPONSE_HOURS < 24.0
    ensures |IndicesWhere(pos, IsAcknowledged)| == 0 ==> AverageResponseTime(pos) == 0.0
    ensures |IndicesWhere(pos, IsAcknowledged)| > 0 ==>
      AverageResponseTime(pos) == SumWhere(pos, IsAcknowledged, ResponseHours) / |IndicesWhere(pos, IsAcknowledged)| as real
  {
    CountIsCardinality(pos, IsAcknowledged);
    if CountWhere(pos, IsAcknowledged) > 0 {
      MeanWhereBounds(pos, IsAcknowledged, ResponseHours, 0.0, MAX_RESPONSE_HOURS);
      var mean := SumWhere(pos, IsAcknowledged, ResponseHours) / CountWhere(pos, IsAcknowledged) as real;
      assert AverageResponseTime(pos) == mean;
    }
  }

  /** An order that has not been acknowledged has no effect on the average response time. */
  lemma UnacknowledgedIgnored(pos: seq<PurchaseOrder>, j: int)
    requires 0 <= j < |pos| && pos[j].acknowledgmentDate.None?
    ensures AverageResponseTime(pos[..j] + pos[j + 1..]) == AverageResponseTime(pos)
  {
    RemoveAt(pos, j, IsAcknowledged, ResponseHours);
  }

  /** A vendor without purchase orders has every metric 0. */
  lemma NoOrdersAllZero()
    ensures Compute([]) == Metrics(0.0, 0.0, 0.0, 0.0)
  {
  }

  /**
   * The metrics depend only on the collection of orders, not on the order
   * in which the table lists them.
   */
  lemma ComputeIgnoresOrder(a: seq<PurchaseOrder>, b: seq<PurchaseOrder>)
    requires multiset(a) == multiset(b)
    ensures Compute(a) == Compute(b)
  {
    assert |a| == |multiset(a)| == |multiset(b)| == |b|;
    PermutationInvariant(a, b, IsCompleted, Rating);
    PermutationInvariant(a, b, IsOnTime, Rating);
    PermutationInvariant(a, b, IsRatedCompleted, Rating);
    PermutationInvariant(a, b, IsAcknowledged, ResponseHours);
  }
}

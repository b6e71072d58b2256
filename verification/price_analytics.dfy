/** The computations of the price view (src/components/analytics/PriceAnalytics.js)
    over the orders `selectPriceData` returns: totals, average, lowest and
    highest price, the distribution of units and revenue over price points
    in ascending price order, and the height of each distribution bar. */
module PriceAnalytics {
  import opened Common
  import opened Orders
  import opened Grouping
  import opened Sorting

  /** `Math.round(order.price * 100) / 100`: prices are held in whole
      cents, so rounding to cents leaves them as they are. Every order has
      a price, so every order is keyed. */
  function PriceKey(o: Order): Option<int> {
    Some(o.price)
  }

  /** One entry of `pricePoints`: `count` is units sold, not orders. */
  datatype PricePoint = PricePoint(price: int, count: int, revenue: int)

  function PointPrice(p: PricePoint): int {
    p.price
  }

  function PointCount(p: PricePoint): int {
    p.count
  }

  function PointRevenue(p: PricePoint): int {
    p.revenue
  }

  function ToPoint(g: Group<int>): PricePoint {
    PricePoint(g.key, g.units, g.revenue)
  }

  /** `priceDistribution`, in key insertion order. */
  function PriceDistribution(os: seq<Order>): (ps: seq<PricePoint>)
    ensures |ps| == |GroupBy(os, PriceKey)|
    ensures forall i :: 0 <= i < |ps| ==> ps[i] == ToPoint(GroupBy(os, PriceKey)[i])
  {
    var gs := GroupBy(os, PriceKey);
    seq(|gs|, i requires 0 <= i < |gs| => ToPoint(gs[i]))
  }

  /** `pricePoints`: the distribution sorted by price. */
  function PricePoints(os: seq<Order>): seq<PricePoint> {
    SortBy(PriceDistribution(os), PointPrice)
  }

  /** `averagePrice`: total revenue over total units. */
  function AveragePrice(os: seq<Order>): (r: real)
    ensures TotalUnits(os) > 0 ==> r * (TotalUnits(os) as real) == TotalRevenue(os) as real
    ensures TotalUnits(os) <= 0 ==> r == 0.0
  {
    AverageUnitPrice(TotalRevenue(os), TotalUnits(os))
  }

  /** `minPrice`: the lowest price, 0 with no orders. */
  function MinPrice(os: seq<Order>): (m: int)
    ensures |os| == 0 ==> m == 0
    ensures forall i :: 0 <= i < |os| ==> m <= os[i].price
    ensures |os| > 0 ==> exists i :: 0 <= i < |os| && os[i].price == m
    decreases |os|
  {
    if |os| == 0 then 0
    else if |os| == 1 then os[0].price
    else
      var rest := MinPrice(os[1..]);
      if os[0].price <= rest then os[0].price
      else
        assert exists i :: 0 <= i < |os[1..]| && os[1..][i].price == rest;
        rest
  }

  /** `maxPrice`: the highest price, 0 with no orders. */
  function MaxPrice(os: seq<Order>): (m: int)
    ensures |os| == 0 ==> m == 0
    ensures forall i :: 0 <= i < |os| ==> os[i].price <= m
    ensures |os| > 0 ==> exists i :: 0 <= i < |os| && os[i].price == m
    decreases |os|
  {
    if |os| == 0 then 0
    else if |os| == 1 then os[0].price
    else
      var rest := MaxPrice(os[1..]);
      if os[0].price >= rest then os[0].price
      else
        assert exists i :: 0 <= i < |os[1..]| && os[1..][i].price == rest;
        rest
  }

  /** Every order has a price key, so none is skipped. */
  lemma {:induction false} AllKeyed(os: seq<Order>)
    ensures Keyed(os, PriceKey) == os
    decreases |os|
  {
    if |os| > 0 {
      var n := |os| - 1;
      AllKeyed(os[..n]);
      assert os == os[..n] + [os[n]];
    }
  }

  /** The price points add up to `totalUnitsSold` and `totalRevenue`. */
  lemma PricePointTotals(os: seq<Order>)
    ensures SumOf(PricePoints(os), PointCount) == TotalUnits(os)
    ensures SumOf(PricePoints(os), PointRevenue) == TotalRevenue(os)
  {
    var gs := GroupBy(os, PriceKey);
    var dist := PriceDistribution(os);
    GroupByConserves(os, PriceKey);
    AllKeyed(os);
    SumOfPointwise(dist, PointCount, gs, GroupUnits);
    SumOfPointwise(dist, PointRevenue, gs, GroupRevenue);
    SumOfPermutation(PricePoints(os), dist, PointCount);
    SumOfPermutation(PricePoints(os), dist, PointRevenue);
  }

  /** Each point sums exactly the orders at its price, the prices are
      pairwise distinct and strictly ascending, and every order's price
      has its point. */
  lemma {:induction false} PricePointsFaithful(os: seq<Order>)
    ensures forall p :: p in PricePoints(os) ==>
              && p.count == TotalUnits(Members(os, PriceKey, p.price))
              && p.revenue == TotalRevenue(Members(os, PriceKey, p.price))
    ensures StrictlySortedBy(PricePoints(os), PointPrice)
    ensures forall o :: o in os ==> exists p :: p in PricePoints(os) && p.price == o.price
    ensures forall p :: p in PricePoints(os) ==> exists o :: o in os && o.price == p.price
  {
    var gs := GroupBy(os, PriceKey);
    var dist := PriceDistribution(os);
    GroupByFaithful(os, PriceKey);
    forall p | p in PricePoints(os)
      ensures p.count == TotalUnits(Members(os, PriceKey, p.price))
      ensures p.revenue == TotalRevenue(Members(os, PriceKey, p.price))
      ensures exists o :: o in os && o.price == p.price
    {
      assert p in dist;
      var i :| 0 <= i < |dist| && dist[i] == p;
      assert p == ToPoint(gs[i]);
      assert gs[i].first in os && PriceKey(gs[i].first) == Some(gs[i].key);
    }
    assert KeysDistinct(dist, PointPrice) by {
      forall i, j | 0 <= i < j < |dist|
        ensures dist[i].price != dist[j].price
      {
        assert dist[i].price == gs[i].key && dist[j].price == gs[j].key;
      }
    }
    SortDistinctIsStrict(dist, PointPrice);
    forall o | o in os
      ensures exists p :: p in PricePoints(os) && p.price == o.price
    {
      MembersExact(os, PriceKey, o.price);
      assert multiset(Members(os, PriceKey, o.price))[o] > 0;
      var i := IndexOfKey(gs, o.price).value;
      assert dist[i] in PricePoints(os);
    }
  }

  /** `maxCount`: the largest unit count over the points drawn. */
  function MaxCount(ps: seq<PricePoint>): (m: int)
    requires |ps| > 0
    ensures forall i :: 0 <= i < |ps| ==> ps[i].count <= m
    ensures exists i :: 0 <= i < |ps| && ps[i].count == m
    decreases |ps|
  {
    if |ps| == 1 then ps[0].count
    else
      var rest := MaxCount(ps[1..]);
      if ps[0].count >= rest then ps[0].count
      else
        assert exists i :: 0 <= i < |ps[1..]| && ps[1..][i].count == rest;
        rest
  }

  /** `heightPercentage = Math.max(5, (count / maxCount) * 100)`. `None` is
      a height that is not a finite number: `count / 0` is NaN for a zero
      count and +Infinity for a positive one (a negative one gives
      -Infinity, and the height is then 5). */
  function BarHeight(count: int, maxCount: int): (h: Option<real>)
    ensures maxCount == 0 ==> (h.None? <==> count >= 0)
    ensures maxCount == 0 && count < 0 ==> h == Some(5.0)
    ensures h.Some? ==> h.value >= 5.0
    ensures maxCount > 0 ==> h.Some? && h.value * (maxCount as real) >= (count as real) * 100.0
    ensures maxCount != 0 ==> h.Some? && (h.value > 5.0 ==> h.value * (maxCount as real) == (count as real) * 100.0)
    ensures maxCount != 0 ==> h.Some? && h.value >= (count as real) / (maxCount as real) * 100.0
    ensures maxCount != 0 ==> h.Some? && (h.value == 5.0 || h.value == (count as real) / (maxCount as real) * 100.0)
  {
    if maxCount == 0 then
      if count < 0 then Some(5.0) else None
    else
      var pct := ((count as real) / (maxCount as real)) * 100.0;
      Some(if pct > 5.0 then pct else 5.0)
  }

  /** A positive count at most a positive maximum gives a bar between 5%
      and 100%. */
  lemma HeightInRange(count: int, maxCount: int)
    requires 0 < count <= maxCount
    ensures BarHeight(count, maxCount).Some?
    ensures 5.0 <= BarHeight(count, maxCount).value <= 100.0
  {
    var q := (count as real) / (maxCount as real);
    assert q * (maxCount as real) == count as real;
    assert q <= 1.0;
  }

  /** Units of a non-empty run of positive quantities are positive. */
  lemma {:induction false} PositiveUnits(ms: seq<Order>)
    requires |ms| > 0
    requires forall o :: o in ms ==> o.quantity > 0
    ensures TotalUnits(ms) > 0
    decreases |ms|
  {
    var n := |ms| - 1;
    assert ms[n] in ms;
    assert TotalUnits(ms) == TotalUnits(ms[..n]) + ms[n].quantity;
    if n > 0 {
      assert forall o :: o in ms[..n] ==> o in ms;
      PositiveUnits(ms[..n]);
    }
  }

  /** When every quantity is positive, every bar is between 5% and 100%
      of the chart's height. */
  lemma BarHeightsInRange(os: seq<Order>)
    requires forall o :: o in os ==> o.quantity > 0
    ensures forall p :: p in PricePoints(os) ==>
              BarHeight(p.count, MaxCount(PricePoints(os))).Some? &&
              5.0 <= BarHeight(p.count, MaxCount(PricePoints(os))).value <= 100.0
  {
    var ps := PricePoints(os);
    var gs := GroupBy(os, PriceKey);
    var dist := PriceDistribution(os);
    GroupByFaithful(os, PriceKey);
    forall p | p in ps
      ensures BarHeight(p.count, MaxCount(ps)).Some?
      ensures 5.0 <= BarHeight(p.count, MaxCount(ps)).value <= 100.0
    {
      var ms := Members(os, PriceKey, p.price);
      MembersExact(os, PriceKey, p.price);
      assert forall o :: o in ms ==> o in os by {
        forall o | o in ms ensures o in os {
          assert multiset(ms)[o] > 0;
        }
      }
      assert p in dist;
      var j :| 0 <= j < |dist| && dist[j] == p;
      assert gs[j].key == p.price;
      assert IndexOfKey(gs, p.price).Some?;
      PositiveUnits(ms);
      HeightInRange(p.count, MaxCount(ps));
    }
  }
}

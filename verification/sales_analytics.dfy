/** The computations of the sales view (src/components/analytics/SalesAnalytics.js)
    over the orders `selectSalesData` returns: top-line totals, revenue,
    units and order count per calendar month, the average unit price per
    month, the months in chronological order, growth between the last two
    months, and the chart's maximum revenue. */
module SalesAnalytics {
  import opened Common
  import opened Calendar
  import opened Orders
  import opened Grouping
  import opened Sorting

  /** The bucket key of an order: the month and year of its parsed date,
      or `None` when the date is missing or does not parse. */
  function MonthOf(parse: DateParser): Order -> Option<MonthKey> {
    (o: Order) =>
      match ParsedDate(o, parse)
      case None => None
      case Some(d) => Some(KeyOf(d))
  }

  /** The orders that land in some bucket. */
  function Dated(os: seq<Order>, parse: DateParser): seq<Order> {
    Keyed(os, MonthOf(parse))
  }

  /** The orders skipped with a log line. */
  function Undated(os: seq<Order>, parse: DateParser): seq<Order> {
    Unkeyed(os, MonthOf(parse))
  }

  /** One entry of `sortedSalesByMonth`; revenue in cents, `timestamp` the
      day number of the first order seen for the month. */
  datatype MonthRow = MonthRow(
    month: MonthKey,
    revenue: int,
    units: int,
    timestamp: int,
    avgPrice: real,
    orders: int)

  function RowRevenue(r: MonthRow): int {
    r.revenue
  }

  function RowUnits(r: MonthRow): int {
    r.units
  }

  function RowOrders(r: MonthRow): int {
    r.orders
  }

  function RowTimestamp(r: MonthRow): int {
    r.timestamp
  }

  /** The timestamp the entry took from the order that created it. The
      fallback 0 is never taken (`EntriesDated`). */
  function EntryTimestamp(g: Group<MonthKey>, parse: DateParser): int {
    match ParsedDate(g.first, parse)
    case None => 0
    case Some(d) => DayNumber(d)
  }

  /** Every month entry was created by an order whose date parses, so
      `EntryTimestamp` never falls back to 0. */
  lemma EntriesDated(os: seq<Order>, parse: DateParser)
    ensures forall i :: 0 <= i < |GroupBy(os, MonthOf(parse))| ==>
              ParsedDate(GroupBy(os, MonthOf(parse))[i].first, parse).Some?
  {
    GroupByFaithful(os, MonthOf(parse));
  }

  function ToRow(g: Group<MonthKey>, parse: DateParser): MonthRow {
    MonthRow(g.key, g.revenue, g.units, EntryTimestamp(g, parse), AverageUnitPrice(g.revenue, g.units), g.orders)
  }

  /** `salesByMonth` with `avgPrice` filled in, in key insertion order. */
  function SalesByMonth(os: seq<Order>, parse: DateParser): (rows: seq<MonthRow>)
    ensures |rows| == |GroupBy(os, MonthOf(parse))|
    ensures forall i :: 0 <= i < |rows| ==> rows[i] == ToRow(GroupBy(os, MonthOf(parse))[i], parse)
  {
    var gs := GroupBy(os, MonthOf(parse));
    seq(|gs|, i requires 0 <= i < |gs| => ToRow(gs[i], parse))
  }

  /** `sortedSalesByMonth`: the rows sorted by timestamp. */
  function SortedSalesByMonth(os: seq<Order>, parse: DateParser): seq<MonthRow> {
    SortBy(SalesByMonth(os, parse), RowTimestamp)
  }

  /** The timestamp is a day of the row's own month. */
  predicate StampInMonth(r: MonthRow) {
    InMonth(r.timestamp, r.month)
  }

  /** The row made from one faithful entry: stamped within its month, and
      summing the orders dated in that month. */
  lemma RowOfEntry(os: seq<Order>, parse: DateParser, g: Group<MonthKey>)
    requires MonthOf(parse)(g.first) == Some(g.key)
    requires EntrySums(g, os, MonthOf(parse))
    ensures StampInMonth(ToRow(g, parse))
    ensures ToRow(g, parse).revenue == TotalRevenue(Members(os, MonthOf(parse), g.key))
    ensures ToRow(g, parse).units == TotalUnits(Members(os, MonthOf(parse), g.key))
    ensures ToRow(g, parse).orders == |Members(os, MonthOf(parse), g.key)|
  {
    var d := ParsedDate(g.first, parse).value;
    assert KeyOf(d) == g.key;
    assert ToRow(g, parse).timestamp == DayNumber(d);
  }

  /** What each row of `SalesByMonth` says about the orders. */
  lemma RowsFaithful(os: seq<Order>, parse: DateParser)
    ensures forall r :: r in SalesByMonth(os, parse) ==>
              && StampInMonth(r)
              && r.revenue == TotalRevenue(Members(os, MonthOf(parse), r.month))
              && r.units == TotalUnits(Members(os, MonthOf(parse), r.month))
              && r.orders == |Members(os, MonthOf(parse), r.month)|
              && r.avgPrice == AverageUnitPrice(r.revenue, r.units)
              && r.orders > 0
    ensures forall r :: r in SalesByMonth(os, parse) ==>
              exists o :: o in os && MonthOf(parse)(o) == Some(r.month)
    ensures forall i, j :: 0 <= i < j < |SalesByMonth(os, parse)| ==>
              SalesByMonth(os, parse)[i].month != SalesByMonth(os, parse)[j].month
  {
    var keyOf := MonthOf(parse);
    var gs := GroupBy(os, keyOf);
    GroupByFaithful(os, keyOf);
    var rows := SalesByMonth(os, parse);
    forall r | r in rows
      ensures StampInMonth(r)
      ensures r.revenue == TotalRevenue(Members(os, keyOf, r.month))
      ensures r.units == TotalUnits(Members(os, keyOf, r.month))
      ensures r.orders == |Members(os, keyOf, r.month)|
      ensures r.avgPrice == AverageUnitPrice(r.revenue, r.units)
      ensures r.orders > 0
      ensures exists o :: o in os && keyOf(o) == Some(r.month)
    {
      var i :| 0 <= i < |rows| && rows[i] == r;
      assert r == ToRow(gs[i], parse);
      assert CreatedBy(gs, os, keyOf) && AllSums(gs, os, keyOf);
      RowOfEntry(os, parse, gs[i]);
      assert gs[i].first in os && keyOf(gs[i].first) == Some(r.month);
      assert KeysPresent(gs, os, keyOf);
      assert IndexOfKey(gs, gs[i].key).Some?;
    }
    forall i, j | 0 <= i < j < |rows|
      ensures rows[i].month != rows[j].month
    {
      assert rows[i].month == gs[i].key && rows[j].month == gs[j].key;
      assert KeysUnique(gs);
    }
  }

  /** Rows of different months carry different timestamps. */
  lemma DistinctStamps(rows: seq<MonthRow>)
    requires forall r :: r in rows ==> StampInMonth(r)
    requires forall i, j :: 0 <= i < j < |rows| ==> rows[i].month != rows[j].month
    ensures KeysDistinct(rows, RowTimestamp)
  {
    forall i, j | 0 <= i < j < |rows|
      ensures rows[i].timestamp != rows[j].timestamp
    {
      assert rows[i] in rows && rows[j] in rows;
      InMonthOrder(rows[i].timestamp, rows[i].month, rows[j].timestamp, rows[j].month);
    }
  }

  /** Rows stamped within their own, distinct months come out of the
      timestamp sort in strictly increasing month order. */
  lemma TimestampSortIsChronological(rows: seq<MonthRow>)
    requires forall r :: r in rows ==> StampInMonth(r)
    requires forall i, j :: 0 <= i < j < |rows| ==> rows[i].month != rows[j].month
    ensures forall i, j :: 0 <= i < j < |SortBy(rows, RowTimestamp)| ==>
              MonthIndex(SortBy(rows, RowTimestamp)[i].month) < MonthIndex(SortBy(rows, RowTimestamp)[j].month)
  {
    DistinctStamps(rows);
    SortDistinctIsStrict(rows, RowTimestamp);
    var sorted := SortBy(rows, RowTimestamp);
    forall i, j | 0 <= i < j < |sorted|
      ensures MonthIndex(sorted[i].month) < MonthIndex(sorted[j].month)
    {
      var x, y := sorted[i], sorted[j];
      assert x.timestamp < y.timestamp;
      assert x in rows && y in rows;
      var a :| 0 <= a < |rows| && rows[a] == x;
      var b :| 0 <= b < |rows| && rows[b] == y;
      assert a != b;
      assert x.month != y.month;
      InMonthOrder(x.timestamp, x.month, y.timestamp, y.month);
    }
  }

  /** The sorted months are strictly chronological: a later position is a
      later calendar month. */
  lemma SortedIsChronological(os: seq<Order>, parse: DateParser)
    ensures forall i, j :: 0 <= i < j < |SortedSalesByMonth(os, parse)| ==>
              MonthIndex(SortedSalesByMonth(os, parse)[i].month) < MonthIndex(SortedSalesByMonth(os, parse)[j].month)
  {
    RowsFaithful(os, parse);
    TimestampSortIsChronological(SalesByMonth(os, parse));
  }

  /** The buckets add up to the dated orders, and the top-line totals
      (`totalRevenue`, `totalUnitsSold`, the order count) are the buckets
      plus the orders skipped for a missing or invalid date. */
  lemma {:induction false} MonthlyTotals(os: seq<Order>, parse: DateParser)
    ensures SumOf(SortedSalesByMonth(os, parse), RowRevenue) == TotalRevenue(Dated(os, parse))
    ensures SumOf(SortedSalesByMonth(os, parse), RowUnits) == TotalUnits(Dated(os, parse))
    ensures SumOf(SortedSalesByMonth(os, parse), RowOrders) == |Dated(os, parse)|
    ensures TotalRevenue(os) == SumOf(SortedSalesByMonth(os, parse), RowRevenue) + TotalRevenue(Undated(os, parse))
    ensures TotalUnits(os) == SumOf(SortedSalesByMonth(os, parse), RowUnits) + TotalUnits(Undated(os, parse))
    ensures |os| == SumOf(SortedSalesByMonth(os, parse), RowOrders) + |Undated(os, parse)|
  {
    var keyOf := MonthOf(parse);
    var gs := GroupBy(os, keyOf);
    var rows := SalesByMonth(os, parse);
    var sorted := SortedSalesByMonth(os, parse);
    GroupByConserves(os, keyOf);
    KeyedSplit(os, keyOf);
    SumOfPointwise(rows, RowRevenue, gs, GroupRevenue);
    SumOfPointwise(rows, RowUnits, gs, GroupUnits);
    SumOfPointwise(rows, RowOrders, gs, GroupOrders);
    SumOfPermutation(sorted, rows, RowRevenue);
    SumOfPermutation(sorted, rows, RowUnits);
    SumOfPermutation(sorted, rows, RowOrders);
  }

  /** Every order with a valid date has the row of its own month. */
  lemma DatedOrderHasItsMonth(os: seq<Order>, parse: DateParser, o: Order)
    requires o in os && ParsedDate(o, parse).Some?
    ensures exists r :: r in SortedSalesByMonth(os, parse) && r.month == KeyOf(ParsedDate(o, parse).value)
  {
    var keyOf := MonthOf(parse);
    var k := KeyOf(ParsedDate(o, parse).value);
    var gs := GroupBy(os, keyOf);
    GroupByFaithful(os, keyOf);
    MembersExact(os, keyOf, k);
    assert multiset(Members(os, keyOf, k))[o] > 0;
    var i := IndexOfKey(gs, k).value;
    var rows := SalesByMonth(os, parse);
    assert rows[i].month == k;
    assert rows[i] in SortedSalesByMonth(os, parse);
  }

  /** The month-over-month growth values. */
  datatype Growth = Growth(revenue: real, units: real)

  /** Percentage change from `prev` to `cur`; 100 when `prev` is 0. */
  function PercentChange(prev: int, cur: int): (r: real)
    ensures prev != 0 ==> r * (prev as real) == ((cur - prev) as real) * 100.0
    ensures prev == 0 ==> r == 100.0
  {
    if prev != 0 then (((cur - prev) as real) / (prev as real)) * 100.0 else 100.0
  }

  /** `calculateGrowth`: compares the last month with the one before it. */
  function CalculateGrowth(rows: seq<MonthRow>): (g: Growth)
    ensures |rows| < 2 ==> g == Growth(0.0, 0.0)
    ensures |rows| >= 2 ==>
              g.revenue == PercentChange(rows[|rows| - 2].revenue, rows[|rows| - 1].revenue) &&
              g.units == PercentChange(rows[|rows| - 2].units, rows[|rows| - 1].units)
  {
    if |rows| < 2 then Growth(0.0, 0.0)
    else
      var current := rows[|rows| - 1];
      var previous := rows[|rows| - 2];
      Growth(PercentChange(previous.revenue, current.revenue), PercentChange(previous.units, current.units))
  }

  /** Only the last two months matter: earlier months can be anything. */
  lemma GrowthUsesLastTwo(earlier: seq<MonthRow>, rows: seq<MonthRow>)
    requires |rows| >= 2
    ensures CalculateGrowth(earlier + rows) == CalculateGrowth(rows)
  {
    var all := earlier + rows;
    assert all[|all| - 1] == rows[|rows| - 1];
    assert all[|all| - 2] == rows[|rows| - 2];
  }

  /** Revenue going from 100 to 150 is 50% growth. */
  lemma GrowthExample(a: MonthRow, b: MonthRow)
    requires a.revenue == 100 && b.revenue == 150
    ensures CalculateGrowth([a, b]).revenue == 50.0
  {
  }

  /** `maxRevenue`: the largest monthly revenue, 0 with no months. */
  function MaxRevenue(rows: seq<MonthRow>): (m: int)
    ensures |rows| == 0 ==> m == 0
    ensures forall i :: 0 <= i < |rows| ==> rows[i].revenue <= m
    ensures |rows| > 0 ==> exists i :: 0 <= i < |rows| && rows[i].revenue == m
    decreases |rows|
  {
    if |rows| == 0 then 0
    else if |rows| == 1 then rows[0].revenue
    else
      var rest := MaxRevenue(rows[1..]);
      if rows[0].revenue >= rest then rows[0].revenue
      else
        assert exists i :: 0 <= i < |rows[1..]| && rows[1..][i].revenue == rest;
        rest
  }
}

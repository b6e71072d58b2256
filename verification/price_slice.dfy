/** The `price` slice (src/store/slices/priceSlice.js): the chosen time
    frame, and `selectPriceData`, which narrows the selected orders to a
    trailing window ending now. The clock is the pair of parameters `today`
    and `timeOfDay`, and `new Date(text)` is the parameter `parse`. A parsed
    order date is midnight of its day, while both ends of the window carry
    the current time of day; instants are compared in milliseconds. */
module PriceSlice {
  import opened Common
  import opened Calendar
  import opened Orders
  import opened SalesSlice

  /** `selectedTimeFrame` is whatever string the dropdown dispatched. */
  datatype PriceState = PriceState(selectedTimeFrame: string)

  const Initial := PriceState("30days")

  /** `setTimeFrame`: the payload is stored as given, unchecked. */
  function SetTimeFrame(s: PriceState, frame: string): (r: PriceState)
    ensures r.selectedTimeFrame == frame
  {
    s.(selectedTimeFrame := frame)
  }

  /** The day number of `startDate` for a time frame: 7, 30 or 90 days
      back, one calendar year back for `year`, and 30 days back for any
      other string. */
  function WindowStart(frame: string, today: ValidDate): (r: int)
    ensures frame == "7days" ==> r == DayNumber(today) - 7
    ensures frame == "90days" ==> r == DayNumber(today) - 90
    ensures frame == "year" ==>
              DayNumber(today) - r == DaysInYear(if today.month > 2 then today.year else today.year - 1)
    ensures frame == "year" ==> 365 <= DayNumber(today) - r <= 366
    ensures frame !in {"7days", "90days", "year"} ==> r == DayNumber(today) - 30
  {
    if frame == "7days" then DayNumber(today) - 7
    else if frame == "30days" then DayNumber(today) - 30
    else if frame == "90days" then DayNumber(today) - 90
    else if frame == "year" then
      YearBack(today);
      DayNumber(Date(today.year - 1, today.month, today.day))
    else DayNumber(today) - 30
  }

  const DayMs := 86400000

  /** Milliseconds since midnight. */
  type TimeOfDay = t: int | 0 <= t < DayMs

  /** The instant of day `day` at time `t`, in milliseconds since the epoch. */
  function Instant(day: int, t: int): int {
    day * DayMs + t
  }

  /** `!isNaN(orderDate) && orderDate >= startDate && orderDate <= today`:
      the order has a date that parses, and its midnight lies between the
      window's start day and today, both at time `t`. */
  predicate InWindow(o: Order, parse: DateParser, start: int, end: int, t: TimeOfDay) {
    match ParsedDate(o, parse)
    case None => false
    case Some(d) => Instant(start, t) <= Instant(DayNumber(d), 0) <= Instant(end, t)
  }

  /** In whole days: the end day is always in the window, and the start
      day only at the stroke of midnight. */
  lemma InWindowDays(o: Order, parse: DateParser, start: int, end: int, t: TimeOfDay)
    ensures InWindow(o, parse, start, end, t) <==>
              ParsedDate(o, parse).Some? &&
              var day := DayNumber(ParsedDate(o, parse).value);
              (start < day || (start == day && t == 0)) && day <= end
  {
  }

  /** Under `7days`, an order dated exactly seven days ago is in the window
      only at the stroke of midnight; one dated eight days ago never is. */
  lemma SevenDayBoundary(o: Order, parse: DateParser, today: ValidDate, t: TimeOfDay)
    requires ParsedDate(o, parse).Some?
    ensures DayNumber(ParsedDate(o, parse).value) == DayNumber(today) - 7 ==>
              (InWindow(o, parse, WindowStart("7days", today), DayNumber(today), t) <==> t == 0)
    ensures DayNumber(ParsedDate(o, parse).value) == DayNumber(today) - 8 ==>
              !InWindow(o, parse, WindowStart("7days", today), DayNumber(today), t)
  {
    InWindowDays(o, parse, WindowStart("7days", today), DayNumber(today), t);
  }

  /** `selectPriceData`. */
  function PriceData(sales: SalesState, price: PriceState, today: ValidDate, timeOfDay: TimeOfDay,
                     parse: DateParser): (r: seq<Order>)
    ensures sales.selectedProduct.None? && sales.selectedVariant.None? ==> r == []
    ensures IsSubseq(r, SalesData(sales))
    ensures forall o :: o in r ==>
              ParsedDate(o, parse).Some? &&
              WindowStart(price.selectedTimeFrame, today)
                <= DayNumber(ParsedDate(o, parse).value)
                <= DayNumber(today)
    ensures forall o :: multiset(r)[o] ==
              if && Relevant(sales, o)
                 && InWindow(o, parse, WindowStart(price.selectedTimeFrame, today), DayNumber(today), timeOfDay)
              then multiset(sales.orders)[o] else 0
  {
    if |sales.orders| == 0 then []
    else if sales.selectedVariant.None? && sales.selectedProduct.None? then []
    else
      var start := WindowStart(price.selectedTimeFrame, today);
      var end := DayNumber(today);
      Filter(SelectionOrders(sales), (o: Order) => InWindow(o, parse, start, end, timeOfDay))
  }

  /** A window that starts no later keeps every order a later-starting one
      keeps, in the same order. */
  lemma WiderWindowKeepsOrders(sales: SalesState, narrow: string, wide: string, today: ValidDate,
                                t: TimeOfDay, parse: DateParser)
    requires WindowStart(wide, today) <= WindowStart(narrow, today)
    ensures IsSubseq(PriceData(sales, PriceState(narrow), today, t, parse),
                     PriceData(sales, PriceState(wide), today, t, parse))
  {
    if |sales.orders| > 0 && !(sales.selectedVariant.None? && sales.selectedProduct.None?) {
      var end := DayNumber(today);
      var sn, sw := WindowStart(narrow, today), WindowStart(wide, today);
      FilterMonotone(SelectionOrders(sales),
        (o: Order) => InWindow(o, parse, sn, end, t),
        (o: Order) => InWindow(o, parse, sw, end, t));
    }
  }

  /** The four frames the dropdown offers are nested:
      7 days within 30 days within 90 days within a year, and so the week
      within the year. */
  lemma FramesNest(sales: SalesState, today: ValidDate, t: TimeOfDay, parse: DateParser)
    ensures IsSubseq(PriceData(sales, PriceState("7days"), today, t, parse),
                     PriceData(sales, PriceState("30days"), today, t, parse))
    ensures IsSubseq(PriceData(sales, PriceState("30days"), today, t, parse),
                     PriceData(sales, PriceState("90days"), today, t, parse))
    ensures IsSubseq(PriceData(sales, PriceState("90days"), today, t, parse),
                     PriceData(sales, PriceState("year"), today, t, parse))
    ensures IsSubseq(PriceData(sales, PriceState("7days"), today, t, parse),
                     PriceData(sales, PriceState("year"), today, t, parse))
  {
    var week := PriceData(sales, PriceState("7days"), today, t, parse);
    var month := PriceData(sales, PriceState("30days"), today, t, parse);
    var quarter := PriceData(sales, PriceState("90days"), today, t, parse);
    var year := PriceData(sales, PriceState("year"), today, t, parse);
    WiderWindowKeepsOrders(sales, "7days", "30days", today, t, parse);
    WiderWindowKeepsOrders(sales, "30days", "90days", today, t, parse);
    WiderWindowKeepsOrders(sales, "90days", "year", today, t, parse);
    SubseqTrans(week, month, quarter);
    SubseqTrans(week, quarter, year);
  }
}

/** Proleptic Gregorian calendar dates and day numbers.

    JavaScript `Date` values are millisecond timestamps; the dashboard only
    ever compares them, takes their month and year, or moves them by whole
    days or by one calendar year. A `Date` here is the calendar day, and
    `DayNumber` counts days from 1970-01-01 so that comparing dates is
    comparing integers. */
module Calendar {

  datatype Date = Date(year: int, month: int, day: int)

  /** The (month, year) bucket key built at SalesAnalytics.js:50. */
  datatype MonthKey = MonthKey(year: int, month: int)

  predicate IsLeap(y: int) {
    y % 4 == 0 && (y % 100 != 0 || y % 400 == 0)
  }

  function DaysInYear(y: int): int {
    if IsLeap(y) then 366 else 365
  }

  predicate ValidMonth(m: int) {
    1 <= m <= 12
  }

  function DaysInMonth(y: int, m: int): (r: int)
    requires ValidMonth(m)
    ensures 28 <= r <= 31
  {
    if m == 2 then (if IsLeap(y) then 29 else 28)
    else if m == 4 || m == 6 || m == 9 || m == 11 then 30
    else 31
  }

  predicate Valid(d: Date) {
    ValidMonth(d.month) && 1 <= d.day <= DaysInMonth(d.year, d.month)
  }

  /** A date a parser can produce: `new Date(...)` always normalises to a
      real calendar day. */
  type ValidDate = d: Date | Valid(d) witness Date(1970, 1, 1)

  /** Leap years strictly before year `y`, up to a constant. */
  function LeapsBefore(y: int): int {
    (y - 1) / 4 - (y - 1) / 100 + (y - 1) / 400
  }

  function YearStart(y: int): int {
    365 * (y - 1970) + LeapsBefore(y) - LeapsBefore(1970)
  }

  function DaysBeforeMonth(y: int, m: int): int
    requires ValidMonth(m)
  {
    var common :=
      if m == 1 then 0 else if m == 2 then 31 else if m == 3 then 59
      else if m == 4 then 90 else if m == 5 then 120 else if m == 6 then 151
      else if m == 7 then 181 else if m == 8 then 212 else if m == 9 then 243
      else if m == 10 then 273 else if m == 11 then 304 else 334;
    if m > 2 && IsLeap(y) then common + 1 else common
  }

  function MonthStart(k: MonthKey): int
    requires ValidMonth(k.month)
  {
    YearStart(k.year) + DaysBeforeMonth(k.year, k.month)
  }

  /** Days since 1970-01-01. A day beyond the end of its month runs on into
      the next month, as JavaScript's `Date` setters do (29 February of a
      common year is 1 March). */
  function DayNumber(d: Date): int
    requires ValidMonth(d.month)
  {
    MonthStart(MonthKey(d.year, d.month)) + d.day - 1
  }

  function KeyOf(d: Date): MonthKey {
    MonthKey(d.year, d.month)
  }

  /** Months counted consecutively across years. */
  function MonthIndex(k: MonthKey): int {
    12 * k.year + k.month - 1
  }

  function NextMonth(k: MonthKey): (r: MonthKey)
    requires ValidMonth(k.month)
    ensures ValidMonth(r.month)
    ensures MonthIndex(r) == MonthIndex(k) + 1
  {
    if k.month == 12 then MonthKey(k.year + 1, 1) else MonthKey(k.year, k.month + 1)
  }

  /** A year is as long as the distance between its first day and the next
      year's first day. */
  lemma YearStep(y: int)
    ensures YearStart(y + 1) == YearStart(y) + DaysInYear(y)
  {
    StepBy4(y);
    StepBy100(y);
    StepBy400(y);
  }

  /** Going from `y - 1` to `y` passes a multiple of 4 exactly when `y` is one. */
  lemma StepBy4(y: int)
    ensures y / 4 - (y - 1) / 4 == if y % 4 == 0 then 1 else 0
  {
  }

  lemma StepBy100(y: int)
    ensures y / 100 - (y - 1) / 100 == if y % 100 == 0 then 1 else 0
  {
  }

  lemma StepBy400(y: int)
    ensures y / 400 - (y - 1) / 400 == if y % 400 == 0 then 1 else 0
  {
  }

  /** The first day of the next month follows the last day of this one. */
  lemma MonthStep(k: MonthKey)
    requires ValidMonth(k.month)
    ensures MonthStart(NextMonth(k)) == MonthStart(k) + DaysInMonth(k.year, k.month)
  {
    if k.month == 12 {
      YearStep(k.year);
    }
  }

  /** Every day of an earlier month precedes the first day of a later one. */
  lemma {:induction false} MonthStartOrder(a: MonthKey, b: MonthKey)
    requires ValidMonth(a.month) && ValidMonth(b.month)
    requires MonthIndex(a) < MonthIndex(b)
    ensures MonthStart(a) + DaysInMonth(a.year, a.month) <= MonthStart(b)
    decreases MonthIndex(b) - MonthIndex(a)
  {
    var n := NextMonth(a);
    MonthStep(a);
    if n != b {
      MonthIndexInjective(n, b);
      MonthStartOrder(n, b);
    }
  }

  /** Consecutive month numbering tells months apart. */
  lemma MonthIndexInjective(a: MonthKey, b: MonthKey)
    requires ValidMonth(a.month) && ValidMonth(b.month)
    requires a != b
    ensures MonthIndex(a) != MonthIndex(b)
  {
    if a.year < b.year {
      assert MonthIndex(a) < 12 * (a.year + 1) <= MonthIndex(b);
    } else if b.year < a.year {
      assert MonthIndex(b) < 12 * (b.year + 1) <= MonthIndex(a);
    }
  }

  /** Day `t` falls within month `k`. */
  predicate InMonth(t: int, k: MonthKey) {
    ValidMonth(k.month) && MonthStart(k) <= t < MonthStart(k) + DaysInMonth(k.year, k.month)
  }

  /** Days of different months are different days, ordered as their months
      are. */
  lemma InMonthOrder(t1: int, k1: MonthKey, t2: int, k2: MonthKey)
    requires InMonth(t1, k1) && InMonth(t2, k2)
    requires k1 != k2
    ensures t1 < t2 <==> MonthIndex(k1) < MonthIndex(k2)
    ensures t1 != t2
  {
    MonthIndexInjective(k1, k2);
    if MonthIndex(k1) < MonthIndex(k2) {
      MonthStartOrder(k1, k2);
    } else {
      MonthStartOrder(k2, k1);
    }
  }

  /** Moving a valid date back one calendar year, day overflow included,
      moves it back by the length of the year holding the February it
      steps over: 365 or 366 days. */
  lemma {:induction false} YearBack(d: ValidDate)
    ensures DayNumber(d) - DayNumber(Date(d.year - 1, d.month, d.day)) ==
              DaysInYear(if d.month > 2 then d.year else d.year - 1)
    ensures 365 <= DayNumber(d) - DayNumber(Date(d.year - 1, d.month, d.day)) <= 366
  {
    YearStep(d.year - 1);
  }
}

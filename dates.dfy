/** Calendar dates (the `Date` column once parsed) and calendar months (the keys of
    the monthly trend). */
module Dates {
  import opened Wrappers
  import Order

  datatype Date = Date(year: int, month: int, day: int)

  datatype Month = Month(year: int, month: int)

  /** Gregorian leap years. */
  predicate IsLeapYear(y: int) {
    y % 4 == 0 && (y % 100 != 0 || y % 400 == 0)
  }

  function DaysInMonth(y: int, m: int): (n: int)
    requires 1 <= m <= 12
    ensures 28 <= n <= 31
    ensures n == 29 <==> m == 2 && IsLeapYear(y)
  {
    if m == 2 then (if IsLeapYear(y) then 29 else 28)
    else if m == 4 || m == 6 || m == 9 || m == 11 then 30
    else 31
  }

  /** An existing calendar day. */
  predicate IsValid(d: Date) {
    1 <= d.month <= 12 && 1 <= d.day <= DaysInMonth(d.year, d.month)
  }

  /** Chronological order of days: by year, then month, then day. */
  predicate DateLe(a: Date, b: Date) {
    a.year < b.year
    || (a.year == b.year && a.month < b.month)
    || (a.year == b.year && a.month == b.month && a.day <= b.day)
  }

  lemma DateLeIsTotalOrder()
    ensures forall a :: DateLe(a, a)
    ensures forall a, b :: DateLe(a, b) && DateLe(b, a) ==> a == b
    ensures forall a, b, c :: DateLe(a, b) && DateLe(b, c) ==> DateLe(a, c)
    ensures forall a, b :: DateLe(a, b) || DateLe(b, a)
  {
  }

  /** The calendar month a day falls in. */
  function MonthOf(d: Date): (m: Month)
    ensures m.year == d.year && m.month == d.month
  {
    Month(d.year, d.month)
  }

  /** Chronological order of months. */
  predicate MonthLt(a: Month, b: Month) {
    a.year < b.year || (a.year == b.year && a.month < b.month)
  }

  lemma MonthLtIsStrictTotalOrder()
    ensures Order.IsStrictTotalOrder(MonthLt)
  {
  }

  /** A `Date` cell as the spreadsheet reader hands it over: empty, the fields of a
      calendar date (which need not exist), or a value that cannot be read as a date. */
  datatype DateCell = Blank | Calendar(year: int, month: int, day: int) | Unreadable

  /** Date parsing in coercing mode (app.py:64): a cell that names an existing day becomes
      that day; every other cell becomes missing (NaT) instead of raising. */
  function CoerceDate(c: DateCell): (r: Option<Date>)
    ensures r.Some? ==> IsValid(r.value)
    ensures r.Some? <==> c.Calendar? && IsValid(Date(c.year, c.month, c.day))
    ensures r.Some? ==> r.value == Date(c.year, c.month, c.day)
  {
    match c
    case Calendar(y, m, d) => if IsValid(Date(y, m, d)) then Some(Date(y, m, d)) else None
    case _ => None
  }
}

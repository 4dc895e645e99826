/**
 * Proleptic Gregorian calendar dates as Python's `datetime.date` handles them:
 * `Ordinal` is `date.toordinal()` (0001-01-01 is day 1), subtraction of dates is
 * subtraction of ordinals, and `Weekday` is `date.weekday()` (Monday is 0).
 */
module Calendar {

  type Month = m: int | 1 <= m <= 12 witness 1

  datatype Date = Date(year: int, month: Month, day: int)

  predicate IsLeap(y: int)
  {
    y % 4 == 0 && (y % 100 != 0 || y % 400 == 0)
  }

  /** `calendar.monthrange(y, m)[1]`. */
  function DaysInMonth(y: int, m: Month): (n: int)
    ensures 28 <= n <= 31
    ensures n == 29 <==> m == 2 && IsLeap(y)
  {
    if m == 2 then (if IsLeap(y) then 29 else 28)
    else if m == 4 || m == 6 || m == 9 || m == 11 then 30
    else 31
  }

  /** A date Python can represent (years 1 to 9999). */
  predicate Valid(d: Date)
  {
    1 <= d.year <= 9999 && 1 <= d.day <= DaysInMonth(d.year, d.month)
  }

  /** Days of year `y` that lie before the first of month `m` (m = 13 gives the whole year). */
  function DaysBeforeMonth(y: int, m: int): int
    requires 1 <= m <= 13
  {
    if m == 1 then 0 else DaysBeforeMonth(y, m - 1) + DaysInMonth(y, m - 1)
  }

  function DaysBeforeYear(y: int): int
  {
    var p := y - 1;
    365 * p + p / 4 - p / 100 + p / 400
  }

  function Ordinal(d: Date): int
  {
    DaysBeforeYear(d.year) + DaysBeforeMonth(d.year, d.month) + d.day
  }

  /** `(b - a).days` for two dates. */
  function DaysBetween(a: Date, b: Date): int
  {
    Ordinal(b) - Ordinal(a)
  }

  predicate Before(a: Date, b: Date) { Ordinal(a) < Ordinal(b) }

  predicate NotAfter(a: Date, b: Date) { Ordinal(a) <= Ordinal(b) }

  /** `start <= d <= end`, SQL's `BETWEEN` on dates. */
  predicate InWindow(d: Date, start: Date, end: Date)
  {
    Ordinal(start) <= Ordinal(d) <= Ordinal(end)
  }

  /** `date.weekday()`: Monday is 0, Sunday is 6. */
  function Weekday(d: Date): (w: int)
    ensures 0 <= w < 7
  {
    (Ordinal(d) + 6) % 7
  }

  function MonthStart(d: Date): Date { Date(d.year, d.month, 1) }

  function MonthEnd(d: Date): Date { Date(d.year, d.month, DaysInMonth(d.year, d.month)) }

  lemma DaysBeforeMonthBounds(y: int, m: int)
    requires 1 <= m <= 13
    ensures 28 * (m - 1) <= DaysBeforeMonth(y, m) <= 31 * (m - 1)
  {
  }

  lemma {:induction false} DaysInYear(y: int)
    ensures DaysBeforeMonth(y, 13) == if IsLeap(y) then 366 else 365
  {
    var feb := DaysInMonth(y, 2);
    assert DaysBeforeMonth(y, 2) == 31;
    assert DaysBeforeMonth(y, 3) == 31 + feb;
    assert DaysBeforeMonth(y, 4) == 62 + feb;
    assert DaysBeforeMonth(y, 5) == 92 + feb;
    assert DaysBeforeMonth(y, 6) == 123 + feb;
    assert DaysBeforeMonth(y, 7) == 153 + feb;
    assert DaysBeforeMonth(y, 8) == 184 + feb;
    assert DaysBeforeMonth(y, 9) == 215 + feb;
    assert DaysBeforeMonth(y, 10) == 245 + feb;
    assert DaysBeforeMonth(y, 11) == 276 + feb;
    assert DaysBeforeMonth(y, 12) == 306 + feb;
  }

  /** Consecutive years: the first of January follows the 31st of December. */
  lemma YearStep(y: int)
    ensures DaysBeforeYear(y + 1) == DaysBeforeYear(y) + (if IsLeap(y) then 366 else 365)
  {
    var p := y - 1;
    assert y / 4 == p / 4 + (if y % 4 == 0 then 1 else 0);
    assert y / 100 == p / 100 + (if y % 100 == 0 then 1 else 0);
    assert y / 400 == p / 400 + (if y % 400 == 0 then 1 else 0);
    if y % 400 == 0 {
      assert y % 100 == 0 && y % 4 == 0;
    } else if y % 100 == 0 {
      assert y % 4 == 0;
    }
  }

  /** The day after the last of a month is the first of the next month. */
  lemma MonthEndNextStart(y: int, m: Month)
    requires m < 12
    ensures Ordinal(Date(y, m, DaysInMonth(y, m))) + 1 == Ordinal(Date(y, m + 1, 1))
  {
  }

  lemma YearEndNextStart(y: int)
    ensures Ordinal(Date(y, 12, 31)) + 1 == Ordinal(Date(y + 1, 1, 1))
  {
    DaysInYear(y);
    YearStep(y);
  }

  /** Every valid date comes on or after 0001-01-01. */
  lemma {:induction false} OrdinalPositive(d: Date)
    requires Valid(d)
    ensures Ordinal(d) >= 1
  {
    DaysBeforeMonthBounds(d.year, d.month);
  }

  /** `d - timedelta(days=1)`. */
  function PrevDay(d: Date): (r: Date)
    requires Valid(d) && d != Date(1, 1, 1)
    ensures Valid(r)
    ensures Ordinal(r) == Ordinal(d) - 1
  {
    if d.day > 1 then Date(d.year, d.month, d.day - 1)
    else if d.month > 1 then
      var m: Month := d.month - 1;
      MonthEndNextStart(d.year, m);
      Date(d.year, m, DaysInMonth(d.year, m))
    else
      YearEndNextStart(d.year - 1);
      Date(d.year - 1, 12, 31)
  }

  /** Within one month the ordinal advances by one per day. */
  lemma SameMonthDistance(a: Date, b: Date)
    requires a.year == b.year && a.month == b.month
    ensures Ordinal(b) - Ordinal(a) == b.day - a.day
  {
  }

  /** Whole months of one year follow each other; month 13 stands for the end of the year. */
  lemma {:induction false} MonthOrder(y: int, m1: Month, m2: int)
    requires m1 < m2 <= 13
    ensures DaysBeforeMonth(y, m1) + DaysInMonth(y, m1) <= DaysBeforeMonth(y, m2)
    decreases m2 - m1
  {
    if m1 + 1 < m2 {
      MonthOrder(y, m1, m2 - 1);
    }
  }

  /** A whole year lies before the first day of every later year. */
  lemma {:induction false} YearsOrdered(y1: int, y2: int)
    requires y1 < y2
    ensures DaysBeforeYear(y1) + DaysBeforeMonth(y1, 13) <= DaysBeforeYear(y2)
    decreases y2 - y1
  {
    DaysInYear(y1);
    YearStep(y1);
    if y1 + 1 < y2 {
      YearsOrdered(y1 + 1, y2);
      DaysBeforeMonthBounds(y1 + 1, 13);
    }
  }

  /** A valid date in an earlier (year, month) has a smaller ordinal. */
  lemma DateOrder(d: Date, e: Date)
    requires Valid(d) && Valid(e)
    requires d.year < e.year || (d.year == e.year && d.month < e.month)
    ensures Ordinal(d) < Ordinal(e)
  {
    if d.year == e.year {
      MonthOrder(d.year, d.month, e.month);
    } else {
      MonthOrder(d.year, d.month, 13);
      YearsOrdered(d.year, e.year);
      DaysBeforeMonthBounds(e.year, e.month);
    }
  }

  /** A valid date lies between the first and the last day of `t`'s month exactly when it is in that month. */
  lemma MonthWindow(d: Date, t: Date)
    requires Valid(d) && Valid(t)
    ensures InWindow(d, MonthStart(t), MonthEnd(t)) <==> d.year == t.year && d.month == t.month
  {
    if d.year < t.year || (d.year == t.year && d.month < t.month) {
      DateOrder(d, MonthStart(t));
    } else if d.year > t.year || (d.year == t.year && d.month > t.month) {
      DateOrder(MonthEnd(t), d);
    }
  }
}

// Proleptic Gregorian calendar dates (Python's datetime.date), enough for day
// differences and for date.replace(year=...).
module Calendar {
  import opened Wrappers

  datatype Date = Date(year: int, month: int, day: int)

  predicate IsLeap(y: int)
  {
    y % 4 == 0 && (y % 100 != 0 || y % 400 == 0)
  }

  function DaysInYear(y: int): int
  {
    if IsLeap(y) then 366 else 365
  }

  function DaysInMonth(y: int, m: int): int
    requires 1 <= m <= 12
  {
    if m == 2 then (if IsLeap(y) then 29 else 28)
    else if m == 4 || m == 6 || m == 9 || m == 11 then 30
    else 31
  }

  /** A date Python can represent: years 1 to 9999, a real month and day. */
  predicate Valid(d: Date)
  {
    1 <= d.year <= 9999 && 1 <= d.month <= 12 && 1 <= d.day <= DaysInMonth(d.year, d.month)
  }

  function DaysBeforeYear(y: int): int
    requires y >= 1
  {
    365 * (y - 1) + (y - 1) / 4 - (y - 1) / 100 + (y - 1) / 400
  }

  function DaysBeforeMonth(y: int, m: int): int
    requires 1 <= m <= 12
    decreases m
  {
    if m == 1 then 0 else DaysBeforeMonth(y, m - 1) + DaysInMonth(y, m - 1)
  }

  /** Day number of a date, 1 for 0001-01-01 (Python's date.toordinal()). */
  function Ordinal(d: Date): int
    requires Valid(d)
  {
    DaysBeforeYear(d.year) + DaysBeforeMonth(d.year, d.month) + d.day
  }

  /** a > b in date order (year, then month, then day). */
  predicate After(a: Date, b: Date)
  {
    a.year > b.year || (a.year == b.year && (a.month > b.month || (a.month == b.month && a.day > b.day)))
  }

  /** (a - b).days for two dates. */
  function DaysBetween(a: Date, b: Date): int
    requires Valid(a) && Valid(b)
  {
    Ordinal(a) - Ordinal(b)
  }

  /** date.replace(year=y): fails (None) when the day does not exist in year y (February 29). */
  function ReplaceYear(d: Date, y: int): (r: Option<Date>)
    requires Valid(d)
    ensures r.Some? <==> 1 <= y <= 9999 && (d.month != 2 || d.day != 29 || IsLeap(y))
    ensures r.Some? ==> Valid(r.value) && r.value == Date(y, d.month, d.day)
  {
    var c := Date(y, d.month, d.day);
    if Valid(c) then Some(c) else None
  }

  lemma DaysBeforeYearStep(y: int)
    requires y >= 1
    ensures DaysBeforeYear(y + 1) == DaysBeforeYear(y) + DaysInYear(y)
  {
    var k := y - 1;
    assert y / 4 - k / 4 == (if y % 4 == 0 then 1 else 0);
    assert y / 100 - k / 100 == (if y % 100 == 0 then 1 else 0);
    assert y / 400 - k / 400 == (if y % 400 == 0 then 1 else 0);
  }

  lemma MonthsFitYear(y: int, m: int)
    requires 1 <= m <= 12
    ensures DaysBeforeMonth(y, m) + DaysInMonth(y, m) <= DaysInYear(y)
    ensures m == 12 ==> DaysBeforeMonth(y, m) + DaysInMonth(y, m) == DaysInYear(y)
  {
  }

  /** Every date of year y has an ordinal strictly after the days of earlier years and within its own year. */
  lemma OrdinalWithinYear(d: Date)
    requires Valid(d)
    ensures DaysBeforeYear(d.year) < Ordinal(d) <= DaysBeforeYear(d.year) + DaysInYear(d.year)
  {
    MonthsFitYear(d.year, d.month);
  }

  /** Dates at least two calendar years apart are more than a year of days apart. */
  lemma {:induction false} YearsApart(a: Date, b: Date)
    requires Valid(a) && Valid(b) && a.year + 2 <= b.year
    ensures Ordinal(b) - Ordinal(a) > 365
  {
    OrdinalWithinYear(a);
    OrdinalWithinYear(b);
    DaysBeforeYearStep(a.year);
    DaysBeforeYearsMonotone(a.year + 1, b.year - 1);
    DaysBeforeYearStep(b.year - 1);
  }

  lemma {:induction false} DaysBeforeYearsMonotone(x: int, y: int)
    requires 1 <= x <= y
    ensures DaysBeforeYear(x) <= DaysBeforeYear(y)
    decreases y - x
  {
    if x < y {
      DaysBeforeYearStep(x);
      DaysBeforeYearsMonotone(x + 1, y);
    }
  }
}

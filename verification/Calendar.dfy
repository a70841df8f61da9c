/**
 The proleptic Gregorian calendar of the `time` crate as far as schedules and targets use it:
 dates from year -9999 to 9999, their order, and checked day arithmetic.
 */
module Calendar {
  import opened Wrappers

  const MIN_YEAR := -9999
  const MAX_YEAR := 9999

  predicate IsLeap(year: int) {
    year % 4 == 0 && (year % 100 != 0 || year % 400 == 0)
  }

  function MonthLength(year: int, month: int): int
    requires 1 <= month <= 12
  {
    if month == 2 then (if IsLeap(year) then 29 else 28)
    else if month == 4 || month == 6 || month == 9 || month == 11 then 30
    else 31
  }

  datatype CalendarDate = CalendarDate(year: int, month: int, day: int) {
    predicate Valid() {
      MIN_YEAR <= year <= MAX_YEAR && 1 <= month <= 12 && 1 <= day <= MonthLength(year, month)
    }
  }

  type Date = d: CalendarDate | d.Valid() witness CalendarDate(1970, 1, 1)

  const MIN_DATE: Date := CalendarDate(MIN_YEAR, 1, 1)
  const MAX_DATE: Date := CalendarDate(MAX_YEAR, 12, 31)

  predicate Before(a: Date, b: Date) {
    || a.year < b.year
    || (a.year == b.year && (a.month < b.month || (a.month == b.month && a.day < b.day)))
  }

  predicate NotAfter(a: Date, b: Date) {
    a == b || Before(a, b)
  }

  // ----- Day numbers --------------------------------------------------------------------------

  function DaysBeforeYear(year: int): int {
    365 * (year - 1) + (year - 1) / 4 - (year - 1) / 100 + (year - 1) / 400
  }

  function DaysBeforeMonth(year: int, month: int): int
    requires 1 <= month <= 13
  {
    if month == 1 then 0 else DaysBeforeMonth(year, month - 1) + MonthLength(year, month - 1)
  }

  /** Days since the first of January of year one. */
  function Ordinal(d: Date): int {
    DaysBeforeYear(d.year) + DaysBeforeMonth(d.year, d.month) + d.day - 1
  }

  lemma MonthTable(year: int)
    ensures DaysBeforeMonth(year, 13) == if IsLeap(year) then 366 else 365
  {
    assert DaysBeforeMonth(year, 2) == 31;
    assert DaysBeforeMonth(year, 3) == 31 + MonthLength(year, 2);
    assert DaysBeforeMonth(year, 5) == DaysBeforeMonth(year, 4) + 30;
    assert DaysBeforeMonth(year, 7) == DaysBeforeMonth(year, 6) + 30;
    assert DaysBeforeMonth(year, 9) == DaysBeforeMonth(year, 8) + 31;
    assert DaysBeforeMonth(year, 11) == DaysBeforeMonth(year, 10) + 31;
  }

  lemma YearLength(year: int)
    ensures DaysBeforeYear(year + 1) == DaysBeforeYear(year) + DaysBeforeMonth(year, 13)
  {
    var y := year;
    assert y / 4 - (y - 1) / 4 == if y % 4 == 0 then 1 else 0;
    assert y / 100 - (y - 1) / 100 == if y % 100 == 0 then 1 else 0;
    assert y / 400 - (y - 1) / 400 == if y % 400 == 0 then 1 else 0;
    assert y % 400 == 0 ==> y % 100 == 0;
    assert y % 100 == 0 ==> y % 4 == 0;
    MonthTable(year);
  }

  lemma {:induction false} MonthsGrow(year: int, month: int, later: int)
    requires 1 <= month < later <= 13
    ensures DaysBeforeMonth(year, month) + MonthLength(year, month) <= DaysBeforeMonth(year, later)
    decreases later
  {
    if later > month + 1 {
      MonthsGrow(year, month, later - 1);
    }
  }

  lemma {:induction false} YearsGrow(year: int, later: int)
    requires year < later
    ensures DaysBeforeYear(year) + DaysBeforeMonth(year, 13) <= DaysBeforeYear(later)
    decreases later - year
  {
    YearLength(year);
    if year + 1 < later {
      YearsGrow(year + 1, later);
      MonthTable(year + 1);
    }
  }

  lemma OrdinalWithinYear(d: Date)
    ensures DaysBeforeYear(d.year) <= Ordinal(d) < DaysBeforeYear(d.year) + DaysBeforeMonth(d.year, 13)
  {
    MonthsGrow(d.year, d.month, 13);
    if d.month > 1 {
      MonthsGrow(d.year, 1, d.month);
    }
  }

  lemma OrdinalIncreases(a: Date, b: Date)
    requires Before(a, b)
    ensures Ordinal(a) < Ordinal(b)
  {
    if a.year < b.year {
      OrdinalWithinYear(a);
      OrdinalWithinYear(b);
      YearsGrow(a.year, b.year);
    } else if a.month < b.month {
      MonthsGrow(a.year, a.month, b.month);
    }
  }

  /** The order of dates is the order of their day numbers, so a day number names one date. */
  lemma OrderIsOrdinal(a: Date, b: Date)
    ensures Before(a, b) <==> Ordinal(a) < Ordinal(b)
    ensures a == b <==> Ordinal(a) == Ordinal(b)
  {
    if Before(a, b) {
      OrdinalIncreases(a, b);
    } else if a != b {
      assert Before(b, a);
      OrdinalIncreases(b, a);
    }
  }

  function Next(d: Date): (n: Date)
    requires d != MAX_DATE
    ensures Ordinal(n) == Ordinal(d) + 1
  {
    if d.day < MonthLength(d.year, d.month) then CalendarDate(d.year, d.month, d.day + 1)
    else if d.month < 12 then CalendarDate(d.year, d.month + 1, 1)
    else
      YearLength(d.year);
      CalendarDate(d.year + 1, 1, 1)
  }

  function FromOrdinal(n: int): (d: Date)
    requires Ordinal(MIN_DATE) <= n <= Ordinal(MAX_DATE)
    ensures Ordinal(d) == n
    decreases n - Ordinal(MIN_DATE)
  {
    if n == Ordinal(MIN_DATE) then MIN_DATE else Next(FromOrdinal(n - 1))
  }

  /** `Date::checked_add` with a whole number of days. */
  function AddDays(d: Date, days: int): Option<Date> {
    var n := Ordinal(d) + days;
    if Ordinal(MIN_DATE) <= n <= Ordinal(MAX_DATE) then Some(FromOrdinal(n)) else None
  }

  lemma OrdinalBounds(d: Date)
    ensures Ordinal(MIN_DATE) <= Ordinal(d) <= Ordinal(MAX_DATE)
  {
    if d != MIN_DATE {
      OrdinalIncreases(MIN_DATE, d);
    }
    if d != MAX_DATE {
      OrdinalIncreases(d, MAX_DATE);
    }
  }

  lemma AddDaysExact(d: Date, days: int, later: Date)
    ensures AddDays(d, days) == Some(later) <==> Ordinal(later) == Ordinal(d) + days
  {
    OrdinalBounds(later);
    if AddDays(d, days).Some? {
      OrderIsOrdinal(AddDays(d, days).value, later);
    }
  }

  // ----- Months -------------------------------------------------------------------------------

  /** Calendar months counted without a break across years. */
  function MonthIndex(d: Date): int {
    d.year * 12 + d.month - 1
  }

  lemma LaterMonthIsLater(a: Date, b: Date)
    requires MonthIndex(a) < MonthIndex(b)
    ensures Before(a, b)
  {
  }
}

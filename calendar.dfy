/**
 * Proleptic Gregorian calendar dates, as Python's `date` type has them:
 * years 1 to 9999, the ordinal numbering in which 0001-01-01 is day 1, and
 * date arithmetic by a whole number of days, which fails outside that range.
 */
module Calendar {
  import opened Wrappers

  const MaxYear := 9999

  datatype Date = Date(year: int, month: int, day: int)

  const FirstDate := Date(1, 1, 1)
  const LastDate := Date(MaxYear, 12, 31)

  predicate IsLeapYear(y: int) {
    y % 4 == 0 && (y % 100 != 0 || y % 400 == 0)
  }

  function DaysInYear(y: int): int {
    if IsLeapYear(y) then 366 else 365
  }

  function DaysInMonth(y: int, m: int): (n: int)
    requires 1 <= m <= 12
    ensures 28 <= n <= 31
  {
    if m == 2 then (if IsLeapYear(y) then 29 else 28)
    else if m == 4 || m == 6 || m == 9 || m == 11 then 30
    else 31
  }

  /** A date the calendar has: the check Python's `date` constructor makes. */
  predicate ValidDate(d: Date) {
    1 <= d.year <= MaxYear && 1 <= d.month <= 12 && 1 <= d.day <= DaysInMonth(d.year, d.month)
  }

  /** Days in the years before year `y`. */
  function DaysBeforeYear(y: int): int
    requires y >= 1
  {
    var p := y - 1;
    365 * p + p / 4 - p / 100 + p / 400
  }

  /** Days in the months of year `y` before month `m`. */
  function DaysBeforeMonth(y: int, m: int): int
    requires 1 <= m <= 12
  {
    var common :=
      if m == 1 then 0 else if m == 2 then 31 else if m == 3 then 59
      else if m == 4 then 90 else if m == 5 then 120 else if m == 6 then 151
      else if m == 7 then 181 else if m == 8 then 212 else if m == 9 then 243
      else if m == 10 then 273 else if m == 11 then 304 else 334;
    common + (if m > 2 && IsLeapYear(y) then 1 else 0)
  }

  /** The day number of `d`, counting 0001-01-01 as day 1 (`date.toordinal`). */
  function Ordinal(d: Date): int
    requires ValidDate(d)
  {
    DaysBeforeYear(d.year) + DaysBeforeMonth(d.year, d.month) + d.day
  }

  const MaxOrdinal := 3652059

  lemma YearStep(y: int)
    requires y >= 1
    ensures DaysBeforeYear(y + 1) == DaysBeforeYear(y) + DaysInYear(y)
  {
    Quotients(y);
    assert DaysBeforeYear(y + 1) == 365 * y + y / 4 - y / 100 + y / 400;
  }

  /** How the leap-year counts grow from the years before `y` to the years up to `y`. */
  lemma Quotients(y: int)
    requires y >= 1
    ensures y / 4 - (y - 1) / 4 == if y % 4 == 0 then 1 else 0
    ensures y / 100 - (y - 1) / 100 == if y % 100 == 0 then 1 else 0
    ensures y / 400 - (y - 1) / 400 == if y % 400 == 0 then 1 else 0
  {
    var p := y - 1;
    assert p == 4 * (p / 4) + p % 4 && y == 4 * (y / 4) + y % 4;
    assert p == 100 * (p / 100) + p % 100 && y == 100 * (y / 100) + y % 100;
    assert p == 400 * (p / 400) + p % 400 && y == 400 * (y / 400) + y % 400;
  }

  lemma MonthStep(y: int, m: int)
    requires 1 <= m <= 12
    ensures m < 12 ==> DaysBeforeMonth(y, m + 1) == DaysBeforeMonth(y, m) + DaysInMonth(y, m)
    ensures m == 12 ==> DaysBeforeMonth(y, m) + DaysInMonth(y, m) == DaysInYear(y)
  {
  }

  /** Each later year starts at least a whole year later. */
  lemma {:induction false} YearsMonotone(a: int, b: int)
    requires 1 <= a < b
    ensures DaysBeforeYear(a) + DaysInYear(a) <= DaysBeforeYear(b)
    decreases b - a
  {
    YearStep(a);
    if a + 1 < b {
      YearsMonotone(a + 1, b);
    }
  }

  /** Each later month of a year starts after the whole of an earlier one. */
  lemma {:induction false} MonthsMonotone(y: int, a: int, b: int)
    requires 1 <= a < b <= 12
    ensures DaysBeforeMonth(y, a) + DaysInMonth(y, a) <= DaysBeforeMonth(y, b)
    decreases b - a
  {
    MonthStep(y, a);
    if a + 1 < b {
      MonthsMonotone(y, a + 1, b);
      MonthStep(y, a + 1);
    }
  }

  /** Every valid date has an ordinal in 1 .. MaxOrdinal, the range of `date.fromordinal`. */
  lemma OrdinalRange(d: Date)
    requires ValidDate(d)
    ensures 1 <= Ordinal(d) <= MaxOrdinal
    ensures Ordinal(d) == 1 <==> d == FirstDate
    ensures Ordinal(d) == MaxOrdinal <==> d == LastDate
  {
    OrdinalInYear(d);
    YearBounds(d.year);
  }

  /** A date's ordinal lies within its year; the year's first and last days sit at its two ends. */
  lemma OrdinalInYear(d: Date)
    requires ValidDate(d)
    ensures DaysBeforeYear(d.year) < Ordinal(d) <= DaysBeforeYear(d.year) + DaysInYear(d.year)
    ensures Ordinal(d) == DaysBeforeYear(d.year) + 1 <==> d.month == 1 && d.day == 1
    ensures Ordinal(d) == DaysBeforeYear(d.year) + DaysInYear(d.year) <==> d.month == 12 && d.day == 31
  {
    if d.month < 12 {
      MonthsMonotone(d.year, d.month, 12);
    }
    if d.month > 1 {
      MonthsMonotone(d.year, 1, d.month);
    }
    MonthStep(d.year, 12);
  }

  /** The years 1 .. 9999 fill the ordinals 1 .. MaxOrdinal: the first starts at 0, the last ends at MaxOrdinal. */
  lemma YearBounds(y: int)
    requires 1 <= y <= MaxYear
    ensures 0 <= DaysBeforeYear(y) && (DaysBeforeYear(y) == 0 <==> y == 1)
    ensures DaysBeforeYear(y) + DaysInYear(y) <= MaxOrdinal
    ensures DaysBeforeYear(y) + DaysInYear(y) == MaxOrdinal <==> y == MaxYear
  {
    if y > 1 {
      YearsMonotone(1, y);
    }
    if y < MaxYear {
      YearsMonotone(y, MaxYear);
    }
  }

  /** Distinct valid dates have distinct ordinals. */
  lemma OrdinalInjective(a: Date, b: Date)
    requires ValidDate(a) && ValidDate(b)
    ensures Ordinal(a) == Ordinal(b) <==> a == b
  {
    if a.year != b.year {
      var (x, z) := if a.year < b.year then (a, b) else (b, a);
      YearPart(x, z);
    } else if a.month != b.month {
      var (x, z) := if a.month < b.month then (a, b) else (b, a);
      MonthsMonotone(x.year, x.month, z.month);
    }
  }

  lemma YearPart(x: Date, z: Date)
    requires ValidDate(x) && ValidDate(z) && x.year < z.year
    ensures Ordinal(x) < Ordinal(z)
  {
    if x.month < 12 {
      MonthsMonotone(x.year, x.month, 12);
    }
    MonthStep(x.year, 12);
    YearsMonotone(x.year, z.year);
  }

  /** The day after `d`; None past 9999-12-31. */
  function NextDay(d: Date): (r: Option<Date>)
    requires ValidDate(d)
    ensures r.Some? ==> ValidDate(r.value) && Ordinal(r.value) == Ordinal(d) + 1
    ensures r.None? <==> d == LastDate
  {
    if d.day < DaysInMonth(d.year, d.month) then
      Some(Date(d.year, d.month, d.day + 1))
    else if d.month < 12 then
      MonthStep(d.year, d.month);
      Some(Date(d.year, d.month + 1, 1))
    else if d.year < MaxYear then
      MonthStep(d.year, 12);
      YearStep(d.year);
      Some(Date(d.year + 1, 1, 1))
    else
      None
  }

  /**
   * `date.fromordinal(o)`: the date whose ordinal is `o`, reached from
   * 0001-01-01 one day at a time.
   */
  function FromOrdinal(o: int): (d: Date)
    requires 1 <= o <= MaxOrdinal
    ensures ValidDate(d) && Ordinal(d) == o
    decreases o
  {
    if o == 1 then FirstDate
    else
      var before := FromOrdinal(o - 1);
      assert before != LastDate by { OrdinalRange(before); }
      NextDay(before).value
  }

  /**
   * `d + timedelta(days=n)`: Python adds `n` to the ordinal and converts
   * back; None where it raises OverflowError because the ordinal leaves
   * 1 .. MaxOrdinal.
   */
  function AddDays(d: Date, n: int): (r: Option<Date>)
    requires ValidDate(d)
    ensures r.Some? <==> 1 <= Ordinal(d) + n <= MaxOrdinal
    ensures r.Some? ==> ValidDate(r.value) && Ordinal(r.value) == Ordinal(d) + n
  {
    var o := Ordinal(d) + n;
    if 1 <= o <= MaxOrdinal then Some(FromOrdinal(o)) else None
  }

  /**
   * Date arithmetic is ordinal arithmetic: `AddDays(d, n)` is the one valid
   * date whose ordinal is `Ordinal(d) + n`.
   */
  lemma AddDaysExact(d: Date, n: int, e: Date)
    requires ValidDate(d)
    ensures AddDays(d, n) == Some(e) <==> ValidDate(e) && Ordinal(e) == Ordinal(d) + n
  {
    if ValidDate(e) && Ordinal(e) == Ordinal(d) + n {
      OrdinalRange(e);
      OrdinalInjective(AddDays(d, n).value, e);
    }
  }

  /** Adding days one at a time: a day more is the next day, once the sum is defined. */
  lemma AddDaysStep(d: Date, n: int)
    requires ValidDate(d) && AddDays(d, n).Some? && AddDays(d, n).value != LastDate
    ensures AddDays(d, n + 1) == NextDay(AddDays(d, n).value)
  {
    var e := AddDays(d, n).value;
    OrdinalRange(e);
    AddDaysExact(d, n + 1, NextDay(e).value);
  }
}

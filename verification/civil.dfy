/** Proleptic Gregorian calendar arithmetic.
    Month lengths and the leap-year rule are those of section 5.7 of RFC 3339;
    days are counted from 0000-01-01 and, for the Unix clock, from 1970-01-01. */
module Civil {

  /** A calendar date. It is meaningful when ValidDate holds. */
  datatype Date = Date(year: int, month: int, day: int)

  predicate IsLeapYear(y: int) {
    y % 4 == 0 && (y % 100 != 0 || y % 400 == 0)
  }

  function DaysInMonth(y: int, m: int): (n: int)
    requires 1 <= m <= 12
    ensures 28 <= n <= 31
    ensures n == 29 <==> m == 2 && IsLeapYear(y)
    ensures n == 28 <==> m == 2 && !IsLeapYear(y)
  {
    if m == 2 then (if IsLeapYear(y) then 29 else 28)
    else if m == 4 || m == 6 || m == 9 || m == 11 then 30
    else 31
  }

  predicate ValidDate(d: Date) {
    1 <= d.month <= 12 && 1 <= d.day <= DaysInMonth(d.year, d.month)
  }

  function YearLength(y: int): int {
    if IsLeapYear(y) then 366 else 365
  }

  /** Number of days from 0000-01-01 to the first day of year y (negative before year 0). */
  function DaysBeforeYear(y: int): int {
    365 * y + (y + 3) / 4 - (y + 99) / 100 + (y + 399) / 400
  }

  /** Number of days from the first of January of year y to the first day of month m;
      m == 13 stands for the first day of the next year. */
  function DaysBeforeMonth(y: int, m: int): int
    requires 1 <= m <= 13
  {
    var common :=
      if m == 1 then 0 else if m == 2 then 31 else if m == 3 then 59
      else if m == 4 then 90 else if m == 5 then 120 else if m == 6 then 151
      else if m == 7 then 181 else if m == 8 then 212 else if m == 9 then 243
      else if m == 10 then 273 else if m == 11 then 304 else if m == 12 then 334
      else 365;
    common + (if m > 2 && IsLeapYear(y) then 1 else 0)
  }

  /** Days from 0000-01-01 to 1970-01-01. */
  const UnixEpochDayNumber: int := 719528

  /** Days from 0000-01-01 to d. */
  function DayNumber(d: Date): int
    requires ValidDate(d)
  {
    DaysBeforeYear(d.year) + DaysBeforeMonth(d.year, d.month) + d.day - 1
  }

  /** Days from 1970-01-01 to d. */
  function EpochDay(d: Date): int
    requires ValidDate(d)
  {
    DayNumber(d) - UnixEpochDayNumber
  }

  lemma YearStep(y: int)
    ensures DaysBeforeYear(y + 1) == DaysBeforeYear(y) + YearLength(y)
  {
    assert (y + 4) / 4 - (y + 3) / 4 == (if y % 4 == 0 then 1 else 0);
    assert (y + 100) / 100 - (y + 99) / 100 == (if y % 100 == 0 then 1 else 0);
    assert (y + 400) / 400 - (y + 399) / 400 == (if y % 400 == 0 then 1 else 0);
  }

  /** Every 400-year cycle has 146097 days. */
  lemma CycleStart(q: int)
    ensures DaysBeforeYear(400 * q) == 146097 * q
  {
    assert (400 * q + 3) / 4 == 100 * q;
    assert (400 * q + 99) / 100 == 4 * q;
    assert (400 * q + 399) / 400 == q;
  }

  lemma MonthStep(y: int, m: int)
    requires 1 <= m <= 12
    ensures DaysBeforeMonth(y, m + 1) == DaysBeforeMonth(y, m) + DaysInMonth(y, m)
  {
  }

  lemma {:induction false} YearsAscend(a: int, b: int)
    requires a < b
    ensures DaysBeforeYear(a) + YearLength(a) <= DaysBeforeYear(b)
    decreases b - a
  {
    YearStep(a);
    if a + 1 < b {
      YearsAscend(a + 1, b);
    }
  }

  lemma {:induction false} MonthsAscend(y: int, a: int, b: int)
    requires 1 <= a < b <= 13
    ensures DaysBeforeMonth(y, a) + DaysInMonth(y, a) <= DaysBeforeMonth(y, b)
    decreases b - a
  {
    MonthStep(y, a);
    if a + 1 < b {
      MonthsAscend(y, a + 1, b);
    }
  }

  /** Walks forward from year y over rem remaining days; returns the year those days end in
      and the offset into it. */
  function YearWalk(y: int, rem: int): (r: (int, int))
    requires 0 <= rem
    ensures DaysBeforeYear(r.0) + r.1 == DaysBeforeYear(y) + rem
    ensures 0 <= r.1 < YearLength(r.0)
    decreases rem
  {
    if rem < YearLength(y) then (y, rem)
    else
      YearStep(y);
      YearWalk(y + 1, rem - YearLength(y))
  }

  /** Walks forward from month m of year y over rem remaining days of that year. */
  function MonthWalk(y: int, m: int, rem: int): (r: (int, int))
    requires 1 <= m <= 12
    requires 0 <= rem < DaysBeforeMonth(y, 13) - DaysBeforeMonth(y, m)
    ensures m <= r.0 <= 12
    ensures DaysBeforeMonth(y, r.0) + r.1 == DaysBeforeMonth(y, m) + rem
    ensures 0 <= r.1 < DaysInMonth(y, r.0)
    decreases 12 - m
  {
    MonthStep(y, m);
    if rem < DaysInMonth(y, m) then (m, rem)
    else MonthWalk(y, m + 1, rem - DaysInMonth(y, m))
  }

  /** The date that lies z days after 0000-01-01. */
  function FromDayNumber(z: int): (d: Date)
    ensures ValidDate(d)
    ensures DayNumber(d) == z
  {
    var q := z / 146097;
    CycleStart(q);
    var yr := YearWalk(400 * q, z % 146097);
    assert DaysBeforeMonth(yr.0, 13) == YearLength(yr.0);
    var mr := MonthWalk(yr.0, 1, yr.1);
    Date(yr.0, mr.0, mr.1 + 1)
  }

  /** The date that lies n days after 1970-01-01 (before it when n is negative). */
  function FromEpochDay(n: int): (d: Date)
    ensures ValidDate(d)
    ensures EpochDay(d) == n
  {
    FromDayNumber(n + UnixEpochDayNumber)
  }

  /** The offset of a valid date inside its year lies within the year. */
  lemma DayOfYearBound(d: Date)
    requires ValidDate(d)
    ensures 0 <= DaysBeforeMonth(d.year, d.month) + d.day - 1 < YearLength(d.year)
  {
    MonthStep(d.year, d.month);
    if d.month < 12 {
      MonthsAscend(d.year, d.month + 1, 13);
    }
  }

  /** Distinct valid dates have distinct day numbers. */
  lemma DayNumberInjective(a: Date, b: Date)
    requires ValidDate(a) && ValidDate(b)
    requires DayNumber(a) == DayNumber(b)
    ensures a == b
  {
    DayOfYearBound(a);
    DayOfYearBound(b);
    if a.year < b.year {
      YearsAscend(a.year, b.year);
      assert false;
    } else if b.year < a.year {
      YearsAscend(b.year, a.year);
      assert false;
    }
    if a.month < b.month {
      MonthsAscend(a.year, a.month, b.month);
      assert false;
    } else if b.month < a.month {
      MonthsAscend(a.year, b.month, a.month);
      assert false;
    }
  }

  /** Decoding an encoded date gives the date back. */
  lemma EpochDayRoundTrip(d: Date)
    requires ValidDate(d)
    ensures FromEpochDay(EpochDay(d)) == d
  {
    DayNumberInjective(FromEpochDay(EpochDay(d)), d);
  }

  /** EpochDay orders dates chronologically: year first, then month, then day. */
  lemma EpochDayChronological(a: Date, b: Date)
    requires ValidDate(a) && ValidDate(b)
    ensures EpochDay(a) < EpochDay(b) <==>
      a.year < b.year
      || (a.year == b.year && a.month < b.month)
      || (a.year == b.year && a.month == b.month && a.day < b.day)
  {
    DayOfYearBound(a);
    DayOfYearBound(b);
    if a.year < b.year {
      YearsAscend(a.year, b.year);
    } else if b.year < a.year {
      YearsAscend(b.year, a.year);
    } else if a.month < b.month {
      MonthsAscend(a.year, a.month, b.month);
    } else if b.month < a.month {
      MonthsAscend(a.year, b.month, a.month);
    }
  }

  /** Day of the week of an epoch day: 0 is Sunday, 6 is Saturday (1970-01-01 was a Thursday). */
  function Weekday(n: int): (w: int)
    ensures 0 <= w < 7
  {
    (n + 4) % 7
  }

  /** Consecutive days have consecutive weekdays, wrapping from Saturday to Sunday. */
  lemma WeekdayNext(n: int)
    ensures Weekday(n + 1) == (Weekday(n) + 1) % 7
  {
  }

  lemma UnixEpochIsThursday()
    ensures EpochDay(Date(1970, 1, 1)) == 0
    ensures Weekday(EpochDay(Date(1970, 1, 1))) == 4
  {
  }
}

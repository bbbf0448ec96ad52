/**
 * The calendar and clock values the code stores: a proleptic Gregorian date
 * without time zone (chrono's `NaiveDate`) and a UTC instant (chrono's
 * `DateTime<Utc>`), the latter as a date, a second of that day and nanoseconds.
 */
module Chrono {

  predicate IsLeapYear(y: int) {
    y % 4 == 0 && (y % 100 != 0 || y % 400 == 0)
  }

  function DaysInMonth(y: int, m: int): (n: int)
    requires 1 <= m <= 12
    ensures 28 <= n <= 31
  {
    if m == 2 then (if IsLeapYear(y) then 29 else 28)
    else if m == 4 || m == 6 || m == 9 || m == 11 then 30
    else 31
  }

  function YearLength(y: int): int {
    if IsLeapYear(y) then 366 else 365
  }

  datatype Ymd = Ymd(year: int, month: int, day: int)

  predicate IsValidYmd(d: Ymd) {
    1 <= d.month <= 12 && 1 <= d.day <= DaysInMonth(d.year, d.month)
  }

  /** A `NaiveDate` always denotes an existing calendar day. */
  type NaiveDate = d: Ymd | IsValidYmd(d) witness Ymd(1970, 1, 1)

  /** `NaiveDate::from_ymd`, which panics on a day that does not exist. */
  function FromYmd(year: int, month: int, day: int): (d: NaiveDate)
    requires IsValidYmd(Ymd(year, month, day))
    ensures d.year == year && d.month == month && d.day == day
  {
    Ymd(year, month, day)
  }

  /** The day after `d`. */
  function NextDay(d: NaiveDate): (e: NaiveDate)
    ensures e.year == d.year || (e.year == d.year + 1 && e.month == 1 && e.day == 1)
  {
    if d.day < DaysInMonth(d.year, d.month) then Ymd(d.year, d.month, d.day + 1)
    else if d.month < 12 then Ymd(d.year, d.month + 1, 1)
    else Ymd(d.year + 1, 1, 1)
  }

  /** Days from 1 January 1970 to 1 January of `y` (negative before 1970). */
  function DaysBeforeYear(y: int): int
    decreases if y < 1970 then 1970 - y else y - 1970
  {
    if y == 1970 then 0
    else if y > 1970 then DaysBeforeYear(y - 1) + YearLength(y - 1)
    else DaysBeforeYear(y + 1) - YearLength(y)
  }

  /** Days from 1 January of `y` to the first day of month `m`. */
  function DaysBeforeMonth(y: int, m: int): (n: int)
    requires 1 <= m <= 12
    ensures 0 <= n
  {
    if m == 1 then 0 else DaysBeforeMonth(y, m - 1) + DaysInMonth(y, m - 1)
  }

  /** The number of days from 1970-01-01 to `d`: the day number that chrono counts from. */
  function DaysFromCivil(d: NaiveDate): int {
    DaysBeforeYear(d.year) + DaysBeforeMonth(d.year, d.month) + d.day - 1
  }

  const SecondsPerDay := 86400

  /** `d.and_hms(0, 0, 0).timestamp()`: the epoch seconds of midnight at the start of `d`. */
  function MidnightTimestamp(d: NaiveDate): (r: int)
    ensures r % SecondsPerDay == 0 && r / SecondsPerDay == DaysFromCivil(d)
  {
    DaysFromCivil(d) * SecondsPerDay
  }

  /** A second within a day, as chrono's `NaiveTime` counts it. */
  type SecondOfDay = s: int | 0 <= s < SecondsPerDay

  /** The sub-second part in nanoseconds; chrono admits a second second's worth to represent a leap second. */
  type Nanos = n: int | 0 <= n < 2_000_000_000

  /** A `DateTime<Utc>`, stored as chrono stores it: a date, the second of that day and the nanoseconds. */
  datatype DateTime = DateTime(date: NaiveDate, secs: SecondOfDay, frac: Nanos)

  /** `DateTime::timestamp`: the whole seconds since the epoch; it carries the day number and the second of the day. */
  function Timestamp(dt: DateTime): (r: int)
    ensures r / SecondsPerDay == DaysFromCivil(dt.date)
    ensures r % SecondsPerDay == dt.secs
  {
    MidnightTimestamp(dt.date) + dt.secs
  }

  /** Two instants have the same timestamp exactly when they fall in the same second. */
  lemma TimestampIdentifiesSecond(a: DateTime, b: DateTime)
    ensures Timestamp(a) == Timestamp(b) <==> a.date == b.date && a.secs == b.secs
  {
    DaysFromCivilInjective(a.date, b.date);
  }

  lemma DaysBeforeYearStep(y: int)
    ensures DaysBeforeYear(y + 1) == DaysBeforeYear(y) + YearLength(y)
  {
  }

  lemma DaysBeforeDecember(y: int)
    ensures DaysBeforeMonth(y, 12) + 31 == YearLength(y)
  {
    var leap := if IsLeapYear(y) then 1 else 0;
    assert DaysBeforeMonth(y, 2) == 31;
    assert DaysBeforeMonth(y, 3) == 59 + leap;
    assert DaysBeforeMonth(y, 4) == 90 + leap;
    assert DaysBeforeMonth(y, 5) == 120 + leap;
    assert DaysBeforeMonth(y, 6) == 151 + leap;
    assert DaysBeforeMonth(y, 7) == 181 + leap;
    assert DaysBeforeMonth(y, 8) == 212 + leap;
    assert DaysBeforeMonth(y, 9) == 243 + leap;
    assert DaysBeforeMonth(y, 10) == 273 + leap;
    assert DaysBeforeMonth(y, 11) == 304 + leap;
    assert DaysBeforeMonth(y, 12) == 334 + leap;
  }

  /** The epoch anchor: 1970-01-01 is day 0. */
  lemma EpochIsDayZero()
    ensures DaysFromCivil(FromYmd(1970, 1, 1)) == 0
  {
  }

  /**
   * Consecutive days have consecutive day numbers. With the epoch anchor this
   * determines `DaysFromCivil` on every date.
   */
  lemma NextDayIsOneLater(d: NaiveDate)
    ensures DaysFromCivil(NextDay(d)) == DaysFromCivil(d) + 1
  {
    if d.day == DaysInMonth(d.year, d.month) && d.month == 12 {
      DaysBeforeYearStep(d.year);
      DaysBeforeDecember(d.year);
    }
  }

  /** A known value: 1977-03-10 is day 2625 (seven years with two leap days, then 68 days). */
  lemma DayOf1977March10()
    ensures DaysFromCivil(FromYmd(1977, 3, 10)) == 2625
  {
  }

  /** Years start later and later: a year's first day number never decreases. */
  lemma {:induction false} DaysBeforeYearMonotone(a: int, b: int)
    requires a <= b
    ensures DaysBeforeYear(a) <= DaysBeforeYear(b)
    decreases b - a
  {
    if a < b {
      DaysBeforeYearMonotone(a, b - 1);
      DaysBeforeYearStep(b - 1);
    }
  }

  /** A month that starts earlier in the year ends no later than any later month starts. */
  lemma {:induction false} DaysBeforeMonthMonotone(y: int, m1: int, m2: int)
    requires 1 <= m1 < m2 <= 12
    ensures DaysBeforeMonth(y, m1) + DaysInMonth(y, m1) <= DaysBeforeMonth(y, m2)
    decreases m2 - m1
  {
    if m1 + 1 < m2 {
      DaysBeforeMonthMonotone(y, m1, m2 - 1);
    }
  }

  /** Every day of year `y` has a day number within that year. */
  lemma DaysFromCivilWithinYear(d: NaiveDate)
    ensures DaysBeforeYear(d.year) <= DaysFromCivil(d) < DaysBeforeYear(d.year) + YearLength(d.year)
  {
    if d.month < 12 {
      DaysBeforeMonthMonotone(d.year, d.month, 12);
    }
    DaysBeforeDecember(d.year);
  }

  /** A date in an earlier year has a smaller day number. */
  lemma EarlierYearEarlierDay(d: NaiveDate, e: NaiveDate)
    requires d.year < e.year
    ensures DaysFromCivil(d) < DaysFromCivil(e)
  {
    DaysFromCivilWithinYear(d);
    DaysFromCivilWithinYear(e);
    DaysBeforeYearStep(d.year);
    DaysBeforeYearMonotone(d.year + 1, e.year);
  }

  /** Distinct dates have distinct day numbers. */
  lemma DaysFromCivilInjective(d: NaiveDate, e: NaiveDate)
    ensures DaysFromCivil(d) == DaysFromCivil(e) <==> d == e
  {
    if d.year < e.year {
      EarlierYearEarlierDay(d, e);
    } else if e.year < d.year {
      EarlierYearEarlierDay(e, d);
    } else if d.month < e.month {
      DaysBeforeMonthMonotone(d.year, d.month, e.month);
    } else if e.month < d.month {
      DaysBeforeMonthMonotone(d.year, e.month, d.month);
    }
  }
}

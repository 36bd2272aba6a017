/**
 * Naive (timezone-free) date-times in the proleptic Gregorian calendar, as
 * Python's `datetime.datetime` represents them, with the two operations the
 * uploader applies to them: `+ timedelta(days=1)` and
 * `replace(hour=12, minute=0, second=0, microsecond=0)`.
 *
 * `Ordinal` is Python's day number (`toordinal()`: 0001-01-01 is day 1),
 * written in closed form. It is the independent reference against which the
 * day successor is proved.
 */
module Calendar {
  import opened Wrappers

  const MinYear := 1
  const MaxYear := 9999

  datatype DateTime = DateTime(year: int, month: int, day: int,
                               hour: int, minute: int, second: int, microsecond: int)
  {
    /** The range `datetime.datetime` accepts. */
    predicate Valid() {
      MinYear <= year <= MaxYear && 1 <= month <= 12 && 1 <= day <= DaysInMonth(year, month) &&
      0 <= hour < 24 && 0 <= minute < 60 && 0 <= second < 60 && 0 <= microsecond < 1000000
    }

    /** Exactly 12:00:00.000000. */
    predicate IsNoon() {
      hour == 12 && minute == 0 && second == 0 && microsecond == 0
    }
  }

  predicate IsLeapYear(y: int) {
    y % 4 == 0 && (y % 100 != 0 || y % 400 == 0)
  }

  function DaysInMonth(y: int, m: int): int
    requires 1 <= m <= 12
  {
    if m == 2 then (if IsLeapYear(y) then 29 else 28)
    else if m == 4 || m == 6 || m == 9 || m == 11 then 30
    else 31
  }

  function DaysInYear(y: int): int {
    if IsLeapYear(y) then 366 else 365
  }

  /** Days in the years before year `y` (Python's `_days_before_year`). */
  function DaysBeforeYear(y: int): int {
    var y1 := y - 1;
    y1 * 365 + y1 / 4 - y1 / 100 + y1 / 400
  }

  /** Days in the months before month `m` of year `y` (Python's `_days_before_month`). */
  function DaysBeforeMonth(y: int, m: int): int
    requires 1 <= m <= 12
  {
    [0, 31, 59, 90, 120, 151, 181, 212, 243, 273, 304, 334][m - 1]
      + (if m > 2 && IsLeapYear(y) then 1 else 0)
  }

  /** Python's `toordinal()` of the date part. */
  function Ordinal(t: DateTime): int
    requires 1 <= t.month <= 12
  {
    DaysBeforeYear(t.year) + DaysBeforeMonth(t.year, t.month) + t.day
  }

  predicate SameTimeOfDay(a: DateTime, b: DateTime) {
    a.hour == b.hour && a.minute == b.minute && a.second == b.second && a.microsecond == b.microsecond
  }

  predicate SameDate(a: DateTime, b: DateTime) {
    a.year == b.year && a.month == b.month && a.day == b.day
  }

  /** The last day `datetime` can represent: adding a day to it overflows. */
  predicate IsLastRepresentableDay(t: DateTime) {
    t.year == MaxYear && t.month == 12 && t.day == 31
  }

  lemma YearLength(y: int)
    ensures DaysBeforeYear(y + 1) == DaysBeforeYear(y) + DaysInYear(y)
  {
    var y1 := y - 1;
    assert y / 4 - y1 / 4 == (if y % 4 == 0 then 1 else 0);
    assert y / 100 - y1 / 100 == (if y % 100 == 0 then 1 else 0);
    assert y / 400 - y1 / 400 == (if y % 400 == 0 then 1 else 0);
  }

  lemma MonthLength(y: int, m: int)
    requires 1 <= m <= 12
    ensures m < 12 ==> DaysBeforeMonth(y, m + 1) == DaysBeforeMonth(y, m) + DaysInMonth(y, m)
    ensures m == 12 ==> DaysBeforeMonth(y, m) + DaysInMonth(y, m) == DaysInYear(y)
  {
  }

  /**
   * `t + timedelta(days=1)`: the same time of day on the next calendar day,
   * rolling over month and year ends and leap days; None where Python
   * raises OverflowError (the result would lie past year 9999).
   */
  function NextDay(t: DateTime): (r: Option<DateTime>)
    requires t.Valid()
    ensures r.None? <==> IsLastRepresentableDay(t)
    ensures r.Some? ==> r.value.Valid() && SameTimeOfDay(r.value, t)
  {
    if t.day < DaysInMonth(t.year, t.month) then
      Some(t.(day := t.day + 1))
    else if t.month < 12 then
      Some(t.(month := t.month + 1, day := 1))
    else if t.year < MaxYear then
      Some(t.(year := t.year + 1, month := 1, day := 1))
    else
      None
  }

  /** The day successor is the next day number: `date.fromordinal(d.toordinal() + 1)`. */
  lemma NextDayOrdinal(t: DateTime)
    requires t.Valid() && !IsLastRepresentableDay(t)
    ensures Ordinal(NextDay(t).value) == Ordinal(t) + 1
  {
    if t.day == DaysInMonth(t.year, t.month) {
      MonthLength(t.year, t.month);
      if t.month == 12 {
        YearLength(t.year);
      }
    }
  }

  /** `t + timedelta(days=n)` for n >= 0, taken one day at a time. */
  function AddDays(t: DateTime, n: nat): (r: Option<DateTime>)
    requires t.Valid()
    ensures r.Some? ==> r.value.Valid() && SameTimeOfDay(r.value, t)
    decreases n
  {
    if n == 0 then Some(t)
    else match NextDay(t)
      case None => None
      case Some(u) => AddDays(u, n - 1)
  }

  /** n days later is n day numbers later. */
  lemma {:induction false} AddDaysOrdinal(t: DateTime, n: nat)
    requires t.Valid() && AddDays(t, n).Some?
    ensures Ordinal(AddDays(t, n).value) == Ordinal(t) + n
    decreases n
  {
    if n > 0 {
      var u := NextDay(t).value;
      NextDayOrdinal(t);
      AddDaysOrdinal(u, n - 1);
    }
  }

  /** `t.replace(hour=12, minute=0, second=0, microsecond=0)`. */
  function AtNoon(t: DateTime): (r: DateTime)
    requires t.Valid()
    ensures r.Valid() && r.IsNoon() && SameDate(r, t)
  {
    t.(hour := 12, minute := 0, second := 0, microsecond := 0)
  }

  /** Different days have different day numbers. */
  lemma {:induction false} OrdinalInjective(a: DateTime, b: DateTime)
    requires a.Valid() && b.Valid()
    requires Ordinal(a) == Ordinal(b)
    ensures SameDate(a, b)
  {
    if a.year < b.year {
      OrdinalYearBounds(a);
      OrdinalYearBounds(b);
      YearsMonotone(a.year + 1, b.year);
      assert false;
    } else if b.year < a.year {
      OrdinalYearBounds(a);
      OrdinalYearBounds(b);
      YearsMonotone(b.year + 1, a.year);
      assert false;
    } else if a.month < b.month {
      MonthsMonotone(a.year, a.month, b.month);
    } else if b.month < a.month {
      MonthsMonotone(a.year, b.month, a.month);
    }
  }

  lemma OrdinalYearBounds(t: DateTime)
    requires t.Valid()
    ensures DaysBeforeYear(t.year) < Ordinal(t) <= DaysBeforeYear(t.year + 1)
  {
    YearLength(t.year);
    MonthBound(t.year, t.month);
  }

  lemma MonthBound(y: int, m: int)
    requires 1 <= m <= 12
    ensures DaysBeforeMonth(y, m) + DaysInMonth(y, m) <= DaysInYear(y)
  {
  }

  lemma {:induction false} YearsMonotone(a: int, b: int)
    requires a <= b
    ensures DaysBeforeYear(a) <= DaysBeforeYear(b)
    decreases b - a
  {
    if a < b {
      YearLength(a);
      YearsMonotone(a + 1, b);
    }
  }

  lemma MonthsMonotone(y: int, m1: int, m2: int)
    requires 1 <= m1 < m2 <= 12
    ensures DaysBeforeMonth(y, m1) + DaysInMonth(y, m1) <= DaysBeforeMonth(y, m2)
  {
  }

  /** Adding n + 1 days is adding one day and then n more. */
  lemma AddDaysFirst(t: DateTime, n: nat)
    requires t.Valid() && !IsLastRepresentableDay(t)
    ensures AddDays(t, n + 1) == AddDays(NextDay(t).value, n)
  {
  }

  /** Adding n + 1 days is adding n days and then one more. */
  lemma {:induction false} AddDaysLast(t: DateTime, n: nat)
    requires t.Valid()
    ensures AddDays(t, n + 1) == (match AddDays(t, n) case None => None case Some(u) => NextDay(u))
    decreases n
  {
    if n > 0 {
      match NextDay(t)
      case None =>
      case Some(u) => AddDaysLast(u, n - 1);
    }
  }

  /** A day that can be reached can be reached through every day before it. */
  lemma {:induction false} AddDaysPrefix(t: DateTime, m: nat, n: nat)
    requires t.Valid() && m <= n
    requires AddDays(t, n).Some?
    ensures AddDays(t, m).Some?
    decreases n
  {
    if m > 0 {
      var u := NextDay(t);
      assert u.Some? && AddDays(t, n) == AddDays(u.value, n - 1);
      AddDaysPrefix(u.value, m - 1, n - 1);
      assert AddDays(t, m) == AddDays(u.value, m - 1);
    }
  }
}

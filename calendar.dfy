/**
 * Proleptic Gregorian calendar arithmetic: the part of a timezone conversion
 * that remains once the zone is a fixed UTC offset (America/Bogota has been
 * UTC-05:00 without daylight saving since 1993).
 *
 * Instants are counted in seconds from 1970-01-01 00:00:00 (the Unix epoch,
 * as pandas counts them) through a closed-form day number; `Shift` moves a
 * wall-clock date-time by less than one day, borrowing or carrying across day,
 * month and year boundaries, and is proved to move the epoch count by exactly
 * the offset.
 */
module Calendar {

  datatype DateTime = DateTime(year: int, month: int, day: int,
                               hour: int, minute: int, second: int, nano: int)

  predicate IsLeapYear(y: int) {
    y % 4 == 0 && (y % 100 != 0 || y % 400 == 0)
  }

  function DaysInMonth(y: int, m: int): (n: int)
    requires 1 <= m <= 12
    ensures 28 <= n <= 31
    ensures n == 29 <==> m == 2 && IsLeapYear(y)
  {
    if m == 2 then (if IsLeapYear(y) then 29 else 28)
    else if m == 4 || m == 6 || m == 9 || m == 11 then 30
    else 31
  }

  function YearLength(y: int): int {
    if IsLeapYear(y) then 366 else 365
  }

  predicate ValidDate(y: int, m: int, d: int) {
    1 <= m <= 12 && 1 <= d <= DaysInMonth(y, m)
  }

  /** A well-formed wall-clock reading with nanosecond precision. */
  predicate Valid(t: DateTime) {
    ValidDate(t.year, t.month, t.day)
    && 0 <= t.hour < 24 && 0 <= t.minute < 60 && 0 <= t.second < 60
    && 0 <= t.nano < 1_000_000_000
  }

  /** Days from 0001-01-01 to January 1st of year `y` (floor division, so any year). */
  function DaysBeforeYear(y: int): int {
    var p := y - 1;
    365 * p + p / 4 - p / 100 + p / 400
  }

  /** Days from January 1st of year `y` to the first day of month `m` (13 = next January). */
  function DaysBeforeMonth(y: int, m: int): int
    requires 1 <= m <= 13
  {
    if m == 1 then 0 else DaysBeforeMonth(y, m - 1) + DaysInMonth(y, m - 1)
  }

  /** Days from 0001-01-01 to the given date. */
  function DayNumber(t: DateTime): int
    requires 1 <= t.month <= 12
  {
    DaysBeforeYear(t.year) + DaysBeforeMonth(t.year, t.month) + t.day - 1
  }

  /** DayNumber of 1970-01-01. */
  const EpochDay: int := 719162

  function SecondOfDay(t: DateTime): int {
    t.hour * 3600 + t.minute * 60 + t.second
  }

  /** Whole seconds since the Unix epoch, the reading taken as UTC. */
  function EpochSeconds(t: DateTime): int
    requires 1 <= t.month <= 12
  {
    (DayNumber(t) - EpochDay) * 86400 + SecondOfDay(t)
  }

  /** Nanoseconds since the Unix epoch: the integer pandas stores for a Timestamp. */
  function EpochNanos(t: DateTime): int
    requires 1 <= t.month <= 12
  {
    EpochSeconds(t) * 1_000_000_000 + t.nano
  }

  // ---------------------------------------------------------------------------
  // Facts about the day count

  lemma Div4Step(y: int)
    ensures y / 4 == (y - 1) / 4 + (if y % 4 == 0 then 1 else 0)
  {
  }

  lemma Div100Step(y: int)
    ensures y / 100 == (y - 1) / 100 + (if y % 100 == 0 then 1 else 0)
  {
  }

  lemma Div400Step(y: int)
    ensures y / 400 == (y - 1) / 400 + (if y % 400 == 0 then 1 else 0)
  {
  }

  /** Multiples of 400 are multiples of 100, and those are multiples of 4. */
  lemma CenturyDivisibility(y: int)
    ensures y % 400 == 0 ==> y % 100 == 0
    ensures y % 100 == 0 ==> y % 4 == 0
  {
    MultipleOf100(4 * (y / 400));
    MultipleOf4(25 * (y / 100));
  }

  lemma MultipleOf100(k: int)
    ensures (100 * k) % 100 == 0
  {
  }

  lemma MultipleOf4(k: int)
    ensures (4 * k) % 4 == 0
  {
  }

  /** Consecutive New Year's days are one year length apart. */
  lemma YearStep(y: int)
    ensures DaysBeforeYear(y + 1) == DaysBeforeYear(y) + YearLength(y)
  {
    Div4Step(y);
    Div100Step(y);
    Div400Step(y);
    CenturyDivisibility(y);
    assert DaysBeforeYear(y + 1) == 365 * y + y / 4 - y / 100 + y / 400;
  }

  /** The twelve months add up to the year. */
  lemma MonthsFillYear(y: int)
    ensures DaysBeforeMonth(y, 13) == YearLength(y)
  {
    var feb := DaysInMonth(y, 2);
    assert DaysBeforeMonth(y, 2) == 31;
    assert DaysBeforeMonth(y, 3) == 31 + feb;
    assert DaysBeforeMonth(y, 4) == 62 + feb;
    assert DaysBeforeMonth(y, 5) == 92 + feb;
    assert DaysBeforeMonth(y, 6) == 123 + feb;
    assert DaysBeforeMonth(y, 7) == 153 + feb;
    assert DaysBeforeMonth(y, 8) == 184 + feb;
    assert DaysBeforeMonth(y, 9) == 215 + feb;
    assert DaysBeforeMonth(y, 10) == 245 + feb;
    assert DaysBeforeMonth(y, 11) == 276 + feb;
    assert DaysBeforeMonth(y, 12) == 306 + feb;
  }

  lemma {:induction false} DaysBeforeMonthGrows(y: int, m1: int, m2: int)
    requires 1 <= m1 < m2 <= 13
    ensures DaysBeforeMonth(y, m1) + DaysInMonth(y, m1) <= DaysBeforeMonth(y, m2)
    decreases m2 - m1
  {
    if m1 + 1 < m2 {
      DaysBeforeMonthGrows(y, m1 + 1, m2);
    }
  }

  lemma {:induction false} DaysBeforeYearGrows(a: int, b: int)
    requires a < b
    ensures DaysBeforeYear(a) + YearLength(a) <= DaysBeforeYear(b)
    decreases b - a
  {
    YearStep(a);
    if a + 1 < b {
      DaysBeforeYearGrows(a + 1, b);
      YearStep(a + 1);
    }
  }

  /** A valid date's day number lies within its own year. */
  lemma DayWithinYear(t: DateTime)
    requires ValidDate(t.year, t.month, t.day)
    ensures DaysBeforeYear(t.year) <= DayNumber(t) < DaysBeforeYear(t.year + 1)
  {
    YearStep(t.year);
    MonthsFillYear(t.year);
    DaysBeforeMonthGrows(t.year, t.month, 13);
    assert DaysBeforeMonth(t.year, t.month) >= 0 by {
      DaysBeforeMonthNonNegative(t.year, t.month);
    }
  }

  lemma {:induction false} DaysBeforeMonthNonNegative(y: int, m: int)
    requires 1 <= m <= 13
    ensures DaysBeforeMonth(y, m) >= 0
  {
    if m > 1 {
      DaysBeforeMonthNonNegative(y, m - 1);
    }
  }

  /** Distinct valid dates have distinct day numbers. */
  lemma DayNumberInjective(a: DateTime, b: DateTime)
    requires ValidDate(a.year, a.month, a.day) && ValidDate(b.year, b.month, b.day)
    requires DayNumber(a) == DayNumber(b)
    ensures a.year == b.year && a.month == b.month && a.day == b.day
  {
    DayWithinYear(a);
    DayWithinYear(b);
    if a.year < b.year {
      DaysBeforeYearGrows(a.year, b.year);
      YearStep(a.year);
      assert false;
    } else if b.year < a.year {
      DaysBeforeYearGrows(b.year, a.year);
      YearStep(b.year);
      assert false;
    }
    if a.month < b.month {
      DaysBeforeMonthGrows(a.year, a.month, b.month);
      assert false;
    } else if b.month < a.month {
      DaysBeforeMonthGrows(a.year, b.month, a.month);
      assert false;
    }
  }

  /** A valid reading is determined by its epoch seconds and its nanoseconds. */
  lemma EpochSecondsInjective(a: DateTime, b: DateTime)
    requires Valid(a) && Valid(b)
    requires EpochSeconds(a) == EpochSeconds(b) && a.nano == b.nano
    ensures a == b
  {
    DaysAndSeconds(DayNumber(a) - EpochDay, SecondOfDay(a), DayNumber(b) - EpochDay, SecondOfDay(b));
    DayNumberInjective(a, b);
    ClockInjective(a, b);
  }

  /** A count of seconds splits in one way only into whole days and a second of the day. */
  lemma DaysAndSeconds(da: int, sa: int, db: int, sb: int)
    requires 0 <= sa < 86400 && 0 <= sb < 86400 && da * 86400 + sa == db * 86400 + sb
    ensures da == db && sa == sb
  {
  }

  /** The second of the day determines hour, minute and second. */
  lemma ClockInjective(a: DateTime, b: DateTime)
    requires Valid(a) && Valid(b) && SecondOfDay(a) == SecondOfDay(b)
    ensures a.hour == b.hour && a.minute == b.minute && a.second == b.second
  {
  }

  // ---------------------------------------------------------------------------
  // Moving across day boundaries

  /** The calendar day before `t`, same time of day. */
  function PrevDay(t: DateTime): (r: DateTime)
    requires Valid(t)
    ensures Valid(r) && SecondOfDay(r) == SecondOfDay(t) && r.nano == t.nano
    ensures DayNumber(r) == DayNumber(t) - 1
    ensures t.year - 1 <= r.year <= t.year
  {
    if t.day > 1 then t.(day := t.day - 1)
    else if t.month > 1 then t.(month := t.month - 1, day := DaysInMonth(t.year, t.month - 1))
    else
      YearStep(t.year - 1);
      MonthsFillYear(t.year - 1);
      t.(year := t.year - 1, month := 12, day := 31)
  }

  /** The calendar day after `t`, same time of day. */
  function NextDay(t: DateTime): (r: DateTime)
    requires Valid(t)
    ensures Valid(r) && SecondOfDay(r) == SecondOfDay(t) && r.nano == t.nano
    ensures DayNumber(r) == DayNumber(t) + 1
    ensures t.year <= r.year <= t.year + 1
  {
    if t.day < DaysInMonth(t.year, t.month) then t.(day := t.day + 1)
    else if t.month < 12 then t.(month := t.month + 1, day := 1)
    else
      YearStep(t.year);
      MonthsFillYear(t.year);
      t.(year := t.year + 1, month := 1, day := 1)
  }

  /**
   * The wall-clock reading `delta` seconds later (earlier when negative):
   * the new time of day, with one day borrowed or carried when it leaves
   * [00:00:00, 24:00:00). Sub-second digits are kept.
   */
  function Shift(t: DateTime, delta: int): (r: DateTime)
    requires Valid(t) && -86400 < delta < 86400
    ensures Valid(r) && r.nano == t.nano
    ensures t.year - 1 <= r.year <= t.year + 1
  {
    var sod := SecondOfDay(t) + delta;
    if sod < 0 then AtSecond(PrevDay(t), sod + 86400)
    else if sod >= 86400 then AtSecond(NextDay(t), sod - 86400)
    else AtSecond(t, sod)
  }

  /** The day of `d` at second `s` of that day. */
  function AtSecond(d: DateTime, s: int): (r: DateTime)
    requires Valid(d) && 0 <= s < 86400
    ensures Valid(r) && SecondOfDay(r) == s
    ensures r.year == d.year && r.month == d.month && r.day == d.day && r.nano == d.nano
  {
    d.(hour := s / 3600, minute := s % 3600 / 60, second := s % 60)
  }

  /** `Shift` moves the instant by exactly `delta` seconds. */
  lemma ShiftMovesBy(t: DateTime, delta: int)
    requires Valid(t) && -86400 < delta < 86400
    ensures EpochSeconds(Shift(t, delta)) == EpochSeconds(t) + delta
  {
    var sod := SecondOfDay(t) + delta;
    var r := Shift(t, delta);
    var d := if sod < 0 then PrevDay(t) else if sod >= 86400 then NextDay(t) else t;
    assert DayNumber(r) == DayNumber(d);
  }

  /** Shifting back undoes shifting forth. */
  lemma ShiftInverse(t: DateTime, delta: int)
    requires Valid(t) && -86400 < delta < 86400
    ensures Shift(Shift(t, delta), -delta) == t
  {
    ShiftMovesBy(t, delta);
    ShiftMovesBy(Shift(t, delta), -delta);
    EpochSecondsInjective(Shift(Shift(t, delta), -delta), t);
  }

  /** Shifting forth undoes shifting back. */
  lemma ShiftBackInverse(t: DateTime, delta: int)
    requires Valid(t) && -86400 < delta < 86400
    ensures Shift(Shift(t, -delta), delta) == t
  {
    ShiftMovesBy(t, -delta);
    ShiftMovesBy(Shift(t, -delta), delta);
    EpochSecondsInjective(Shift(Shift(t, -delta), delta), t);
  }
}

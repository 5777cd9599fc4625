/**
 * Conversion of epoch milliseconds to a UTC civil date-time at second
 * resolution, as `OutputStream::log` obtains it from `to_time_t` and
 * `gmtime_r` (src/include/cxxlog/transport.h). "Seconds since the Epoch"
 * is the measure of section 4.16 of the POSIX.1-2017 Base Definitions:
 * every day has 86400 seconds, on the proleptic Gregorian calendar.
 */
module CivilTime {

  const EpochYear: int := 1970
  /** The first year whose number no longer fits the four digits of `%Y`. */
  const EndYear: int := 10000

  predicate IsLeapYear(y: int)
  {
    y % 4 == 0 && (y % 100 != 0 || y % 400 == 0)
  }

  function DaysInYear(y: int): int
  {
    if IsLeapYear(y) then 366 else 365
  }

  function DaysInMonth(y: int, m: int): int
    requires 1 <= m <= 12
  {
    if m == 2 then (if IsLeapYear(y) then 29 else 28)
    else if m == 4 || m == 6 || m == 9 || m == 11 then 30
    else 31
  }

  /** The number of leap years among the years 1 .. n. */
  function LeapYearsThrough(n: int): int
  {
    n / 4 - n / 100 + n / 400
  }

  /** Year `y` adds one to the count of leap years exactly when it is a leap year. */
  lemma LeapYearsStep(y: int)
    ensures LeapYearsThrough(y) - LeapYearsThrough(y - 1) == if IsLeapYear(y) then 1 else 0
  {
    QuotientStep4(y);
    QuotientStep100(y);
    QuotientStep400(y);
    DivisorsNest(y);
  }

  lemma QuotientStep4(y: int)
    ensures y / 4 - (y - 1) / 4 == if y % 4 == 0 then 1 else 0
  {
  }

  lemma QuotientStep100(y: int)
    ensures y / 100 - (y - 1) / 100 == if y % 100 == 0 then 1 else 0
  {
  }

  lemma QuotientStep400(y: int)
    ensures y / 400 - (y - 1) / 400 == if y % 400 == 0 then 1 else 0
  {
  }

  lemma DivisorsNest(y: int)
    ensures y % 400 == 0 ==> y % 100 == 0
    ensures y % 100 == 0 ==> y % 4 == 0
  {
  }

  /** Days from 1970-01-01 to January 1st of year `y`, in closed form. */
  function DaysBeforeYear(y: int): int
    requires y >= EpochYear
  {
    365 * (y - EpochYear) + LeapYearsThrough(y - 1) - LeapYearsThrough(EpochYear - 1)
  }

  /** The closed form adds up the lengths of the years before `y`. */
  lemma DaysBeforeYearStep(y: int)
    requires y >= EpochYear
    ensures DaysBeforeYear(y + 1) == DaysBeforeYear(y) + DaysInYear(y)
  {
    LeapYearsStep(y);
  }

  lemma {:induction false} DaysBeforeYearGrows(a: int, b: int)
    requires EpochYear <= a <= b
    ensures DaysBeforeYear(a) + 365 * (b - a) <= DaysBeforeYear(b)
    decreases b - a
  {
    if a < b {
      DaysBeforeYearGrows(a, b - 1);
      DaysBeforeYearStep(b - 1);
    }
  }

  /** Days of a common year before the first of each month. */
  const CumulativeDays: seq<int> := [0, 31, 59, 90, 120, 151, 181, 212, 243, 273, 304, 334]

  /** Days from January 1st of year `y` to the first of month `m`, by table. */
  function DaysBeforeMonth(y: int, m: int): int
    requires 1 <= m <= 12
  {
    CumulativeDays[m - 1] + (if m > 2 && IsLeapYear(y) then 1 else 0)
  }

  /** The table adds up the lengths of the months, and the twelve make the year. */
  lemma DaysBeforeMonthStep(y: int, m: int)
    requires 1 <= m <= 12
    ensures DaysBeforeMonth(y, m) + DaysInMonth(y, m)
            == if m == 12 then DaysInYear(y) else DaysBeforeMonth(y, m + 1)
  {
  }

  lemma {:induction false} DaysBeforeMonthGrows(y: int, a: int, b: int)
    requires 1 <= a < b <= 12
    ensures DaysBeforeMonth(y, a) + DaysInMonth(y, a) <= DaysBeforeMonth(y, b)
    decreases b - a
  {
    DaysBeforeMonthStep(y, b - 1);
    if a < b - 1 {
      DaysBeforeMonthGrows(y, a, b - 1);
    }
  }

  datatype Date = Date(year: int, month: int, day: int)

  predicate ValidDate(d: Date)
  {
    1 <= d.month <= 12 && 1 <= d.day <= DaysInMonth(d.year, d.month)
  }

  /** Days since 1970-01-01 of a date from 1970 on. */
  function DaysFromCivil(d: Date): int
    requires ValidDate(d) && d.year >= EpochYear
  {
    DaysBeforeYear(d.year) + DaysBeforeMonth(d.year, d.month) + d.day - 1
  }

  /** The date `doy` days after the first of month `m` of year `y`, walking a month at a time. */
  function MonthFrom(y: int, doy: nat, m: int): Date
    requires 1 <= m <= 12
    decreases 12 - m
  {
    if m == 12 || doy < DaysInMonth(y, m) then Date(y, m, doy + 1)
    else MonthFrom(y, doy - DaysInMonth(y, m), m + 1)
  }

  /** The date `days` days after January 1st of year `y`, walking a year at a time. */
  function CivilFrom(days: nat, y: int): Date
    decreases days
  {
    if days < DaysInYear(y) then MonthFrom(y, days, 1)
    else CivilFrom(days - DaysInYear(y), y + 1)
  }

  /** The civil date of day `days` after 1970-01-01. */
  function CivilFromDays(days: nat): Date
  {
    CivilFrom(days, EpochYear)
  }

  /** The month walk ends on a valid date of year `y`, as many days on as it was asked for. */
  lemma {:induction false} MonthFromSound(y: int, doy: nat, m: int)
    requires 1 <= m <= 12 && DaysBeforeMonth(y, m) + doy < DaysInYear(y)
    ensures var d := MonthFrom(y, doy, m);
      && d.year == y && ValidDate(d)
      && DaysBeforeMonth(y, d.month) + d.day - 1 == DaysBeforeMonth(y, m) + doy
    decreases 12 - m
  {
    DaysBeforeMonthStep(y, m);
    if m < 12 && doy >= DaysInMonth(y, m) {
      MonthFromSound(y, doy - DaysInMonth(y, m), m + 1);
    }
  }

  /** Days from January 1st of year `y` to January 1st of year `z`, a year at a time. */
  function DaysBetweenYears(y: int, z: int): (r: int)
    requires y <= z
    ensures r >= 0
    decreases z - y
  {
    if y == z then 0 else DaysInYear(y) + DaysBetweenYears(y + 1, z)
  }

  /** Counting year by year agrees with the closed form. */
  lemma {:induction false} DaysBetweenYearsClosed(y: int, z: int)
    requires EpochYear <= y <= z
    ensures DaysBetweenYears(y, z) == DaysBeforeYear(z) - DaysBeforeYear(y)
    decreases z - y
  {
    if y < z {
      DaysBetweenYearsClosed(y + 1, z);
      DaysBeforeYearStep(y);
    }
  }

  /** Days from January 1st of the date's year to the date. */
  function DayOfYear(d: Date): int
    requires 1 <= d.month <= 12
  {
    DaysBeforeMonth(d.year, d.month) + d.day - 1
  }

  /** A valid date falls inside its year. */
  lemma DayOfYearBound(d: Date)
    requires ValidDate(d)
    ensures 0 <= DayOfYear(d) < DaysInYear(d.year)
  {
    DaysBeforeMonthStep(d.year, d.month);
    if d.month < 12 {
      DaysBeforeMonthGrows(d.year, d.month, 12);
      DaysBeforeMonthStep(d.year, 12);
    }
  }

  /** Within one year, the month walk from January lands on the day of the year asked for. */
  lemma DayOfYearSound(y: int, doy: nat)
    requires doy < DaysInYear(y)
    ensures var d := MonthFrom(y, doy, 1);
      && d.year == y && ValidDate(d) && DayOfYear(d) == doy
  {
    MonthFromSound(y, doy, 1);
  }

  /** The year walk ends on a valid date, as many days after January 1st of `y` as asked. */
  lemma {:induction false} CivilFromSound(days: nat, y: int)
    ensures var d := CivilFrom(days, y);
      && ValidDate(d) && d.year >= y
      && DaysBetweenYears(y, d.year) + DayOfYear(d) == days
    decreases days
  {
    if days < DaysInYear(y) {
      DayOfYearSound(y, days);
    } else {
      CivilFromSound(days - DaysInYear(y), y + 1);
    }
  }

  /**
   * The civil date of day `days`: a valid date from 1970 on that
   * `DaysFromCivil` maps back to `days`, before year 10000 exactly when
   * `days` is before 10000-01-01.
   */
  lemma CivilFromDaysSound(days: nat)
    ensures var d := CivilFromDays(days);
      && ValidDate(d) && d.year >= EpochYear
      && DaysFromCivil(d) == days
      && (d.year < EndYear <==> days < DaysBeforeYear(EndYear))
  {
    CivilFromSound(days, EpochYear);
    var d := CivilFromDays(days);
    DaysBetweenYearsClosed(EpochYear, d.year);
    DayOfYearBound(d);
    DaysBeforeYearStep(d.year);
    if d.year < EndYear {
      DaysBeforeYearGrows(d.year + 1, EndYear);
    } else {
      DaysBeforeYearGrows(EndYear, d.year);
    }
  }

  /** The month walk from month `m` finds a date of month `m` or later. */
  lemma {:induction false} MonthFromAt(d: Date, m: int)
    requires ValidDate(d) && 1 <= m <= d.month
    ensures MonthFrom(d.year, DayOfYear(d) - DaysBeforeMonth(d.year, m), m) == d
    decreases d.month - m
  {
    DaysBeforeMonthStep(d.year, m);
    if m < d.month {
      DaysBeforeMonthGrows(d.year, m, d.month);
      MonthFromAt(d, m + 1);
    }
  }

  /** The year walk from year `y` finds a date of year `y` or later. */
  lemma {:induction false} CivilFromAt(d: Date, y: int)
    requires ValidDate(d) && y <= d.year
    ensures DaysBetweenYears(y, d.year) + DayOfYear(d) >= 0
    ensures CivilFrom(DaysBetweenYears(y, d.year) + DayOfYear(d), y) == d
    decreases d.year - y
  {
    DayOfYearBound(d);
    if y < d.year {
      CivilFromAt(d, y + 1);
    } else {
      MonthFromAt(d, 1);
    }
  }

  /** `CivilFromDays` inverts `DaysFromCivil` on every valid date from 1970 on. */
  lemma CivilFromDaysInverse(d: Date)
    requires ValidDate(d) && d.year >= EpochYear
    ensures DaysFromCivil(d) >= 0 && CivilFromDays(DaysFromCivil(d)) == d
  {
    CivilFromAt(d, EpochYear);
    DaysBetweenYearsClosed(EpochYear, d.year);
  }

  /** A UTC calendar date and time of day at second resolution (`struct tm`). */
  datatype DateTime = DateTime(year: int, month: int, day: int, hour: int, minute: int, second: int)

  function DateOf(dt: DateTime): Date
  {
    Date(dt.year, dt.month, dt.day)
  }

  predicate ValidDateTime(dt: DateTime)
  {
    && ValidDate(DateOf(dt))
    && 0 <= dt.hour < 24 && 0 <= dt.minute < 60 && 0 <= dt.second < 60
  }

  /** Seconds from the epoch to 10000-01-01T00:00:00Z. */
  const EndSeconds: int := 253402300800

  /** Milliseconds from the epoch to 10000-01-01T00:00:00Z. */
  const EndMillis: int := EndSeconds * 1000

  lemma EndSecondsIsStartOfYear10000()
    ensures EndSeconds == DaysBeforeYear(EndYear) * 86400
  {
  }

  /**
   * The clock readings the model covers: from the epoch to the end of year
   * 9999. With a nanosecond `system_clock` (libstdc++) the conversion of a
   * reading from 9223372036855 ms on overflows 64 bits, so there the
   * program has no defined result while the model still gives one.
   */
  type Millis = ms: int | 0 <= ms < EndMillis

  /** A `time_t` of the same span. */
  type Seconds = t: int | 0 <= t < EndSeconds

  /** POSIX seconds since the epoch of a date-time from 1970 on. */
  function EpochSeconds(dt: DateTime): int
    requires ValidDateTime(dt) && dt.year >= EpochYear
  {
    DaysFromCivil(DateOf(dt)) * 86400 + dt.hour * 3600 + dt.minute * 60 + dt.second
  }

  /**
   * `system_clock::to_time_t` of a millisecond time point: the whole
   * seconds, the sub-second part truncated (toward zero, and the reading
   * is not negative).
   */
  function ToTimeT(ms: Millis): (t: Seconds)
    ensures t * 1000 <= ms < t * 1000 + 1000
  {
    ms / 1000
  }

  /** `gmtime_r`: the UTC date-time of `t` seconds after the epoch. */
  function GmTime(t: Seconds): (r: DateTime)
    ensures 0 <= r.hour < 24 && 0 <= r.minute < 60 && 0 <= r.second < 60
  {
    var d := CivilFromDays(t / 86400);
    var sod := t % 86400;
    DateTime(d.year, d.month, d.day, sod / 3600, sod % 3600 / 60, sod % 60)
  }

  /** `gmtime_r` gives a valid date-time of the years 1970 .. 9999, `t` seconds after the epoch. */
  lemma GmTimeSound(t: Seconds)
    ensures var dt := GmTime(t);
      && ValidDateTime(dt) && EpochYear <= dt.year < EndYear
      && EpochSeconds(dt) == t
  {
    EndSecondsIsStartOfYear10000();
    TimeOfDaySplit(t % 86400);
    CivilFromDaysSound(t / 86400);
  }

  lemma TimeOfDaySplit(sod: int)
    requires 0 <= sod < 86400
    ensures 0 <= sod / 3600 < 24 && 0 <= sod % 3600 / 60 < 60 && 0 <= sod % 60 < 60
    ensures sod / 3600 * 3600 + sod % 3600 / 60 * 60 + sod % 60 == sod
  {
  }

  /** Every date-time of the years 1970 .. 9999 is `GmTime` of its epoch seconds. */
  lemma {:induction false} GmTimeInverse(dt: DateTime)
    requires ValidDateTime(dt) && EpochYear <= dt.year < EndYear
    ensures 0 <= EpochSeconds(dt) < EndSeconds && GmTime(EpochSeconds(dt)) == dt
  {
    var d := DateOf(dt);
    var days := DaysFromCivil(d);
    assert days < DaysBeforeYear(EndYear) && CivilFromDays(days) == d by {
      CivilFromDaysInverse(d);
      DaysBeforeYearStep(dt.year);
      DaysBeforeMonthStep(dt.year, dt.month);
      if dt.month < 12 {
        DaysBeforeMonthGrows(dt.year, dt.month, 12);
        DaysBeforeMonthStep(dt.year, 12);
      }
      DaysBeforeYearGrows(dt.year + 1, EndYear);
    }
    var sod := dt.hour * 3600 + dt.minute * 60 + dt.second;
    TimeOfDayJoin(dt.hour, dt.minute, dt.second);
    var t := days * 86400 + sod;
    assert 0 <= t < EndSeconds && t / 86400 == days && t % 86400 == sod by {
      EndSecondsIsStartOfYear10000();
    }
    assert EpochSeconds(dt) == t;
    assert GmTime(t) == dt;
  }

  lemma TimeOfDayJoin(h: int, m: int, s: int)
    requires 0 <= h < 24 && 0 <= m < 60 && 0 <= s < 60
    ensures 0 <= h * 3600 + m * 60 + s < 86400
    ensures (h * 3600 + m * 60 + s) / 3600 == h
    ensures (h * 3600 + m * 60 + s) % 3600 / 60 == m
    ensures (h * 3600 + m * 60 + s) % 60 == s
  {
  }

  /**
   * The date-time the reference transport prints for a reading of the
   * clock: `gmtime_r(to_time_t(ts))`.
   */
  function UtcFromMillis(ms: Millis): (r: DateTime)
    ensures 0 <= r.hour < 24 && 0 <= r.minute < 60 && 0 <= r.second < 60
  {
    GmTime(ToTimeT(ms))
  }

  /** The date-time shown for a reading is the second the reading falls in. */
  lemma UtcFromMillisSound(ms: Millis)
    ensures var dt := UtcFromMillis(ms);
      && ValidDateTime(dt) && EpochYear <= dt.year < EndYear
      && EpochSeconds(dt) == ms / 1000
      && EpochSeconds(dt) * 1000 <= ms < EpochSeconds(dt) * 1000 + 1000
  {
    GmTimeSound(ToTimeT(ms));
  }

  /**
   * Two readings show the same date-time exactly when they fall in the
   * same second: the milliseconds are dropped, and nothing else is.
   */
  lemma SameStampIffSameSecond(a: Millis, b: Millis)
    ensures UtcFromMillis(a) == UtcFromMillis(b) <==> a / 1000 == b / 1000
  {
    if UtcFromMillis(a) == UtcFromMillis(b) {
      UtcFromMillisSound(a);
      UtcFromMillisSound(b);
    }
  }

}

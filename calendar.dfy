/** Gregorian calendar arithmetic shared by both scripts: leap years, month
    lengths, the ordinal day of a date and its inverse, whole days between two
    dates, and ISO 8601 week numbers.

    Dates are modelled at local midnight, as calendar values rather than
    millisecond timestamps; the month is a JavaScript month index (0 is
    January). Every date is also given a day number: day 0 is 1 January of
    year 1 of the proleptic Gregorian calendar, a Monday. */
module Calendar {
  import opened Numeric

  /** `oneDay`: milliseconds in a day. */
  const MsPerDay: int := 1000 * 60 * 60 * 24

  /** `DAYS_IN_MONTH`: month lengths of a common year, January first. */
  const DaysInMonthTable: seq<int> := [31, 28, 31, 30, 31, 30, 31, 31, 30, 31, 30, 31]

  datatype Date = Date(year: int, month: int, day: int)

  /** A moment of a local day: its date and the milliseconds since midnight. */
  datatype Instant = Instant(date: Date, msOfDay: int)

  /** `isLeapYear`: the Gregorian rule; every leap year is a multiple of 4. */
  predicate IsLeapYear(year: int): (leap: bool)
    ensures leap ==> year % 4 == 0
  {
    DivisibilityChain(year);
    (year % 4 == 0 && year % 100 != 0) || year % 400 == 0
  }

  /** `getDaysInYear`: 366 days in a leap year, 365 in any other. */
  function DaysInYear(year: int): (n: int)
    ensures n == 366 <==> IsLeapYear(year)
    ensures n == 365 <==> !IsLeapYear(year)
  {
    if IsLeapYear(year) then 366 else 365
  }

  /** The length of month `month` of `year`: the table entry, with February
      lengthened to 29 days in a leap year. */
  function MonthLength(year: int, month: int): (n: int)
    requires 0 <= month < 12
    ensures 28 <= n <= 31
    ensures n == 29 <==> month == 1 && IsLeapYear(year)
  {
    if month == 1 && IsLeapYear(year) then 29 else DaysInMonthTable[month]
  }

  /** The number of days of `year` before month `month` starts: the running
      total of the month lengths. */
  function DaysBeforeMonth(year: int, month: int): (n: int)
    requires 0 <= month <= 12
    ensures n <= 31 * month
  {
    if month == 0 then 0 else DaysBeforeMonth(year, month - 1) + MonthLength(year, month - 1)
  }

  /** The day number of 1 January of `year`: 365 days for every earlier year
      since year 1, plus one for each earlier leap year. */
  function YearStart(year: int): int {
    var p := year - 1;
    365 * p + p / 4 - p / 100 + p / 400
  }

  /** The day number JavaScript's `new Date(year, month, day)` denotes: the
      day of the month may be zero, negative or past the end of the month and
      then counts backwards or forwards from the month's first day. */
  function DayNumber(d: Date): int
    requires 0 <= d.month < 12
  {
    YearStart(d.year) + DaysBeforeMonth(d.year, d.month) + d.day - 1
  }

  /** A date a JavaScript `Date` can report: a month index and a day inside that month. */
  predicate ValidDate(d: Date) {
    0 <= d.month < 12 && 1 <= d.day <= MonthLength(d.year, d.month)
  }

  predicate ValidInstant(t: Instant) {
    ValidDate(t.date) && 0 <= t.msOfDay < MsPerDay
  }

  /** The 1-based position of a date within its year. */
  function Ordinal(d: Date): int
    requires ValidDate(d)
  {
    DaysBeforeMonth(d.year, d.month) + d.day
  }

  // ----- The length of a year -----

  /** The twelve month lengths add up to the length of the year. */
  lemma MonthLengthsSumToYear(year: int)
    ensures DaysBeforeMonth(year, 12) == DaysInYear(year)
  {
    var feb := MonthLength(year, 1);
    assert DaysBeforeMonth(year, 1) == 31;
    assert DaysBeforeMonth(year, 2) == 31 + feb;
    assert DaysBeforeMonth(year, 3) == 62 + feb;
    assert DaysBeforeMonth(year, 4) == 92 + feb;
    assert DaysBeforeMonth(year, 5) == 123 + feb;
    assert DaysBeforeMonth(year, 6) == 153 + feb;
    assert DaysBeforeMonth(year, 7) == 184 + feb;
    assert DaysBeforeMonth(year, 8) == 215 + feb;
    assert DaysBeforeMonth(year, 9) == 245 + feb;
    assert DaysBeforeMonth(year, 10) == 276 + feb;
    assert DaysBeforeMonth(year, 11) == 306 + feb;
  }

  /** The running totals grow with the month. */
  lemma {:induction false} DaysBeforeMonthMono(year: int, a: int, b: int)
    requires 0 <= a <= b <= 12
    ensures DaysBeforeMonth(year, a) + 28 * (b - a) <= DaysBeforeMonth(year, b)
    decreases b - a
  {
    if a < b {
      DaysBeforeMonthMono(year, a + 1, b);
    }
  }

  /** Every month lies inside its year. */
  lemma MonthInsideYear(year: int, month: int)
    requires 0 <= month < 12
    ensures 0 <= DaysBeforeMonth(year, month)
    ensures DaysBeforeMonth(year, month) + MonthLength(year, month) <= DaysInYear(year)
  {
    DaysBeforeMonthMono(year, 0, month);
    DaysBeforeMonthMono(year, month + 1, 12);
    MonthLengthsSumToYear(year);
  }

  /** Divisibility by 400 implies divisibility by 100, which implies
      divisibility by 4. */
  lemma DivisibilityChain(year: int)
    ensures year % 400 == 0 ==> year % 100 == 0
    ensures year % 100 == 0 ==> year % 4 == 0
  {
    if year % 400 == 0 {
      DivUnique(year, 100, 4 * (year / 400));
    }
    if year % 100 == 0 {
      DivUnique(year, 4, 25 * (year / 100));
    }
  }

  /** One more multiple of `k` lies at or below `year` than at or below
      `year - 1` exactly when `k` divides `year`. */
  lemma MultiplesStep(year: int)
    ensures year / 4 - (year - 1) / 4 == if year % 4 == 0 then 1 else 0
    ensures year / 100 - (year - 1) / 100 == if year % 100 == 0 then 1 else 0
    ensures year / 400 - (year - 1) / 400 == if year % 400 == 0 then 1 else 0
  {
  }

  /** From one 1 January to the next there are exactly `getDaysInYear` days:
      the closed form agrees with the leap-year rule. */
  lemma YearStartStep(year: int)
    ensures YearStart(year + 1) == YearStart(year) + DaysInYear(year)
  {
    MultiplesStep(year);
    DivisibilityChain(year);
  }

  /** Later years start later, by at least 365 days a year. */
  lemma {:induction false} YearStartMono(a: int, b: int)
    requires a <= b
    ensures YearStart(a) + 365 * (b - a) <= YearStart(b)
    decreases b - a
  {
    if a < b {
      YearStartStep(a);
      YearStartMono(a + 1, b);
    }
  }

  /** A valid date falls inside its own year, at its ordinal position. */
  lemma DateInsideYear(d: Date)
    requires ValidDate(d)
    ensures 1 <= Ordinal(d) <= DaysInYear(d.year)
    ensures DayNumber(d) == YearStart(d.year) + Ordinal(d) - 1
    ensures YearStart(d.year) <= DayNumber(d) < YearStart(d.year + 1)
  {
    MonthInsideYear(d.year, d.month);
    YearStartStep(d.year);
  }

  /** Only one year holds a given day number. */
  lemma YearOfDayNumberUnique(n: int, y1: int, y2: int)
    requires YearStart(y1) <= n < YearStart(y1 + 1)
    requires YearStart(y2) <= n < YearStart(y2 + 1)
    ensures y1 == y2
  {
    if y1 < y2 {
      YearStartMono(y1 + 1, y2);
    } else if y2 < y1 {
      YearStartMono(y2 + 1, y1);
    }
  }

  /** Day numbers follow the order of valid dates: by year, then month, then day. */
  lemma DayNumberOrder(a: Date, b: Date)
    requires ValidDate(a) && ValidDate(b)
    ensures DayNumber(a) < DayNumber(b) <==>
      a.year < b.year ||
      (a.year == b.year && (a.month < b.month || (a.month == b.month && a.day < b.day)))
  {
    if a.year != b.year {
      YearOrder(a, b);
    } else {
      MonthOrder(a, b);
    }
  }

  /** Dates of different years are ordered by year. */
  lemma YearOrder(a: Date, b: Date)
    requires ValidDate(a) && ValidDate(b) && a.year != b.year
    ensures DayNumber(a) < DayNumber(b) <==> a.year < b.year
  {
    DateInsideYear(a);
    DateInsideYear(b);
    if a.year < b.year {
      YearStartMono(a.year + 1, b.year);
    } else {
      YearStartMono(b.year + 1, a.year);
    }
  }

  /** Dates of one year are ordered by month, then day. */
  lemma MonthOrder(a: Date, b: Date)
    requires ValidDate(a) && ValidDate(b) && a.year == b.year
    ensures DayNumber(a) < DayNumber(b) <==> a.month < b.month || (a.month == b.month && a.day < b.day)
  {
    if a.month < b.month {
      DaysBeforeMonthMono(a.year, a.month + 1, b.month);
    } else if b.month < a.month {
      DaysBeforeMonthMono(a.year, b.month + 1, a.month);
    }
  }

  /** Distinct valid dates have distinct day numbers. */
  lemma DayNumberInjective(a: Date, b: Date)
    requires ValidDate(a) && ValidDate(b) && DayNumber(a) == DayNumber(b)
    ensures a == b
  {
    DayNumberOrder(a, b);
    DayNumberOrder(b, a);
  }

  // ----- getDayOfYear -----

  /** `getDayOfYear`: whole days from day 0 of January (31 December of the
      year before) to the instant, with the time of day floored away. */
  function GetDayOfYear(t: Instant): (n: int)
    requires ValidInstant(t)
    ensures n == Ordinal(t.date)
    ensures 1 <= n <= DaysInYear(t.date.year)
  {
    var start := DayNumber(Date(t.date.year, 0, 0));
    var diff := (DayNumber(t.date) - start) * MsPerDay + t.msOfDay;
    DateInsideYear(t.date);
    diff / MsPerDay
  }

  /** Day 0 of January, from which `getDayOfYear` counts, is 31 December of
      the year before. */
  lemma DayZeroIsPreviousDecember(year: int)
    ensures DayNumber(Date(year, 0, 0)) == DayNumber(Date(year - 1, 11, 31))
  {
    YearStartStep(year - 1);
    MonthLengthsSumToYear(year - 1);
  }

  /** 1 January is day 1 and 31 December is the last day of the year. */
  lemma DayOfYearEnds(year: int, ms: int)
    requires 0 <= ms < MsPerDay
    ensures GetDayOfYear(Instant(Date(year, 0, 1), ms)) == 1
    ensures GetDayOfYear(Instant(Date(year, 11, 31), ms)) == DaysInYear(year)
  {
    MonthLengthsSumToYear(year);
  }

  // ----- getDateFromDayOfYear -----

  /** Moving a day count of a month's length into the next month keeps the day
      number (in December, into January of the next year). */
  lemma MonthCarry(year: int, month: int, day: int)
    requires 0 <= month < 12
    ensures DayNumber(Date(year, month, day + MonthLength(year, month))) ==
      if month == 11 then DayNumber(Date(year + 1, 0, day)) else DayNumber(Date(year, month + 1, day))
  {
    if month == 11 {
      MonthLengthsSumToYear(year);
      YearStartStep(year);
    }
  }

  /** `getDateFromDayOfYear`: the date `new Date(year, 0)` lands on after
      `setDate(dayOfYear)`, normalised one month at a time. Day counts past the
      end of the year roll into the next year; counts below 1 roll back into
      the year before. */
  method GetDateFromDayOfYear(dayOfYear: int, year: int) returns (date: Date)
    ensures ValidDate(date)
    ensures DayNumber(date) == YearStart(year) + dayOfYear - 1
    ensures 1 <= dayOfYear <= DaysInYear(year) ==> date.year == year && Ordinal(date) == dayOfYear
    ensures DaysInYear(year) < dayOfYear <= DaysInYear(year) + 31 ==>
      date == Date(year + 1, 0, dayOfYear - DaysInYear(year))
  {
    var y, m, d := year, 0, dayOfYear;
    while d < 1
      invariant 0 <= m < 12
      invariant DayNumber(Date(y, m, d)) == YearStart(year) + dayOfYear - 1
      decreases -d
    {
      if m == 0 {
        MonthCarry(y - 1, 11, d);
        y, m := y - 1, 11;
      } else {
        MonthCarry(y, m - 1, d);
        m := m - 1;
      }
      d := d + MonthLength(y, m);
    }
    while d > MonthLength(y, m)
      invariant 0 <= m < 12 && 1 <= d
      invariant DayNumber(Date(y, m, d)) == YearStart(year) + dayOfYear - 1
      decreases d
    {
      MonthCarry(y, m, d - MonthLength(y, m));
      d := d - MonthLength(y, m);
      if m == 11 {
        y, m := y + 1, 0;
      } else {
        m := m + 1;
      }
    }
    date := Date(y, m, d);
    DateOfDayCount(date, dayOfYear, year);
  }

  /** The valid date that is day `dayOfYear` counted from 1 January of `year`
      has that ordinal in `year` when the count is inside the year, and is in
      January of the next year when the count overflows by at most 31 days. */
  lemma DateOfDayCount(date: Date, dayOfYear: int, year: int)
    requires ValidDate(date) && DayNumber(date) == YearStart(year) + dayOfYear - 1
    ensures 1 <= dayOfYear <= DaysInYear(year) ==> date.year == year && Ordinal(date) == dayOfYear
    ensures DaysInYear(year) < dayOfYear <= DaysInYear(year) + 31 ==>
      date == Date(year + 1, 0, dayOfYear - DaysInYear(year))
  {
    DateInsideYear(date);
    YearStartStep(year);
    if 1 <= dayOfYear <= DaysInYear(year) {
      YearOfDayNumberUnique(DayNumber(date), date.year, year);
    }
    if DaysInYear(year) < dayOfYear <= DaysInYear(year) + 31 {
      DayNumberInjective(date, Date(year + 1, 0, dayOfYear - DaysInYear(year)));
    }
  }

  /** The two directions compose: the date of a date's own ordinal in its own
      year is that date. */
  method DateRoundTrip(d: Date) returns (r: Date)
    requires ValidDate(d)
    ensures r == d
  {
    DateInsideYear(d);
    r := GetDateFromDayOfYear(Ordinal(d), d.year);
    DayNumberInjective(r, d);
  }

  // ----- daysBetween -----

  /** `daysBetween`: the millisecond distance between two midnights, divided by
      a day and rounded. */
  function DaysBetween(a: Date, b: Date): (n: int)
    requires 0 <= a.month < 12 && 0 <= b.month < 12
    ensures n == Abs(DayNumber(b) - DayNumber(a))
  {
    var k := DayNumber(b) - DayNumber(a);
    RoundHalfUpExact(Abs(k), MsPerDay);
    RoundHalfUp(Abs(k * MsPerDay), MsPerDay)
  }

  /** The distance is symmetric and vanishes exactly between equal dates. */
  lemma DaysBetweenProperties(a: Date, b: Date)
    requires ValidDate(a) && ValidDate(b)
    ensures DaysBetween(a, b) == DaysBetween(b, a) >= 0
    ensures DaysBetween(a, b) == 0 <==> a == b
  {
    if DaysBetween(a, b) == 0 {
      DayNumberInjective(a, b);
    }
  }

  // ----- getWeekNumber -----

  /** `getUTCDay` of a day number: 0 is Sunday, 1 Monday, ..., 6 Saturday. */
  function UtcDay(n: int): (r: int)
    ensures 0 <= r < 7
  {
    (n + 1) % 7
  }

  /** The year holding day number `n`, when it is `near` or a neighbour of it:
      `getUTCFullYear` after a shift of a few days. */
  function YearContaining(n: int, near: int): (y: int)
    requires YearStart(near - 1) <= n < YearStart(near + 2)
    ensures YearStart(y) <= n < YearStart(y + 1)
  {
    if n < YearStart(near) then near - 1 else if n < YearStart(near + 1) then near else near + 1
  }

  /** The Monday of the week holding day number `n` (day 0 is a Monday). */
  function Monday(n: int): int {
    n - n % 7
  }

  /** The Thursday of the Monday-to-Sunday week of day number `n`: the day
      moved by `4 - (getUTCDay() || 7)` days. */
  function ThursdayOf(n: int): int {
    var dayNum := if UtcDay(n) == 0 then 7 else UtcDay(n);
    n + 4 - dayNum
  }

  /** `getUTCDay() || 7` counts Monday as 1 and Sunday as 7, so the shift
      lands on the Thursday after the week's Monday. */
  lemma ThursdayAfterMonday(n: int)
    ensures ThursdayOf(n) == Monday(n) + 3
    ensures Monday(n) % 7 == 0 && n - 6 <= Monday(n) <= n
  {
  }

  /** The Thursday of a date's Monday-to-Sunday week. */
  function WeekThursday(date: Date): int
    requires 0 <= date.month < 12
  {
    ThursdayOf(DayNumber(date))
  }

  /** The week-numbering year of a date: the year its week's Thursday falls in. */
  function WeekYear(date: Date): (y: int)
    requires ValidDate(date)
    ensures YearStart(y) <= WeekThursday(date) < YearStart(y + 1)
  {
    DateInsideYear(date);
    YearStartStep(date.year - 1);
    YearStartStep(date.year + 1);
    YearContaining(WeekThursday(date), date.year)
  }

  /** `getWeekNumber`: the ordinal of the week's Thursday within its own year,
      divided by seven and rounded up. */
  function WeekNumber(date: Date): (week: int)
    requires ValidDate(date)
    ensures 1 <= week <= 53
  {
    var y := WeekYear(date);
    var ordinal := WeekThursday(date) - YearStart(y) + 1;
    YearStartStep(y);
    CeilDiv(ordinal, 7)
  }

  /** ISO 8601 week numbering, stated as the standard does: week 1 of a
      week-numbering year is the Monday-to-Sunday week holding 4 January, and
      weeks count on from there to the week of the date. */
  function IsoWeek(date: Date): int
    requires ValidDate(date)
  {
    var jan4 := YearStart(WeekYear(date)) + 3;
    (Monday(DayNumber(date)) - Monday(jan4)) / 7 + 1
  }

  /** Counting Thursdays: when `m` and `m4` are Mondays and the Thursday after
      `m4` is among the first seven days of the year starting at day number
      `ys`, the Thursday after `m` has ordinal `7 * ((m - m4) / 7) + (1..7)`. */
  lemma ThursdayWeekCount(m: int, m4: int, ys: int)
    requires m % 7 == 0 && m4 % 7 == 0
    requires ys <= m4 + 3 < ys + 7
    ensures CeilDiv(m + 3 - ys + 1, 7) == (m - m4) / 7 + 1
  {
    var j := (m - m4) / 7;
    assert m - m4 == 7 * j;
    var o4 := m4 + 3 - ys + 1;
    DivUnique(7 * j + o4 + 6, 7, j + 1);
  }

  /** `getWeekNumber` is the ISO 8601 week number. */
  lemma WeekNumberIsIso(date: Date)
    requires ValidDate(date)
    ensures WeekNumber(date) == IsoWeek(date)
  {
    var n := DayNumber(date);
    var ys := YearStart(WeekYear(date));
    ThursdayAfterMonday(n);
    ThursdayAfterMonday(ys + 3);
    ThursdayWeekCount(Monday(n), Monday(ys + 3), ys);
  }

  /** All seven days of one Monday-to-Sunday week get the same number. */
  lemma SameWeekSameNumber(a: Date, b: Date)
    requires ValidDate(a) && ValidDate(b)
    requires Monday(DayNumber(a)) == Monday(DayNumber(b))
    ensures WeekNumber(a) == WeekNumber(b)
  {
    ThursdayAfterMonday(DayNumber(a));
    ThursdayAfterMonday(DayNumber(b));
    YearOfDayNumberUnique(WeekThursday(a), WeekYear(a), WeekYear(b));
  }

  /** 4 January is always in week 1 of its own year. */
  lemma FourthOfJanuaryIsWeekOne(year: int)
    ensures WeekYear(Date(year, 0, 4)) == year
    ensures WeekNumber(Date(year, 0, 4)) == 1
  {
    var d := Date(year, 0, 4);
    var ys := YearStart(year);
    assert DayNumber(d) == ys + 3;
    ThursdayAfterMonday(ys + 3);
    YearStartStep(year);
    YearOfDayNumberUnique(WeekThursday(d), WeekYear(d), year);
  }

  /** The number of weeks of an ISO week-numbering year: the week number of
      28 December, which always lies in the year's last week. */
  function WeeksInWeekYear(year: int): int {
    WeekNumber(Date(year, 11, 28))
  }

  /** Arithmetic behind the week count: the last Thursday of a year that
      starts at day number `ys` and ends before `next` is the Thursday after the
      Monday `mLast` of the week of the year's fourth-to-last day, and every
      Thursday of the year is at most that one. */
  lemma LastThursdayArithmetic(m: int, mLast: int, ys: int, next: int)
    requires m % 7 == 0 && mLast % 7 == 0
    requires next - 10 <= mLast <= next - 4
    requires ys <= m + 3 < next
    requires next - ys == 365 || next - ys == 366
    ensures m <= mLast
    ensures CeilDiv(mLast + 3 - ys + 1, 7) == 52 || CeilDiv(mLast + 3 - ys + 1, 7) == 53
    ensures CeilDiv(m + 3 - ys + 1, 7) <= CeilDiv(mLast + 3 - ys + 1, 7)
  {
    CeilDivMono(m + 3 - ys + 1, mLast + 3 - ys + 1, 7);
  }

  /** A week-numbering year has 52 or 53 weeks, and no date's week number
      exceeds the count of its own week-numbering year. */
  lemma WeekNumberWithinYear(date: Date)
    requires ValidDate(date)
    ensures WeeksInWeekYear(WeekYear(date)) == 52 || WeeksInWeekYear(WeekYear(date)) == 53
    ensures WeekNumber(date) <= WeeksInWeekYear(WeekYear(date))
  {
    var y := WeekYear(date);
    var ys, next := YearStart(y), YearStart(y + 1);
    YearStartStep(y);
    ThursdayAfterMonday(DayNumber(date));
    ThursdayAfterMonday(next - 4);
    var m, mLast := Monday(DayNumber(date)), Monday(next - 4);
    assert WeekThursday(date) == m + 3;
    LastWeekOfYear(y);
    LastThursdayArithmetic(m, mLast, ys, next);
    assert WeekNumber(date) == CeilDiv(m + 3 - ys + 1, 7);
  }

  /** 28 December lies in the last week of its own week-numbering year: the
      Thursday of its week is the Thursday after the Monday on or before the
      year's fourth-to-last day. */
  lemma LastWeekOfYear(y: int)
    ensures WeekYear(Date(y, 11, 28)) == y
    ensures WeeksInWeekYear(y) == CeilDiv(Monday(YearStart(y + 1) - 4) + 3 - YearStart(y) + 1, 7)
  {
    var ys, next := YearStart(y), YearStart(y + 1);
    var dec28 := Date(y, 11, 28);
    YearStartStep(y);
    MonthLengthsSumToYear(y);
    assert DayNumber(dec28) == next - 4;
    ThursdayAfterMonday(next - 4);
    YearOfDayNumberUnique(Monday(next - 4) + 3, WeekYear(dec28), y);
  }

  // ----- Examples -----

  lemma LeapYearExamples()
    ensures !IsLeapYear(1900) && IsLeapYear(2000) && IsLeapYear(2024) && !IsLeapYear(2023)
    ensures DaysInYear(1900) == 365 && DaysInYear(2000) == 366
  {
  }

  /** 1 January 2024 was a Monday. */
  lemma WeekdayAnchor()
    ensures UtcDay(DayNumber(Date(2024, 0, 1))) == 1
  {
    assert YearStart(2024) == 738885;
  }

  /** 31 December 2020 and 1 January 2021 lie in week 53 of 2020. */
  lemma WeekFiftyThreeExample()
    ensures WeekNumber(Date(2020, 11, 31)) == 53 && WeekNumber(Date(2021, 0, 1)) == 53
    ensures WeekYear(Date(2020, 11, 31)) == 2020
  {
    assert YearStart(2020) == 737424 && YearStart(2021) == 737790;
    MonthLengthsSumToYear(2020);
    assert DayNumber(Date(2020, 11, 31)) == 737789;
    assert WeekThursday(Date(2020, 11, 31)) == 737789;
    assert WeekThursday(Date(2021, 0, 1)) == 737789;
  }

  /** The ISO year 2020 has 53 weeks. */
  lemma FiftyThreeWeeksIn2020()
    ensures WeeksInWeekYear(2020) == 53
  {
    assert YearStart(2020) == 737424 && YearStart(2021) == 737790;
    MonthLengthsSumToYear(2020);
    assert DayNumber(Date(2020, 11, 28)) == 737786;
    assert WeekThursday(Date(2020, 11, 28)) == 737789;
  }

  /** 30 December 2024 lies in week 1 of 2025. */
  lemma WeekOneOfNextYearExample()
    ensures WeekNumber(Date(2024, 11, 30)) == 1 && WeekYear(Date(2024, 11, 30)) == 2025
  {
    assert YearStart(2024) == 738885 && YearStart(2025) == 739251;
    MonthLengthsSumToYear(2024);
    assert DayNumber(Date(2024, 11, 30)) == 739249;
    assert WeekThursday(Date(2024, 11, 30)) == 739252;
  }
}

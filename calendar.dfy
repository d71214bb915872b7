/** The proleptic Gregorian calendar as Python's `calendar` module computes it:
    `isleap`, the month lengths of `monthrange`, and `weekday` (0 is Monday),
    which goes through `datetime.date.toordinal`. */
module Calendar {

  /** Gregorian leap-year rule (`calendar.isleap`). */
  predicate IsLeap(year: int) {
    year % 4 == 0 && (year % 100 != 0 || year % 400 == 0)
  }

  predicate ValidMonth(month: int) {
    1 <= month <= 12
  }

  /** `calendar.mdays`: the length of each month in a common year; index 0 is unused. */
  const MonthDays: seq<int> := [0, 31, 28, 31, 30, 31, 30, 31, 31, 30, 31, 30, 31]

  /** The second component of `calendar.monthrange(year, month)`. */
  function DaysInMonth(year: int, month: int): (n: int)
    requires ValidMonth(month)
    ensures 28 <= n <= 31
  {
    MonthDays[month] + if month == 2 && IsLeap(year) then 1 else 0
  }

  predicate ValidDate(year: int, month: int, day: int) {
    ValidMonth(month) && 1 <= day <= DaysInMonth(year, month)
  }

  /** Days of `year` that come before the first of `month`. */
  function DaysBeforeMonth(year: int, month: int): (n: int)
    requires ValidMonth(month)
    ensures 0 <= n <= 31 * (month - 1)
  {
    if month == 1 then 0 else DaysBeforeMonth(year, month - 1) + DaysInMonth(year, month - 1)
  }

  /** Days before 1 January of `year`, counting 1 January of year 1 as day 1
      (`datetime`'s `_days_before_year`); `/` is floor division for these positive divisors. */
  function DaysBeforeYear(year: int): int {
    var y := year - 1;
    y * 365 + y / 4 - y / 100 + y / 400
  }

  /** `datetime.date(year, month, day).toordinal()`, extended to every integer year. */
  function Ordinal(year: int, month: int, day: int): int
    requires ValidMonth(month)
  {
    DaysBeforeYear(year) + DaysBeforeMonth(year, month) + day
  }

  /** `calendar.weekday` replaces a year outside `datetime`'s range 1..9999 by
      `2000 + year % 400` before building the date. */
  function NormalizedYear(year: int): (y: int)
    ensures 1 <= y <= 9999
  {
    if 1 <= year <= 9999 then year else 2000 + year % 400
  }

  /** `calendar.weekday(year, month, day)`: 0 is Monday, 6 is Sunday. */
  function Weekday(year: int, month: int, day: int): (w: int)
    requires ValidDate(year, month, day)
    ensures 0 <= w < 7
  {
    (Ordinal(NormalizedYear(year), month, day) + 6) % 7
  }

  /** The calendar date that follows (year, month, day). */
  function NextDate(year: int, month: int, day: int): (r: (int, int, int))
    requires ValidDate(year, month, day)
    ensures ValidDate(r.0, r.1, r.2)
  {
    if day < DaysInMonth(year, month) then (year, month, day + 1)
    else if month < 12 then (year, month + 1, 1)
    else (year + 1, 1, 1)
  }

  /** The months of a year add up to 365 days, or 366 in a leap year. */
  lemma {:induction false} YearLength(year: int)
    ensures DaysBeforeMonth(year, 12) + DaysInMonth(year, 12) == if IsLeap(year) then 366 else 365
  {
    var leap := if IsLeap(year) then 1 else 0;
    assert DaysBeforeMonth(year, 1) == 0;
    assert DaysBeforeMonth(year, 2) == 31;
    assert DaysBeforeMonth(year, 3) == 59 + leap;
    assert DaysBeforeMonth(year, 4) == 90 + leap;
    assert DaysBeforeMonth(year, 5) == 120 + leap;
    assert DaysBeforeMonth(year, 6) == 151 + leap;
    assert DaysBeforeMonth(year, 7) == 181 + leap;
    assert DaysBeforeMonth(year, 8) == 212 + leap;
    assert DaysBeforeMonth(year, 9) == 243 + leap;
    assert DaysBeforeMonth(year, 10) == 273 + leap;
    assert DaysBeforeMonth(year, 11) == 304 + leap;
    assert DaysBeforeMonth(year, 12) == 334 + leap;
  }

  /** Consecutive years are as far apart as the first one is long. */
  lemma DaysBeforeNextYear(year: int)
    ensures DaysBeforeYear(year + 1) == DaysBeforeYear(year) + if IsLeap(year) then 366 else 365
  {
    var y := year - 1;
    DivStep(y, 4);
    DivStep(y, 100);
    DivStep(y, 400);
    assert DaysBeforeYear(year + 1) - DaysBeforeYear(year)
      == 365 + (year / 4 - y / 4) - (year / 100 - y / 100) + (year / 400 - y / 400);
    LeapDivisors(year);
  }

  /** A multiple of 400 is one of 100, and a multiple of 100 is one of 4. */
  lemma LeapDivisors(year: int)
    ensures year % 400 == 0 ==> year % 100 == 0
    ensures year % 100 == 0 ==> year % 4 == 0
  {
  }

  /** Floor division by d goes up by one exactly at the multiples of d. */
  lemma DivStep(x: int, d: int)
    requires d == 4 || d == 100 || d == 400
    ensures (x + 1) / d == x / d + if (x + 1) % d == 0 then 1 else 0
  {
  }

  /** One 400-year cycle holds 146097 days, and the leap years repeat after it. */
  lemma FourHundredYears(year: int)
    ensures IsLeap(year + 400) == IsLeap(year)
    ensures DaysBeforeYear(year + 400) == DaysBeforeYear(year) + 146097
  {
    var y := year - 1;
    assert (y + 400) / 4 == y / 4 + 100;
    assert (y + 400) / 100 == y / 100 + 4;
    assert (y + 400) / 400 == y / 400 + 1;
  }

  /** Shifting the year by 400k shifts nothing but the day count, by 146097k days. */
  lemma {:induction false} FourHundredYearCycle(year: int, k: nat)
    ensures IsLeap(year + 400 * k) == IsLeap(year)
    ensures DaysBeforeYear(year + 400 * k) == DaysBeforeYear(year) + 146097 * k
  {
    if k > 0 {
      FourHundredYearCycle(year, k - 1);
      FourHundredYears(year + 400 * (k - 1));
      assert year + 400 * (k - 1) + 400 == year + 400 * k;
      assert 146097 * (k - 1) + 146097 == 146097 * k;
    }
  }

  /** The year normalisation of `calendar.weekday` is sound: the weekday equals the
      one given by the uninterrupted day count, for every integer year. */
  lemma WeekdayIsContinuous(year: int, month: int, day: int)
    requires ValidDate(year, month, day)
    ensures Weekday(year, month, day) == (Ordinal(year, month, day) + 6) % 7
  {
    var n := NormalizedYear(year);
    if n != year {
      var shift := 5 - year / 400;
      assert n == year + 400 * shift;
      if shift >= 0 {
        FourHundredYearCycle(year, shift);
      } else {
        assert year == n + 400 * -shift;
        FourHundredYearCycle(n, -shift);
      }
      MonthsAgree(n, year, month);
      assert Ordinal(n, month, day) == Ordinal(year, month, day) + 7 * (20871 * shift);
      WholeWeeks(Ordinal(year, month, day) + 6, 20871 * shift);
    }
  }

  /** Adding whole weeks keeps the weekday. */
  lemma WholeWeeks(x: int, weeks: int)
    ensures (x + 7 * weeks) % 7 == x % 7
  {
  }

  /** The weekday after x is the weekday of x plus one, modulo 7. */
  lemma NextWeekday(x: int)
    ensures (x + 1) % 7 == (x % 7 + 1) % 7
  {
  }

  /** Month lengths depend on the year only through the leap-year rule. */
  lemma {:induction false} MonthsAgree(a: int, b: int, month: int)
    requires ValidMonth(month) && IsLeap(a) == IsLeap(b)
    ensures DaysBeforeMonth(a, month) == DaysBeforeMonth(b, month)
  {
    if month > 1 {
      MonthsAgree(a, b, month - 1);
    }
  }

  /** The day count advances by exactly one from a date to the next one,
      across month ends and year ends. */
  lemma OrdinalOfNextDate(year: int, month: int, day: int)
    requires ValidDate(year, month, day)
    ensures var (y, m, d) := NextDate(year, month, day); Ordinal(y, m, d) == Ordinal(year, month, day) + 1
  {
    if day == DaysInMonth(year, month) && month == 12 {
      YearLength(year);
      DaysBeforeNextYear(year);
    }
  }

  /** Weekdays run Monday to Sunday without a gap: the date after any date falls
      on the next weekday, modulo 7, also where `calendar.weekday` switches
      between a real and a normalised year (9999 to 10000, 0 to 1). */
  lemma NextDateWeekday(year: int, month: int, day: int)
    requires ValidDate(year, month, day)
    ensures var (y, m, d) := NextDate(year, month, day); Weekday(y, m, d) == (Weekday(year, month, day) + 1) % 7
  {
    var (y, m, d) := NextDate(year, month, day);
    OrdinalOfNextDate(year, month, day);
    WeekdayIsContinuous(year, month, day);
    WeekdayIsContinuous(y, m, d);
    NextWeekday(Ordinal(year, month, day) + 6);
  }

  /** Anchors: 1 January of year 1 is a Monday, 1 September 2025 is a Monday,
      and February has 29 days exactly in leap years. */
  lemma Anchors()
    ensures Weekday(1, 1, 1) == 0
    ensures Weekday(2025, 9, 1) == 0
    ensures DaysInMonth(2024, 2) == 29 && DaysInMonth(2025, 2) == 28
    ensures DaysInMonth(1900, 2) == 28 && DaysInMonth(2000, 2) == 29
  {
    assert DaysBeforeMonth(2025, 9) == 243;
  }
}

/** The calendar arithmetic the renderer gets from JavaScript's `Date`, on local
    time: day numbers after the `Date(year, month, day)` constructor's
    normalisation, day of the week, month lengths, and the `daysUntil` countdown.
    Months are 0-based, as `getMonth()` returns them. */
module Dates {

  /** A local calendar date: `getFullYear()`, `getMonth()` (0 = January), `getDate()`. */
  datatype LocalDate = LocalDate(year: int, month: int, day: int)

  /** A local date and the milliseconds elapsed since its midnight. */
  datatype Moment = Moment(date: LocalDate, msOfDay: int)

  predicate IsLeapYear(y: int)
  {
    y % 4 == 0 && (y % 100 != 0 || y % 400 == 0)
  }

  function YearLength(y: int): int
  {
    if IsLeapYear(y) then 366 else 365
  }

  function DaysInMonth(y: int, m: int): (n: int)
    requires 0 <= m < 12
    ensures 28 <= n <= 31
    ensures n == 29 <==> m == 1 && IsLeapYear(y)
  {
    if m == 1 then (if IsLeapYear(y) then 29 else 28)
    else if m == 3 || m == 5 || m == 8 || m == 10 then 30
    else 31
  }

  predicate ValidDate(d: LocalDate)
  {
    0 <= d.month < 12 && 1 <= d.day <= DaysInMonth(d.year, d.month)
  }

  predicate ValidMoment(t: Moment)
  {
    ValidDate(t.date) && 0 <= t.msOfDay < 86_400_000
  }

  /** Days from 1 January of year 1 to 1 January of year `y`, proleptic Gregorian. */
  function DaysBeforeYear(y: int): int
  {
    var p := y - 1;
    365 * p + p / 4 - p / 100 + p / 400
  }

  /** Days from 1 January to the first of month `m` (`m == 12` gives the whole year). */
  function DaysBeforeMonth(y: int, m: int): int
    requires 0 <= m <= 12
  {
    (if m >= 2 && IsLeapYear(y) then 1 else 0) +
    if m < 6 then
      (if m == 0 then 0 else if m == 1 then 31 else if m == 2 then 59
       else if m == 3 then 90 else if m == 4 then 120 else 151)
    else
      (if m == 6 then 181 else if m == 7 then 212 else if m == 8 then 243
       else if m == 9 then 273 else if m == 10 then 304 else if m == 11 then 334 else 365)
  }

  /** The day `new Date(year, month, day)` denotes, counted from 1 January of year 1:
      a month outside 0..11 moves into a neighbouring year and a day outside the
      month moves into a neighbouring month, as the constructor's MakeDay step does. */
  function DayNumber(d: LocalDate): int
  {
    if 0 <= d.month < 12 then DaysBeforeYear(d.year) + DaysBeforeMonth(d.year, d.month) + d.day - 1
    else
      var y := d.year + d.month / 12;
      DaysBeforeYear(y) + DaysBeforeMonth(y, d.month % 12) + d.day - 1
  }

  /** `getDay()` of a day number: 0 = Sunday; 1 January of year 1 was a Monday. */
  function Weekday(dn: int): (w: int)
    ensures 0 <= w < 7
  {
    (dn + 1) % 7
  }

  /** The weekday is anchored to the calendar: 1 March 2024 was a Friday. */
  lemma WeekdayAnchor()
    ensures Weekday(DayNumber(LocalDate(2024, 2, 1))) == 5
  {
    assert DaysBeforeYear(2024) == 738885;
  }

  /** Milliseconds on the local clock, the scale on which `Date` values are
      compared; a day is `1000 * 60 * 60 * 24` = 86 400 000 ms. */
  function InstantOf(t: Moment): int
  {
    DayNumber(t.date) * 86_400_000 + t.msOfDay
  }

  /** Comparing two `Date` values compares their days first and their times
      of day only within the same day. */
  lemma InstantOrder(a: Moment, b: Moment)
    requires ValidMoment(a) && ValidMoment(b)
    ensures InstantOf(a) < InstantOf(b)
        <==> DayNumber(a.date) < DayNumber(b.date)
             || (DayNumber(a.date) == DayNumber(b.date) && a.msOfDay < b.msOfDay)
  {
    var da, db := DayNumber(a.date), DayNumber(b.date);
    if da < db {
      assert da * 86_400_000 + 86_400_000 <= db * 86_400_000;
    } else if da > db {
      assert db * 86_400_000 + 86_400_000 <= da * 86_400_000;
    }
  }

  // ---------------------------------------------------------------------------
  // Consistency of the calendar tables

  /** The month table adds up month by month to the lengths of the months. */
  lemma DaysBeforeMonthStep(y: int, m: int)
    requires 0 <= m < 12
    ensures DaysBeforeMonth(y, m + 1) == DaysBeforeMonth(y, m) + DaysInMonth(y, m)
  {
  }

  lemma {:induction false} DaysBeforeMonthMonotone(y: int, m1: int, m2: int)
    requires 0 <= m1 <= m2 <= 12
    ensures DaysBeforeMonth(y, m1) + 28 * (m2 - m1) <= DaysBeforeMonth(y, m2)
    decreases m2 - m1
  {
    if m1 < m2 {
      DaysBeforeMonthStep(y, m1);
      DaysBeforeMonthMonotone(y, m1 + 1, m2);
    }
  }

  /** The year formula grows by exactly the length of the year, 366 in leap years. */
  lemma YearStep(y: int)
    ensures DaysBeforeYear(y + 1) == DaysBeforeYear(y) + YearLength(y)
  {
    DivStep4(y);
    DivStep100(y);
    DivStep400(y);
  }

  lemma DivStep4(y: int)
    ensures y / 4 - (y - 1) / 4 == (if y % 4 == 0 then 1 else 0)
  {
  }

  lemma DivStep100(y: int)
    ensures y / 100 - (y - 1) / 100 == (if y % 100 == 0 then 1 else 0)
  {
  }

  lemma DivStep400(y: int)
    ensures y / 400 - (y - 1) / 400 == (if y % 400 == 0 then 1 else 0)
  {
  }

  lemma {:induction false} DaysBeforeYearMonotone(y1: int, y2: int)
    requires y1 <= y2
    ensures DaysBeforeYear(y1) + 365 * (y2 - y1) <= DaysBeforeYear(y2)
    decreases y2 - y1
  {
    if y1 < y2 {
      YearStep(y1);
      DaysBeforeYearMonotone(y1 + 1, y2);
    }
  }

  /** A valid date lies inside its own year. */
  lemma DayNumberInYear(d: LocalDate)
    requires ValidDate(d)
    ensures DaysBeforeYear(d.year) <= DayNumber(d) < DaysBeforeYear(d.year + 1)
  {
    DaysBeforeMonthStep(d.year, d.month);
    DaysBeforeMonthMonotone(d.year, d.month + 1, 12);
    YearStep(d.year);
  }

  /** Distinct valid dates are distinct days, so a day number has at most one
      calendar date: `getFullYear`, `getMonth` and `getDate` are well defined. */
  lemma DayNumberInjective(a: LocalDate, b: LocalDate)
    requires ValidDate(a) && ValidDate(b) && DayNumber(a) == DayNumber(b)
    ensures a == b
  {
    if a.year < b.year {
      EarlierYearEarlier(a, b);
    } else if b.year < a.year {
      EarlierYearEarlier(b, a);
    } else if a.month < b.month {
      EarlierMonthEarlier(a, b);
    } else if b.month < a.month {
      EarlierMonthEarlier(b, a);
    }
  }

  lemma EarlierYearEarlier(a: LocalDate, b: LocalDate)
    requires ValidDate(a) && ValidDate(b) && a.year < b.year
    ensures DayNumber(a) < DayNumber(b)
  {
    DayNumberInYear(a);
    DayNumberInYear(b);
    DaysBeforeYearMonotone(a.year + 1, b.year);
  }

  lemma EarlierMonthEarlier(a: LocalDate, b: LocalDate)
    requires ValidDate(a) && ValidDate(b) && a.year == b.year && a.month < b.month
    ensures DayNumber(a) < DayNumber(b)
  {
    DaysBeforeMonthStep(a.year, a.month);
    DaysBeforeMonthMonotone(a.year, a.month + 1, b.month);
  }

  /** `ValidDate(d)` and `d` is the date of day `dn`: what the getters report. */
  predicate IsDateOf(d: LocalDate, dn: int)
  {
    ValidDate(d) && DayNumber(d) == dn
  }

  /** The day after the last of a month is the first of the next, also across the year end. */
  lemma LastDayThenFirst(y: int, m: int)
    requires 0 <= m < 12
    ensures DayNumber(LocalDate(y, m, DaysInMonth(y, m))) + 1 == DayNumber(LocalDate(y, m + 1, 1))
  {
    DaysBeforeMonthStep(y, m);
    if m == 11 {
      YearStep(y);
    }
  }

  /** `new Date(y, m + 1, 0)` is the last day of month `m`: its `getDate()` is `DaysInMonth(y, m)`. */
  lemma MonthEndIsDayZeroOfNext(y: int, m: int)
    requires 0 <= m < 12
    ensures IsDateOf(LocalDate(y, m, DaysInMonth(y, m)), DayNumber(LocalDate(y, m + 1, 0)))
  {
    LastDayThenFirst(y, m);
  }

  /** The last day of the month before month `m`. */
  function PrevMonthEnd(y: int, m: int): (d: LocalDate)
    requires 0 <= m < 12
    ensures ValidDate(d) && d.day == DaysInMonth(d.year, d.month)
  {
    if m == 0 then LocalDate(y - 1, 11, 31) else LocalDate(y, m - 1, DaysInMonth(y, m - 1))
  }

  /** `new Date(y, m, 0)` is the last day of the previous month, across the year end for January. */
  lemma DayZeroIsPrevMonthEnd(y: int, m: int)
    requires 0 <= m < 12
    ensures IsDateOf(PrevMonthEnd(y, m), DayNumber(LocalDate(y, m, 0)))
    ensures DayNumber(PrevMonthEnd(y, m)) + 1 == DayNumber(LocalDate(y, m, 1))
  {
    if m == 0 {
      LastDayThenFirst(y - 1, 11);
      DayZeroOfJanuary(y);
    } else {
      LastDayThenFirst(y, m - 1);
    }
  }

  /** Month 12 of one year is January of the next, as the constructor normalises it. */
  lemma DayZeroOfJanuary(y: int)
    ensures DayNumber(LocalDate(y - 1, 12, 1)) == DayNumber(LocalDate(y, 0, 1))
    ensures DayNumber(LocalDate(y, 0, 0)) == DayNumber(LocalDate(y, 0, 1)) - 1
  {
    assert (y - 1) + 12 / 12 == y && 12 % 12 == 0;
  }

  /** Weekdays advance by one per day. */
  lemma WeekdayAfter(dn: int, k: int)
    ensures Weekday(dn + k) == (Weekday(dn) + k) % 7
  {
  }

  // ---------------------------------------------------------------------------
  // The countdown

  /** `Math.ceil(ms / (1000 * 60 * 60 * 24))` for a whole number of milliseconds. */
  function CeilDays(ms: int): (days: int)
    ensures 86_400_000 * (days - 1) < ms <= 86_400_000 * days
  {
    -((-ms) / 86_400_000)
  }

  /** A date with the year replaced, as `setFullYear(year)` does: month, day
      and time of day are kept, and 29 February of a common year becomes 1 March. */
  function WithYear(t: Moment, year: int): Moment
  {
    Moment(LocalDate(year, t.date.month, t.date.day), t.msOfDay)
  }

  /** The instant `daysUntil` counts to: the target itself, or, when it is before
      now, the target after `setFullYear(now.getFullYear() + 1)`, which changes
      the target in place. */
  function RolledTarget(target: Moment, now: Moment): (r: int)
    requires ValidMoment(target) && ValidMoment(now)
    ensures r >= InstantOf(now)
  {
    NextYearIsAhead(target, now);
    if InstantOf(target) < InstantOf(now)
    then InstantOf(WithYear(target, now.date.year + 1))
    else InstantOf(target)
  }

  /** Any moment of next year, on a valid month and day, is after every moment of this year. */
  lemma NextYearIsAhead(target: Moment, now: Moment)
    requires ValidMoment(target) && ValidMoment(now)
    ensures InstantOf(WithYear(target, now.date.year + 1)) > InstantOf(now)
  {
    DayNumberInYear(now.date);
  }

  /** `daysUntil` as written: whole days, rounded up, from now to the rolled target. */
  function DaysUntil(target: Moment, now: Moment): (days: int)
    requires ValidMoment(target) && ValidMoment(now)
    ensures days >= 0
    ensures InstantOf(target) < InstantOf(now) ==> days >= 1
    ensures InstantOf(target) >= InstantOf(now) ==> days == CeilDays(InstantOf(target) - InstantOf(now))
  {
    NextYearIsAhead(target, now);
    CeilDays(RolledTarget(target, now) - InstantOf(now))
  }

  /** The instant the countdown evidently means: the target when it is still
      ahead, otherwise its next anniversary on or after now, in now's year when
      that is still ahead and in the following year only when it is not. */
  function NextOccurrence(target: Moment, now: Moment): int
  {
    if InstantOf(target) >= InstantOf(now) then InstantOf(target)
    else if InstantOf(WithYear(target, now.date.year)) >= InstantOf(now) then InstantOf(WithYear(target, now.date.year))
    else InstantOf(WithYear(target, now.date.year + 1))
  }

  /** A month and day one year later are at most 366 days later. */
  lemma AnniversaryGap(y: int, m: int, d: int)
    requires 0 <= m < 12
    ensures DayNumber(LocalDate(y + 1, m, d)) - DayNumber(LocalDate(y, m, d)) <= 366
  {
    YearStep(y);
  }

  /** The next occurrence is never before now, and at most 366 days after it
      when the target has passed. */
  lemma NextOccurrenceWithinAYear(target: Moment, now: Moment)
    requires ValidMoment(target) && ValidMoment(now)
    ensures NextOccurrence(target, now) >= InstantOf(now)
    ensures InstantOf(target) < InstantOf(now) ==> NextOccurrence(target, now) - InstantOf(now) <= 366 * 86_400_000
  {
    if InstantOf(target) < InstantOf(now) {
      if InstantOf(WithYear(target, now.date.year)) < InstantOf(now) {
        RolledWithinAYear(target, now);
      } else {
        AnniversaryThisYear(target, now);
      }
    }
  }

  /** When this year's anniversary has passed, next year's lies within 366 days after now. */
  lemma RolledWithinAYear(target: Moment, now: Moment)
    requires ValidMoment(target) && ValidMoment(now)
    requires InstantOf(WithYear(target, now.date.year)) < InstantOf(now)
    ensures InstantOf(now) < InstantOf(WithYear(target, now.date.year + 1)) <= InstantOf(now) + 366 * 86_400_000
  {
    NextYearIsAhead(target, now);
    AnniversaryGapInstants(target, now.date.year);
  }

  lemma AnniversaryGapInstants(target: Moment, y: int)
    requires ValidMoment(target)
    ensures InstantOf(WithYear(target, y + 1)) - InstantOf(WithYear(target, y)) <= 366 * 86_400_000
  {
    AnniversaryGap(y, target.date.month, target.date.day);
  }

  /** The target's month and day in now's year are at most 366 days after now. */
  lemma AnniversaryThisYear(target: Moment, now: Moment)
    requires ValidMoment(target) && ValidMoment(now)
    ensures InstantOf(WithYear(target, now.date.year)) - InstantOf(now) <= 366 * 86_400_000
  {
    var y := now.date.year;
    DayNumberInYear(now.date);
    DayNumberBeforeNextYear(y, target.date.month, target.date.day);
    YearStep(y);
  }

  /** The next occurrence is the earliest anniversary still ahead: when the
      target has passed, no anniversary on or after now comes before it. */
  lemma NextOccurrenceIsNext(target: Moment, now: Moment, y: int)
    requires ValidMoment(target) && ValidMoment(now)
    requires InstantOf(target) < InstantOf(now)
    requires InstantOf(WithYear(target, y)) >= InstantOf(now)
    ensures NextOccurrence(target, now) <= InstantOf(WithYear(target, y))
  {
    var year := now.date.year;
    var thisYears, ahead := InstantOf(WithYear(target, year)), InstantOf(WithYear(target, y));
    EarlierYearsBeforeNow(target, now, y);
    assert y >= year;
    if thisYears >= InstantOf(now) {
      AnniversariesIncrease(target, year, y);
      assert thisYears <= ahead;
    } else {
      NextYearsIsNext(target, now, y);
    }
  }

  /** When this year's anniversary has passed too, next year's comes first among those ahead. */
  lemma NextYearsIsNext(target: Moment, now: Moment, y: int)
    requires ValidMoment(target) && ValidMoment(now)
    requires InstantOf(WithYear(target, now.date.year)) < InstantOf(now) <= InstantOf(WithYear(target, y))
    requires y >= now.date.year
    ensures InstantOf(WithYear(target, now.date.year + 1)) <= InstantOf(WithYear(target, y))
  {
    AnniversariesIncrease(target, now.date.year + 1, y);
  }

  /** An anniversary in a year before now's year is before now. */
  lemma EarlierYearsBeforeNow(target: Moment, now: Moment, y: int)
    requires ValidMoment(target) && ValidMoment(now)
    ensures y < now.date.year ==> InstantOf(WithYear(target, y)) < InstantOf(now)
  {
    if y < now.date.year {
      DayNumberBeforeNextYear(y, target.date.month, target.date.day);
      DaysBeforeYearMonotone(y + 1, now.date.year);
      DayNumberInYear(now.date);
    }
  }

  /** Anniversaries of a date come in the order of their years. */
  lemma AnniversariesIncrease(target: Moment, y1: int, y2: int)
    requires ValidMoment(target)
    ensures y1 < y2 ==> InstantOf(WithYear(target, y1)) < InstantOf(WithYear(target, y2))
  {
    if y1 < y2 {
      DayNumberBeforeNextYear(y1, target.date.month, target.date.day);
      DaysBeforeYearMonotone(y1 + 1, y2);
      DaysBeforeMonthMonotone(y2, 0, target.date.month);
    }
  }

  /** Day 31 or earlier of any month is still before the next year starts. */
  lemma DayNumberBeforeNextYear(y: int, m: int, d: int)
    requires 0 <= m < 12 && d <= 31
    ensures DayNumber(LocalDate(y, m, d)) < DaysBeforeYear(y + 1)
  {
    DaysBeforeMonthMonotone(y, m, 11);
    YearStep(y);
  }

  /** The corrected countdown: whole days, rounded up, to the next occurrence. */
  function DaysUntilNextOccurrence(target: Moment, now: Moment): (days: int)
    requires ValidMoment(target) && ValidMoment(now)
    ensures days >= 0
    ensures InstantOf(target) < InstantOf(now) ==> days <= 366
    ensures InstantOf(target) >= InstantOf(now) ==> days == CeilDays(InstantOf(target) - InstantOf(now))
  {
    NextOccurrenceWithinAYear(target, now);
    CeilDays(NextOccurrence(target, now) - InstantOf(now))
  }

  /** Both countdowns agree when the target's year is not before now's year. */
  lemma NextOccurrenceAgrees(target: Moment, now: Moment)
    requires ValidMoment(target) && ValidMoment(now)
    requires target.date.year >= now.date.year
    ensures DaysUntilNextOccurrence(target, now) == DaysUntil(target, now)
  {
    if target.date.year > now.date.year {
      DayNumberInYear(now.date);
      DaysBeforeYearMonotone(now.date.year + 1, target.date.year);
      DayNumberInYear(target.date);
    }
  }

  /** With a target date from an earlier year, `daysUntil` skips a whole year:
      on 1 January 2025 a target of 10 March 2024 counts 433 days, to 10 March
      2026, instead of the 68 days to 10 March 2025. */
  lemma DaysUntilSkipsAYear()
    ensures var now := Moment(LocalDate(2025, 0, 1), 0);
            var target := Moment(LocalDate(2024, 2, 10), 0);
            DaysUntil(target, now) == 433 && DaysUntilNextOccurrence(target, now) == 68
  {
    assert DaysBeforeYear(2024) == 738885;
    assert DaysBeforeYear(2025) == 739251;
    assert DaysBeforeYear(2026) == 739616;
    assert DayNumber(LocalDate(2024, 2, 10)) == 738954;
    assert DayNumber(LocalDate(2025, 2, 10)) == 739319;
    assert DayNumber(LocalDate(2026, 2, 10)) == 739684;
  }

  /** On 1 March 2024 a target of 10 March 2024 is 9 days away; on 15 March 2024
      it has passed and rolls to 10 March 2025, 360 days away. */
  lemma CountdownExamples()
    ensures DaysUntil(Moment(LocalDate(2024, 2, 10), 0), Moment(LocalDate(2024, 2, 1), 0)) == 9
    ensures DaysUntil(Moment(LocalDate(2024, 2, 10), 0), Moment(LocalDate(2024, 2, 15), 0)) == 360
  {
    assert DaysBeforeYear(2024) == 738885;
    assert DaysBeforeYear(2025) == 739251;
    assert DayNumber(LocalDate(2024, 2, 1)) == 738945;
    assert DayNumber(LocalDate(2024, 2, 10)) == 738954;
    assert DayNumber(LocalDate(2024, 2, 15)) == 738959;
    assert DayNumber(LocalDate(2025, 2, 10)) == 739319;
  }
}

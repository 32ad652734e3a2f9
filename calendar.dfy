/**
 * Calendar arithmetic standing in for JavaScript `Date` construction: the
 * Gregorian month lengths, the normalisation `new Date(y, m, d)` applies to
 * an out-of-range month or day, and a day ordinal that numbers calendar
 * dates consecutively (1 is 1 January of year 1, proleptic Gregorian).
 */
module Calendar {

  /** A calendar date "YYYY-MM-DD" as its three numbers; `month` counts from 1. */
  datatype Date = Date(year: int, month: int, day: int)

  /** The date names a day that exists: a month from 1 to 12 and a day within it. */
  predicate ValidDate(t: Date)
  {
    1 <= t.month <= 12 && 1 <= t.day <= DaysInMonth(t.year, t.month)
  }

  predicate IsLeapYear(y: int)
  {
    (y % 4 == 0 && y % 100 != 0) || y % 400 == 0
  }

  /** Days of month `m` (1 to 12) of year `y`. */
  function DaysInMonth(y: int, m: int): (days: int)
    requires 1 <= m <= 12
    ensures 28 <= days <= 31
    ensures days == 28 <==> m == 2 && !IsLeapYear(y)
    ensures days == 29 <==> m == 2 && IsLeapYear(y)
    ensures days == 30 <==> m == 4 || m == 6 || m == 9 || m == 11
  {
    if m == 2 then (if IsLeapYear(y) then 29 else 28)
    else if m == 4 || m == 6 || m == 9 || m == 11 then 30
    else 31
  }

  /** Months counted consecutively: December of `y` is followed by index of January of `y + 1`. */
  function MonthIndex(y: int, m: int): int
  {
    12 * y + (m - 1)
  }

  /** The year of a month index (floor division, as `Date` normalises). */
  function YearOf(k: int): int { k / 12 }

  /** The month (1 to 12) of a month index. */
  function MonthOf(k: int): (m: int)
    ensures 1 <= m <= 12
  {
    k % 12 + 1
  }

  lemma IndexRoundTrip(k: int)
    ensures MonthIndex(YearOf(k), MonthOf(k)) == k
  {
  }

  /** `new Date(y, m, 0).getDate()`: the length of 1-based month `m`, any `m` normalised. */
  function LengthOfMonth(y: int, m: int): (days: int)
    ensures 28 <= days <= 31
    ensures 1 <= m <= 12 ==> days == DaysInMonth(y, m)
  {
    var k := MonthIndex(y, m);
    assert 1 <= m <= 12 ==> YearOf(k) == y && MonthOf(k) == m;
    DaysInMonth(YearOf(k), MonthOf(k))
  }

  /** Days in the years before year `y`. */
  function DaysBeforeYear(y: int): int
  {
    365 * (y - 1) + (y - 1) / 4 - (y - 1) / 100 + (y - 1) / 400
  }

  /** Days of year `y` before the first of month `m` (1 to 13). */
  function DaysBeforeMonth(y: int, m: int): int
    requires 1 <= m <= 13
  {
    if m == 1 then 0 else DaysBeforeMonth(y, m - 1) + DaysInMonth(y, m - 1)
  }

  /**
   * The ordinal of `new Date(y, m - 1, d)`: a month outside 1..12 rolls into
   * the neighbouring years and a day outside the month into the
   * neighbouring months, as `Date` does.
   */
  function DayOrdinal(y: int, m: int, d: int): int
  {
    var k := MonthIndex(y, m);
    DaysBeforeYear(YearOf(k)) + DaysBeforeMonth(YearOf(k), MonthOf(k)) + d
  }

  /** The months of a year add up to 365 days, or 366 in a leap year. */
  lemma YearLength(y: int)
    ensures DaysBeforeMonth(y, 13) == if IsLeapYear(y) then 366 else 365
    ensures DaysBeforeYear(y + 1) == DaysBeforeYear(y) + DaysBeforeMonth(y, 13)
  {
    var feb := DaysInMonth(y, 2);
    assert DaysBeforeMonth(y, 2) == 31;
    assert DaysBeforeMonth(y, 3) == 31 + feb;
    assert DaysBeforeMonth(y, 4) == 62 + feb;
    assert DaysBeforeMonth(y, 5) == 92 + feb;
    assert DaysBeforeMonth(y, 6) == 123 + feb;
    assert DaysBeforeMonth(y, 7) == 153 + feb;
    assert DaysBeforeMonth(y, 8) == 184 + feb;
    assert DaysBeforeMonth(y, 9) == 215 + feb;
    assert DaysBeforeMonth(y, 10) == 245 + feb;
    assert DaysBeforeMonth(y, 11) == 276 + feb;
    assert DaysBeforeMonth(y, 12) == 306 + feb;
    assert DaysBeforeMonth(y, 13) == 337 + feb;
    LeapDaysStep(y);
  }

  /** Going from year `y` to `y + 1` adds one leap day exactly when `y` is a leap year. */
  lemma LeapDaysStep(y: int)
    ensures DaysBeforeYear(y + 1) == DaysBeforeYear(y) + if IsLeapYear(y) then 366 else 365
  {
    StepBy4(y);
    StepBy100(y);
    StepBy400(y);
  }

  lemma StepBy4(y: int)
    ensures y / 4 == (y - 1) / 4 + (if y % 4 == 0 then 1 else 0)
  {
    var q, r := (y - 1) / 4, (y - 1) % 4;
    if r == 3 { assert y == 4 * (q + 1); } else { assert y == 4 * q + (r + 1); }
  }

  lemma StepBy100(y: int)
    ensures y / 100 == (y - 1) / 100 + (if y % 100 == 0 then 1 else 0)
  {
    var q, r := (y - 1) / 100, (y - 1) % 100;
    if r == 99 { assert y == 100 * (q + 1); } else { assert y == 100 * q + (r + 1); }
  }

  lemma StepBy400(y: int)
    ensures y / 400 == (y - 1) / 400 + (if y % 400 == 0 then 1 else 0)
  {
    var q, r := (y - 1) / 400, (y - 1) % 400;
    if r == 399 { assert y == 400 * (q + 1); } else { assert y == 400 * q + (r + 1); }
  }

  /** Month `m` of year `y` has month index `12 * y + m - 1`, and that index gives back `y` and `m`. */
  lemma IndexOfMonth(y: int, m: int)
    requires 1 <= m <= 12
    ensures YearOf(MonthIndex(y, m)) == y && MonthOf(MonthIndex(y, m)) == m
  {
  }

  /** The day after the last day of a month is the first day of the next month. */
  lemma LastDayIsFollowedByNextMonth(y: int, m: int)
    requires 1 <= m <= 12
    ensures DayOrdinal(y, m, DaysInMonth(y, m)) + 1 == DayOrdinal(y, m + 1, 1)
  {
    if m == 12 {
      DecemberIsFollowedByJanuary(y);
    } else {
      IndexOfMonth(y, m);
      IndexOfMonth(y, m + 1);
    }
  }

  lemma DecemberIsFollowedByJanuary(y: int)
    ensures DayOrdinal(y, 12, 31) + 1 == DayOrdinal(y, 13, 1)
  {
    IndexOfMonth(y, 12);
    IndexOfMonth(y + 1, 1);
    assert MonthIndex(y, 13) == MonthIndex(y + 1, 1);
    assert DayOrdinal(y, 13, 1) == DaysBeforeYear(y + 1) + 1;
    assert DayOrdinal(y, 12, 31) == DaysBeforeYear(y) + DaysBeforeMonth(y, 12) + 31;
    YearLength(y);
  }

  /** Day `d` of a month lies `d - 1` days after its first day, which is how `setDate` counts. */
  lemma DayOffset(y: int, m: int, d: int)
    ensures DayOrdinal(y, m, d) == DayOrdinal(y, m, 1) + d - 1
  {
  }

  /**
   * The date `new Date(y, m - 1, d)` reads back as, for a day from 1 to 31:
   * the month is normalised into its year, and a day past the month's end
   * rolls into the following month.
   */
  function CalendarDate(y: int, m: int, d: int): (t: Date)
    requires 1 <= d <= 31
    ensures ValidDate(t)
  {
    var k := MonthIndex(y, m);
    var len := DaysInMonth(YearOf(k), MonthOf(k));
    if d <= len then Date(YearOf(k), MonthOf(k), d)
    else Date(YearOf(k + 1), MonthOf(k + 1), d - len)
  }

  /** The date read back is the same day as the one constructed. */
  lemma CalendarDateOrdinal(y: int, m: int, d: int)
    requires 1 <= d <= 31
    ensures var t := CalendarDate(y, m, d);
      DayOrdinal(t.year, t.month, t.day) == DayOrdinal(y, m, d)
  {
    var k := MonthIndex(y, m);
    var yk, mk := YearOf(k), MonthOf(k);
    IndexRoundTrip(k);
    IndexRoundTrip(k + 1);
    if d > DaysInMonth(yk, mk) {
      LastDayIsFollowedByNextMonth(yk, mk);
      assert MonthIndex(yk, mk + 1) == k + 1;
      DayOffset(y, m, d);
      DayOffset(yk, mk, DaysInMonth(yk, mk));
    }
  }

  /** Within the month, the date read back is the date given. */
  lemma CalendarDateInMonth(y: int, m: int, d: int)
    requires 1 <= m <= 12 && 1 <= d <= DaysInMonth(y, m)
    ensures CalendarDate(y, m, d) == Date(y, m, d)
  {
    IndexOfMonth(y, m);
  }
}

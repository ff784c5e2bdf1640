/**
 The Gregorian calendar as far as recurring schedules need it (section 3.2.1 of
 ISO 8601:2004), and the month step of internal/api/recurrence.go.

 A date is a month and a day. Months are counted from January of year 0, so
 month m of year y is 12*y + (m - 1); that is the normalisation time.Date does.
 Times of day are not part of this model: schedules run on midnights.
 */
module Calendar {
  datatype RawDate = RawDate(month: int, day: int)

  type Date = d: RawDate | 1 <= d.day <= DaysIn(d.month) witness RawDate(0, 1)

  predicate IsLeap(year: int) {
    year % 4 == 0 && (year % 100 != 0 || year % 400 == 0)
  }

  function DaysIn(month: int): (days: int)
    ensures 28 <= days <= 31
  {
    var m := month % 12;
    if m == 1 then if IsLeap(month / 12) then 29 else 28
    else if m == 3 || m == 5 || m == 8 || m == 10 then 30
    else 31
  }

  /** Days from the start of year 0 to the start of a month, counted month by month. */
  function DaysBefore(month: int): int
    decreases if month < 0 then -month else month
  {
    if month == 0 then 0
    else if month > 0 then DaysBefore(month - 1) + DaysIn(month - 1)
    else DaysBefore(month + 1) - DaysIn(month)
  }

  lemma {:induction false} MonthLength(month: int)
    ensures DaysBefore(month + 1) == DaysBefore(month) + DaysIn(month)
  {
  }

  /** The usual count of days before a year: 365 a year and one more every fourth,
      but not every hundredth unless it is a four hundredth. */
  function DaysBeforeYear(year: int): int {
    365 * year + (year + 3) / 4 - (year + 99) / 100 + (year + 399) / 400
  }

  lemma {:induction false} EveryFourth(year: int)
    ensures (year + 4) / 4 - (year + 3) / 4 == if year % 4 == 0 then 1 else 0
  {
  }

  lemma {:induction false} EveryHundredth(year: int)
    ensures (year + 100) / 100 - (year + 99) / 100 == if year % 100 == 0 then 1 else 0
  {
    var q, r := year / 100, year % 100;
    assert year + 100 == 100 * (q + 1) + r;
    assert year + 99 == if r == 0 then 100 * q + 99 else 100 * (q + 1) + (r - 1);
  }

  lemma {:induction false} EveryFourHundredth(year: int)
    ensures (year + 400) / 400 - (year + 399) / 400 == if year % 400 == 0 then 1 else 0
  {
    var q, r := year / 400, year % 400;
    assert year + 400 == 400 * (q + 1) + r;
    assert year + 399 == if r == 0 then 400 * q + 399 else 400 * (q + 1) + (r - 1);
  }

  lemma {:induction false} HundredthIsFourth(year: int)
    ensures year % 100 == 0 ==> year % 4 == 0
    ensures year % 400 == 0 ==> year % 100 == 0
  {
    if year % 100 == 0 {
      assert year == 4 * (25 * (year / 100));
      FourDivides(25 * (year / 100));
    }
    if year % 400 == 0 {
      assert year == 100 * (4 * (year / 400));
      HundredDivides(4 * (year / 400));
    }
  }

  lemma {:induction false} FourDivides(q: int)
    ensures (4 * q) % 4 == 0
  {
  }

  lemma {:induction false} HundredDivides(q: int)
    ensures (100 * q) % 100 == 0
  {
  }

  lemma {:induction false} YearLength(year: int)
    ensures DaysBeforeYear(year + 1) - DaysBeforeYear(year) == if IsLeap(year) then 366 else 365
  {
    EveryFourth(year);
    EveryHundredth(year);
    EveryFourHundredth(year);
    HundredthIsFourth(year);
  }

  /** Twelve months make a year of 365 or 366 days. */
  lemma {:induction false} TwelveMonths(year: int)
    ensures DaysBefore(12 * year + 12) - DaysBefore(12 * year) == if IsLeap(year) then 366 else 365
  {
    hide DaysIn, DaysBefore, IsLeap;
    var m := 12 * year;
    SumOfMonths(m, 12);
    DaysInYear(year);
  }

  function SumIn(month: int, n: nat): int { if n == 0 then 0 else SumIn(month, n - 1) + DaysIn(month + n - 1) }

  lemma {:induction false} SumOfMonths(month: int, n: nat)
    ensures DaysBefore(month + n) == DaysBefore(month) + SumIn(month, n)
  {
    hide DaysIn, DaysBefore;
    if n > 0 {
      SumOfMonths(month, n - 1);
      MonthLength(month + n - 1);
    }
  }

  lemma {:induction false} DaysOfMonth(year: int, m: int)
    requires 0 <= m < 12
    ensures DaysIn(12 * year + m) == [31, if IsLeap(year) then 29 else 28, 31, 30, 31, 30, 31, 31, 30, 31, 30, 31][m]
  {
    hide IsLeap;
    assert (12 * year + m) % 12 == m && (12 * year + m) / 12 == year;
  }

  lemma {:induction false} ThreeMore(month: int, n: nat)
    ensures SumIn(month, n + 3) == SumIn(month, n) + DaysIn(month + n) + DaysIn(month + n + 1) + DaysIn(month + n + 2)
  {
    hide DaysIn;
    assert SumIn(month, n + 1) == SumIn(month, n) + DaysIn(month + n);
    assert SumIn(month, n + 2) == SumIn(month, n + 1) + DaysIn(month + n + 1);
  }

  /** The days of the quarter that starts with month m of a year. */
  lemma {:induction false} DaysInQuarter(year: int, m: nat)
    requires m in {0, 3, 6, 9}
    ensures SumIn(12 * year, m + 3) - SumIn(12 * year, m)
            == if m == 0 then (if IsLeap(year) then 91 else 90) else if m == 3 then 91 else 92
  {
    hide DaysIn, IsLeap, SumIn;
    ThreeMore(12 * year, m);
    DaysOfMonth(year, m);
    DaysOfMonth(year, m + 1);
    DaysOfMonth(year, m + 2);
  }

  lemma {:induction false} DaysInYear(year: int)
    ensures SumIn(12 * year, 12) == if IsLeap(year) then 366 else 365
  {
    hide DaysIn, IsLeap;
    DaysInQuarter(year, 0);
    DaysInQuarter(year, 3);
    DaysInQuarter(year, 6);
    DaysInQuarter(year, 9);
    assert SumIn(12 * year, 0) == 0;
  }

  /** Counting month by month agrees with the usual formula at every new year. */
  lemma {:induction false} NewYearsDay(year: int)
    ensures DaysBefore(12 * year) == DaysBeforeYear(year)
    decreases if year < 0 then -year else year
  {
    hide DaysIn, DaysBefore, IsLeap, DaysBeforeYear;
    if year > 0 {
      NewYearsDay(year - 1);
      TwelveMonths(year - 1);
      YearLength(year - 1);
    } else if year < 0 {
      NewYearsDay(year + 1);
      TwelveMonths(year);
      YearLength(year);
    } else {
      YearZero();
    }
  }

  lemma {:induction false} YearZero()
    ensures DaysBefore(0) == 0 && DaysBeforeYear(0) == 0
  {
  }

  function DayNumber(d: Date): int {
    DaysBefore(d.month) + d.day - 1
  }

  predicate Before(a: Date, b: Date) { DayNumber(a) < DayNumber(b) }

  predicate After(a: Date, b: Date) { Before(b, a) }

  lemma {:induction false} MonthsApart(a: int, b: int)
    requires a <= b
    ensures DaysBefore(b) - DaysBefore(a) >= 28 * (b - a)
    decreases b - a
  {
    if a < b {
      MonthLength(a);
      MonthsApart(a + 1, b);
    }
  }

  lemma {:induction false} EarlierMonth(a: Date, b: Date)
    requires a.month < b.month
    ensures DayNumber(a) < DayNumber(b)
  {
    MonthLength(a.month);
    MonthsApart(a.month + 1, b.month);
    assert 28 * (b.month - (a.month + 1)) >= 0;
    hide DaysBefore, DaysIn;
    assert DayNumber(a) < DaysBefore(b.month);
  }

  /** Day numbers order dates first by month, then by day. */
  lemma {:induction false} DayNumberOrders(a: Date, b: Date)
    ensures Before(a, b) <==> a.month < b.month || (a.month == b.month && a.day < b.day)
    ensures DayNumber(a) == DayNumber(b) <==> a == b
  {
    hide DaysBefore, DaysIn;
    if a.month < b.month { EarlierMonth(a, b); }
    if b.month < a.month { EarlierMonth(b, a); }
  }

  // ----- the recurring step -----

  function Min(a: int, b: int): int { if a < b then a else b }

  /** The day of an anchored schedule in a month: the anchor, clamped to the month. */
  function Anchored(month: int, anchor: int): (d: Date)
    requires anchor >= 1
    ensures d.month == month && d.day == if anchor < DaysIn(month) then anchor else DaysIn(month)
  {
    RawDate(month, Min(anchor, DaysIn(month)))
  }

  predicate ValidAnchor(anchor: int) { 1 <= anchor <= 31 }

  function AdvanceRecurringMonth(current: Date, months: int, anchorDay: int): Date {
    var anchor := if !ValidAnchor(anchorDay) then current.day else anchorDay;
    Anchored(current.month + months, anchor)
  }

  function AdvanceTimes(start: Date, months: int, anchorDay: int, k: nat): Date {
    if k == 0 then start else AdvanceRecurringMonth(AdvanceTimes(start, months, anchorDay, k - 1), months, anchorDay)
  }

  /** With a stored anchor, k steps are one jump: clamping never drifts. */
  lemma {:induction false} StepsAreOneJump(start: Date, months: int, anchorDay: int, k: nat)
    requires ValidAnchor(anchorDay) && k > 0
    ensures AdvanceTimes(start, months, anchorDay, k) == AdvanceRecurringMonth(start, k * months, anchorDay)
    ensures AdvanceTimes(start, months, anchorDay, k) == Anchored(start.month + k * months, anchorDay)
  {
    if k > 1 {
      StepsAreOneJump(start, months, anchorDay, k - 1);
      assert (k - 1) * months + months == k * months;
    }
  }

  /** The length of the shortest month that k steps land on. */
  function Shortest(month: int, months: int, k: nat): int
    requires k > 0
  {
    var days := DaysIn(month + k * months);
    if k == 1 then days else Min(Shortest(month, months, k - 1), days)
  }

  /** Without a usable anchor each step is anchored on the day of the one before, so
      the day shrinks to the shortest month on the way. */
  lemma {:induction false} StepsWithoutAnchor(start: Date, months: int, anchorDay: int, k: nat)
    requires !ValidAnchor(anchorDay) && k > 0
    ensures AdvanceTimes(start, months, anchorDay, k)
            == RawDate(start.month + k * months, Min(start.day, Shortest(start.month, months, k)))
  {
    hide DaysIn;
    if k > 1 {
      StepsWithoutAnchor(start, months, anchorDay, k - 1);
      assert (k - 1) * months + months == k * months;
    } else {
      assert AdvanceTimes(start, months, anchorDay, 0) == start && k * months == months;
    }
  }

  /** That fallback drifts exactly when a month on the way is too short for the day
      that one jump would land on. Every caller passes a day in 1..31, so the
      schedules below never use it. */
  lemma {:induction false} NoAnchorDriftsIff(start: Date, months: int, anchorDay: int, k: nat)
    requires !ValidAnchor(anchorDay) && k > 0
    ensures AdvanceTimes(start, months, anchorDay, k) == AdvanceRecurringMonth(start, k * months, anchorDay)
            <==> Min(start.day, DaysIn(start.month + k * months)) <= Shortest(start.month, months, k)
  {
    hide DaysIn;
    StepsWithoutAnchor(start, months, anchorDay, k);
  }

  /** For instance 31 January, 28 February, 28 March. */
  lemma {:induction false} NoAnchorDrifts()
    ensures var jan31 := RawDate(12 * 2023, 31);
            && AdvanceTimes(jan31, 1, 0, 2) == RawDate(12 * 2023 + 2, 28)
            && AdvanceRecurringMonth(jan31, 2, 0) == RawDate(12 * 2023 + 2, 31)
  {
    var jan31: Date := RawDate(12 * 2023, 31);
    assert AdvanceTimes(jan31, 1, 0, 1) == RawDate(12 * 2023 + 1, 28) by {
      assert AdvanceTimes(jan31, 1, 0, 0) == jan31;
    }
  }

  /** Every step by at least one month is strictly later. */
  lemma {:induction false} StepIsLater(current: Date, months: int, anchorDay: int)
    requires months >= 1
    ensures Before(current, AdvanceRecurringMonth(current, months, anchorDay))
  {
    DayNumberOrders(current, AdvanceRecurringMonth(current, months, anchorDay));
  }

  /** A later start steps to a later or equal date. */
  lemma {:induction false} StepIsMonotone(a: Date, b: Date, months: int, anchorDay: int)
    requires ValidAnchor(anchorDay) && !Before(b, a)
    ensures !Before(AdvanceRecurringMonth(b, months, anchorDay), AdvanceRecurringMonth(a, months, anchorDay))
  {
    DayNumberOrders(b, a);
    DayNumberOrders(AdvanceRecurringMonth(b, months, anchorDay), AdvanceRecurringMonth(a, months, anchorDay));
  }

  lemma {:induction false} ThreeMonths(month: int)
    ensures DaysIn(month) + DaysIn(month + 1) + DaysIn(month + 2) <= 92
  {
    assert month % 12 in {0, 1, 2, 3, 4, 5, 6, 7, 8, 9, 10, 11};
    assert (month + 1) % 12 == (month % 12 + 1) % 12 && (month + 2) % 12 == (month % 12 + 2) % 12;
  }

  /** A quarter step from an anchored date is at most 92 days long. */
  lemma {:induction false} QuarterAtMost92Days(current: Date, anchorDay: int)
    requires ValidAnchor(anchorDay) && current.day == Min(anchorDay, DaysIn(current.month))
    ensures DayNumber(AdvanceRecurringMonth(current, 3, anchorDay)) - DayNumber(current) <= 92
  {
    var m := current.month;
    MonthLength(m);
    MonthLength(m + 1);
    MonthLength(m + 2);
    ThreeMonths(m);
    ThreeMonths(m + 1);
  }
}

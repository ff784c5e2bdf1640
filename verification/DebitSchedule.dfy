/**
 The first auto-debit date: `defaultNextDebitDate` of internal/api/investments_cron.go
 and the projection the assistant computes on its own in internal/ai/tools_investments.go.
 A start date that is absent, empty or cannot be parsed is `None`.
 */
module DebitSchedule {
  import opened Options
  import opened Calendar
  import opened Deposits

  function FirstOf(month: int): Date { RawDate(month, 1) }

  function DefaultNextDebitDate(start: Option<Date>, today: Date): Date {
    if start.None? then today
    else if !Before(start.value, today) then start.value
    else
      var candidate := AdvanceRecurringMonth(FirstOf(today.month - 1), 1, start.value.day);
      if Before(candidate, today) then AdvanceRecurringMonth(candidate, 1, start.value.day) else candidate
  }

  /** `anchoredMonthDate`: the clamp is written out once more, not shared. */
  function AnchoredMonthDate(month: int, day: int): Date
    requires day >= 1
  {
    var last := DaysIn(month);
    RawDate(month, if day > last then last else day)
  }

  function ToolNextDebitDate(start: Option<Date>, today: Date): Date {
    match start
    case None => today
    case Some(s) =>
      if !Before(s, today) then s
      else
        var anchor := s.day;
        var candidate := AnchoredMonthDate(today.month, anchor);
        if Before(candidate, today) then AnchoredMonthDate(today.month + 1, anchor) else candidate
  }

  /** The two projections agree on every input. */
  lemma {:induction false} ProjectionsAgree(start: Option<Date>, today: Date)
    ensures ToolNextDebitDate(start, today) == DefaultNextDebitDate(start, today)
  {
  }

  /** A date of the schedule with this anchor. */
  predicate OnDay(d: Date, anchor: int) { d.day == Min(anchor, DaysIn(d.month)) }

  /** For a start in the past, the projection is the least date from today on
      whose day is the start's day, clamped to its month. */
  lemma {:induction false} LeastDateOnDay(start: Date, today: Date)
    requires Before(start, today)
    ensures var next := DefaultNextDebitDate(Some(start), today);
            && !Before(next, today) && OnDay(next, start.day)
            && forall d: Date :: !Before(d, today) && OnDay(d, start.day) ==> !Before(d, next)
  {
    var next := DefaultNextDebitDate(Some(start), today);
    var candidate := AdvanceRecurringMonth(FirstOf(today.month - 1), 1, start.day);
    DayNumberOrders(candidate, today);
    DayNumberOrders(next, today);
    forall d: Date | !Before(d, today) && OnDay(d, start.day) ensures !Before(d, next) {
      DayNumberOrders(d, today);
      DayNumberOrders(d, next);
      DayNumberOrders(d, candidate);
    }
  }

  // ----- what the stored anchor keeps -----

  /** The k-th date after the first of a schedule stored with the first date's day as its anchor. */
  function StoredDate(first: Date, freq: string, k: nat): Date {
    AdvanceTimes(first, CycleMonths(freq), first.day, k)
  }

  /** The schedule keeps a day: each later date carries it, clamped to its own month only. */
  ghost predicate KeepsDay(first: Date, freq: string, day: int) {
    forall k: nat {:trigger StoredDate(first, freq, k)} :: k > 0 ==>
      StoredDate(first, freq, k).day == Min(day, DaysIn(first.month + k * CycleMonths(freq)))
  }

  /** The month the projection of a past start falls in. */
  function FirstMonth(start: Date, today: Date): int {
    if start.day < today.day then today.month + 1 else today.month
  }

  /** The first date in figures: today without a start, the start itself if it is not past,
      and else the start's day, clamped, in this month or the next. */
  lemma {:induction false} ProjectedDate(start: Date, today: Date)
    ensures DefaultNextDebitDate(None, today) == today
    ensures DefaultNextDebitDate(Some(start), today)
            == if Before(start, today) then Anchored(FirstMonth(start, today), start.day) else start
  {
    DayNumberOrders(AdvanceRecurringMonth(FirstOf(today.month - 1), 1, start.day), today);
  }

  lemma {:induction false} StoredDateIs(first: Date, freq: string, k: nat)
    requires k > 0
    ensures StoredDate(first, freq, k) == Anchored(first.month + k * CycleMonths(freq), first.day)
  {
    hide DaysIn, CycleMonths, AdvanceTimes;
    StepsAreOneJump(first, CycleMonths(freq), first.day, k);
  }

  function LaterDays(first: Date, freq: string, k: nat): int { DaysIn(first.month + k * CycleMonths(freq)) }

  ghost predicate NoLongerMonth(first: Date, freq: string) {
    forall k: nat :: k > 0 ==> LaterDays(first, freq, k) <= DaysIn(first.month)
  }

  /** A first date that was clamped has lost the day unless no later month is longer. */
  lemma {:induction false} ClampedKeepsDayIff(first: Date, freq: string, day: int)
    requires first.day == Min(day, DaysIn(first.month))
    ensures KeepsDay(first, freq, day) <==> day <= DaysIn(first.month) || NoLongerMonth(first, freq)
  {
    hide DaysIn, CycleMonths, StoredDate;
    forall k: nat | k > 0 ensures StoredDate(first, freq, k).day == Min(first.day, LaterDays(first, freq, k)) {
      StoredDateIs(first, freq, k);
    }
    if KeepsDay(first, freq, day) && day > DaysIn(first.month) {
      forall k: nat | k > 0 ensures LaterDays(first, freq, k) <= DaysIn(first.month) {
        assert StoredDate(first, freq, k).day == Min(day, LaterDays(first, freq, k));
      }
    }
    if NoLongerMonth(first, freq) {
      forall k: nat {:trigger StoredDate(first, freq, k)} | k > 0
        ensures StoredDate(first, freq, k).day == Min(day, DaysIn(first.month + k * CycleMonths(freq)))
      {
        assert LaterDays(first, freq, k) <= DaysIn(first.month);
      }
    }
  }

  /** A month of the cycle after this one is longer. */
  lemma {:induction false} LongerLaterMonth(month: int, freq: string) returns (k: nat)
    requires DaysIn(month) < 31 && (freq == "yearly" ==> DaysIn(month) == 28)
    ensures k > 0 && DaysIn(month + k * CycleMonths(freq)) > DaysIn(month)
  {
    hide DaysIn;
    if freq == "yearly" {
      k := NextLeapFebruary(month);
      assert month + k * CycleMonths(freq) == month + k * 12;
    } else if freq == "quarterly" {
      k := LongMonthInYear(month);
      assert month + k * CycleMonths(freq) == month + 3 * k;
    } else {
      k := 1;
      assert month + k * CycleMonths(freq) == month + 1;
      MonthAfterShort(month);
    }
  }

  lemma {:induction false} LongMonthInYear(month: int) returns (k: nat)
    requires DaysIn(month) < 31
    ensures 0 < k <= 2 && DaysIn(month + 3 * k) == 31
  {
    hide DaysIn, IsLeap;
    var year, m := month / 12, month % 12;
    k := if m == 5 || m == 10 then 2 else 1;
    var later := m + 3 * k;
    DaysOfMonth(year, m);
    if later < 12 { DaysOfMonth(year, later); } else { DaysOfMonth(year + 1, later - 12); }
    assert month == 12 * year + m;
  }

  lemma {:induction false} NextLeapFebruary(month: int) returns (k: nat)
    requires DaysIn(month) == 28
    ensures k > 0 && DaysIn(month + k * 12) == 29
  {
    var year := month / 12;
    var leap := 400 * (year / 400 + 1);
    assert month % 12 == 1;
    k := leap - year;
    assert month + k * 12 == 12 * leap + 1;
    HundredDivides(4 * (year / 400 + 1));
    FourDivides(100 * (year / 400 + 1));
    FourHundredDivides(year / 400 + 1);
    DaysOfMonth(leap, 1);
  }

  lemma {:induction false} FourHundredDivides(q: int)
    ensures (400 * q) % 400 == 0
  {
  }

  lemma {:induction false} YearsKeepMonths(month: int, k: nat)
    requires DaysIn(month) != 28
    ensures CycleMonths("yearly") == 12 && DaysIn(month + k * 12) <= DaysIn(month)
  {
    assert (month + k * 12) % 12 == month % 12;
  }

  /** When the stored schedule keeps the start's day, from the start and today alone. A
      past start is projected first, and the day of that first date is what is stored: a
      monthly or quarterly schedule keeps the start's day exactly when the first month
      has it, a yearly one also when the first month is not a February of 28 days. */
  predicate StoredAnchorKeepsDay(start: Date, today: Date, freq: string) {
    || !Before(start, today)
    || start.day <= DaysIn(FirstMonth(start, today))
    || (freq == "yearly" && DaysIn(FirstMonth(start, today)) != 28)
  }

  lemma {:induction false} StoredAnchorKeepsDayIff(start: Date, today: Date, freq: string)
    ensures KeepsDay(DefaultNextDebitDate(Some(start), today), freq, start.day)
        <==> StoredAnchorKeepsDay(start, today, freq)
  {
    hide DayNumber, DaysIn, CycleMonths, StoredDate, KeepsDay, AdvanceRecurringMonth;
    var first := DefaultNextDebitDate(Some(start), today);
    ProjectedDate(start, today);
    ClampedKeepsDayIff(first, freq, start.day);
    var m := first.month;
    if start.day > DaysIn(m) && (freq == "yearly" ==> DaysIn(m) == 28) {
      var k := LongerLaterMonth(m, freq);
      assert LaterDays(first, freq, k) > DaysIn(m);
    } else if start.day > DaysIn(m) {
      forall k: nat | k > 0 ensures LaterDays(first, freq, k) <= DaysIn(m) {
        YearsKeepMonths(m, k);
      }
    }
  }

  /** The month after a month with fewer than 31 days has 31. */
  lemma {:induction false} MonthAfterShort(month: int)
    requires DaysIn(month) < 31
    ensures DaysIn(month + 1) == 31
  {
    assert (month + 1) % 12 == (month % 12 + 1) % 12;
  }
}

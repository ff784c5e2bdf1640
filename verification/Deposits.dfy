/**
 The estimated value of fixed and recurring deposits of
 internal/api/investment_values.go, over real numbers.

 A date that is absent, empty or cannot be parsed is `None`: the source treats
 the three alike.
 */
module Deposits {
  import opened Options
  import opened Calendar

  datatype Investment = Investment(
    kind: string, invested: real, current: real, cycle: real, frequency: string,
    start: Option<Date>, maturity: Option<Date>, expectedReturn: real)

  // ----- rounding -----

  /** math.Round: to the nearest integer, halves away from zero. */
  function Round(x: real): int {
    if x >= 0.0 then (x + 0.5).Floor else -((0.5 - x).Floor)
  }

  function RoundMoney(value: real): real { Round(value * 100.0) as real / 100.0 }

  lemma {:induction false} RoundMoneyMonotone(a: real, b: real)
    requires a <= b
    ensures RoundMoney(a) <= RoundMoney(b)
  {
    var x, y := a * 100.0, b * 100.0;
    assert x <= y;
    if y < 0.0 {
      assert (0.5 - y).Floor <= (0.5 - x).Floor;
    } else if x >= 0.0 {
      assert (x + 0.5).Floor <= (y + 0.5).Floor;
    }
    assert Round(x) <= Round(y);
  }

  /** The nearest cent, halves away from zero. */
  lemma {:induction false} RoundMoneyNearest(value: real)
    ensures RoundMoney(value) * 100.0 == (RoundMoney(value) * 100.0).Floor as real
    ensures -0.005 <= RoundMoney(value) - value <= 0.005
    ensures value >= 0.0 ==> value - RoundMoney(value) < 0.005
    ensures RoundMoney(-value) == -RoundMoney(value)
  {
    var x := value * 100.0;
    assert RoundMoney(value) == Round(x) as real / 100.0;
    assert (-value) * 100.0 == -x;
    assert -0.5 <= Round(x) as real - x <= 0.5;
    assert x >= 0.0 ==> x - Round(x) as real < 0.5;
    assert Round(-x) == -Round(x);
  }

  // ----- one deposit -----

  function DaysBetween(a: Date, b: Date): int { DayNumber(b) - DayNumber(a) }

  function AtLeast0(n: int): nat { if n < 0 then 0 else n }

  /** Products are named, so that the proofs below use only the laws they need. */
  function Times(a: real, b: real): real { a * b }

  lemma {:induction false} TimesMonotone(k: real, a: real, b: real)
    requires k >= 0.0 && a <= b
    ensures Times(k, a) <= Times(k, b)
    ensures Times(k, 1.0) == k
  {
  }

  lemma {:induction false} TimesLaws(a: real, b: real, c: real)
    ensures Times(a, 1.0) == a
    ensures Times(a, Times(b, c)) == Times(Times(a, b), c)
    ensures Times(a - b, c) + Times(b, c) == Times(a, c)
  {
  }

  predicate OnAnchor(d: Date, anchorDay: int) {
    ValidAnchor(anchorDay) && d.day == Min(anchorDay, DaysIn(d.month))
  }

  /** Simple interest on one unit over a broken period. */
  function Simple(rate: real, days: int): real {
    if days > 0 then 1.0 + Times(rate, days as real) / 365.0 else 1.0
  }

  lemma {:induction false} NinetyOneDays(rate: real)
    requires rate >= 0.0
    ensures Times(rate, 91.0) / 365.0 <= rate / 4.0 && Times(rate, 0.0) == 0.0
  {
  }

  lemma {:induction false} SimpleMonotone(rate: real, a: int, b: int)
    requires rate >= 0.0 && a <= b
    ensures 1.0 <= Simple(rate, a) <= Simple(rate, b)
    ensures b <= 91 ==> Simple(rate, b) <= 1.0 + rate / 4.0
  {
    hide Times;
    NinetyOneDays(rate);
    if b > 0 {
      TimesMonotone(rate, 0.0, b as real);
      TimesMonotone(rate, a as real, b as real);
      if a > 0 { TimesMonotone(rate, 0.0, a as real); }
      if b <= 91 { TimesMonotone(rate, b as real, 91.0); }
    }
  }

  /** What one unit of money grows to from `cursor` to `to`: completed quarters
      compound, the days after the last one earn simple interest. */
  function Factor(rate: real, cursor: Date, anchorDay: int, to: Date): real
    decreases AtLeast0(DaysBetween(cursor, to))
  {
    var next := AdvanceRecurringMonth(cursor, 3, anchorDay);
    StepIsLater(cursor, 3, anchorDay);
    if After(next, to) then Simple(rate, DaysBetween(cursor, to))
    else Times(1.0 + rate / 4.0, Factor(rate, next, anchorDay, to))
  }

  lemma {:induction false} FactorStep(rate: real, cursor: Date, anchorDay: int, to: Date)
    ensures var next := AdvanceRecurringMonth(cursor, 3, anchorDay);
            && Before(cursor, next)
            && (After(next, to) ==> Factor(rate, cursor, anchorDay, to) == Simple(rate, DaysBetween(cursor, to)))
            && (!After(next, to) ==>
                  Factor(rate, cursor, anchorDay, to) == Times(1.0 + rate / 4.0, Factor(rate, next, anchorDay, to)))
  {
    hide DaysBefore, DaysIn, Times, Simple;
    StepIsLater(cursor, 3, anchorDay);
  }

  function Compound(principal: real, annualRate: real, from: Date, to: Date): real {
    if principal <= 0.0 || annualRate <= 0.0 || !After(to, from) then principal
    else Times(principal, Factor(annualRate, from, from.day, to))
  }

  method CompoundDeposit(principal: real, annualRate: real, from: Date, to: Date) returns (value: real)
    ensures value == Compound(principal, annualRate, from, to)
  {
    hide Factor, Times, DayNumber, DaysIn, AdvanceRecurringMonth;
    if principal <= 0.0 || annualRate <= 0.0 || !After(to, from) {
      return principal;
    }
    value := principal;
    var cursor := from;
    var anchorDay := from.day;
    while true
      invariant !After(cursor, to)
      invariant Times(value, Factor(annualRate, cursor, anchorDay, to))
          == Times(principal, Factor(annualRate, from, anchorDay, to))
      decreases DaysBetween(cursor, to)
    {
      var next := AdvanceRecurringMonth(cursor, 3, anchorDay);
      FactorStep(annualRate, cursor, anchorDay, to);
      if After(next, to) {
        break;
      }
      TimesLaws(value, 1.0 + annualRate / 4.0, Factor(annualRate, next, anchorDay, to));
      value := Times(value, 1.0 + annualRate / 4.0);
      cursor := next;
    }
    var days := DaysBetween(cursor, to);
    if days > 0 {
      value := Times(value, 1.0 + Times(annualRate, days as real) / 365.0);
    } else {
      TimesLaws(value, 1.0, 1.0);
    }
  }

  // ----- monotonicity of one deposit -----

  /** A broken period earns less than a quarter: it has at most 91 days. */
  lemma {:induction false} BrokenPeriod(rate: real, cursor: Date, anchorDay: int, to: Date)
    requires rate >= 0.0 && OnAnchor(cursor, anchorDay)
    requires After(AdvanceRecurringMonth(cursor, 3, anchorDay), to)
    ensures 1.0 <= Factor(rate, cursor, anchorDay, to) <= 1.0 + rate / 4.0
  {
    hide Factor, Times, Simple, DaysBefore, AdvanceRecurringMonth;
    QuarterAtMost92Days(cursor, anchorDay);
    FactorStep(rate, cursor, anchorDay, to);
    SimpleMonotone(rate, DaysBetween(cursor, to), DaysBetween(cursor, to));
  }

  lemma {:induction false} FactorAtLeastOne(rate: real, cursor: Date, anchorDay: int, to: Date)
    requires rate >= 0.0
    ensures Factor(rate, cursor, anchorDay, to) >= 1.0
    decreases AtLeast0(DaysBetween(cursor, to))
  {
    hide Factor, Times, Simple, DayNumber, DaysIn, AdvanceRecurringMonth;
    var next := AdvanceRecurringMonth(cursor, 3, anchorDay);
    FactorStep(rate, cursor, anchorDay, to);
    if After(next, to) {
      SimpleMonotone(rate, DaysBetween(cursor, to), DaysBetween(cursor, to));
    } else {
      FactorAtLeastOne(rate, next, anchorDay, to);
      TimesMonotone(1.0 + rate / 4.0, 1.0, Factor(rate, next, anchorDay, to));
    }
  }

  lemma {:induction false} StepKeepsAnchor(d: Date, months: int, anchorDay: int)
    requires OnAnchor(d, anchorDay)
    ensures OnAnchor(AdvanceRecurringMonth(d, months, anchorDay), anchorDay)
  {
  }

  lemma {:induction false} FactorMonotone(rate: real, cursor: Date, anchorDay: int, to: Date, later: Date)
    requires rate >= 0.0 && OnAnchor(cursor, anchorDay) && !Before(later, to)
    ensures Factor(rate, cursor, anchorDay, to) <= Factor(rate, cursor, anchorDay, later)
    decreases AtLeast0(DaysBetween(cursor, later))
  {
    hide Factor, Times, Simple, DayNumber, DaysIn, OnAnchor, AdvanceRecurringMonth;
    StepKeepsAnchor(cursor, 3, anchorDay);
    var next := AdvanceRecurringMonth(cursor, 3, anchorDay);
    FactorStep(rate, cursor, anchorDay, to);
    FactorStep(rate, cursor, anchorDay, later);
    if After(next, later) {
      SimpleMonotone(rate, DaysBetween(cursor, to), DaysBetween(cursor, later));
    } else if After(next, to) {
      BrokenPeriod(rate, cursor, anchorDay, to);
      FactorAtLeastOne(rate, next, anchorDay, later);
      TimesMonotone(1.0 + rate / 4.0, 1.0, Factor(rate, next, anchorDay, later));
    } else {
      FactorMonotone(rate, next, anchorDay, to, later);
      TimesMonotone(1.0 + rate / 4.0, Factor(rate, next, anchorDay, to), Factor(rate, next, anchorDay, later));
    }
  }

  /** A deposit never loses value as the date advances and is never below its principal. */
  lemma {:induction false} CompoundMonotone(principal: real, annualRate: real, from: Date, to: Date, later: Date)
    requires !Before(later, to)
    ensures Compound(principal, annualRate, from, to) <= Compound(principal, annualRate, from, later)
    ensures principal <= Compound(principal, annualRate, from, to)
  {
    hide Times, Factor, DayNumber;
    assert OnAnchor(from, from.day);
    if principal > 0.0 && annualRate > 0.0 {
      FactorMonotone(annualRate, from, from.day, to, later);
      FactorAtLeastOne(annualRate, from, from.day, to);
      FactorAtLeastOne(annualRate, from, from.day, later);
      TimesMonotone(principal, 1.0, Factor(annualRate, from, from.day, to));
      TimesMonotone(principal, 1.0, Factor(annualRate, from, from.day, later));
      TimesMonotone(principal, Factor(annualRate, from, from.day, to), Factor(annualRate, from, from.day, later));
    }
  }

  // ----- a recurring deposit -----

  /** The months of one contribution cycle; anything else is monthly. */
  function CycleMonths(freq: string): int { if freq == "quarterly" then 3 else if freq == "yearly" then 12 else 1 }

  function AdvanceDebitDate(d: Date, freq: string, anchorDay: int): Date {
    AdvanceRecurringMonth(d, CycleMonths(freq), anchorDay)
  }

  lemma {:induction false} DebitIsLater(d: Date, freq: string, anchorDay: int)
    ensures Before(d, AdvanceDebitDate(d, freq, anchorDay))
    ensures d.month < AdvanceDebitDate(d, freq, anchorDay).month
  {
    StepIsLater(d, CycleMonths(freq), anchorDay);
  }

  function MinReal(a: real, b: real): real { if a < b then a else b }

  /** The value at `asOf` of `remaining`, paid in from `due` on in instalments of
      `cycle`; what no instalment date has reached yet counts at face value. */
  function Recurring(remaining: real, cycle: real, rate: real, due: Date, freq: string, anchorDay: int,
      asOf: Date): real
    decreases AtLeast0(DaysBetween(due, asOf) + 1)
  {
    if remaining > 0.0 && !After(due, asOf) then
      DebitIsLater(due, freq, anchorDay);
      var deposit := MinReal(cycle, remaining);
      Compound(deposit, rate, due, asOf) + Recurring(remaining - deposit, cycle, rate,
          AdvanceDebitDate(due, freq, anchorDay), freq, anchorDay, asOf)
    else remaining
  }

  lemma {:induction false} RecurringMonotone(remaining: real, cycle: real, rate: real, due: Date, freq: string,
      anchorDay: int, asOf: Date, later: Date)
    requires !Before(later, asOf)
    ensures Recurring(remaining, cycle, rate, due, freq, anchorDay, asOf)
        <= Recurring(remaining, cycle, rate, due, freq, anchorDay, later)
    ensures remaining <= Recurring(remaining, cycle, rate, due, freq, anchorDay, asOf)
    decreases AtLeast0(DaysBetween(due, later) + 1)
  {
    if remaining > 0.0 && !After(due, later) {
      DebitIsLater(due, freq, anchorDay);
      var deposit, next := MinReal(cycle, remaining), AdvanceDebitDate(due, freq, anchorDay);
      RecurringMonotone(remaining - deposit, cycle, rate, next, freq, anchorDay, asOf, later);
      RecurringMonotone(remaining - deposit, cycle, rate, next, freq, anchorDay, later, later);
      CompoundMonotone(deposit, rate, due, asOf, later);
      CompoundMonotone(deposit, rate, due, later, later);
    }
  }

  // ----- the effective value -----

  predicate Fixed(i: Investment) { i.kind == "rd" || i.kind == "fd" }

  function AsOf(i: Investment, now: Date): Date {
    if i.maturity.Some? && Before(i.maturity.value, now) then i.maturity.value else now
  }

  /** The value before rounding. */
  function Worth(i: Investment, now: Date): real {
    if !Fixed(i) then i.current
    else if i.invested <= 0.0 || i.expectedReturn <= 0.0 || i.start.None? then i.invested
    else
      var start, asOf, rate := i.start.value, AsOf(i, now), i.expectedReturn / 100.0;
      if !After(asOf, start) then i.invested
      else if i.kind == "fd" || i.cycle <= 0.0 then Compound(i.invested, rate, start, asOf)
      else Recurring(i.invested, i.cycle, rate, start, i.frequency, start.day, asOf)
  }

  method EffectiveInvestmentValue(i: Investment, now: Date) returns (amount: real)
    ensures amount == RoundMoney(Worth(i, now))
  {
    hide Compound, Recurring, DayNumber, DaysIn, RoundMoney;
    if i.kind != "rd" && i.kind != "fd" {
      return RoundMoney(i.current);
    }
    if i.invested <= 0.0 || i.expectedReturn <= 0.0 || i.start.None? {
      return RoundMoney(i.invested);
    }
    var start := i.start.value;
    var asOf := now;
    if i.maturity.Some? && Before(i.maturity.value, asOf) {
      asOf := i.maturity.value;
    }
    if !After(asOf, start) {
      return RoundMoney(i.invested);
    }
    var rate := i.expectedReturn / 100.0;
    if i.kind == "fd" || i.cycle <= 0.0 {
      var grown := CompoundDeposit(i.invested, rate, start, asOf);
      return RoundMoney(grown);
    }
    var total := RecurringDeposit(i.invested, i.cycle, rate, start, i.frequency, asOf);
    return RoundMoney(total);
  }

  /** The instalment loop. */
  method RecurringDeposit(invested: real, cycle: real, rate: real, start: Date, freq: string, asOf: Date)
      returns (total: real)
    requires cycle > 0.0
    ensures total == Recurring(invested, cycle, rate, start, freq, start.day, asOf)
  {
    hide Compound, DayNumber, DaysIn, AdvanceDebitDate;
    var remaining, value, due, anchorDay := invested, 0.0, start, start.day;
    while remaining > 0.0 && !After(due, asOf)
      invariant value + Recurring(remaining, cycle, rate, due, freq, anchorDay, asOf) ==
                Recurring(invested, cycle, rate, start, freq, anchorDay, asOf)
      decreases DaysBetween(due, asOf)
    {
      var deposit := MinReal(cycle, remaining);
      var grown := CompoundDeposit(deposit, rate, due, asOf);
      DebitIsLater(due, freq, anchorDay);
      value := value + grown;
      remaining := remaining - deposit;
      due := AdvanceDebitDate(due, freq, anchorDay);
    }
    return value + remaining;
  }

  /** For every investment the value never falls as the date advances, across
      quarter ends, new instalments and maturity, and a fixed or recurring
      deposit is never shown below what was invested. */
  lemma {:induction false} ValueNeverFalls(i: Investment, now: Date, later: Date)
    requires !Before(later, now)
    ensures RoundMoney(Worth(i, now)) <= RoundMoney(Worth(i, later))
    ensures Fixed(i) ==> RoundMoney(i.invested) <= RoundMoney(Worth(i, now))
  {
    WorthMonotone(i, now, later);
    RoundMoneyMonotone(Worth(i, now), Worth(i, later));
    if Fixed(i) { RoundMoneyMonotone(i.invested, Worth(i, now)); }
  }

  lemma {:induction false} WorthMonotone(i: Investment, now: Date, later: Date)
    requires !Before(later, now)
    ensures Worth(i, now) <= Worth(i, later)
    ensures Fixed(i) ==> i.invested <= Worth(i, now)
  {
    hide Compound, Recurring, DayNumber, DaysIn;
    if Fixed(i) && i.invested > 0.0 && i.expectedReturn > 0.0 && i.start.Some? {
      var start, rate := i.start.value, i.expectedReturn / 100.0;
      var a, b := AsOf(i, now), AsOf(i, later);
      assert !Before(b, a);
      CompoundMonotone(i.invested, rate, start, a, b);
      CompoundMonotone(i.invested, rate, start, b, b);
      RecurringMonotone(i.invested, i.cycle, rate, start, i.frequency, start.day, a, b);
      RecurringMonotone(i.invested, i.cycle, rate, start, i.frequency, start.day, b, b);
    }
  }

  // ----- the two kinds of deposit against each other -----

  lemma {:induction false} StepsKeepMonthOrder(a: Date, anchorA: int, b: Date, anchorB: int)
    requires a.month < b.month
    ensures AdvanceRecurringMonth(a, 3, anchorA).month < AdvanceRecurringMonth(b, 3, anchorB).month
    ensures Before(a, b) && Before(AdvanceRecurringMonth(a, 3, anchorA), AdvanceRecurringMonth(b, 3, anchorB))
  {
    EarlierMonth(a, b);
    EarlierMonth(AdvanceRecurringMonth(a, 3, anchorA), AdvanceRecurringMonth(b, 3, anchorB));
  }

  /** Starting a month or more later never pays more. */
  lemma {:induction false} LaterStartEarnsLess(rate: real, a: Date, anchorA: int, b: Date, anchorB: int, to: Date)
    requires rate >= 0.0 && OnAnchor(b, anchorB) && a.month < b.month && !After(b, to)
    ensures Factor(rate, b, anchorB, to) <= Factor(rate, a, anchorA, to)
    decreases AtLeast0(DaysBetween(b, to))
  {
    var nextA, nextB := AdvanceRecurringMonth(a, 3, anchorA), AdvanceRecurringMonth(b, 3, anchorB);
    hide Factor, Times, Simple, DayNumber, DaysIn, OnAnchor, AdvanceRecurringMonth;
    StepKeepsAnchor(b, 3, anchorB);
    FactorStep(rate, a, anchorA, to);
    FactorStep(rate, b, anchorB, to);
    StepsKeepMonthOrder(a, anchorA, b, anchorB);
    if After(nextA, to) {
      SimpleMonotone(rate, DaysBetween(b, to), DaysBetween(a, to));
    } else if After(nextB, to) {
      BrokenPeriod(rate, b, anchorB, to);
      FactorAtLeastOne(rate, nextA, anchorA, to);
      TimesMonotone(1.0 + rate / 4.0, 1.0, Factor(rate, nextA, anchorA, to));
    } else {
      LaterStartEarnsLess(rate, nextA, anchorA, nextB, anchorB, to);
      TimesMonotone(1.0 + rate / 4.0, Factor(rate, nextB, anchorB, to), Factor(rate, nextA, anchorA, to));
    }
  }

  /** One instalment is worth no more than the same money put in at the start. */
  lemma {:induction false} InstalmentBelowFixed(start: Date, deposit: real, rate: real, due: Date, asOf: Date)
    requires rate > 0.0 && deposit >= 0.0 && (due == start || start.month < due.month) && !After(due, asOf)
    ensures Compound(deposit, rate, due, asOf) <= Times(deposit, Factor(rate, start, start.day, asOf))
  {
    hide Times, DayNumber, Factor;
    assert OnAnchor(due, due.day);
    var f := Factor(rate, start, start.day, asOf);
    FactorAtLeastOne(rate, start, start.day, asOf);
    if due != start { LaterStartEarnsLess(rate, start, start.day, due, due.day, asOf); }
    TimesMonotone(deposit, Factor(rate, due, due.day, asOf), f);
    TimesMonotone(deposit, 1.0, f);
  }

  lemma {:induction false} RecurringBelowFixed(start: Date, remaining: real, cycle: real, rate: real, due: Date,
      freq: string, anchorDay: int, asOf: Date)
    requires rate > 0.0 && cycle > 0.0 && remaining >= 0.0 && (due == start || start.month < due.month)
    ensures Recurring(remaining, cycle, rate, due, freq, anchorDay, asOf)
        <= Times(remaining, Factor(rate, start, start.day, asOf))
    decreases AtLeast0(DaysBetween(due, asOf) + 1)
  {
    hide Times, DayNumber, DaysIn, Factor, Compound, AdvanceDebitDate;
    var f := Factor(rate, start, start.day, asOf);
    FactorAtLeastOne(rate, start, start.day, asOf);
    DebitIsLater(due, freq, anchorDay);
    if remaining > 0.0 && !After(due, asOf) {
      var deposit, next := MinReal(cycle, remaining), AdvanceDebitDate(due, freq, anchorDay);
      RecurringBelowFixed(start, remaining - deposit, cycle, rate, next, freq, anchorDay, asOf);
      InstalmentBelowFixed(start, deposit, rate, due, asOf);
      TimesLaws(remaining, deposit, f);
    } else {
      TimesMonotone(remaining, 1.0, f);
    }
  }

  /** The same money at the same rate from the same day is worth at least as much
      in a fixed deposit as in a recurring one, on every day. */
  lemma {:induction false} RecurringNeverBeatsFixed(i: Investment, now: Date)
    requires i.kind == "rd"
    ensures RoundMoney(Worth(i, now)) <= RoundMoney(Worth(i.(kind := "fd"), now))
  {
    hide Times, DaysBefore, DaysIn, Factor, Recurring, RoundMoney;
    if i.invested > 0.0 && i.expectedReturn > 0.0 && i.start.Some? && i.cycle > 0.0
        && After(AsOf(i, now), i.start.value) {
      var start := i.start.value;
      RecurringBelowFixed(start, i.invested, i.cycle, i.expectedReturn / 100.0, start, i.frequency, start.day,
          AsOf(i, now));
    }
    RoundMoneyMonotone(Worth(i, now), Worth(i.(kind := "fd"), now));
  }

  // ----- the values in figures -----

  function Power(base: real, n: nat): real { if n == 0 then 1.0 else Times(base, Power(base, n - 1)) }

  /** The end of the n-th quarter of a deposit: its start's day, clamped to the month. */
  function QuarterEnd(start: Date, n: nat): Date { Anchored(start.month + 3 * n, start.day) }

  lemma {:induction false} QuartersIncrease(start: Date, j: nat, k: nat)
    ensures j < k ==> Before(QuarterEnd(start, j), QuarterEnd(start, k))
    ensures QuarterEnd(start, 0) == start
    ensures AdvanceRecurringMonth(QuarterEnd(start, j), 3, start.day) == QuarterEnd(start, j + 1)
  {
    if j < k { EarlierMonth(QuarterEnd(start, j), QuarterEnd(start, k)); }
  }

  /** How many quarters are over. */
  lemma {:induction false} QuartersOver(start: Date, from: nat, now: Date) returns (n: nat)
    requires !Before(now, QuarterEnd(start, from))
    ensures n >= from && !Before(now, QuarterEnd(start, n)) && Before(now, QuarterEnd(start, n + 1))
    decreases AtLeast0(DaysBetween(QuarterEnd(start, from), now))
  {
    hide QuarterEnd, DaysBefore;
    QuartersIncrease(start, from, from + 1);
    if Before(now, QuarterEnd(start, from + 1)) { n := from; } else { n := QuartersOver(start, from + 1, now); }
  }

  lemma {:induction false} FactorIs(rate: real, start: Date, j: nat, n: nat, to: Date)
    requires j <= n && !Before(to, QuarterEnd(start, n)) && Before(to, QuarterEnd(start, n + 1))
    ensures Factor(rate, QuarterEnd(start, j), start.day, to)
            == Times(Power(1.0 + rate / 4.0, n - j), Simple(rate, DaysBetween(QuarterEnd(start, n), to)))
    decreases n - j
  {
    hide Factor, Times, Simple, QuarterEnd, DayNumber, AdvanceRecurringMonth;
    var rest := Simple(rate, DaysBetween(QuarterEnd(start, n), to));
    FactorStep(rate, QuarterEnd(start, j), start.day, to);
    QuartersIncrease(start, j, n);
    TimesLaws(1.0 + rate / 4.0, Power(1.0 + rate / 4.0, AtLeast0(n - j - 1)), rest);
    if j == n {
      TimesLaws(rest, 1.0, 1.0);
      assert Times(1.0, rest) == rest by { TimesSwap(1.0, rest); }
    } else {
      QuartersIncrease(start, j + 1, n);
      FactorIs(rate, start, j + 1, n, to);
    }
  }

  lemma {:induction false} TimesSwap(a: real, b: real)
    ensures Times(a, b) == Times(b, a)
  {
  }

  /** A fixed deposit that runs, or a recurring one without a cycle: for each quarter that
      is over it grows by a four hundredth of the yearly percentage, and for each day since
      by a 36500th, which is not compounded. */
  lemma {:induction false} FixedDepositValue(i: Investment, now: Date) returns (n: nat)
    requires (i.kind == "fd" || (i.kind == "rd" && i.cycle <= 0.0)) && i.invested > 0.0 && i.expectedReturn > 0.0
    requires i.start.Some? && !Before(now, i.start.value)
    requires i.maturity.Some? ==> !Before(i.maturity.value, now)
    ensures var quarter := QuarterEnd(i.start.value, n);
            && !Before(now, quarter) && Before(now, QuarterEnd(i.start.value, n + 1))
            && Worth(i, now) == i.invested * Power(1.0 + i.expectedReturn / 400.0, n)
                                * (1.0 + i.expectedReturn * (DayNumber(now) - DayNumber(quarter)) as real / 36500.0)
  {
    hide Factor, QuarterEnd, DayNumber, DaysIn, Power, Simple, Worth, Times;
    var start := i.start.value;
    QuartersIncrease(start, 0, 0);
    n := QuartersOver(start, 0, now);
    WorthIsFactor(i, now);
    FactorIs(i.expectedReturn / 100.0, start, 0, n, now);
    InFigures(i.invested, i.expectedReturn, Power(1.0 + i.expectedReturn / 400.0, n),
              DaysBetween(QuarterEnd(start, n), now));
  }

  lemma {:induction false} WorthIsFactor(i: Investment, now: Date)
    requires (i.kind == "fd" || (i.kind == "rd" && i.cycle <= 0.0)) && i.invested > 0.0 && i.expectedReturn > 0.0
    requires i.start.Some? && !Before(now, i.start.value)
    requires i.maturity.Some? ==> !Before(i.maturity.value, now)
    ensures var start := i.start.value;
            Worth(i, now) == Times(i.invested, Factor(i.expectedReturn / 100.0, start, start.day, now))
  {
    hide DaysBefore, Factor;
    var start, rate := i.start.value, i.expectedReturn / 100.0;
    if !After(now, start) {
      FactorStep(rate, start, start.day, now);
      TimesLaws(i.invested, 1.0, 1.0);
    }
  }

  lemma {:induction false} InFigures(invested: real, percent: real, power: real, days: int)
    requires days >= 0
    ensures Times(invested, Times(power, Simple(percent / 100.0, days)))
            == invested * power * (1.0 + percent * days as real / 36500.0)
    ensures 1.0 + percent / 100.0 / 4.0 == 1.0 + percent / 400.0
  {
    SimpleInFigures(percent, days);
    hide Simple;
    TimesLaws(invested, power, Simple(percent / 100.0, days));
  }

  lemma {:induction false} SimpleInFigures(percent: real, days: int)
    requires days >= 0
    ensures Simple(percent / 100.0, days) == 1.0 + percent * days as real / 36500.0
  {
  }

  /** Maturity: from then on the value stands still, and up to then it is the value the
      investment has without one. */
  lemma {:induction false} MaturityStops(i: Investment, now: Date)
    requires i.maturity.Some?
    ensures Before(i.maturity.value, now) ==> Worth(i, now) == Worth(i, i.maturity.value)
    ensures !Before(i.maturity.value, now) ==> Worth(i, now) == Worth(i.(maturity := None), now)
  {
    hide Compound, Recurring, DaysBefore;
  }

  /** What does not grow: anything that is no deposit is shown at its stored value, and a
      deposit without money, return or start, or that has not started, at what was invested. */
  lemma {:induction false} ValueWithoutGrowth(i: Investment, now: Date)
    ensures i.kind != "rd" && i.kind != "fd" ==> Worth(i, now) == i.current
    ensures var idle := i.invested <= 0.0 || i.expectedReturn <= 0.0 || i.start.None? || !Before(i.start.value, now)
                        || (i.maturity.Some? && !Before(i.start.value, i.maturity.value));
            (i.kind == "rd" || i.kind == "fd") && idle ==> Worth(i, now) == i.invested
  {
    hide Compound, Recurring, DaysBefore;
  }

  // ----- a recurring deposit as fixed ones -----

  /** The k-th due date of a deposit that starts on a date. */
  function DueDate(start: Date, frequency: string, k: nat): Date {
    Anchored(start.month + k * (if frequency == "quarterly" then 3 else if frequency == "yearly" then 12 else 1),
             start.day)
  }

  /** What is left to pay in before the k-th due date. */
  function Left(i: Investment, k: nat): real {
    var left := i.invested - Times(i.cycle, k as real);
    if left > 0.0 then left else 0.0
  }

  /** The k-th instalment as a fixed deposit of its own. */
  function Instalment(i: Investment, start: Date, k: nat): Investment {
    i.(kind := "fd", invested := if Left(i, k) < i.cycle then Left(i, k) else i.cycle,
       start := Some(DueDate(start, i.frequency, k)))
  }

  /** The worth of the instalments from the k-th to before the n-th. */
  function InstalmentsWorth(i: Investment, start: Date, now: Date, k: nat, n: nat): real
    decreases n - k
  {
    if k >= n then 0.0 else Worth(Instalment(i, start, k), now) + InstalmentsWorth(i, start, now, k + 1, n)
  }

  lemma {:induction false} LeftNext(i: Investment, k: nat)
    requires i.cycle > 0.0
    ensures Left(i, k + 1) == Left(i, k) - MinReal(i.cycle, Left(i, k))
    ensures k == 0 && i.invested > 0.0 ==> Left(i, k) == i.invested
  {
    assert (k + 1) as real == k as real + 1.0;
    assert Times(i.cycle, (k + 1) as real) == Times(i.cycle, k as real) + i.cycle;
  }

  lemma {:induction false} DueDates(start: Date, frequency: string, k: nat)
    ensures AdvanceDebitDate(DueDate(start, frequency, k), frequency, start.day) == DueDate(start, frequency, k + 1)
    ensures Before(DueDate(start, frequency, k), DueDate(start, frequency, k + 1))
    ensures DueDate(start, frequency, 0) == start
  {
    hide DaysIn;
    DebitIsLater(DueDate(start, frequency, k), frequency, start.day);
  }

  /** An instalment that is due grows like a deposit of its own. */
  lemma {:induction false} InstalmentGrows(i: Investment, start: Date, k: nat, now: Date)
    requires i.cycle > 0.0 && i.expectedReturn > 0.0 && Left(i, k) > 0.0
    requires !After(DueDate(start, i.frequency, k), AsOf(i, now))
    ensures Worth(Instalment(i, start, k), now)
            == Compound(MinReal(i.cycle, Left(i, k)), i.expectedReturn / 100.0, DueDate(start, i.frequency, k),
                        AsOf(i, now))
  {
    hide Factor, Left, DueDate, DaysBefore, Times;
  }

  /** The instalments that are due, and what is left. */
  lemma {:induction false} RecurringIs(i: Investment, start: Date, now: Date, k: nat) returns (n: nat)
    requires i.cycle > 0.0 && i.expectedReturn > 0.0
    ensures n >= k && forall j :: k <= j < n ==>
              Left(i, j) > 0.0 && !After(DueDate(start, i.frequency, j), AsOf(i, now))
    ensures Left(i, n) == 0.0 || After(DueDate(start, i.frequency, n), AsOf(i, now))
    ensures Recurring(Left(i, k), i.cycle, i.expectedReturn / 100.0, DueDate(start, i.frequency, k), i.frequency,
                      start.day, AsOf(i, now)) == InstalmentsWorth(i, start, now, k, n) + Left(i, n)
    decreases AtLeast0(DaysBetween(DueDate(start, i.frequency, k), AsOf(i, now)) + 1)
  {
    hide Compound, Worth, AsOf, DueDate, DaysBefore, Times, Instalment, AdvanceDebitDate;
    LeftNext(i, k);
    DueDates(start, i.frequency, k);
    if Left(i, k) > 0.0 && !After(DueDate(start, i.frequency, k), AsOf(i, now)) {
      InstalmentGrows(i, start, k, now);
      n := RecurringIs(i, start, now, k + 1);
    } else {
      n := k;
    }
  }

  /** A recurring deposit that runs is worth what its instalments up to now are worth as
      fixed deposits, each from its own due date, and what is not paid in yet. */
  lemma {:induction false} RecurringDepositValue(i: Investment, now: Date) returns (n: nat)
    requires i.kind == "rd" && i.invested > 0.0 && i.expectedReturn > 0.0 && i.cycle > 0.0
    requires i.start.Some? && Before(i.start.value, now)
    requires i.maturity.Some? ==> !Before(i.maturity.value, now)
    ensures var start := i.start.value;
            && (forall k :: 0 <= k < n ==> Left(i, k) > 0.0 && !After(DueDate(start, i.frequency, k), now))
            && (Left(i, n) == 0.0 || After(DueDate(start, i.frequency, n), now))
            && Worth(i, now) == InstalmentsWorth(i, start, now, 0, n) + Left(i, n)
  {
    hide Recurring, Compound, DueDate, DaysBefore, Times;
    var start := i.start.value;
    LeftNext(i, 0);
    DueDates(start, i.frequency, 0);
    n := RecurringIs(i, start, now, 0);
    assert AsOf(i, now) == now;
  }
}

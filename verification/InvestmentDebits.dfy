/**
 The investment auto-debit of internal/api/investments_cron.go: one contribution
 row per due date gates the transfer, and a run that fails or dies leaves the
 stored date alone, so the next run starts over.

 One investment is modelled; the sweep treats each on its own. The day a run
 takes for today, the cycle at which a post fails or the process dies, and
 whether the closing update reaches the database are inputs.
 */
module InvestmentDebits {
  import opened Options
  import opened Calendar
  import opened Deposits

  datatype Plan = Plan(amount: real, freq: string, anchorDay: int, maturity: Option<Date>, linked: bool)

  /** The rows a run may change. `contributions` is keyed by its UNIQUE due date;
      `transferred` is the money the transfer rows moved out of the account. */
  datatype Book = Book(
    autoDebit: bool, nextDebit: Option<Date>, contributions: map<Date, real>, transferred: real, invested: real)

  /** How a run goes wrong: `stops(k)` if the post of its k-th cycle fails or the
      process dies there; `written` if the closing update succeeds. */
  datatype Luck = Luck(stops: nat -> bool, written: bool)

  predicate Selected(plan: Plan, b: Book) {
    b.autoDebit && plan.linked && b.nextDebit.Some? && plan.amount > 0.0
  }

  predicate Matured(plan: Plan, d: Date) {
    plan.maturity.Some? && !Before(d, plan.maturity.value)
  }

  predicate Due(plan: Plan, d: Date, today: Date) {
    !After(d, today) && !Matured(plan, d)
  }

  function Next(plan: Plan, d: Date): Date { AdvanceDebitDate(d, plan.freq, plan.anchorDay) }

  lemma {:induction false} NextIsLater(plan: Plan, d: Date)
    ensures Before(d, Next(plan, d))
  {
    DebitIsLater(d, plan.freq, plan.anchorDay);
  }

  /** One contribution: the row first, then the transfer; nothing when the row is already there. */
  function Post(plan: Plan, b: Book, due: Date): Book {
    if due in b.contributions then b
    else b.(contributions := b.contributions[due := plan.amount], transferred := b.transferred + plan.amount,
        invested := b.invested + plan.amount)
  }

  function Close(plan: Plan, b: Book, due: Date): Book {
    if Matured(plan, due) then b.(autoDebit := false, nextDebit := None) else b.(nextDebit := Some(due))
  }

  /** The rest of a run, from its k-th cycle on. */
  function RunFrom(plan: Plan, b: Book, due: Date, today: Date, k: nat, luck: Luck): Book
    decreases AtLeast0(DaysBetween(due, today) + 1)
  {
    if Due(plan, due, today) then
      NextIsLater(plan, due);
      if luck.stops(k) then b else RunFrom(plan, Post(plan, b, due), Next(plan, due), today, k + 1, luck)
    else if luck.written then Close(plan, b, due)
    else b
  }

  function Run(plan: Plan, b: Book, today: Date, luck: Luck): Book {
    if Selected(plan, b) then RunFrom(plan, b, b.nextDebit.value, today, 0, luck) else b
  }

  const NO_FAULT := Luck(k => false, true)

  class Investment {
    const plan: Plan
    var autoDebit: bool
    var nextDebit: Option<Date>
    var contributions: map<Date, real>
    var transferred: real
    var invested: real

    constructor (plan: Plan, b: Book)
      ensures this.plan == plan && Rows() == b
    {
      this.plan := plan;
      autoDebit, nextDebit, contributions, transferred, invested := b.autoDebit, b.nextDebit, b.contributions,
          b.transferred, b.invested;
    }

    function Rows(): Book
      reads this
    {
      Book(autoDebit, nextDebit, contributions, transferred, invested)
    }

    /** One database transaction: all of it, or with `fails` none of it. */
    method PostInvestmentDebit(due: Date, fails: bool) returns (posted: bool, failed: bool)
      modifies this
      ensures failed == fails
      ensures posted == (!fails && due !in old(contributions))
      ensures Rows() == if fails then old(Rows()) else Post(plan, old(Rows()), due)
    {
      if fails {
        return false, true;
      }
      if due in contributions {
        return false, false;
      }
      contributions := contributions[due := plan.amount];
      transferred := transferred + plan.amount;
      invested := invested + plan.amount;
      return true, false;
    }

    /** One pass of the sweep over this investment. */
    method ProcessInvestmentDebits(today: Date, luck: Luck) returns (posted: nat)
      modifies this
      ensures Rows() == Run(plan, old(Rows()), today, luck)
    {
      hide DayNumber, DaysIn, Next;
      posted := 0;
      if !autoDebit || !plan.linked || nextDebit.None? || plan.amount <= 0.0 {
        return;
      }
      var due := nextDebit.value;
      var k := 0;
      while Due(plan, due, today)
        invariant RunFrom(plan, Rows(), due, today, k, luck) == Run(plan, old(Rows()), today, luck)
        decreases DaysBetween(due, today)
      {
        var ok, failed := PostInvestmentDebit(due, luck.stops(k));
        if failed {
          return;
        }
        if ok { posted := posted + 1; }
        NextIsLater(plan, due);
        due := Next(plan, due);
        k := k + 1;
      }
      if !luck.written {
        return;
      }
      if Matured(plan, due) {
        autoDebit, nextDebit := false, None;
        return;
      }
      nextDebit := Some(due);
    }
  }

  // ----- the schedule and what posting a prefix of it does -----

  function Scheduled(plan: Plan, first: Date, k: nat): Date {
    if k == 0 then first else Next(plan, Scheduled(plan, first, k - 1))
  }

  lemma {:induction false} ScheduledIncreases(plan: Plan, first: Date, j: nat, k: nat)
    requires j < k
    ensures Before(Scheduled(plan, first, j), Scheduled(plan, first, k))
  {
    hide DayNumber, DaysIn, Next;
    NextIsLater(plan, Scheduled(plan, first, k - 1));
    if j < k - 1 { ScheduledIncreases(plan, first, j, k - 1); }
  }

  /** The book after the first n schedule dates have been posted. */
  function Posted(plan: Plan, b: Book, first: Date, n: nat): Book {
    if n == 0 then b else Post(plan, Posted(plan, b, first, n - 1), Scheduled(plan, first, n - 1))
  }

  lemma {:induction false} PostedHas(plan: Plan, b: Book, first: Date, n: nat)
    ensures forall k :: 0 <= k < n ==> Scheduled(plan, first, k) in Posted(plan, b, first, n).contributions
    ensures Posted(plan, b, first, n).nextDebit == b.nextDebit && Posted(plan, b, first, n).autoDebit == b.autoDebit
  {
    hide DayNumber, DaysIn, Next;
    if n > 0 { PostedHas(plan, b, first, n - 1); }
  }

  /** How many schedule dates a run on `today` has to post. */
  function Cycles(plan: Plan, due: Date, today: Date): nat
    decreases AtLeast0(DaysBetween(due, today) + 1)
  {
    if Due(plan, due, today) then
      NextIsLater(plan, due);
      1 + Cycles(plan, Next(plan, due), today)
    else 0
  }

  lemma {:induction false} CyclesFrom(plan: Plan, first: Date, k: nat, today: Date)
    requires k <= Cycles(plan, first, today)
    ensures Cycles(plan, Scheduled(plan, first, k), today) == Cycles(plan, first, today) - k
    ensures Due(plan, Scheduled(plan, first, k), today) <==> k < Cycles(plan, first, today)
  {
    hide DayNumber, DaysIn, Next;
    if k > 0 { CyclesFrom(plan, first, k - 1, today); }
  }

  lemma {:induction false} FewerCyclesEarlier(plan: Plan, first: Date, k: nat, earlier: Date, today: Date)
    requires !Before(today, earlier) && k <= Cycles(plan, first, today)
    requires Due(plan, Scheduled(plan, first, k), earlier)
    ensures k < Cycles(plan, first, today)
  {
    hide DayNumber, DaysIn, Next;
    CyclesFrom(plan, first, k, today);
  }

  // ----- runs that fail, and the run that ends them -----

  /** The books runs before `today` can leave: the first m dates are posted, the
      stored date is the n-th, or auto-debit was switched off at maturity. */
  ghost predicate Resumable(plan: Plan, b0: Book, first: Date, today: Date, b: Book, n: nat, m: nat) {
    && n <= m <= Cycles(plan, first, today)
    && (b == Posted(plan, b0, first, m).(nextDebit := Some(Scheduled(plan, first, n)))
        || (n == m == Cycles(plan, first, today) && Matured(plan, Scheduled(plan, first, m))
            && b == Close(plan, Posted(plan, b0, first, m), Scheduled(plan, first, m))))
  }

  ghost predicate Reachable(plan: Plan, b0: Book, first: Date, today: Date, b: Book) {
    exists n, m :: Resumable(plan, b0, first, today, b, n, m)
  }

  function Max(a: nat, b: nat): nat { if a < b then b else a }

  /** Posting the i-th date again changes nothing; posting the next one extends the prefix. */
  lemma {:induction false} PostAgain(plan: Plan, b0: Book, first: Date, n: nat, m: nat, i: nat)
    requires n <= i <= m
    ensures Post(plan, Posted(plan, b0, first, m).(nextDebit := Some(Scheduled(plan, first, n))),
        Scheduled(plan, first, i)) ==
            Posted(plan, b0, first, Max(m, i + 1)).(nextDebit := Some(Scheduled(plan, first, n)))
  {
    hide DayNumber, DaysIn, Next;
    PostedHas(plan, b0, first, m);
  }

  lemma {:induction false} RunKeepsResumable(plan: Plan, b0: Book, first: Date, today: Date, n: nat, m: nat, i: nat,
      earlier: Date, k: nat, luck: Luck)
    requires b0.autoDebit && !Before(today, earlier)
    requires n <= i <= m <= Cycles(plan, first, today)
    ensures var b := Posted(plan, b0, first, m).(nextDebit := Some(Scheduled(plan, first, n)));
            Reachable(plan, b0, first, today, RunFrom(plan, b, Scheduled(plan, first, i), earlier, k, luck))
    decreases Cycles(plan, first, today) - i
  {
    hide DayNumber, DaysIn, Next, Post, Posted;
    var b, due := Posted(plan, b0, first, m).(nextDebit := Some(Scheduled(plan, first, n))), Scheduled(plan, first, i);
    var result := RunFrom(plan, b, due, earlier, k, luck);
    if Due(plan, due, earlier) && !luck.stops(k) {
      FewerCyclesEarlier(plan, first, i, earlier, today);
      PostAgain(plan, b0, first, n, m, i);
      RunKeepsResumable(plan, b0, first, today, n, Max(m, i + 1), i + 1, earlier, k + 1, luck);
    } else if Due(plan, due, earlier) || !luck.written {
      assert result == b;
      assert Resumable(plan, b0, first, today, result, n, m);
    } else if Matured(plan, due) {
      CyclesFrom(plan, first, i, today);
      assert i == m == Cycles(plan, first, today);
      assert Resumable(plan, b0, first, today, result, i, i);
    } else {
      assert Resumable(plan, b0, first, today, result, i, m);
    }
  }

  /** A run without faults from any resumable book ends in the one book a single run ends in. */
  lemma {:induction false} FullRunFinishes(plan: Plan, b0: Book, first: Date, today: Date, n: nat, m: nat, i: nat,
      k: nat)
    requires n <= i <= Cycles(plan, first, today) && m <= Cycles(plan, first, today) && n <= m
    ensures var b := Posted(plan, b0, first, Max(m, i)).(nextDebit := Some(Scheduled(plan, first, n)));
            RunFrom(plan, b, Scheduled(plan, first, i), today, k, NO_FAULT) == Final(plan, b0, first, today)
    decreases Cycles(plan, first, today) - i
  {
    hide DayNumber, DaysIn, Next, Post, Posted;
    CyclesFrom(plan, first, i, today);
    if i < Cycles(plan, first, today) {
      PostAgain(plan, b0, first, n, Max(m, i), i);
      FullRunFinishes(plan, b0, first, today, n, m, i + 1, k + 1);
    }
  }

  function Final(plan: Plan, b: Book, first: Date, today: Date): Book {
    var n := Cycles(plan, first, today);
    Close(plan, Posted(plan, b, first, n), Scheduled(plan, first, n))
  }

  lemma {:induction false} OneRun(plan: Plan, b: Book, today: Date)
    requires Selected(plan, b)
    ensures Run(plan, b, today, NO_FAULT) == Final(plan, b, b.nextDebit.value, today)
  {
    hide DayNumber, DaysIn, Next;
    FullRunFinishes(plan, b, b.nextDebit.value, today, 0, 0, 0, 0);
    assert b == Posted(plan, b, b.nextDebit.value, 0).(nextDebit := Some(Scheduled(plan, b.nextDebit.value, 0)));
  }

  datatype Attempt = Attempt(today: Date, luck: Luck)

  function RunAll(plan: Plan, b: Book, attempts: seq<Attempt>): Book
    decreases |attempts|
  {
    if attempts == [] then b else RunAll(plan, Run(plan, b, attempts[0].today, attempts[0].luck), attempts[1..])
  }

  lemma {:induction false} AttemptsKeepResumable(plan: Plan, b0: Book, b: Book, first: Date, today: Date,
      attempts: seq<Attempt>)
    requires Selected(plan, b0) && Reachable(plan, b0, first, today, b)
    requires forall a :: a in attempts ==> !Before(today, a.today)
    ensures Reachable(plan, b0, first, today, RunAll(plan, b, attempts))
    decreases |attempts|
  {
    hide DayNumber, DaysIn, Next;
    if attempts != [] {
      var a := attempts[0];
      var n, m :| Resumable(plan, b0, first, today, b, n, m);
      PostedHas(plan, b0, first, m);
      if Selected(plan, b) {
        RunKeepsResumable(plan, b0, first, today, n, m, n, a.today, 0, a.luck);
      }
      AttemptsKeepResumable(plan, b0, Run(plan, b, a.today, a.luck), first, today, attempts[1..]);
    }
  }

  /** Runs that fail or die at arbitrary cycles on arbitrary days up to today,
      ended by one run that does not, leave exactly what that one run alone leaves. */
  lemma {:induction false} FailedRunsDoNotMatter(plan: Plan, b: Book, attempts: seq<Attempt>, today: Date)
    requires forall a :: a in attempts ==> !Before(today, a.today)
    ensures Run(plan, RunAll(plan, b, attempts), today, NO_FAULT) == Run(plan, b, today, NO_FAULT)
  {
    hide RunFrom;
    if Selected(plan, b) { FailuresDoNotMatter(plan, b, attempts, today); } else { NothingRuns(plan, b, attempts); }
  }

  lemma {:induction false} NothingRuns(plan: Plan, b: Book, attempts: seq<Attempt>)
    requires !Selected(plan, b)
    ensures RunAll(plan, b, attempts) == b
    decreases |attempts|
  {
    if attempts != [] { NothingRuns(plan, b, attempts[1..]); }
  }

  lemma {:induction false} FailuresDoNotMatter(plan: Plan, b: Book, attempts: seq<Attempt>, today: Date)
    requires Selected(plan, b)
    requires forall a :: a in attempts ==> !Before(today, a.today)
    ensures Run(plan, RunAll(plan, b, attempts), today, NO_FAULT) == Run(plan, b, today, NO_FAULT)
  {
    hide DayNumber, DaysIn, Next;
    var first := b.nextDebit.value;
    assert Resumable(plan, b, first, today, b, 0, 0) by {
      assert b == Posted(plan, b, first, 0).(nextDebit := Some(Scheduled(plan, first, 0)));
    }
    AttemptsKeepResumable(plan, b, b, first, today, attempts);
    var b' := RunAll(plan, b, attempts);
    var n, m :| Resumable(plan, b, first, today, b', n, m);
    OneRun(plan, b, today);
    PostedHas(plan, b, first, m);
    if Selected(plan, b') {
      FullRunFinishes(plan, b, first, today, n, m, n, 0);
    }
  }

  // ----- what the final book holds -----

  ghost predicate NewDates(plan: Plan, first: Date, n: nat, b: Book) {
    forall k :: 0 <= k < n ==> Scheduled(plan, first, k) !in b.contributions
  }

  /** One of the first n schedule dates. */
  ghost predicate AmongFirst(plan: Plan, first: Date, n: nat, d: Date) {
    exists k :: 0 <= k < n && d == Scheduled(plan, first, k)
  }

  lemma {:induction false} AmongOneMore(plan: Plan, first: Date, n: nat, d: Date)
    ensures !AmongFirst(plan, first, 0, d)
    ensures AmongFirst(plan, first, n + 1, d) <==> AmongFirst(plan, first, n, d) || d == Scheduled(plan, first, n)
  {
    if AmongFirst(plan, first, n, d) {
      var k :| 0 <= k < n && d == Scheduled(plan, first, k);
      assert 0 <= k < n + 1;
    }
    if d == Scheduled(plan, first, n) { assert 0 <= n < n + 1; }
  }

  /** Posting the first n dates adds exactly those that were missing, at the plan's amount. */
  lemma {:induction false} PostedContents(plan: Plan, b: Book, first: Date, n: nat)
    ensures var p := Posted(plan, b, first, n);
            && (forall d :: d in p.contributions <==> d in b.contributions || AmongFirst(plan, first, n, d))
            && (forall d :: d in p.contributions ==>
                p.contributions[d] == if d in b.contributions then b.contributions[d] else plan.amount)
            && p.transferred - b.transferred == p.invested - b.invested
  {
    hide DayNumber, DaysIn, Next, AmongFirst;
    if n > 0 {
      PostedContents(plan, b, first, n - 1);
      forall d ensures AmongFirst(plan, first, n, d)
          <==> AmongFirst(plan, first, n - 1, d) || d == Scheduled(plan, first, n - 1) {
        AmongOneMore(plan, first, n - 1, d);
      }
    } else {
      forall d ensures !AmongFirst(plan, first, 0, d) { AmongOneMore(plan, first, 0, d); }
    }
  }

  lemma {:induction false} NextIsMissing(plan: Plan, b: Book, first: Date, n: nat)
    requires NewDates(plan, first, n + 1, b)
    ensures Scheduled(plan, first, n) !in Posted(plan, b, first, n).contributions
  {
    hide DayNumber, DaysIn, Next, Posted;
    PostedContents(plan, b, first, n);
    var last := Scheduled(plan, first, n);
    if AmongFirst(plan, first, n, last) {
      var k :| 0 <= k < n && last == Scheduled(plan, first, k);
      ScheduledIncreases(plan, first, k, n);
    }
  }

  /** When none of them was there, n contributions moved n times the amount. */
  lemma {:induction false} PostedTotal(plan: Plan, b: Book, first: Date, n: nat)
    requires NewDates(plan, first, n, b)
    ensures Posted(plan, b, first, n).transferred == b.transferred + Times(plan.amount, n as real)
  {
    hide DayNumber, DaysIn, Next, Times, Scheduled, Posted;
    if n > 0 {
      PostedTotal(plan, b, first, n - 1);
      NextIsMissing(plan, b, first, n - 1);
      PostedOne(plan, b, first, n);
      TimesNext(plan.amount, n - 1);
    } else {
      PostedOne(plan, b, first, 0);
      TimesNext(plan.amount, 0);
    }
  }

  lemma {:induction false} PostedOne(plan: Plan, b: Book, first: Date, n: nat)
    ensures n == 0 ==> Posted(plan, b, first, n) == b
    ensures n > 0 && Scheduled(plan, first, n - 1) !in Posted(plan, b, first, n - 1).contributions ==>
              Posted(plan, b, first, n).transferred == Posted(plan, b, first, n - 1).transferred + plan.amount
  {
    hide Scheduled;
  }

  lemma {:induction false} TimesNext(a: real, n: nat)
    ensures Times(a, 0.0) == 0.0 && Times(a, n as real) + a == Times(a, (n + 1) as real)
  {
    assert (n + 1) as real == n as real + 1.0;
  }

  /** After a run without faults: every schedule date up to today and before
      maturity has its one contribution, no other date was added, the money moved
      is the amount times the number of new contributions, and the stored date is
      the first one after today, or auto-debit is off because it has matured. */
  lemma {:induction false} FinalBook(plan: Plan, b: Book, today: Date)
    requires Selected(plan, b)
    ensures var first := b.nextDebit.value;
            var n := Cycles(plan, first, today);
            var next, f := Scheduled(plan, first, n), Run(plan, b, today, NO_FAULT);
            && (forall k :: 0 <= k < n ==>
                  && !After(Scheduled(plan, first, k), today)
                  && (plan.maturity.Some? ==> Before(Scheduled(plan, first, k), plan.maturity.value)))
            && (forall d :: d in f.contributions <==> d in b.contributions || AmongFirst(plan, first, n, d))
            && (forall d :: d in f.contributions ==>
                f.contributions[d] == if d in b.contributions then b.contributions[d] else plan.amount)
            && (NewDates(plan, first, n, b) ==> f.transferred == b.transferred + Times(plan.amount, n as real))
            && f.invested - b.invested == f.transferred - b.transferred
            && (if f.autoDebit then
                  && f.nextDebit == Some(next) && After(next, today)
                  && (plan.maturity.Some? ==> Before(next, plan.maturity.value))
                else f.nextDebit == None && plan.maturity.Some? && !Before(next, plan.maturity.value))
  {
    hide DayNumber, DaysIn, Next, Posted, NewDates, RunFrom;
    var first := b.nextDebit.value;
    var n := Cycles(plan, first, today);
    OneRun(plan, b, today);
    PostedContents(plan, b, first, n);
    if NewDates(plan, first, n, b) { PostedTotal(plan, b, first, n); }
    PostedHas(plan, b, first, n);
    CyclesFrom(plan, first, n, today);
    forall k | 0 <= k < n ensures Due(plan, Scheduled(plan, first, k), today) { CyclesFrom(plan, first, k, today); }
  }

  /** The schedule in dates: the anchor day, clamped, in every third, twelfth or single month. */
  lemma {:induction false} ScheduleDates(plan: Plan, first: Date, k: nat)
    requires 1 <= plan.anchorDay <= 31 && k > 0
    ensures var months := if plan.freq == "quarterly" then 3 else if plan.freq == "yearly" then 12 else 1;
            Scheduled(plan, first, k) == Anchored(first.month + k * months, plan.anchorDay)
  {
    hide DayNumber, DaysIn;
    if k > 1 {
      ScheduleDates(plan, first, k - 1);
    } else {
      assert Scheduled(plan, first, 0) == first;
    }
  }

  /** A schedule date up to today and before the maturity date, which is not debited itself. */
  ghost predicate Debited(plan: Plan, first: Date, today: Date, d: Date) {
    exists k: nat :: d == Scheduled(plan, first, k) && !After(d, today)
                     && (plan.maturity.Some? ==> Before(d, plan.maturity.value))
  }

  /** Which dates a run without faults debits, and when there is nothing to run. */
  lemma {:induction false} DebitedIff(plan: Plan, b: Book, today: Date)
    ensures b.autoDebit && plan.linked && plan.amount > 0.0 && b.nextDebit.Some? ==>
              forall d :: d in Run(plan, b, today, NO_FAULT).contributions
                <==> d in b.contributions || Debited(plan, b.nextDebit.value, today, d)
    ensures !b.autoDebit || !plan.linked || plan.amount <= 0.0 || b.nextDebit.None? ==>
              forall luck :: Run(plan, b, today, luck) == b
  {
    hide DayNumber, DaysIn, Next, RunFrom, Scheduled, AmongFirst, Debited;
    if Selected(plan, b) {
      FinalBook(plan, b, today);
      var first := b.nextDebit.value;
      forall d ensures AmongFirst(plan, first, Cycles(plan, first, today), d) <==> Debited(plan, first, today, d) {
        AmongDebited(plan, first, today, d);
      }
    }
  }

  lemma {:induction false} AmongDebited(plan: Plan, first: Date, today: Date, d: Date)
    ensures AmongFirst(plan, first, Cycles(plan, first, today), d) <==> Debited(plan, first, today, d)
  {
    hide DayNumber, DaysIn, Next, Scheduled, Cycles;
    var n := Cycles(plan, first, today);
    CyclesFrom(plan, first, n, today);
    if AmongFirst(plan, first, n, d) {
      var k :| 0 <= k < n && d == Scheduled(plan, first, k);
      CyclesFrom(plan, first, k, today);
    }
    if Debited(plan, first, today, d) {
      var k: nat :| d == Scheduled(plan, first, k) && !After(d, today)
                    && (plan.maturity.Some? ==> Before(d, plan.maturity.value));
      if n < k { ScheduledIncreases(plan, first, n, k); }
      assert k < n;
    }
  }
}

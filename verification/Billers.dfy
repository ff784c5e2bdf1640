/**
 Recurring bills of internal/api/billers.go: a payment row per due date gates the
 posted expense, and the stored due date is rolled forward by a separate write.

 One biller with a stored anchor day and a schedule nobody edits is modelled.
 Cron passes, manual payments and attachments run side by side; every database
 transaction is one step, and a worker may die or fail between any two steps.
 */
module Billers {
  import opened Calendar
  import opened Deposits

  /** `posts` if the biller renews itself from a linked account, `linked` if it has an account at all. */
  datatype Plan = Plan(first: Date, freq: string, anchorDay: int, renews: bool, linked: bool)

  /** AddDate(0, 0, n) for at most four weeks. */
  function AddDays(d: Date, n: nat): (r: Date)
    requires n <= 28
    ensures DayNumber(r) == DayNumber(d) + n
  {
    MonthLength(d.month);
    if d.day + n <= DaysIn(d.month) then RawDate(d.month, d.day + n)
        else RawDate(d.month + 1, d.day + n - DaysIn(d.month))
  }

  function AdvanceDueDate(d: Date, freq: string, anchorDay: int): Date {
    if freq == "weekly" then AddDays(d, 7)
    else if freq == "fortnightly" then AddDays(d, 14)
    else if freq == "bimonthly" then AdvanceRecurringMonth(d, 2, anchorDay)
    else if freq == "quarterly" then AdvanceRecurringMonth(d, 3, anchorDay)
    else AdvanceRecurringMonth(d, 1, anchorDay)
  }

  function Next(plan: Plan, d: Date): Date { AdvanceDueDate(d, plan.freq, plan.anchorDay) }

  lemma {:induction false} NextIsLater(plan: Plan, d: Date)
    ensures Before(d, Next(plan, d))
  {
    StepIsLater(d, 1, plan.anchorDay);
    StepIsLater(d, 2, plan.anchorDay);
    StepIsLater(d, 3, plan.anchorDay);
  }

  function Scheduled(plan: Plan, k: nat): Date {
    if k == 0 then plan.first else Next(plan, Scheduled(plan, k - 1))
  }

  lemma {:induction false} ScheduledIncreases(plan: Plan, j: nat, k: nat)
    requires j < k
    ensures Before(Scheduled(plan, j), Scheduled(plan, k))
  {
    hide DayNumber, DaysIn, Next;
    NextIsLater(plan, Scheduled(plan, k - 1));
    if j < k - 1 { ScheduledIncreases(plan, j, k - 1); }
  }

  /** The schedule in dates: every 7 or 14 days, or the anchor day, clamped, in every
      second, every third or every month. */
  lemma {:induction false} ScheduleDates(plan: Plan, k: nat)
    requires 1 <= plan.anchorDay <= 31 && k > 0
    ensures plan.freq == "weekly" ==> DayNumber(Scheduled(plan, k)) == DayNumber(plan.first) + 7 * k
    ensures plan.freq == "fortnightly" ==> DayNumber(Scheduled(plan, k)) == DayNumber(plan.first) + 14 * k
    ensures plan.freq != "weekly" && plan.freq != "fortnightly" ==>
              var months := if plan.freq == "bimonthly" then 2 else if plan.freq == "quarterly" then 3 else 1;
              Scheduled(plan, k) == Anchored(plan.first.month + k * months, plan.anchorDay)
  {
    hide DayNumber, DaysIn;
    if k > 1 {
      ScheduleDates(plan, k - 1);
    } else {
      assert Scheduled(plan, 0) == plan.first;
    }
  }

  // ----- the tables -----

  /** A recorded payment posts an expense; an attached one points at transactions that exist. */
  datatype Payment = Recorded(due: Date) | Attached(due: Date)

  datatype Tables = Tables(payments: seq<Payment>, expenses: seq<Date>, nextDue: Date)

  predicate IsPaid(t: Tables, due: Date) {
    exists i :: 0 <= i < |t.payments| && t.payments[i].due == due
  }

  /** `postBillerTxn`, one transaction: the payment row first; a conflict ends it. */
  function PostTxn(t: Tables, due: Date): Tables {
    if IsPaid(t, due) then t else t.(payments := t.payments + [Recorded(due)], expenses := t.expenses + [due])
  }

  /** `attachBillerTxns`: the payment row and links to the given transactions, no expense. */
  function AttachTxn(t: Tables, due: Date): Tables {
    if IsPaid(t, due) then t else t.(payments := t.payments + [Attached(due)])
  }

  function RecordedDues(payments: seq<Payment>): seq<Date> {
    if payments == [] then []
    else
      var last := payments[|payments| - 1];
      RecordedDues(payments[..|payments| - 1]) + if last.Recorded? then [last.due] else []
  }

  /** At most one payment per due date, and exactly one expense per recorded payment. */
  ghost predicate Gated(t: Tables) {
    && (forall i, j :: 0 <= i < j < |t.payments| ==> t.payments[i].due != t.payments[j].due)
    && t.expenses == RecordedDues(t.payments)
  }

  lemma {:induction false} PostKeepsGated(t: Tables, due: Date)
    requires Gated(t)
    ensures Gated(PostTxn(t, due)) && Gated(AttachTxn(t, due))
    ensures IsPaid(PostTxn(t, due), due) && IsPaid(AttachTxn(t, due), due)
    ensures forall d :: IsPaid(t, d) ==> IsPaid(PostTxn(t, due), d) && IsPaid(AttachTxn(t, due), d)
  {
    if !IsPaid(t, due) {
      var n := |t.payments|;
      var p, a := PostTxn(t, due), AttachTxn(t, due);
      assert p.payments[..n] == t.payments && a.payments[..n] == t.payments;
      assert p.payments[n].due == due && a.payments[n].due == due;
      forall d | IsPaid(t, d) ensures IsPaid(p, d) && IsPaid(a, d) {
        var i :| 0 <= i < n && t.payments[i].due == d;
        assert p.payments[i].due == d && a.payments[i].due == d;
      }
    }
  }

  lemma {:induction false} ExpenseHasPayment(payments: seq<Payment>, k: nat)
    requires k < |RecordedDues(payments)|
    ensures exists i :: 0 <= i < |payments| && payments[i] == Recorded(RecordedDues(payments)[k])
  {
    var n := |payments| - 1;
    if k < |RecordedDues(payments[..n])| {
      ExpenseHasPayment(payments[..n], k);
      var i :| 0 <= i < n && payments[..n][i] == Recorded(RecordedDues(payments[..n])[k]);
      assert payments[i] == Recorded(RecordedDues(payments)[k]);
    } else {
      assert payments[n] == Recorded(RecordedDues(payments)[k]);
    }
  }

  /** So no due date is charged twice. */
  lemma {:induction false} NoDoubleExpense(payments: seq<Payment>, j: nat, k: nat)
    requires forall i, l :: 0 <= i < l < |payments| ==> payments[i].due != payments[l].due
    requires j < k < |RecordedDues(payments)|
    ensures RecordedDues(payments)[j] != RecordedDues(payments)[k]
  {
    var n := |payments| - 1;
    var front := RecordedDues(payments[..n]);
    if k < |front| {
      NoDoubleExpense(payments[..n], j, k);
    } else {
      ExpenseHasPayment(payments[..n], j);
      var i :| 0 <= i < n && payments[..n][i] == Recorded(front[j]);
      assert payments[i].due == front[j] && payments[n].due == RecordedDues(payments)[k];
    }
  }

  // ----- the handlers, run without interruption -----

  class Biller {
    const plan: Plan
    var payments: seq<Payment>
    var expenses: seq<Date>
    var nextDue: Date

    constructor (plan: Plan)
      ensures this.plan == plan && Rows() == Tables([], [], plan.first)
    {
      this.plan, payments, expenses, nextDue := plan, [], [], plan.first;
    }

    function Rows(): Tables
      reads this
    {
      Tables(payments, expenses, nextDue)
    }

    method PostBillerTxn(due: Date) returns (alreadyPaid: bool)
      modifies this`payments, this`expenses
      ensures alreadyPaid == IsPaid(old(Rows()), due)
      ensures Rows() == PostTxn(old(Rows()), due)
    {
      if IsPaid(Rows(), due) {
        return true;
      }
      payments := payments + [Recorded(due)];
      expenses := expenses + [due];
      return false;
    }

    method AttachBillerTxns(due: Date) returns (alreadyPaid: bool)
      modifies this`payments
      ensures alreadyPaid == IsPaid(old(Rows()), due)
      ensures Rows() == AttachTxn(old(Rows()), due)
    {
      if IsPaid(Rows(), due) {
        return true;
      }
      payments := payments + [Attached(due)];
      return false;
    }

    /** Records or attaches the current cycle, then rolls the due date whether or not it was paid before.
        `found`: the transactions to attach all exist and belong to the user. */
    method PayBiller(attach: bool, found: bool) returns (refused: bool)
      modifies this
      ensures refused == if attach then !found else !plan.linked
      ensures var t := old(Rows());
              var after := if attach then AttachTxn(t, t.nextDue) else PostTxn(t, t.nextDue);
              Rows() == if refused then t else after.(nextDue := Next(plan, t.nextDue))
    {
      var due := nextDue;
      var paid;
      if attach {
        if !found {
          return true;
        }
        paid := AttachBillerTxns(due);
      } else {
        if !plan.linked {
          return true;
        }
        paid := PostBillerTxn(due);
      }
      nextDue := Next(plan, due);
      return false;
    }

    /** One cron pass: every cycle due by today is posted or skipped, then the date is written. */
    method ProcessBillerCron(today: Date) returns (autoPosted: nat)
      modifies this
      ensures Rows() == if plan.renews && plan.linked then Sweep(plan, old(Rows()), old(nextDue), today)
          else old(Rows())
    {
      autoPosted := 0;
      if !plan.renews || !plan.linked {
        return;
      }
      var due := nextDue;
      while !After(due, today)
        invariant Sweep(plan, Rows(), due, today) == Sweep(plan, old(Rows()), old(nextDue), today)
        decreases DaysBetween(due, today)
      {
        var alreadyPaid := PostBillerTxn(due);
        if !alreadyPaid { autoPosted := autoPosted + 1; }
        NextIsLater(plan, due);
        due := Next(plan, due);
      }
      nextDue := due;
    }
  }

  function Sweep(plan: Plan, t: Tables, due: Date, today: Date): Tables
    decreases AtLeast0(DaysBetween(due, today) + 1)
  {
    if After(due, today) then t.(nextDue := due)
    else
      NextIsLater(plan, due);
      Sweep(plan, PostTxn(t, due), Next(plan, due), today)
  }

  // ----- handlers side by side -----

  /** Where a worker is: what it read or rolled to, and what it does next. */
  datatype Phase =
    | Sweeping(due: Date, today: Date) // cron: posts `due`, or writes it once it is after today
    | Paying(due: Date)                // manual: read the due date, has not posted yet
    | Rolling(due: Date)               // manual: the cycle is recorded, the new date is not written yet

  datatype Action =
    | StartSweep(worker: nat, today: Date)
    | SweepPost(worker: nat)
    | SweepWrite(worker: nat)
    | StartPay(worker: nat)
    | Post(worker: nat)
    | Attach(worker: nat)
    | Roll(worker: nat)
    | Die(worker: nat)

  datatype State = State(tables: Tables, workers: map<nat, Phase>)

  function Gone(workers: map<nat, Phase>, w: nat): map<nat, Phase> { workers - {w} }

  /** One step; an action that is not enabled does nothing. */
  function Do(plan: Plan, s: State, a: Action): State {
    var t, ws, w := s.tables, s.workers, a.worker;
    match a
    case StartSweep(_, today) =>
      if w !in ws && plan.renews && plan.linked then s.(workers := ws[w := Sweeping(t.nextDue, today)]) else s
    case SweepPost(_) =>
      if w in ws && ws[w].Sweeping? && !After(ws[w].due, ws[w].today) then
        State(PostTxn(t, ws[w].due), ws[w := Sweeping(Next(plan, ws[w].due), ws[w].today)])
      else s
    case SweepWrite(_) =>
      if w in ws && ws[w].Sweeping? && After(ws[w].due, ws[w].today) then
        State(t.(nextDue := ws[w].due), Gone(ws, w))
      else s
    case StartPay(_) =>
      if w !in ws then s.(workers := ws[w := Paying(t.nextDue)]) else s
    case Post(_) =>
      if w in ws && ws[w].Paying? && plan.linked then State(PostTxn(t, ws[w].due), ws[w := Rolling(ws[w].due)]) else s
    case Attach(_) =>
      if w in ws && ws[w].Paying? then State(AttachTxn(t, ws[w].due), ws[w := Rolling(ws[w].due)]) else s
    case Roll(_) =>
      if w in ws && ws[w].Rolling? then State(t.(nextDue := Next(plan, ws[w].due)), Gone(ws, w)) else s
    case Die(_) => s.(workers := Gone(ws, w))
  }

  function DoAll(plan: Plan, s: State, actions: seq<Action>): State
    decreases |actions|
  {
    if actions == [] then s else DoAll(plan, Do(plan, s, actions[0]), actions[1..])
  }

  function Initial(plan: Plan): State { State(Tables([], [], plan.first), map[]) }

  /** A schedule date with every schedule date before it paid. */
  ghost predicate Covered(plan: Plan, t: Tables, due: Date) {
    exists k: nat :: due == Scheduled(plan, k) && AllPaid(plan, t, k)
  }

  ghost predicate AllPaid(plan: Plan, t: Tables, k: nat) {
    forall j :: 0 <= j < k ==> IsPaid(t, Scheduled(plan, j))
  }

  ghost predicate WorkerOk(plan: Plan, t: Tables, p: Phase) {
    Covered(plan, t, p.due) && (p.Rolling? ==> IsPaid(t, p.due))
  }

  ghost predicate Invariant(plan: Plan, s: State) {
    && Gated(s.tables)
    && Covered(plan, s.tables, s.tables.nextDue)
    && forall w :: w in s.workers ==> WorkerOk(plan, s.tables, s.workers[w])
  }

  ghost predicate PaysMore(t: Tables, t': Tables) { forall d :: IsPaid(t, d) ==> IsPaid(t', d) }

  lemma {:induction false} CoveredStays(plan: Plan, t: Tables, t': Tables, due: Date)
    requires Covered(plan, t, due) && PaysMore(t, t')
    ensures Covered(plan, t', due)
  {
    hide IsPaid, Scheduled;
    var k: nat :| due == Scheduled(plan, k) && AllPaid(plan, t, k);
    assert AllPaid(plan, t', k);
  }

  lemma {:induction false} CoveredNext(plan: Plan, t: Tables, due: Date)
    requires Covered(plan, t, due) && IsPaid(t, due)
    ensures Covered(plan, t, Next(plan, due))
  {
    hide IsPaid, Next;
    var k: nat :| due == Scheduled(plan, k) && AllPaid(plan, t, k);
    assert AllPaid(plan, t, k + 1) && Next(plan, due) == Scheduled(plan, k + 1);
  }

  /** The tables moved on, one worker changed its phase or left, the rest stayed. */
  lemma {:induction false} InvariantMoves(plan: Plan, s: State, s': State, w: nat)
    requires Invariant(plan, s) && Gated(s'.tables) && PaysMore(s.tables, s'.tables)
    requires Covered(plan, s'.tables, s'.tables.nextDue)
    requires forall v :: v in s'.workers && v != w ==> v in s.workers && s'.workers[v] == s.workers[v]
    requires w in s'.workers ==> WorkerOk(plan, s'.tables, s'.workers[w])
    ensures Invariant(plan, s')
  {
    hide Gated, Covered, IsPaid, PaysMore;
    forall v | v in s'.workers ensures WorkerOk(plan, s'.tables, s'.workers[v]) {
      if v != w { StillOk(plan, s.tables, s'.tables, s.workers[v]); }
    }
  }

  lemma {:induction false} StillOk(plan: Plan, t: Tables, t': Tables, p: Phase)
    requires WorkerOk(plan, t, p) && PaysMore(t, t')
    ensures WorkerOk(plan, t', p)
  {
    CoveredStays(plan, t, t', p.due);
  }

  lemma {:induction false} PaidIgnoresDue(t: Tables, due: Date)
    ensures PaysMore(t, t.(nextDue := due)) && PaysMore(t.(nextDue := due), t)
        && (Gated(t.(nextDue := due)) <==> Gated(t))
  {
    var t' := t.(nextDue := due);
    forall d ensures IsPaid(t, d) <==> IsPaid(t', d) { assert t.payments == t'.payments; }
  }

  /** Posting or attaching a covered cycle and moving the worker on. */
  lemma {:induction false} PayStep(plan: Plan, s: State, t': Tables, w: nat, phase: Phase)
    requires Invariant(plan, s) && w in s.workers
    requires t' == PostTxn(s.tables, s.workers[w].due) || t' == AttachTxn(s.tables, s.workers[w].due)
    requires phase == Rolling(s.workers[w].due) || (phase.Sweeping? && phase.due == Next(plan, s.workers[w].due))
    ensures Invariant(plan, State(t', s.workers[w := phase]))
  {
    hide Covered, Gated, Next, IsPaid;
    var due := s.workers[w].due;
    PostKeepsGated(s.tables, due);
    assert PaysMore(s.tables, t') && WorkerOk(plan, s.tables, s.workers[w]);
    CoveredStays(plan, s.tables, t', due);
    CoveredStays(plan, s.tables, t', t'.nextDue);
    CoveredNext(plan, t', due);
    InvariantMoves(plan, s, State(t', s.workers[w := phase]), w);
  }

  /** Writing a covered date and leaving. */
  lemma {:induction false} WriteStep(plan: Plan, s: State, w: nat, due: Date)
    requires Invariant(plan, s) && Covered(plan, s.tables, due)
    ensures Invariant(plan, State(s.tables.(nextDue := due), Gone(s.workers, w)))
  {
    hide Covered, Gated, IsPaid, PaysMore;
    var t' := s.tables.(nextDue := due);
    PaidIgnoresDue(s.tables, due);
    CoveredStays(plan, s.tables, t', due);
    InvariantMoves(plan, s, State(t', Gone(s.workers, w)), w);
  }

  lemma {:induction false} StepKeepsInvariant(plan: Plan, s: State, a: Action)
    requires Invariant(plan, s)
    ensures Invariant(plan, Do(plan, s, a))
  {
    hide Covered, Gated, PostTxn, AttachTxn, IsPaid, Next, DayNumber;
    var w, s' := a.worker, Do(plan, s, a);
    if s' != s {
      match a
      case StartSweep(_, _) =>
      case StartPay(_) =>
      case SweepPost(_) => PayStep(plan, s, s'.tables, w, s'.workers[w]);
      case Post(_) => PayStep(plan, s, s'.tables, w, s'.workers[w]);
      case Attach(_) => PayStep(plan, s, s'.tables, w, s'.workers[w]);
      case SweepWrite(_) =>
        assert WorkerOk(plan, s.tables, s.workers[w]);
        WriteStep(plan, s, w, s.workers[w].due);
      case Roll(_) =>
        assert WorkerOk(plan, s.tables, s.workers[w]);
        CoveredNext(plan, s.tables, s.workers[w].due);
        WriteStep(plan, s, w, Next(plan, s.workers[w].due));
      case Die(_) =>
    }
  }

  lemma {:induction false} RunKeepsInvariant(plan: Plan, s: State, actions: seq<Action>)
    requires Invariant(plan, s)
    ensures Invariant(plan, DoAll(plan, s, actions))
    decreases |actions|
  {
    hide Invariant, Do;
    if actions != [] {
      StepKeepsInvariant(plan, s, actions[0]);
      RunKeepsInvariant(plan, Do(plan, s, actions[0]), actions[1..]);
    }
  }

  /** Whatever the interleaving: no due date is paid or charged twice, every
      recorded payment has its expense, and every schedule date before the stored
      due date is paid, even after a stale write moved that date back. */
  lemma {:induction false} EveryRunIsSafe(plan: Plan, actions: seq<Action>)
    ensures var t := DoAll(plan, Initial(plan), actions).tables;
            && (forall i, j :: 0 <= i < j < |t.payments| ==> t.payments[i].due != t.payments[j].due)
            && t.expenses == RecordedDues(t.payments)
            && (forall j, k :: 0 <= j < k < |t.expenses| ==> t.expenses[j] != t.expenses[k])
            && (forall k: nat :: Before(Scheduled(plan, k), t.nextDue) ==> IsPaid(t, Scheduled(plan, k)))
  {
    var s0 := Initial(plan);
    assert Invariant(plan, s0) by {
      assert plan.first == Scheduled(plan, 0) && AllPaid(plan, s0.tables, 0);
    }
    RunKeepsInvariant(plan, s0, actions);
    SafeTables(plan, DoAll(plan, s0, actions).tables);
  }

  /** The due date itself can fall back: a manual payment that read the date before a
      cron pass and writes after it. Both cycles stay paid, so the next pass skips them. */
  lemma {:induction false} StaleWriteMovesBack(plan: Plan)
    requires plan.renews && plan.linked
    ensures var first := Next(plan, plan.first);
            var paying := Do(plan, Do(plan, Initial(plan), StartPay(0)), Post(0));
            var swept := Do(plan, Do(plan, Do(plan, paying, StartSweep(1, first)), SweepPost(1)), SweepPost(1));
            var before := Do(plan, swept, SweepWrite(1));
            var after := Do(plan, before, Roll(0));
            && before.tables.nextDue == Next(plan, first)
            && after.tables.nextDue == first
            && IsPaid(after.tables, first)
  {
    hide Next, DayNumber, DaysIn, IsPaid;
    var start := plan.first;
    var first := Next(plan, start);
    var second := Next(plan, first);
    NextIsLater(plan, start);
    NextIsLater(plan, first);
    var one := Tables([Recorded(start)], [start], start);
    var two := Tables([Recorded(start), Recorded(first)], [start, first], start);
    PaidLists(start, first);
    var paying := Do(plan, Do(plan, Initial(plan), StartPay(0)), Post(0));
    assert paying == State(one, map[0 := Rolling(start)]);
    var half := Do(plan, Do(plan, paying, StartSweep(1, first)), SweepPost(1));
    assert half == State(one, map[0 := Rolling(start), 1 := Sweeping(first, first)]);
    assert Do(plan, half, SweepPost(1)) == State(two, map[0 := Rolling(start), 1 := Sweeping(second, first)]);
    PaidIgnoresDue(two, first);
  }

  lemma {:induction false} PaidLists(a: Date, b: Date)
    requires a != b
    ensures var none, one := Tables([], [], a), Tables([Recorded(a)], [a], a);
            !IsPaid(none, a) && IsPaid(one, a) && !IsPaid(one, b)
    ensures IsPaid(Tables([Recorded(a), Recorded(b)], [a, b], a), b)
  {
    assert [Recorded(a)][0].due == a && [Recorded(a), Recorded(b)][1].due == b;
  }

  lemma {:induction false} SafeTables(plan: Plan, t: Tables)
    requires Gated(t) && Covered(plan, t, t.nextDue)
    ensures forall j, k :: 0 <= j < k < |t.expenses| ==> t.expenses[j] != t.expenses[k]
    ensures forall k: nat :: Before(Scheduled(plan, k), t.nextDue) ==> IsPaid(t, Scheduled(plan, k))
  {
    hide IsPaid, Scheduled, DayNumber;
    forall j, k | 0 <= j < k < |t.expenses| ensures t.expenses[j] != t.expenses[k] {
      NoDoubleExpense(t.payments, j, k);
    }
    var n: nat :| t.nextDue == Scheduled(plan, n) && AllPaid(plan, t, n);
    forall k: nat | Before(Scheduled(plan, k), t.nextDue) ensures IsPaid(t, Scheduled(plan, k)) {
      if n < k { ScheduledIncreases(plan, n, k); }
      assert k < n;
    }
  }

  /** A sweep that nobody disturbs, from any state a run can reach: it leaves the
      stored date on the first schedule date after today that it came to, with
      everything before it paid. */
  lemma {:induction false} SweepCatchesUp(plan: Plan, t: Tables, due: Date, today: Date)
    requires Gated(t) && Covered(plan, t, due)
    ensures var r := Sweep(plan, t, due, today);
            && Gated(r) && Covered(plan, r, r.nextDue) && After(r.nextDue, today)
            && PaysMore(t, r)
            && (forall d :: IsPaid(r, d) && !IsPaid(t, d) ==> !After(d, today))
    decreases AtLeast0(DaysBetween(due, today) + 1)
  {
    hide IsPaid, Gated, Covered, Next, DayNumber, DaysIn, PostTxn, AttachTxn;
    if After(due, today) {
      PaidIgnoresDue(t, due);
      CoveredStays(plan, t, t.(nextDue := due), due);
    } else {
      var t' := PostTxn(t, due);
      PostKeepsGated(t, due);
      CoveredStays(plan, t, t', due);
      CoveredNext(plan, t', due);
      PostPaysOnly(t, due);
      NextIsLater(plan, due);
      SweepCatchesUp(plan, t', Next(plan, due), today);
    }
  }

  lemma {:induction false} PostPaysOnly(t: Tables, due: Date)
    ensures forall d :: IsPaid(PostTxn(t, due), d) <==> IsPaid(t, d) || d == due
    ensures forall d :: d in PostTxn(t, due).expenses <==> d in t.expenses || (d == due && !IsPaid(t, due))
    ensures PostTxn(t, due).nextDue == t.nextDue
  {
    if !IsPaid(t, due) {
      var p, n := PostTxn(t, due), |t.payments|;
      assert p.payments[n].due == due;
      forall d | IsPaid(p, d) && d != due ensures IsPaid(t, d) {
        var i :| 0 <= i < |p.payments| && p.payments[i].due == d;
        assert t.payments[i].due == d;
      }
      forall d | IsPaid(t, d) ensures IsPaid(p, d) {
        var i :| 0 <= i < n && t.payments[i].due == d;
        assert p.payments[i].due == d;
      }
    }
  }

  /** The j-th schedule date or a later one, if it is not after today. */
  ghost predicate DueFrom(plan: Plan, j: nat, today: Date, d: Date) {
    exists k: nat :: j <= k && d == Scheduled(plan, k) && !After(d, today)
  }

  ghost predicate FirstAfter(plan: Plan, j: nat, today: Date, n: nat) {
    j <= n && After(Scheduled(plan, n), today) && forall k :: j <= k < n ==> !After(Scheduled(plan, k), today)
  }

  lemma {:induction false} DueFromNext(plan: Plan, j: nat, today: Date, d: Date)
    ensures After(Scheduled(plan, j), today) ==> !DueFrom(plan, j, today, d)
    ensures !After(Scheduled(plan, j), today) ==>
              (DueFrom(plan, j, today, d) <==> d == Scheduled(plan, j) || DueFrom(plan, j + 1, today, d))
  {
    hide Scheduled, DayNumber;
    if DueFrom(plan, j, today, d) {
      var k: nat :| j <= k && d == Scheduled(plan, k) && !After(d, today);
      if j < k { ScheduledIncreases(plan, j, k); }
    }
    if DueFrom(plan, j + 1, today, d) {
      var k: nat :| j + 1 <= k && d == Scheduled(plan, k) && !After(d, today);
      assert j <= k;
    }
  }

  /** Which dates a sweep pays: every schedule date from the stored one up to today, and no
      other. Those that were not paid before are charged, and the stored date becomes the
      first one after today. */
  lemma {:induction false} SweepPays(plan: Plan, t: Tables, j: nat, today: Date)
    ensures var r := Sweep(plan, t, Scheduled(plan, j), today);
            && (forall d :: IsPaid(r, d) <==> IsPaid(t, d) || DueFrom(plan, j, today, d))
            && (forall d :: d in r.expenses <==> d in t.expenses || (DueFrom(plan, j, today, d) && !IsPaid(t, d)))
            && exists n: nat :: FirstAfter(plan, j, today, n) && r.nextDue == Scheduled(plan, n)
    decreases AtLeast0(DaysBetween(Scheduled(plan, j), today) + 1)
  {
    hide IsPaid, Next, DayNumber, DaysIn, PostTxn, DueFrom;
    var due := Scheduled(plan, j);
    forall d { DueFromNext(plan, j, today, d); }
    if After(due, today) {
      PaidIgnoresDue(t, due);
      assert FirstAfter(plan, j, today, j);
    } else {
      NextIsLater(plan, due);
      PostPaysOnly(t, due);
      SweepPays(plan, PostTxn(t, due), j + 1, today);
      var r := Sweep(plan, t, due, today);
      var n: nat :| FirstAfter(plan, j + 1, today, n) && r.nextDue == Scheduled(plan, n);
      assert FirstAfter(plan, j, today, n);
    }
  }

  // ----- undisturbed passes are runs -----

  lemma {:induction false} SweepingRuns(plan: Plan, t: Tables, ws: map<nat, Phase>, w: nat, due: Date, today: Date)
      returns (actions: seq<Action>)
    ensures DoAll(plan, State(t, ws[w := Sweeping(due, today)]), actions)
            == State(Sweep(plan, t, due, today), Gone(ws[w := Sweeping(due, today)], w))
    decreases AtLeast0(DaysBetween(due, today) + 1)
  {
    hide DayNumber, DaysIn, PostTxn, Next;
    var s := State(t, ws[w := Sweeping(due, today)]);
    if After(due, today) {
      actions := [SweepWrite(w)];
      assert actions[1..] == [];
    } else {
      NextIsLater(plan, due);
      var rest := SweepingRuns(plan, PostTxn(t, due), ws, w, Next(plan, due), today);
      actions := [SweepPost(w)] + rest;
      assert actions[1..] == rest;
      assert Do(plan, s, SweepPost(w))
          == State(PostTxn(t, due), ws[w := Sweeping(Next(plan, due), today)]);
      assert Gone(ws[w := Sweeping(due, today)], w) == Gone(ws[w := Sweeping(Next(plan, due), today)], w);
    }
  }

  /** What `ProcessBillerCron` and `PayBiller` compute in one go are runs of the steps above. */
  lemma {:induction false} SweepIsRun(plan: Plan, s: State, w: nat, today: Date) returns (actions: seq<Action>)
    requires plan.renews && plan.linked && w !in s.workers
    ensures DoAll(plan, s, actions).tables == Sweep(plan, s.tables, s.tables.nextDue, today)
  {
    hide Sweep;
    var rest := SweepingRuns(plan, s.tables, s.workers, w, s.tables.nextDue, today);
    actions := [StartSweep(w, today)] + rest;
    assert actions[1..] == rest;
  }

  /** An attachment pays its cycle and charges nothing. */
  lemma {:induction false} AttachChargesNothing(t: Tables, due: Date)
    ensures AttachTxn(t, due).expenses == t.expenses && AttachTxn(t, due).nextDue == t.nextDue
    ensures forall d :: IsPaid(AttachTxn(t, due), d) <==> IsPaid(t, d) || d == due
  {
    if !IsPaid(t, due) {
      var a, n := AttachTxn(t, due), |t.payments|;
      assert a.payments[n].due == due;
      forall d ensures IsPaid(a, d) <==> IsPaid(t, d) || d == due {
        if IsPaid(a, d) && d != due {
          var i :| 0 <= i < |a.payments| && a.payments[i].due == d;
          assert t.payments[i].due == d;
        }
        if IsPaid(t, d) {
          var i :| 0 <= i < n && t.payments[i].due == d;
          assert a.payments[i].due == d;
        }
      }
    }
  }

  lemma {:induction false} PayIsRun(plan: Plan, s: State, w: nat, attach: bool)
    requires w !in s.workers && (attach || plan.linked)
    ensures var t := s.tables;
            DoAll(plan, s, [StartPay(w), if attach then Attach(w) else Post(w), Roll(w)]).tables
            == (if attach then AttachTxn(t, t.nextDue) else PostTxn(t, t.nextDue)).(nextDue := Next(plan, t.nextDue))
  {
    hide PostTxn, AttachTxn, Next;
    var second := if attach then Attach(w) else Post(w);
    var all := [StartPay(w), second, Roll(w)];
    assert all[1..] == [second, Roll(w)] && [second, Roll(w)][1..] == [Roll(w)] && [Roll(w)][1..] == [];
    var s1 := Do(plan, s, StartPay(w));
    var s2 := Do(plan, s1, second);
    assert DoAll(plan, s2, [Roll(w)]) == Do(plan, s2, Roll(w));
    assert DoAll(plan, s1, [second, Roll(w)]) == Do(plan, s2, Roll(w));
  }
}

/**
 Credit card statements of internal/api/finance.go: each statement carries the
 previous one's amount forward instead of adding up the whole ledger.

 One card account is modelled, with money in real numbers and dates as days since
 1970-01-01.
 */
module Statements {
  import opened Options

  const EPOCH: int := 0

  datatype Kind = Income | Refund | Expense | TransferIn | TransferOut | Lend | LendRepayment | Writeoff

  datatype Txn = Txn(kind: Kind, amount: real, date: int)

  datatype Statement = Statement(date: int, amountDue: real)

  /** SUM(amount) over the rows of some types. */
  function Total(ledger: seq<Txn>, kinds: set<Kind>): real {
    if ledger == [] then 0.0
    else
      var last := ledger[|ledger| - 1];
      Total(ledger[..|ledger| - 1], kinds) + if last.kind in kinds then last.amount else 0.0
  }

  function ComputeBalance(opening: real, ledger: seq<Txn>): real {
    opening + Total(ledger, {Income, Refund}) - Total(ledger, {Expense}) + Total(ledger, {TransferIn})
    - Total(ledger, {TransferOut}) - Total(ledger, {Lend}) + Total(ledger, {LendRepayment})
  }

  /** The rows dated after `from` and up to `to`. */
  function Window(ledger: seq<Txn>, from: int, to: int): seq<Txn> {
    if ledger == [] then []
    else
      var last := ledger[|ledger| - 1];
      Window(ledger[..|ledger| - 1], from, to) + if from < last.date <= to then [last] else []
  }

  function Through(ledger: seq<Txn>, to: int): seq<Txn> {
    if ledger == [] then []
    else
      var last := ledger[|ledger| - 1];
      Through(ledger[..|ledger| - 1], to) + if last.date <= to then [last] else []
  }

  /** A cycle holds exactly the rows dated after its start and up to its own date, as often
      as the ledger does; what is due by a date holds all up to it. */
  lemma {:induction false} CycleHolds(ledger: seq<Txn>, from: int, to: int, t: Txn)
    ensures multiset(Window(ledger, from, to))[t] == if from < t.date <= to then multiset(ledger)[t] else 0
    ensures multiset(Through(ledger, to))[t] == if t.date <= to then multiset(ledger)[t] else 0
  {
    hide Window, Through;
    if ledger == [] {
      NoRows(from, to);
    } else {
      var front, last := ledger[..|ledger| - 1], ledger[|ledger| - 1];
      assert ledger == front + [last];
      CycleHolds(front, from, to, t);
      LastRow(front, last, from, to);
      OneMore(front, last, t);
      OneMore(Window(front, from, to), last, t);
      OneMore(Through(front, to), last, t);
    }
  }

  lemma {:induction false} NoRows(from: int, to: int)
    ensures Window([], from, to) == [] && Through([], to) == []
  {
  }

  lemma {:induction false} LastRow(front: seq<Txn>, last: Txn, from: int, to: int)
    ensures Window(front + [last], from, to)
            == if from < last.date <= to then Window(front, from, to) + [last] else Window(front, from, to)
    ensures Through(front + [last], to) == if last.date <= to then Through(front, to) + [last] else Through(front, to)
  {
    assert (front + [last])[..|front|] == front;
  }

  lemma {:induction false} OneMore(rows: seq<Txn>, last: Txn, t: Txn)
    ensures multiset(rows + [last])[t] == multiset(rows)[t] + if last == t then 1 else 0
  {
  }

  // ----- the statements table -----

  /** MAX(statement_date) before a date, and with it the row that ORDER BY ... LIMIT 1
      may pick: any of the latest ones. */
  ghost predicate IsPrior(statements: seq<Statement>, date: int, prior: Option<Statement>) {
    match prior
    case None => forall i :: 0 <= i < |statements| ==> statements[i].date >= date
    case Some(p) =>
      && p in statements && p.date < date
      && forall i :: 0 <= i < |statements| && statements[i].date < date ==> statements[i].date <= p.date
  }

  method FindPrior(statements: seq<Statement>, date: int) returns (prior: Option<Statement>)
    ensures IsPrior(statements, date, prior)
    ensures prior.None? ==> forall i :: 0 <= i < |statements| ==> statements[i].date >= date
    ensures prior.Some? ==>
              && prior.value in statements && prior.value.date < date
              && forall i :: 0 <= i < |statements| && statements[i].date < date ==>
                   statements[i].date <= prior.value.date
  {
    prior := None;
    for i := 0 to |statements|
      invariant IsPrior(statements[..i], date, prior)
    {
      assert statements[..i + 1] == statements[..i] + [statements[i]];
      if statements[i].date < date && (prior.None? || prior.value.date < statements[i].date) {
        prior := Some(statements[i]);
      }
    }
    assert statements[..|statements|] == statements;
  }

  datatype Input = Input(date: int, amountDue: Option<real>, newCharges: Option<real>, cashback: Option<real>)

  datatype Reward = NoReward | Percentage(value: real) | Fixed(value: real)

  datatype Totals = Totals(amountDue: real, newCharges: real, previousBalance: real, cashback: real, payments: real,
      lendCharges: real)

  /** What the card owes more for one row: charges and lends up, money back and payments down. */
  function Owing(t: Txn): real {
    match t.kind
    case Expense => t.amount
    case Lend => t.amount
    case Income => -t.amount
    case Refund => -t.amount
    case LendRepayment => -t.amount
    case TransferIn => -t.amount
    case TransferOut => 0.0
    case Writeoff => 0.0
  }

  function Owed(ledger: seq<Txn>): real {
    if ledger == [] then 0.0 else Owed(ledger[..|ledger| - 1]) + Owing(ledger[|ledger| - 1])
  }

  /** How one row moves the balance, and what the card owes, by its kind. */
  lemma {:induction false} RowMoves(opening: real, ledger: seq<Txn>, t: Txn)
    ensures ComputeBalance(opening, []) == opening && Owed([]) == 0.0
    ensures ComputeBalance(opening, ledger + [t]) == ComputeBalance(opening, ledger)
            + if t.kind in {Income, Refund, TransferIn, LendRepayment} then t.amount
              else if t.kind in {Expense, TransferOut, Lend} then -t.amount
              else 0.0
    ensures Owed(ledger + [t]) == Owed(ledger)
            + if t.kind in {Expense, Lend} then t.amount
              else if t.kind in {Income, Refund, TransferIn, LendRepayment} then -t.amount
              else 0.0
  {
    assert (ledger + [t])[..|ledger|] == ledger;
  }

  /** Unbilled debt the account was opened with. */
  function OpeningDebt(opening: real): real { if opening < 0.0 then -opening else 0.0 }

  /** Where a statement's cycle starts and what it carries forward. */
  function From(prior: Option<Statement>): int { if prior.Some? then prior.value.date else EPOCH }

  function Carried(opening: real, prior: Option<Statement>): real {
    if prior.Some? then prior.value.amountDue else OpeningDebt(opening)
  }

  /** The statement for a date, given the prior row it was computed from. */
  ghost predicate Follows(opening: real, ledger: seq<Txn>, statements: seq<Statement>, s: Statement) {
    exists prior :: IsPrior(statements, s.date, prior)
        && s.amountDue == Carried(opening, prior) + Owed(Window(ledger, From(prior), s.date))
  }

  lemma {:induction false} OwedBySums(ledger: seq<Txn>)
    ensures Owed(ledger) == Total(ledger, {Expense}) + Total(ledger, {Lend})
                            - Total(ledger, {Income, Refund, LendRepayment}) - Total(ledger, {TransferIn})
  {
    if ledger != [] {
      OwedBySums(ledger[..|ledger| - 1]);
    }
  }

  /** Overrides replace what they name and nothing before it. Without one, the amount
      due moves from the previous statement's by exactly what the cycle owes. */
  ghost predicate Computed(opening: real, reward: Reward, ledger: seq<Txn>, prior: Option<Statement>, input: Input,
      r: Totals) {
    var cycle := Window(ledger, From(prior), input.date);
    && r.payments == Total(cycle, {TransferIn})
    && r.lendCharges == Total(cycle, {Lend})
    && r.previousBalance == Carried(opening, prior) - r.payments
    && (input.newCharges.Some? ==> r.newCharges == input.newCharges.value)
    && (input.newCharges.None? ==> r.newCharges == Owed(cycle) + r.payments)
    && (input.amountDue.Some? ==> r.amountDue == input.amountDue.value)
    && (input.amountDue.None? ==> r.amountDue == r.previousBalance + r.newCharges)
    && (input.amountDue.None? && input.newCharges.None? ==> r.amountDue == Carried(opening, prior) + Owed(cycle))
    && r.cashback == if input.cashback.Some? then input.cashback.value else Earned(reward, r.newCharges)
  }

  function Earned(reward: Reward, newCharges: real): real {
    match reward
    case NoReward => 0.0
    case Percentage(value) => if newCharges > 0.0 then newCharges * value / 100.0 else 0.0
    case Fixed(value) => value
  }

  /** Cashback: a percentage of positive charges and of nothing else, or one fixed sum. With
      a percentage of at least zero, more charges never earn less. */
  lemma {:induction false} CashbackLaw(reward: Reward, charges: real, more: real)
    ensures reward.NoReward? ==> Earned(reward, charges) == 0.0
    ensures reward.Fixed? ==> Earned(reward, charges) == reward.value
    ensures reward.Percentage? ==>
              100.0 * Earned(reward, charges) == if charges > 0.0 then charges * reward.value else 0.0
    ensures reward.Percentage? && reward.value >= 0.0 && charges <= more ==>
              Earned(reward, charges) <= Earned(reward, more)
  {
    if reward.Percentage? && reward.value >= 0.0 && charges <= more && charges > 0.0 {
      assert (more - charges) * reward.value >= 0.0;
      assert more * reward.value == charges * reward.value + (more - charges) * reward.value;
    }
  }

  class Card {
    const opening: real
    const reward: Reward
    var ledger: seq<Txn>
    var statements: seq<Statement>

    constructor (opening: real, reward: Reward)
      ensures this.opening == opening && this.reward == reward && ledger == [] && statements == []
    {
      this.opening, this.reward, ledger, statements := opening, reward, [], [];
    }

    method ComputeStatementTotals(input: Input) returns (r: Totals)
      ensures exists prior ::
                IsPrior(statements, input.date, prior) && Computed(opening, reward, ledger, prior, input, r)
    {
      hide Total, Window, Owed, IsPrior;
      var prior := FindPrior(statements, input.date);
      var from := EPOCH;
      if prior.Some? { from := prior.value.date; }
      var cycle := Window(ledger, from, input.date);
      OwedBySums(cycle);
      var lendCharges := Total(cycle, {Lend});
      var newCharges;
      if input.newCharges.Some? {
        newCharges := input.newCharges.value;
      } else {
        newCharges := Total(cycle, {Expense}) + lendCharges - Total(cycle, {Income, Refund, LendRepayment});
      }
      var prevBalance := 0.0;
      if prior.Some? {
        prevBalance := prior.value.amountDue;
      } else if opening < 0.0 {
        prevBalance := -opening;
      }
      var payments := Total(cycle, {TransferIn});
      prevBalance := prevBalance - payments;
      var total := prevBalance + newCharges;
      if input.amountDue.Some? { total := input.amountDue.value; }
      var cashback := 0.0;
      if input.cashback.Some? {
        cashback := input.cashback.value;
      } else if reward.Percentage? && newCharges > 0.0 {
        cashback := newCharges * reward.value / 100.0;
      } else if reward.Fixed? {
        cashback := reward.value;
      }
      r := Totals(total, newCharges, prevBalance, cashback, payments, lendCharges);
      assert IsPrior(statements, input.date, prior) && Computed(opening, reward, ledger, prior, input, r);
    }

    /** Closing a cycle without overrides. */
    method CreateStatement(date: int) returns (s: Statement)
      modifies this`statements
      ensures statements == old(statements) + [s] && s.date == date
      ensures Follows(opening, ledger, old(statements), s)
    {
      hide Total, Window, Owed, IsPrior;
      var totals := ComputeStatementTotals(Input(date, None, None, None));
      s := Statement(date, totals.amountDue);
      statements := statements + [s];
    }
  }

  // ----- the chain against the running balance -----

  /** The balance at a date, seen from the card: what is owed, with an opening credit
      and money moved off the card left aside. */
  function OwedAt(opening: real, ledger: seq<Txn>, date: int): real {
    -ComputeBalance(opening, Through(ledger, date))
    + (if opening > 0.0 then opening else 0.0)
    - Total(Through(ledger, date), {TransferOut})
  }

  lemma {:induction false} BalanceIsOwed(opening: real, ledger: seq<Txn>)
    ensures ComputeBalance(opening, ledger) == opening - Owed(ledger) - Total(ledger, {TransferOut})
  {
    if ledger != [] {
      BalanceIsOwed(opening, ledger[..|ledger| - 1]);
    }
  }

  lemma {:induction false} OwedAppend(ledger: seq<Txn>, t: Txn)
    ensures Owed(ledger + [t]) == Owed(ledger) + Owing(t)
  {
    assert (ledger + [t])[..|ledger|] == ledger;
  }

  lemma {:induction false} OwedSplits(ledger: seq<Txn>, from: int, to: int)
    requires from <= to
    ensures Owed(Through(ledger, to)) == Owed(Through(ledger, from)) + Owed(Window(ledger, from, to))
  {
    hide Owed, Owing;
    if ledger == [] {
      OwedNothing();
    } else {
      var front, last := ledger[..|ledger| - 1], ledger[|ledger| - 1];
      OwedSplits(front, from, to);
      assert Through(ledger, to) == if last.date <= to then Through(front, to) + [last] else Through(front, to);
      assert Through(ledger, from) == if last.date <= from then Through(front, from) + [last] else Through(front, from);
      assert Window(ledger, from, to) == if from < last.date <= to then Window(front, from, to) + [last]
          else Window(front, from, to);
      OwedAppend(Through(front, to), last);
      OwedAppend(Through(front, from), last);
      OwedAppend(Window(front, from, to), last);
    }
  }

  lemma {:induction false} OwedNothing()
    ensures Owed([]) == 0.0
  {
  }

  /** Rows the first cycle misses because it starts after 1970-01-01. */
  function Missed(ledger: seq<Txn>): real { Owed(Through(ledger, EPOCH)) }

  ghost predicate Agrees(opening: real, ledger: seq<Txn>, s: Statement) {
    s.amountDue == OwedAt(opening, ledger, s.date) - Missed(ledger)
  }

  ghost predicate AllAgree(opening: real, ledger: seq<Txn>, statements: seq<Statement>) {
    forall i :: 0 <= i < |statements| ==> statements[i].date >= EPOCH && Agrees(opening, ledger, statements[i])
  }

  /** A new statement agrees with the balance if all those before it do, in whatever
      order they were made. */
  lemma {:induction false} NextAgrees(opening: real, ledger: seq<Txn>, statements: seq<Statement>, s: Statement)
    requires AllAgree(opening, ledger, statements) && s.date >= EPOCH
    requires Follows(opening, ledger, statements, s)
    ensures Agrees(opening, ledger, s)
  {
    hide ComputeBalance, Owed, Window, Through, Total;
    var prior :| IsPrior(statements, s.date, prior)
                 && s.amountDue == Carried(opening, prior) + Owed(Window(ledger, From(prior), s.date));
    OwedSplits(ledger, From(prior), s.date);
    BalanceIsOwed(opening, Through(ledger, s.date));
    if prior.Some? {
      var i :| 0 <= i < |statements| && statements[i] == prior.value;
      assert Agrees(opening, ledger, statements[i]);
      BalanceIsOwed(opening, Through(ledger, prior.value.date));
    }
  }

  /** Statements made one after another, each from the rows that were there. */
  ghost predicate Chain(opening: real, ledger: seq<Txn>, statements: seq<Statement>) {
    forall i :: 0 <= i < |statements| ==> Follows(opening, ledger, statements[..i], statements[i])
  }

  lemma {:induction false} ChainMissesOnlyOldRows(opening: real, ledger: seq<Txn>, statements: seq<Statement>)
    requires Chain(opening, ledger, statements)
    requires forall i :: 0 <= i < |statements| ==> statements[i].date >= EPOCH
    ensures AllAgree(opening, ledger, statements)
  {
    hide Follows, Agrees;
    if statements != [] {
      var n := |statements| - 1;
      var front := statements[..n];
      assert forall i :: 0 <= i < n ==> statements[..i] == front[..i];
      ChainMissesOnlyOldRows(opening, ledger, front);
      NextAgrees(opening, ledger, front, statements[n]);
      assert forall i :: 0 <= i < n ==> statements[i] == front[i];
    }
  }

  /** So a statement agrees with the running balance exactly when the rows dated on
      or before 1970-01-01 cancel out. */
  lemma {:induction false} ChainAgreesIff(opening: real, ledger: seq<Txn>, statements: seq<Statement>, k: nat)
    requires Chain(opening, ledger, statements) && k < |statements|
    requires forall i :: 0 <= i < |statements| ==> statements[i].date >= 0
    ensures statements[k].amountDue == OwedAt(opening, ledger, statements[k].date) <==> Missed(ledger) == 0.0
  {
    hide OwedAt, Missed, Follows;
    ChainMissesOnlyOldRows(opening, ledger, statements);
    assert Agrees(opening, ledger, statements[k]);
  }

  /** With every row dated after 1970-01-01, statements on any dates, made in any
      order: each amount due is the running balance of its date, sign turned, plus an
      opening credit, less what was moved off the card. */
  lemma {:induction false} ChainAgreesWithBalance(opening: real, ledger: seq<Txn>, statements: seq<Statement>)
    requires Chain(opening, ledger, statements)
    requires forall i :: 0 <= i < |ledger| ==> ledger[i].date > 0
    ensures forall i :: 0 <= i < |statements| ==> IsOwed(opening, ledger, statements[i])
  {
    hide Follows, IsOwed;
    if statements != [] {
      var n := |statements| - 1;
      var front := statements[..n];
      assert forall i :: 0 <= i < n ==> statements[..i] == front[..i];
      ChainAgreesWithBalance(opening, ledger, front);
      NextIsOwed(opening, ledger, front, statements[n]);
      assert forall i :: 0 <= i < n ==> statements[i] == front[i];
    }
  }

  ghost predicate IsOwed(opening: real, ledger: seq<Txn>, s: Statement) {
    s.amountDue == -ComputeBalance(opening, Through(ledger, s.date)) + (if opening > 0.0 then opening else 0.0)
                   - Total(Through(ledger, s.date), {TransferOut})
  }

  lemma {:induction false} NextIsOwed(opening: real, ledger: seq<Txn>, statements: seq<Statement>, s: Statement)
    requires forall i :: 0 <= i < |statements| ==> IsOwed(opening, ledger, statements[i])
    requires forall i :: 0 <= i < |ledger| ==> ledger[i].date > 0
    requires Follows(opening, ledger, statements, s)
    ensures IsOwed(opening, ledger, s)
  {
    hide ComputeBalance, Owed, Window, Through, Total;
    var prior :| IsPrior(statements, s.date, prior)
                 && s.amountDue == Carried(opening, prior) + Owed(Window(ledger, From(prior), s.date));
    BalanceIsOwed(opening, Through(ledger, s.date));
    if prior.Some? {
      var i :| 0 <= i < |statements| && statements[i] == prior.value;
      assert IsOwed(opening, ledger, statements[i]);
      BalanceIsOwed(opening, Through(ledger, prior.value.date));
      OwedSplits(ledger, prior.value.date, s.date);
    } else {
      FirstCycle(ledger, s.date);
    }
  }

  /** The first cycle starts at the epoch even for an earlier statement date. */
  lemma {:induction false} FirstCycle(ledger: seq<Txn>, to: int)
    requires forall i :: 0 <= i < |ledger| ==> ledger[i].date > 0
    ensures Window(ledger, EPOCH, to) == Through(ledger, to)
  {
    if ledger != [] { FirstCycle(ledger[..|ledger| - 1], to); }
  }

  /** Only its date decides what a statement says: two histories of one card give equal
      amounts for equal dates, whatever else was closed before, in between or after. */
  lemma {:induction false} OnlyTheDateCounts(opening: real, ledger: seq<Txn>, a: seq<Statement>, b: seq<Statement>,
      i: nat, j: nat)
    requires Chain(opening, ledger, a) && Chain(opening, ledger, b)
    requires forall k :: 0 <= k < |ledger| ==> ledger[k].date > 0
    requires i < |a| && j < |b| && a[i].date == b[j].date
    ensures a[i] == b[j]
  {
    hide Chain, ComputeBalance, Through, Total;
    ChainAgreesWithBalance(opening, ledger, a);
    ChainAgreesWithBalance(opening, ledger, b);
    assert IsOwed(opening, ledger, a[i]) && IsOwed(opening, ledger, b[j]);
  }

  /** So a statement put in anywhere changes none of those made afterwards. */
  lemma {:induction false} ExtraStatementChangesNothing(opening: real, ledger: seq<Txn>, before: seq<Statement>,
      extra: Statement, with: seq<Statement>, without: seq<Statement>)
    requires Chain(opening, ledger, before + [extra] + with) && Chain(opening, ledger, before + without)
    requires forall k :: 0 <= k < |ledger| ==> ledger[k].date > 0
    requires |with| == |without| && forall k :: 0 <= k < |with| ==> with[k].date == without[k].date
    ensures with == without
  {
    hide Chain;
    var n := |before|;
    forall k | 0 <= k < |with| ensures with[k] == without[k] {
      assert (before + [extra] + with)[n + 1 + k] == with[k] && (before + without)[n + k] == without[k];
      OnlyTheDateCounts(opening, ledger, before + [extra] + with, before + without, n + 1 + k, n + k);
    }
  }
}

/**
 The transaction handlers of internal/api/finance.go: a transfer between two accounts
 is a pair of rows that are created, edited and deleted together, and a transfer
 into an investment is one row whose amount the investment follows.

 One user's ledger is modelled, one handler at a time: each runs inside one database
 transaction. Splits, refund links and writeoff rows are not part of this model.
 */
module Transfers {
  import opened Options
  import opened Statements

  datatype Row = Row(id: nat, account: int, kind: Kind, amount: real, at: int, slate: int, description: string,
      note: string,
                     linked: Option<int>, pair: Option<nat>, investment: Option<nat>)

  /** `invested` is the invested amount of each investment. */
  datatype Book = Book(rows: seq<Row>, nextId: nat, invested: seq<real>)

  datatype Account = Account(id: int, opening: real)

  /** What the user owns; some slates may be archived, `plain` is the one of everyday life. */
  datatype Owned = Owned(accounts: seq<Account>, slates: set<int>, archived: set<int>, plain: int)

  predicate Has(o: Owned, account: int) { exists k :: 0 <= k < |o.accounts| && o.accounts[k].id == account }

  // ----- requests -----

  datatype New = New(account: int, amount: real, at: int, slate: int, description: string, note: string)

  datatype Edit = Edit(account: Option<int>, amount: Option<real>, at: Option<int>, slate: Option<int>,
                       description: Option<string>, note: Option<string>, kind: Option<Kind>)

  datatype Op =
    | Plain(n: New, kind: Kind)
    | Transfer(n: New, linked: Option<int>)
    | IntoInvestment(n: New, investment: nat)
    | Update(id: nat, e: Edit)
    | Delete(id: nat)

  predicate SlateOwned(o: Owned, slate: int) { slate == 0 || slate in o.slates }

  predicate SlateOpen(o: Owned, slate: int) { slate == 0 || (slate in o.slates && slate !in o.archived) }

  function Slate(o: Owned, slate: int): int { if slate == 0 then o.plain else slate }

  function OrElse<T>(given: Option<T>, stored: T): T { if given.Some? then given.value else stored }

  predicate Lending(kind: Kind) { kind.Lend? || kind.LendRepayment? || kind.Writeoff? }

  predicate Received(kind: Kind) { kind.Income? || kind.Refund? }

  /** The status a create answers with; 201 creates. */
  function CreateStatus(o: Owned, b: Book, op: Op): nat
    requires op.Plain? || op.Transfer? || op.IntoInvestment?
  {
    if op.n.account == 0 then 400
    else if !Has(o, op.n.account) || (op.Transfer? && op.linked.Some? && !Has(o, op.linked.value)) then 404
    else if !SlateOwned(o, op.n.slate) then 404
    else if op.n.amount <= 0.0 then 400
    else if op.Plain? && !op.kind.Expense? && !Received(op.kind) then 400
    else if !SlateOpen(o, op.n.slate) then 400
    else if op.IntoInvestment? && op.investment >= |b.invested| then 404
    else if op.Transfer? && (op.linked.None? || op.linked.value == op.n.account) then 400
    else 201
  }

  function WordsOnly(e: Edit): bool { e.account.None? && e.amount.None? && e.at.None? && e.slate.None? && e.kind.None? }

  function UpdateStatus(o: Owned, stored: Option<Kind>, e: Edit): nat {
    if e.description == Some("") then 400
    else if stored.None? then 404
    else if stored.value.LendRepayment? || stored.value.Writeoff? then if WordsOnly(e) then 200 else 409
    else if stored.value.Lend? then 409
    else if e.amount.Some? && e.amount.value <= 0.0 then 400
    else if e.kind.Some? && e.kind.value != stored.value && !(Received(stored.value) && Received(e.kind.value)) then 400
    else if e.account.Some? && !Has(o, e.account.value) then 404
    else if e.slate.Some? && !SlateOwned(o, e.slate.value) then 404
    else if e.slate.Some? && !SlateOpen(o, e.slate.value) then 400
    else 200
  }

  function DeleteStatus(stored: Option<Kind>): nat {
    if stored.None? then 404 else if Lending(stored.value) then 409 else 200
  }

  // ----- rows -----

  function MainEdit(o: Owned, r: Row, e: Edit): Row {
    r.(account := OrElse(e.account, r.account), kind := OrElse(e.kind, r.kind), amount := OrElse(e.amount, r.amount),
       at := OrElse(e.at, r.at), slate := if e.slate.Some? then Slate(o, e.slate.value) else r.slate,
       description := OrElse(e.description, r.description), note := OrElse(e.note, r.note))
  }

  /** What the other leg of a transfer takes over: all of it, except that a new account is its linked account. */
  function PairEdit(o: Owned, r: Row, e: Edit): Row {
    r.(linked := if e.account.Some? then e.account else r.linked, amount := OrElse(e.amount, r.amount),
       at := OrElse(e.at, r.at), slate := if e.slate.Some? then Slate(o, e.slate.value) else r.slate,
       description := OrElse(e.description, r.description), note := OrElse(e.note, r.note))
  }

  /** UPDATE ... WHERE id, then UPDATE ... WHERE transfer_pair. */
  function Edited(o: Owned, r: Row, id: nat, e: Edit): Row {
    var main := if r.id == id then MainEdit(o, r, e) else r;
    if main.pair == Some(id) then PairEdit(o, main, e) else main
  }

  function EditRows(o: Owned, rows: seq<Row>, id: nat, e: Edit): (edited: seq<Row>)
    ensures |edited| == |rows|
    ensures forall k :: 0 <= k < |rows| ==> edited[k] == Edited(o, rows[k], id, e)
  {
    if rows == [] then []
    else EditRows(o, rows[..|rows| - 1], id, e) + [Edited(o, rows[|rows| - 1], id, e)]
  }

  function Without(rows: seq<Row>, id: nat): seq<Row> {
    if rows == [] then []
    else Without(rows[..|rows| - 1], id) + if rows[|rows| - 1].id == id then [] else [rows[|rows| - 1]]
  }

  function Shift(invested: seq<real>, investment: Option<nat>, delta: real): seq<real> {
    if investment.Some? && investment.value < |invested|
        then invested[investment.value := invested[investment.value] + delta]
    else invested
  }

  function PlainRow(o: Owned, id: nat, n: New, kind: Kind): Row {
    Row(id, n.account, kind, n.amount, n.at, Slate(o, n.slate), n.description, n.note, None, None, None)
  }

  function OutRow(o: Owned, id: nat, n: New, linked: int): Row {
    PlainRow(o, id, n, TransferOut).(linked := Some(linked), pair := Some(id + 1))
  }

  function InRow(o: Owned, outId: nat, n: New, linked: int): Row {
    PlainRow(o, outId + 1, n, TransferIn).(account := linked, linked := Some(n.account), pair := Some(outId))
  }

  function InvestmentRow(o: Owned, id: nat, n: New, investment: nat): Row {
    PlainRow(o, id, n, TransferOut).(investment := Some(investment))
  }

  // ----- the handlers -----

  class Ledger {
    const owned: Owned
    var rows: seq<Row>
    var nextId: nat
    var invested: seq<real>

    constructor (owned: Owned, invested: seq<real>)
      ensures this.owned == owned && Contents() == Book([], 1, invested)
    {
      this.owned, rows, nextId, this.invested := owned, [], 1, invested;
    }

    function Contents(): Book
      reads this
    {
      Book(rows, nextId, invested)
    }

    method Insert(row: Row) returns (id: nat)
      modifies this`rows, this`nextId
      ensures id == old(nextId) && nextId == id + 1
      ensures rows == old(rows) + [row.(id := id)]
    {
      id := nextId;
      rows := rows + [row.(id := id)];
      nextId := nextId + 1;
    }

    method FindRow(id: nat) returns (at: Option<nat>)
      ensures at.Some? ==> at.value < |rows| && rows[at.value].id == id
      ensures at == FirstAt(rows, id)
    {
      var i := 0;
      while i < |rows|
        invariant i <= |rows|
        invariant FirstAt(rows[..i], id) == None
      {
        assert rows[..i + 1][..i] == rows[..i];
        if rows[i].id == id {
          FirstAtStays(rows, i + 1, id);
          return Some(i);
        }
        i := i + 1;
      }
      assert rows[..i] == rows;
      return None;
    }

    method CreateTransaction(op: Op) returns (status: nat)
      requires op.Plain? || op.Transfer? || op.IntoInvestment?
      modifies this
      ensures status == CreateStatus(owned, old(Contents()), op)
      ensures Contents() == Do(owned, old(Contents()), op)
    {
      hide Has;
      var n := op.n;
      if n.account == 0 { return 400; }
      if !Has(owned, n.account) || (op.Transfer? && op.linked.Some? && !Has(owned, op.linked.value)) { return 404; }
      if n.slate != 0 && n.slate !in owned.slates { return 404; }
      if n.amount <= 0.0 { return 400; }
      if op.Plain? && !op.kind.Expense? && !op.kind.Income? && !op.kind.Refund? { return 400; }
      if n.slate != 0 && n.slate in owned.archived { return 400; }
      if op.IntoInvestment? && op.investment >= |invested| { return 404; }
      if op.Transfer? && (op.linked.None? || op.linked.value == n.account) { return 400; }
      status := 201;
      match op
      case Plain(_, kind) =>
        var id := Insert(PlainRow(owned, 0, n, kind));
      case IntoInvestment(_, investment) =>
        var id := Insert(InvestmentRow(owned, 0, n, investment));
        invested := invested[investment := invested[investment] + n.amount];
      case Transfer(_, linked) =>
        var debit := PlainRow(owned, 0, n, TransferOut).(linked := linked);
        var outId := Insert(debit);
        var inId := Insert(PlainRow(owned, 0, n, TransferIn).(account := linked.value, linked := Some(n.account),
            pair := Some(outId)));
        var i := |rows| - 2;
        rows := rows[i := rows[i].(pair := Some(inId))];
        assert rows == old(rows) + [OutRow(owned, outId, n, linked.value), InRow(owned, outId, n, linked.value)];
    }

    /** Which edits the row's kind and the user's references allow. */
    method EditStatus(kind: Kind, e: Edit) returns (status: nat)
      requires e.description != Some("")
      ensures status == UpdateStatus(owned, Some(kind), e)
    {
      hide Has;
      if kind.LendRepayment? || kind.Writeoff? {
        if e.account.Some? || e.amount.Some? || e.at.Some? || e.slate.Some? || e.kind.Some? { return 409; }
        return 200;
      }
      if kind.Lend? { return 409; }
      if e.amount.Some? && e.amount.value <= 0.0 { return 400; }
      if e.kind.Some? && e.kind.value != kind {
        if !Received(kind) || !Received(e.kind.value) { return 400; }
      }
      if e.account.Some? && !Has(owned, e.account.value) { return 404; }
      if e.slate.Some? && e.slate.value != 0 {
        if e.slate.value !in owned.slates { return 404; }
        if e.slate.value in owned.archived { return 400; }
      }
      return 200;
    }

    method EditRow(row: Row, id: nat, e: Edit) returns (edited: Row)
      ensures edited == Edited(owned, row, id, e)
    {
      hide MainEdit, PairEdit;
      edited := row;
      if edited.id == id { edited := MainEdit(owned, edited, e); }
      if edited.pair == Some(id) { edited := PairEdit(owned, edited, e); }
    }

    /** The two UPDATE statements, row by row. */
    method EditMatching(id: nat, e: Edit)
      modifies this`rows
      ensures rows == EditRows(owned, old(rows), id, e)
    {
      hide Edited;
      ghost var before := rows;
      for k := 0 to |rows|
        invariant |rows| == |before|
        invariant forall j :: 0 <= j < k ==> rows[j] == Edited(owned, before[j], id, e)
        invariant forall j :: k <= j < |before| ==> rows[j] == before[j]
      {
        var row := EditRow(rows[k], id, e);
        rows := rows[k := row];
      }
      assert rows == EditRows(owned, before, id, e);
    }

    method UpdateTransaction(id: nat, e: Edit) returns (status: nat)
      modifies this
      ensures status == UpdateStatus(owned, KindAt(old(rows), id), e)
      ensures Contents() == Do(owned, old(Contents()), Update(id, e))
    {
      hide EditRows, FirstAt, Edited, Has;
      if e.description == Some("") { return 400; }
      var at := FindRow(id);
      if at.None? { return 404; }
      status := EditStatus(rows[at.value].kind, e);
      if status != 200 {
        return;
      }
      var investment, oldAmount := rows[at.value].investment, rows[at.value].amount;
      EditMatching(id, e);
      invested := Shift(invested, investment, rows[at.value].amount - oldAmount);
    }

    method DeleteTransaction(id: nat) returns (status: nat)
      modifies this
      ensures status == DeleteStatus(KindAt(old(rows), id))
      ensures Contents() == Do(owned, old(Contents()), Delete(id))
    {
      hide Without, FirstAt;
      var at := FindRow(id);
      if at.None? { return 404; }
      var row := rows[at.value];
      if row.kind.Lend? || row.kind.LendRepayment? || row.kind.Writeoff? { return 409; }
      status := 200;
      rows := Without(rows, id);
      if row.pair.Some? { rows := Without(rows, row.pair.value); }
      invested := Shift(invested, row.investment, -row.amount);
    }
  }

  function FirstAt(rows: seq<Row>, id: nat): (at: Option<nat>)
    ensures at.Some? ==> at.value < |rows| && rows[at.value].id == id
    ensures at.None? ==> forall i :: 0 <= i < |rows| ==> rows[i].id != id
  {
    if rows == [] then None
    else
      var early := FirstAt(rows[..|rows| - 1], id);
      if early.Some? then early else if rows[|rows| - 1].id == id then Some(|rows| - 1) else None
  }

  lemma {:induction false} FirstAtStays(rows: seq<Row>, n: nat, id: nat)
    requires n <= |rows| && FirstAt(rows[..n], id).Some?
    ensures FirstAt(rows, id) == FirstAt(rows[..n], id)
    decreases |rows|
  {
    if n < |rows| {
      assert rows[..|rows| - 1][..n] == rows[..n];
      FirstAtStays(rows[..|rows| - 1], n, id);
    } else {
      assert rows[..n] == rows;
    }
  }

  function KindAt(rows: seq<Row>, id: nat): Option<Kind> {
    var at := FirstAt(rows, id);
    if at.Some? then Some(rows[at.value].kind) else None
  }

  /** One handler call; a refused one changes nothing. */
  function Do(o: Owned, b: Book, op: Op): Book {
    match op
    case Plain(n, kind) =>
      if CreateStatus(o, b, op) != 201 then b
      else b.(rows := b.rows + [PlainRow(o, b.nextId, n, kind)], nextId := b.nextId + 1)
    case Transfer(n, linked) =>
      if CreateStatus(o, b, op) != 201 then b
      else
        var debit, credit := OutRow(o, b.nextId, n, linked.value), InRow(o, b.nextId, n, linked.value);
        b.(rows := b.rows + [debit, credit], nextId := b.nextId + 2)
    case IntoInvestment(n, investment) =>
      if CreateStatus(o, b, op) != 201 then b
      else Book(b.rows + [InvestmentRow(o, b.nextId, n, investment)], b.nextId + 1,
          Shift(b.invested, Some(investment), n.amount))
    case Update(id, e) =>
      if UpdateStatus(o, KindAt(b.rows, id), e) != 200 then b
      else
        var i := FirstAt(b.rows, id).value;
        var rows := EditRows(o, b.rows, id, e);
        b.(rows := rows, invested := Shift(b.invested, b.rows[i].investment, rows[i].amount - b.rows[i].amount))
    case Delete(id) =>
      if DeleteStatus(KindAt(b.rows, id)) != 200 then b
      else
        var row := b.rows[FirstAt(b.rows, id).value];
        var rows := Without(b.rows, id);
        b.(rows := if row.pair.Some? then Without(rows, row.pair.value) else rows,
           invested := Shift(b.invested, row.investment, -row.amount))
  }

  function DoAll(o: Owned, b: Book, ops: seq<Op>): Book
    decreases |ops|
  {
    if ops == [] then b else DoAll(o, Do(o, b, ops[0]), ops[1..])
  }

  // ----- the pairs -----

  /** Both legs of one transfer. */
  ghost predicate Legs(r: Row, s: Row) {
    && r.pair == Some(s.id) && s.pair == Some(r.id)
    && ((r.kind.TransferOut? && s.kind.TransferIn?) || (r.kind.TransferIn? && s.kind.TransferOut?))
    && r.amount == s.amount && r.at == s.at && r.slate == s.slate && r.description == s.description && r.note == s.note
    && r.linked == Some(s.account) && s.linked == Some(r.account)
    && r.investment.None? && s.investment.None?
  }

  ghost predicate HasLeg(rows: seq<Row>, r: Row) { exists s :: s in rows && Legs(r, s) }

  /** What a row's kind says about its fields. */
  ghost predicate ShapeOk(o: Owned, b: Book, r: Row) {
    && r.id < b.nextId
    && Has(o, r.account)
    && (r.kind.TransferIn? ==> r.pair.Some?)
    && (r.kind.TransferOut? ==> r.pair.Some? || (r.investment.Some? && r.investment.value < |b.invested|))
    && (!r.kind.TransferIn? && !r.kind.TransferOut? ==> r.pair.None? && r.investment.None?)
    && !r.kind.Writeoff?
  }

  ghost predicate RowOk(o: Owned, b: Book, r: Row) { ShapeOk(o, b, r) && (r.pair.Some? ==> HasLeg(b.rows, r)) }

  ghost predicate UniqueIds(rows: seq<Row>) { forall i, j :: 0 <= i < j < |rows| ==> rows[i].id != rows[j].id }

  ghost predicate Invariant(o: Owned, b: Book) {
    && UniqueIds(b.rows)
    && forall r :: r in b.rows ==> RowOk(o, b, r)
  }

  lemma {:induction false} SameId(rows: seq<Row>, r: Row, s: Row)
    requires UniqueIds(rows) && r in rows && s in rows && r.id == s.id
    ensures r == s
  {
    var i :| 0 <= i < |rows| && rows[i] == r;
    var j :| 0 <= j < |rows| && rows[j] == s;
  }

  /** The leg of a row, and nobody else points at the row. */
  lemma {:induction false} OnlyLeg(o: Owned, b: Book, r: Row) returns (leg: Row)
    requires Invariant(o, b) && r in b.rows && r.pair.Some?
    ensures leg in b.rows && Legs(r, leg) && leg.id != r.id
    ensures forall s :: s in b.rows && s.pair == Some(r.id) ==> s == leg
  {
    hide ShapeOk, UniqueIds;
    assert RowOk(o, b, r);
    leg :| leg in b.rows && Legs(r, leg);
    if leg.id == r.id { SameId(b.rows, r, leg); }
    forall s | s in b.rows && s.pair == Some(r.id) ensures s == leg {
      assert RowOk(o, b, s);
      var t :| t in b.rows && Legs(s, t);
      SameId(b.rows, t, r);
      SameId(b.rows, s, leg);
    }
  }

  lemma {:induction false} NoLeg(o: Owned, b: Book, r: Row)
    requires Invariant(o, b) && r in b.rows && r.pair.None?
    ensures forall s :: s in b.rows ==> s.pair != Some(r.id)
  {
    hide ShapeOk, UniqueIds;
    forall s | s in b.rows ensures s.pair != Some(r.id) {
      assert RowOk(o, b, s);
      if s.pair == Some(r.id) {
        var t :| t in b.rows && Legs(s, t);
        SameId(b.rows, t, r);
      }
    }
  }

  // ----- creating -----

  lemma {:induction false} AppendKeeps(o: Owned, b: Book, b': Book, r: Row)
    requires Invariant(o, b) && b'.rows == b.rows + [r] && r.id == b.nextId && b'.nextId == r.id + 1
    requires |b'.invested| == |b.invested| && ShapeOk(o, b', r) && r.pair.None?
    ensures Invariant(o, b')
  {
    forall s | s in b.rows ensures RowOk(o, b', s) {
      assert RowOk(o, b, s);
    }
    assert forall i :: 0 <= i < |b.rows| ==> b'.rows[i] in b.rows && RowOk(o, b, b'.rows[i]);
  }

  lemma {:induction false} TransferKeeps(o: Owned, b: Book, n: New, linked: int)
    requires Invariant(o, b) && Has(o, n.account) && Has(o, linked)
    ensures Invariant(o, b.(rows := b.rows + [OutRow(o, b.nextId, n, linked), InRow(o, b.nextId, n, linked)],
        nextId := b.nextId + 2))
  {
    hide Has, Slate;
    var debit, credit := OutRow(o, b.nextId, n, linked), InRow(o, b.nextId, n, linked);
    var b' := b.(rows := b.rows + [debit, credit], nextId := b.nextId + 2);
    assert debit in b'.rows && credit in b'.rows;
    assert Legs(debit, credit) && Legs(credit, debit);
    forall s | s in b'.rows ensures RowOk(o, b', s) {
      if s in b.rows {
        assert RowOk(o, b, s);
      }
    }
    assert forall i :: 0 <= i < |b.rows| ==> b'.rows[i] in b.rows && RowOk(o, b, b'.rows[i]);
  }

  // ----- editing -----

  lemma {:induction false} LegsEdited(o: Owned, r: Row, s: Row, e: Edit)
    requires Legs(r, s) && (e.kind.None? || e.kind.value == r.kind)
    ensures Legs(MainEdit(o, r, e), PairEdit(o, s, e)) && Legs(PairEdit(o, s, e), MainEdit(o, r, e))
  {
  }

  /** Which rows an edit of `r` touches: the row itself and its leg. */
  lemma {:induction false} EditTouches(o: Owned, b: Book, r: Row, e: Edit, s: Row)
    requires Invariant(o, b) && r in b.rows && s in b.rows
    ensures s == r ==> Edited(o, s, r.id, e) == MainEdit(o, r, e)
    ensures s != r && s.pair == Some(r.id) ==> Edited(o, s, r.id, e) == PairEdit(o, s, e)
    ensures s != r && s.pair != Some(r.id) ==> Edited(o, s, r.id, e) == s
  {
    hide Has, ShapeOk, UniqueIds, MainEdit, PairEdit;
    if s != r && s.id == r.id { SameId(b.rows, r, s); }
    if r.pair.Some? { var leg := OnlyLeg(o, b, r); }
    MainKeepsPair(o, r, e);
  }

  lemma {:induction false} MainKeepsPair(o: Owned, r: Row, e: Edit)
    ensures MainEdit(o, r, e).pair == r.pair
    ensures EditOk(o, r, e) && r.kind.TransferOut? ==>
              Effect(r) == -r.amount && Effect(MainEdit(o, r, e)) == -MainEdit(o, r, e).amount
  {
  }

  /** An edit the handler accepts: the kind of a transfer stays, and a new account is the user's. */
  ghost predicate EditOk(o: Owned, r: Row, e: Edit) {
    && (e.account.Some? ==> Has(o, e.account.value))
    && (e.kind.Some? && e.kind.value != r.kind ==> Received(r.kind) && Received(e.kind.value))
  }

  lemma {:induction false} AcceptedEdit(o: Owned, r: Row, e: Edit)
    requires UpdateStatus(o, Some(r.kind), e) == 200
    ensures EditOk(o, r, e)
  {
  }

  lemma {:induction false} EditedShape(o: Owned, b: Book, r: Row, e: Edit, s: Row)
    requires ShapeOk(o, b, s) && EditOk(o, r, e)
    requires s == r || s.pair.Some?
    ensures ShapeOk(o, b, if s == r then MainEdit(o, s, e) else PairEdit(o, s, e))
  {
    hide Has, Slate;
  }

  lemma {:induction false} EditKeepsRow(o: Owned, b: Book, r: Row, e: Edit, s: Row)
    requires Invariant(o, b) && r in b.rows && EditOk(o, r, e) && s in b.rows
    ensures RowOk(o, b.(rows := EditRows(o, b.rows, r.id, e)), Edited(o, s, r.id, e))
  {
    hide Has, UniqueIds, ShapeOk, MainEdit, PairEdit, Edited, EditRows, Received;
    var rows' := EditRows(o, b.rows, r.id, e);
    var b' := b.(rows := rows');
    var s' := Edited(o, s, r.id, e);
    assert RowOk(o, b, s) && RowOk(o, b, r);
    EditTouches(o, b, r, e, s);
    if s == r || s.pair == Some(r.id) { EditedShape(o, b, r, e, s); }
    SameShape(o, b, b', s');
    KeepsPair(o, s, r.id, e);
    if s.pair.Some? {
      var leg := OnlyLeg(o, b, s);
      EditTouches(o, b, r, e, leg);
      assert Edited(o, leg, r.id, e) in rows';
      if s == r {
        TransferKind(s, leg);
        LegsEdited(o, s, leg, e);
      } else if leg == r {
        TransferKind(leg, s);
        LegsEdited(o, leg, s, e);
      } else if s.pair == Some(r.id) {
        SameId(b.rows, leg, r);
      } else if leg.pair == Some(r.id) {
        SameId(b.rows, s, r);
      }
      assert Legs(s', Edited(o, leg, r.id, e));
    }
  }

  lemma {:induction false} KeepsPair(o: Owned, s: Row, id: nat, e: Edit)
    ensures Edited(o, s, id, e).pair == s.pair && Edited(o, s, id, e).id == s.id
  {
  }

  lemma {:induction false} TransferKind(r: Row, s: Row)
    requires Legs(r, s)
    ensures !Received(r.kind)
  {
  }

  lemma {:induction false} SameShape(o: Owned, b: Book, b': Book, r: Row)
    requires b'.nextId == b.nextId && |b'.invested| == |b.invested|
    ensures ShapeOk(o, b, r) <==> ShapeOk(o, b', r)
  {
  }

  lemma {:induction false} UpdateKeeps(o: Owned, b: Book, b': Book, r: Row, e: Edit)
    requires Invariant(o, b) && r in b.rows && EditOk(o, r, e)
    requires b'.rows == EditRows(o, b.rows, r.id, e) && b'.nextId == b.nextId && |b'.invested| == |b.invested|
    ensures Invariant(o, b')
  {
    hide Has, ShapeOk, Edited, EditRows, RowOk, EditOk;
    forall s' | s' in b'.rows ensures RowOk(o, b', s') {
      var s :| s in b.rows && s' == Edited(o, s, r.id, e);
      EditKeepsRow(o, b, r, e, s);
      SameRowOk(o, b.(rows := b'.rows), b', s');
    }
    forall i, j | 0 <= i < j < |b'.rows| ensures b'.rows[i].id != b'.rows[j].id {
      KeepsPair(o, b.rows[i], r.id, e);
      KeepsPair(o, b.rows[j], r.id, e);
    }
  }

  lemma {:induction false} SameRowOk(o: Owned, b: Book, b': Book, r: Row)
    requires b'.rows == b.rows && b'.nextId == b.nextId && |b'.invested| == |b.invested|
    ensures RowOk(o, b, r) <==> RowOk(o, b', r)
  {
  }

  // ----- deleting -----

  lemma {:induction false} WithoutMembers(rows: seq<Row>, id: nat)
    ensures forall r :: r in Without(rows, id) <==> r in rows && r.id != id
  {
    if rows != [] {
      var n := |rows| - 1;
      WithoutMembers(rows[..n], id);
      assert rows == rows[..n] + [rows[n]];
    }
  }

  lemma {:induction false} WithoutUnique(rows: seq<Row>, id: nat)
    requires UniqueIds(rows)
    ensures UniqueIds(Without(rows, id))
  {
    if rows != [] {
      var n := |rows| - 1;
      var front := Without(rows[..n], id);
      WithoutUnique(rows[..n], id);
      WithoutMembers(rows[..n], id);
      forall i | 0 <= i < |front| ensures front[i].id != rows[n].id { assert front[i] in rows[..n]; }
    }
  }

  /** Rows go in whole transfers: a row and the one it is paired with. */
  lemma {:induction false} DeleteKeeps(o: Owned, b: Book, b': Book, r: Row)
    requires Invariant(o, b) && r in b.rows && b'.nextId == b.nextId && |b'.invested| == |b.invested|
    requires b'.rows == if r.pair.Some? then Without(Without(b.rows, r.id), r.pair.value) else Without(b.rows, r.id)
    ensures Invariant(o, b')
  {
    hide Has, ShapeOk, UniqueIds, Without;
    WithoutMembers(b.rows, r.id);
    WithoutUnique(b.rows, r.id);
    if r.pair.Some? {
      WithoutMembers(Without(b.rows, r.id), r.pair.value);
      WithoutUnique(Without(b.rows, r.id), r.pair.value);
    }
    forall s | s in b'.rows ensures RowOk(o, b', s) {
      assert RowOk(o, b, s);
      SameShape(o, b, b', s);
      if s.pair.Some? {
        var leg := OnlyLeg(o, b, s);
        if leg.id == r.id {
          SameId(b.rows, leg, r);
        } else if r.pair == Some(leg.id) {
          var mate := OnlyLeg(o, b, leg);
        }
        assert leg in b'.rows;
      }
    }
  }

  // ----- every run -----

  lemma {:induction false} FoundRow(b: Book, id: nat) returns (r: Row)
    requires KindAt(b.rows, id).Some?
    ensures r in b.rows && r.id == id && r == b.rows[FirstAt(b.rows, id).value] && KindAt(b.rows, id) == Some(r.kind)
  {
    r := b.rows[FirstAt(b.rows, id).value];
  }

  lemma {:induction false} StepKeepsInvariant(o: Owned, b: Book, op: Op)
    requires Invariant(o, b)
    ensures Invariant(o, Do(o, b, op))
  {
    hide Invariant, Has, EditRows, Without, FirstAt, KindAt, EditOk, RowOk, Legs;
    var b' := Do(o, b, op);
    match op
    case Plain(n, _) => if CreateStatus(o, b, op) == 201 { AppendKeeps(o, b, b', b'.rows[|b.rows|]); }
    case IntoInvestment(n, _) => if CreateStatus(o, b, op) == 201 { AppendKeeps(o, b, b', b'.rows[|b.rows|]); }
    case Transfer(n, linked) => if CreateStatus(o, b, op) == 201 { TransferKeeps(o, b, n, linked.value); }
    case Update(id, e) =>
      if UpdateStatus(o, KindAt(b.rows, id), e) == 200 {
        var r := FoundRow(b, id);
        AcceptedEdit(o, r, e);
        UpdateKeeps(o, b, b', r, e);
      }
    case Delete(id) =>
      if DeleteStatus(KindAt(b.rows, id)) == 200 {
        var r := FoundRow(b, id);
        DeleteKeeps(o, b, b', r);
      }
  }

  /** Over any run of the handlers, refused calls included, each leg of a transfer
      has its one other leg: same amount, time, slate and words, crossed accounts. */
  lemma {:induction false} RunKeepsPairs(o: Owned, b: Book, ops: seq<Op>)
    requires Invariant(o, b)
    ensures Invariant(o, DoAll(o, b, ops))
    decreases |ops|
  {
    hide Invariant, Do;
    if ops != [] {
      StepKeepsInvariant(o, b, ops[0]);
      RunKeepsPairs(o, Do(o, b, ops[0]), ops[1..]);
    }
  }

  // ----- the money -----

  function Effect(r: Row): real {
    match r.kind
    case Income => r.amount
    case Refund => r.amount
    case TransferIn => r.amount
    case LendRepayment => r.amount
    case Expense => -r.amount
    case TransferOut => -r.amount
    case Lend => -r.amount
    case Writeoff => 0.0
  }

  function Net(rows: seq<Row>): real { if rows == [] then 0.0 else Net(rows[..|rows| - 1]) + Effect(rows[|rows| - 1]) }

  function Sum(xs: seq<real>): real { if xs == [] then 0.0 else Sum(xs[..|xs| - 1]) + xs[|xs| - 1] }

  /** One account's rows, as the balance reads them. */
  function RowsOf(rows: seq<Row>, account: int): seq<Txn> {
    if rows == [] then []
    else
      var last := rows[|rows| - 1];
      RowsOf(rows[..|rows| - 1], account) + if last.account == account then [Txn(last.kind, last.amount, last.at)]
          else []
  }

  /** The sum of all account balances. */
  function Balances(accounts: seq<Account>, rows: seq<Row>): real {
    if accounts == [] then 0.0
    else
      var last := accounts[|accounts| - 1];
      Balances(accounts[..|accounts| - 1], rows) + ComputeBalance(last.opening, RowsOf(rows, last.id))
  }

  function Openings(accounts: seq<Account>): real {
    if accounts == [] then 0.0 else Openings(accounts[..|accounts| - 1]) + accounts[|accounts| - 1].opening
  }

  lemma {:induction false} BalanceAppend(opening: real, ledger: seq<Txn>, r: Row)
    ensures ComputeBalance(opening, ledger + [Txn(r.kind, r.amount, r.at)]) == ComputeBalance(opening, ledger)
        + Effect(r)
  {
    assert (ledger + [Txn(r.kind, r.amount, r.at)])[..|ledger|] == ledger;
  }

  ghost predicate Distinct(accounts: seq<Account>) {
    forall i, j :: 0 <= i < j < |accounts| ==> accounts[i].id != accounts[j].id
  }

  predicate Among(accounts: seq<Account>, account: int) { exists k :: 0 <= k < |accounts| && accounts[k].id == account }

  /** One more row moves the sum by its effect, once. */
  lemma {:induction false} BalancesAppend(accounts: seq<Account>, rows: seq<Row>, r: Row)
    requires Distinct(accounts)
    ensures Balances(accounts, rows + [r]) == Balances(accounts, rows) + if Among(accounts, r.account) then Effect(r)
        else 0.0
  {
    hide ComputeBalance, Effect, Among;
    if accounts == [] {
      AmongLast(accounts, r.account);
    } else {
      var n := |accounts| - 1;
      var front, last := accounts[..n], accounts[n];
      BalancesAppend(front, rows, r);
      assert (rows + [r])[..|rows|] == rows;
      BalanceAppend(last.opening, RowsOf(rows, last.id), r);
      assert RowsOf(rows + [r], last.id)
             == if r.account == last.id then RowsOf(rows, last.id) + [Txn(r.kind, r.amount, r.at)]
                 else RowsOf(rows, last.id);
      AmongLast(accounts, r.account);
    }
  }

  lemma {:induction false} AmongLast(accounts: seq<Account>, account: int)
    requires Distinct(accounts)
    ensures accounts == [] ==> !Among(accounts, account)
    ensures accounts != [] ==>
            var n := |accounts| - 1;
            && Among(accounts, account) == (Among(accounts[..n], account) || accounts[n].id == account)
            && !(Among(accounts[..n], account) && accounts[n].id == account)
  {
    if accounts != [] {
      var n := |accounts| - 1;
      assert forall k :: 0 <= k < n ==> accounts[k] == accounts[..n][k];
      if Among(accounts[..n], account) {
        var k :| 0 <= k < n && accounts[..n][k].id == account;
        assert accounts[k].id == account;
      }
    }
  }

  /** Every row counts in exactly one balance. */
  lemma {:induction false} BalancesAreNet(accounts: seq<Account>, rows: seq<Row>)
    requires Distinct(accounts) && forall r :: r in rows ==> Among(accounts, r.account)
    ensures Balances(accounts, rows) == Openings(accounts) + Net(rows)
  {
    hide Effect, Distinct, Among, Balances, Openings;
    if rows == [] {
      OnlyOpenings(accounts);
    } else {
      var n := |rows| - 1;
      BalancesAreNet(accounts, rows[..n]);
      BalancesAppend(accounts, rows[..n], rows[n]);
      assert rows[..n] + [rows[n]] == rows;
    }
  }

  lemma {:induction false} OnlyOpenings(accounts: seq<Account>)
    ensures Balances(accounts, []) == Openings(accounts)
  {
    if accounts != [] { OnlyOpenings(accounts[..|accounts| - 1]); }
  }

  lemma {:induction false} NetAppend(rows: seq<Row>, r: Row)
    ensures Net(rows + [r]) == Net(rows) + Effect(r)
  {
    assert (rows + [r])[..|rows|] == rows;
  }

  lemma {:induction false} NetReplace(rows: seq<Row>, i: nat, r: Row)
    requires i < |rows|
    ensures Net(rows[i := r]) == Net(rows) - Effect(rows[i]) + Effect(r)
  {
    hide Effect;
    var n := |rows| - 1;
    if i < n {
      NetReplace(rows[..n], i, r);
      assert rows[i := r][..n] == rows[..n][i := r];
    } else {
      assert rows[i := r][..n] == rows[..n];
    }
  }

  lemma {:induction false} NetWithout(rows: seq<Row>, r: Row)
    requires UniqueIds(rows) && r in rows
    ensures Net(Without(rows, r.id)) == Net(rows) - Effect(r)
  {
    hide Effect, UniqueIds;
    var n := |rows| - 1;
    var front, last := rows[..n], rows[n];
    FrontUnique(rows);
    if last.id == r.id {
      SameId(rows, last, r);
      WithoutNone(front, r.id);
      assert Without(rows, r.id) == front;
    } else {
      assert r in front;
      NetWithout(front, r);
      NetAppend(Without(front, r.id), last);
    }
  }

  lemma {:induction false} FrontUnique(rows: seq<Row>)
    requires UniqueIds(rows) && rows != []
    ensures UniqueIds(rows[..|rows| - 1])
    ensures forall s :: s in rows[..|rows| - 1] ==> s.id != rows[|rows| - 1].id
  {
  }

  lemma {:induction false} WithoutNone(rows: seq<Row>, id: nat)
    requires forall s :: s in rows ==> s.id != id
    ensures Without(rows, id) == rows
  {
    if rows != [] { WithoutNone(rows[..|rows| - 1], id); }
  }

  lemma {:induction false} ShiftSum(xs: seq<real>, i: Option<nat>, delta: real)
    requires i.Some? ==> i.value < |xs|
    ensures Sum(Shift(xs, i, delta)) == Sum(xs) + if i.Some? then delta else 0.0
  {
    if i.Some? { SumReplace(xs, i.value, xs[i.value] + delta); }
  }

  lemma {:induction false} SumReplace(xs: seq<real>, i: nat, x: real)
    requires i < |xs|
    ensures Sum(xs[i := x]) == Sum(xs) - xs[i] + x
  {
    var n := |xs| - 1;
    if i < n {
      SumReplace(xs[..n], i, x);
      assert xs[i := x][..n] == xs[..n][i := x];
    } else {
      assert xs[i := x][..n] == xs[..n];
    }
  }

  /** Account balances and invested amounts together. */
  function Worth(o: Owned, b: Book): real { Balances(o.accounts, b.rows) + Sum(b.invested) }

  /** What a call that is not about a transfer moves in or out. */
  function FromOutside(o: Owned, b: Book, op: Op): real {
    match op
    case Plain(n, kind) => if CreateStatus(o, b, op) == 201 then Effect(PlainRow(o, b.nextId, n, kind)) else 0.0
    case Transfer(_, _) => 0.0
    case IntoInvestment(_, _) => 0.0
    case Update(id, e) =>
      var at := FirstAt(b.rows, id);
      if UpdateStatus(o, KindAt(b.rows, id), e) != 200 || IsTransfer(b.rows[at.value]) then 0.0
      else Effect(MainEdit(o, b.rows[at.value], e)) - Effect(b.rows[at.value])
    case Delete(id) =>
      var at := FirstAt(b.rows, id);
      if DeleteStatus(KindAt(b.rows, id)) != 200 || IsTransfer(b.rows[at.value]) then 0.0 else -Effect(b.rows[at.value])
  }

  predicate IsTransfer(r: Row) { r.kind.TransferIn? || r.kind.TransferOut? }

  /** No transfer, whether created, edited or deleted, changes what the user has: moves
      between accounts leave the sum of the balances, and payments into investments
      leave balances and invested amounts together. Everything else moves it by
      exactly the row it writes. */
  lemma {:induction false} StepMovesOnlyFromOutside(o: Owned, b: Book, op: Op)
    requires Invariant(o, b) && Distinct(o.accounts)
    ensures Worth(o, Do(o, b, op)) == Worth(o, b) + FromOutside(o, b, op)
    ensures op.Transfer? || (op.Update? && IsPaired(b, op.id)) || (op.Delete? && IsPaired(b, op.id)) ==>
              Balances(o.accounts, Do(o, b, op).rows) == Balances(o.accounts, b.rows)
  {
    hide Has, Legs, HasLeg, ShapeOk, UniqueIds, Distinct, Balances, Sum, Net, Effect, EditRows, Without, FirstAt,
        KindAt, MainEdit;
    StepKeepsInvariant(o, b, op);
    InvariantBalances(o, b);
    InvariantBalances(o, Do(o, b, op));
    match op
    case Plain(_, _) => CreateMoves(o, b, op);
    case Transfer(_, _) => CreateMoves(o, b, op);
    case IntoInvestment(_, _) => CreateMoves(o, b, op);
    case Update(id, e) => UpdateMoves(o, b, id, e);
    case Delete(id) => DeleteMoves(o, b, id);
  }

  predicate IsPaired(b: Book, id: nat) {
    var at := FirstAt(b.rows, id);
    at.Some? && b.rows[at.value].pair.Some?
  }

  lemma {:induction false} InvariantBalances(o: Owned, b: Book)
    requires Invariant(o, b) && Distinct(o.accounts)
    ensures Balances(o.accounts, b.rows) == Openings(o.accounts) + Net(b.rows)
  {
    forall r | r in b.rows ensures Among(o.accounts, r.account) { assert RowOk(o, b, r); }
    BalancesAreNet(o.accounts, b.rows);
  }

  lemma {:induction false} CreateMoves(o: Owned, b: Book, op: Op)
    requires op.Plain? || op.Transfer? || op.IntoInvestment?
    ensures var b' := Do(o, b, op);
            && Net(b'.rows) + Sum(b'.invested) == Net(b.rows) + Sum(b.invested) + FromOutside(o, b, op)
            && (op.Transfer? ==> Net(b'.rows) == Net(b.rows))
  {
    hide Has, Net, Sum;
    if CreateStatus(o, b, op) == 201 {
      match op
      case Plain(n, kind) => NetAppend(b.rows, PlainRow(o, b.nextId, n, kind));
      case Transfer(n, linked) =>
        var debit, credit := OutRow(o, b.nextId, n, linked.value), InRow(o, b.nextId, n, linked.value);
        NetAppend(b.rows, debit);
        NetAppend(b.rows + [debit], credit);
        assert b.rows + [debit] + [credit] == b.rows + [debit, credit];
      case IntoInvestment(n, investment) =>
        NetAppend(b.rows, InvestmentRow(o, b.nextId, n, investment));
        ShiftSum(b.invested, Some(investment), n.amount);
    }
  }

  lemma {:induction false} LegsCancel(r: Row, s: Row)
    requires Legs(r, s)
    ensures Effect(r) + Effect(s) == 0.0
  {
  }

  /** An accepted edit of a row: what happens to the sum of all effects. */
  lemma {:induction false} EditNet(o: Owned, b: Book, r: Row, e: Edit)
    requires Invariant(o, b) && r in b.rows && EditOk(o, r, e)
    ensures Net(EditRows(o, b.rows, r.id, e))
            == Net(b.rows) + if r.pair.Some? then 0.0 else Effect(MainEdit(o, r, e)) - Effect(r)
  {
    hide Has, ShapeOk, UniqueIds, MainEdit, PairEdit, Edited, Effect, Net, Legs, HasLeg, Received;
    var rows := b.rows;
    var i :| 0 <= i < |rows| && rows[i] == r;
    forall k | 0 <= k < |rows| ensures rows[k] in rows && (k != i ==> rows[k] != r) {
      Apart(rows, i, k);
    }
    forall k | 0 <= k < |rows| { EditTouches(o, b, r, e, rows[k]); }
    NetReplace(rows, i, MainEdit(o, r, e));
    if r.pair.None? {
      NoLeg(o, b, r);
      assert EditRows(o, rows, r.id, e) == rows[i := MainEdit(o, r, e)];
    } else {
      var leg := OnlyLeg(o, b, r);
      LegPoints(r, leg);
      var j :| 0 <= j < |rows| && rows[j] == leg;
      forall k | 0 <= k < |rows| && k != j ensures rows[k] != leg { Apart(rows, j, k); }
      assert EditRows(o, rows, r.id, e) == rows[i := MainEdit(o, r, e)][j := PairEdit(o, leg, e)];
      NetReplace(rows[i := MainEdit(o, r, e)], j, PairEdit(o, leg, e));
      TransferEdited(o, r, leg, e);
    }
  }

  lemma {:induction false} Apart(rows: seq<Row>, i: nat, k: nat)
    requires UniqueIds(rows) && i < |rows| && k < |rows|
    ensures k != i ==> rows[k] != rows[i]
  {
  }

  lemma {:induction false} LegPoints(r: Row, leg: Row)
    requires Legs(r, leg)
    ensures leg.pair == Some(r.id)
  {
  }

  lemma {:induction false} TransferEdited(o: Owned, r: Row, leg: Row, e: Edit)
    requires Legs(r, leg) && EditOk(o, r, e)
    ensures Effect(r) + Effect(leg) == 0.0 && Effect(MainEdit(o, r, e)) + Effect(PairEdit(o, leg, e)) == 0.0
  {
    hide Effect, MainEdit, PairEdit;
    TransferKind(r, leg);
    LegsEdited(o, r, leg, e);
    LegsCancel(r, leg);
    LegsCancel(MainEdit(o, r, e), PairEdit(o, leg, e));
  }

  lemma {:induction false} UpdateMoves(o: Owned, b: Book, id: nat, e: Edit)
    requires Invariant(o, b)
    ensures var b' := Do(o, b, Update(id, e));
            && Net(b'.rows) + Sum(b'.invested) == Net(b.rows) + Sum(b.invested) + FromOutside(o, b, Update(id, e))
            && (IsPaired(b, id) ==> Net(b'.rows) == Net(b.rows))
  {
    hide Has, UniqueIds, HasLeg, EditRows, MainEdit, Effect, Net, Sum, FirstAt, Legs;
    if UpdateStatus(o, KindAt(b.rows, id), e) == 200 {
      var r := FoundRow(b, id);
      var i := FirstAt(b.rows, id).value;
      AcceptedEdit(o, r, e);
      EditNet(o, b, r, e);
      assert RowOk(o, b, r);
      var r' := EditRows(o, b.rows, id, e)[i];
      EditTouches(o, b, r, e, r);
      assert r' == MainEdit(o, r, e);
      if r.investment.Some? && r.pair.Some? { PairedHasNoInvestment(o, b, r); }
      ShiftSum(b.invested, r.investment, r'.amount - r.amount);
      MainKeepsPair(o, r, e);
    }
  }

  lemma {:induction false} PairedHasNoInvestment(o: Owned, b: Book, r: Row)
    requires Invariant(o, b) && r in b.rows && r.pair.Some?
    ensures r.investment.None?
  {
    var leg := OnlyLeg(o, b, r);
  }

  lemma {:induction false} DeleteMoves(o: Owned, b: Book, id: nat)
    requires Invariant(o, b)
    ensures var b' := Do(o, b, Delete(id));
            && Net(b'.rows) + Sum(b'.invested) == Net(b.rows) + Sum(b.invested) + FromOutside(o, b, Delete(id))
            && (IsPaired(b, id) ==> Net(b'.rows) == Net(b.rows))
  {
    hide Has, UniqueIds, HasLeg, Without, Net, Sum, FirstAt;
    if DeleteStatus(KindAt(b.rows, id)) == 200 {
      var r := FoundRow(b, id);
      assert RowOk(o, b, r);
      NetWithout(b.rows, r);
      if r.pair.Some? {
        var leg := OnlyLeg(o, b, r);
        WithoutUnique(b.rows, r.id);
        WithoutMembers(b.rows, r.id);
        NetWithout(Without(b.rows, r.id), leg);
        LegsCancel(r, leg);
      }
      ShiftSum(b.invested, r.investment, -r.amount);
    }
  }

  /** Both legs go at once. */
  lemma {:induction false} DeleteTakesBothLegs(o: Owned, b: Book, id: nat)
    requires Invariant(o, b) && IsPaired(b, id)
    ensures forall r :: r in Do(o, b, Delete(id)).rows ==> r.id != id && r.pair != Some(id)
    ensures |Do(o, b, Delete(id)).rows| + 2 == |b.rows|
  {
    hide Has, UniqueIds, HasLeg, Without, FirstAt, ShapeOk;
    var r := FoundRow(b, id);
    assert RowOk(o, b, r);
    var leg := OnlyLeg(o, b, r);
    WithoutMembers(b.rows, id);
    WithoutUnique(b.rows, id);
    WithoutMembers(Without(b.rows, id), leg.id);
    WithoutOne(b.rows, r);
    WithoutOne(Without(b.rows, id), leg);
  }

  lemma {:induction false} WithoutOne(rows: seq<Row>, r: Row)
    requires UniqueIds(rows) && r in rows
    ensures |Without(rows, r.id)| == |rows| - 1
  {
    var n := |rows| - 1;
    if rows[n].id == r.id {
      SameId(rows, rows[n], r);
      assert forall s :: s in rows[..n] ==> s.id != r.id;
      WithoutNone(rows[..n], r.id);
    } else {
      assert r in rows[..n];
      WithoutOne(rows[..n], r);
    }
  }

  /** Both legs of the transfer a row belongs to lie on one account. */
  ghost predicate Folded(rows: seq<Row>, id: nat) {
    exists r, leg :: r in rows && leg in rows && r.id == id && Legs(r, leg) && r.account == leg.account
  }

  lemma {:induction false} EditedRowsFoldIff(o: Owned, b: Book, r: Row, e: Edit)
    requires Invariant(o, b) && r in b.rows && r.pair.Some? && EditOk(o, r, e)
    ensures Folded(EditRows(o, b.rows, r.id, e), r.id) <==> r.linked == Some(OrElse(e.account, r.account))
  {
    hide Has, UniqueIds, ShapeOk, EditRows, Edited, Legs, EditOk;
    var b' := b.(rows := EditRows(o, b.rows, r.id, e));
    var leg := OnlyLeg(o, b, r);
    EditTouches(o, b, r, e, r);
    LegPoints(r, leg);
    EditTouches(o, b, r, e, leg);
    var r', leg' := MainEdit(o, r, e), PairEdit(o, leg, e);
    EditedLegs(o, r, leg, e);
    assert r' in b'.rows && leg' in b'.rows;
    UpdateKeeps(o, b, b', r, e);
    var only := OnlyLeg(o, b', r');
    LegPoints(r', leg');
    assert leg' == only;
    forall s, t | s in b'.rows && t in b'.rows && s.id == r.id && Legs(s, t) ensures s == r' && t == leg' {
      SameId(b'.rows, s, r');
      LegPoints(r', t);
    }
  }

  /** An accepted edit leaves both legs on one account exactly when the account it asks
      for, or else the one that stays, is the row's linked account. */
  lemma {:induction false} EditFoldsIff(o: Owned, b: Book, id: nat, e: Edit)
    requires Invariant(o, b) && IsPaired(b, id) && UpdateStatus(o, KindAt(b.rows, id), e) == 200
    ensures var r := b.rows[FirstAt(b.rows, id).value];
            Folded(Do(o, b, Update(id, e)).rows, id)
            <==> r.linked == if e.account.Some? then e.account else Some(r.account)
  {
    hide Invariant, Folded, EditRows, EditOk, FirstAt;
    var r := FoundRow(b, id);
    AcceptedEdit(o, r, e);
    EditedRowsFoldIff(o, b, r, e);
  }

  lemma {:induction false} EditedLegs(o: Owned, r: Row, leg: Row, e: Edit)
    requires Legs(r, leg) && EditOk(o, r, e)
    ensures var r', leg' := MainEdit(o, r, e), PairEdit(o, leg, e);
            && Legs(r', leg') && r'.id == r.id && r'.pair.Some?
            && r'.account == OrElse(e.account, r.account) && leg'.account == leg.account
            && r.linked == Some(leg.account)
  {
    hide Has, Slate;
    TransferKind(r, leg);
    LegsEdited(o, r, leg, e);
  }

  /** For instance a fresh transfer, which a create would have refused on one account. */
  lemma {:induction false} EditCanFoldTransfer(o: Owned, from: int, to: int, amount: real)
    requires from != 0 && from != to && amount > 0.0 && Has(o, from) && Has(o, to)
    ensures var n := New(from, amount, 0, 0, "", "");
            var b := Do(o, Book([], 1, []), Transfer(n, Some(to)));
            var b' := Do(o, b, Update(1, Edit(Some(to), None, None, None, None, None, None)));
            |b'.rows| == 2 && b'.rows[0].account == to && b'.rows[1].account == to && Legs(b'.rows[0], b'.rows[1])
  {
    hide Has;
    var n := New(from, amount, 0, 0, "", "");
    var e := Edit(Some(to), None, None, None, None, None, None);
    var b := Do(o, Book([], 1, []), Transfer(n, Some(to)));
    assert b.rows == [OutRow(o, 1, n, to), InRow(o, 1, n, to)];
    assert b.rows[..1] == [OutRow(o, 1, n, to)] && b.rows[..1][..0] == [];
    assert FirstAt(b.rows[..1], 1) == Some(0);
    assert FirstAt(b.rows, 1) == Some(0);
    var rows := EditRows(o, b.rows, 1, e);
    assert rows[0] == Edited(o, b.rows[0], 1, e) && rows[1] == Edited(o, b.rows[1], 1, e);
  }

  // ----- which calls are accepted, and what they write -----

  /** A create is accepted exactly when account, slate, amount, kind and the other end are
      all usable. It answers 404 only for what is not the user's, and refused changes nothing. */
  lemma {:induction false} CreateAcceptedIff(o: Owned, b: Book, op: Op)
    requires op.Plain? || op.Transfer? || op.IntoInvestment?
    ensures CreateStatus(o, b, op) == 201
            <==> && op.n.account != 0 && Has(o, op.n.account) && op.n.amount > 0.0
                 && (op.n.slate == 0 || (op.n.slate in o.slates && op.n.slate !in o.archived))
                 && (op.Plain? ==> op.kind in {Expense, Income, Refund})
                 && (op.Transfer? ==> op.linked.Some? && Has(o, op.linked.value) && op.linked.value != op.n.account)
                 && (op.IntoInvestment? ==> op.investment < |b.invested|)
    ensures CreateStatus(o, b, op) != 201 ==> Do(o, b, op) == b && CreateStatus(o, b, op) in {400, 404}
    ensures CreateStatus(o, b, op) == 404 ==>
              || !Has(o, op.n.account) || (op.n.slate != 0 && op.n.slate !in o.slates)
              || (op.Transfer? && op.linked.Some? && !Has(o, op.linked.value))
              || (op.IntoInvestment? && op.investment >= |b.invested|)
  {
    hide Has;
  }

  /** What an accepted create writes, field by field: one row, both legs, or one row and
      the invested amount. */
  lemma {:induction false} CreateWrites(o: Owned, b: Book, op: Op)
    requires (op.Plain? || op.Transfer? || op.IntoInvestment?) && CreateStatus(o, b, op) == 201
    ensures var n, id, after := op.n, b.nextId, Do(o, b, op);
            var slate := if n.slate == 0 then o.plain else n.slate;
            match op
            case Plain(_, kind) =>
              after == Book(b.rows + [Row(id, n.account, kind, n.amount, n.at, slate, n.description, n.note,
                                          None, None, None)], id + 1, b.invested)
            case Transfer(_, linked) =>
              && linked.Some?
              && after == Book(b.rows + [Row(id, n.account, TransferOut, n.amount, n.at, slate, n.description, n.note,
                                             linked, Some(id + 1), None),
                                         Row(id + 1, linked.value, TransferIn, n.amount, n.at, slate, n.description,
                                             n.note, Some(n.account), Some(id), None)], id + 2, b.invested)
            case IntoInvestment(_, i) =>
              && i < |b.invested|
              && after == Book(b.rows + [Row(id, n.account, TransferOut, n.amount, n.at, slate, n.description, n.note,
                                             None, None, Some(i))], id + 1, b.invested[i := b.invested[i] + n.amount])
  {
    hide Has;
  }

  /** Which edits and deletes are accepted. */
  lemma {:induction false} ChangeAcceptedIff(o: Owned, kind: Kind, e: Edit)
    ensures UpdateStatus(o, Some(kind), e) == 200
            <==> && e.description != Some("")
                 && if kind in {LendRepayment, Writeoff} then
                      e.account.None? && e.amount.None? && e.at.None? && e.slate.None? && e.kind.None?
                    else
                      && kind != Lend
                      && (e.amount.Some? ==> e.amount.value > 0.0)
                      && (e.kind.Some? ==> e.kind.value == kind || {e.kind.value, kind} == {Income, Refund})
                      && (e.account.Some? ==> Has(o, e.account.value))
                      && (e.slate.Some? && e.slate.value != 0 ==>
                            e.slate.value in o.slates && e.slate.value !in o.archived)
    ensures UpdateStatus(o, None, e) == if e.description == Some("") then 400 else 404
    ensures DeleteStatus(Some(kind)) == (if kind in {Lend, LendRepayment, Writeoff} then 409 else 200)
    ensures DeleteStatus(None) == 404
  {
    hide Has;
    if e.kind.Some? && e.kind.value != kind && Received(kind) && Received(e.kind.value) {
      assert {e.kind.value, kind} == {Income, Refund};
    }
    if e.kind.Some? && {e.kind.value, kind} == {Income, Refund} {
      assert kind in {Income, Refund} && e.kind.value in {e.kind.value, kind};
    }
  }

  /** What an accepted edit makes of the k-th row: the row it names takes every field the
      edit gives, its other leg the same except that a new account is its linked account,
      and no other row moves. The investment follows the amount. */
  lemma {:induction false} EditWrites(o: Owned, b: Book, id: nat, e: Edit, k: nat)
    requires Invariant(o, b) && UpdateStatus(o, KindAt(b.rows, id), e) == 200 && k < |b.rows|
    ensures var r, after := b.rows[k], Do(o, b, Update(id, e));
            var amount := if e.amount.Some? then e.amount.value else r.amount;
            var at := if e.at.Some? then e.at.value else r.at;
            var slate := if e.slate.None? then r.slate else if e.slate.value == 0 then o.plain else e.slate.value;
            var description := if e.description.Some? then e.description.value else r.description;
            var note := if e.note.Some? then e.note.value else r.note;
            && |after.rows| == |b.rows| && after.nextId == b.nextId
            && after.rows[k] == (if r.id == id then
                                   Row(id, if e.account.Some? then e.account.value else r.account,
                                       if e.kind.Some? then e.kind.value else r.kind, amount, at, slate, description,
                                       note, r.linked, r.pair, r.investment)
                                 else if r.pair == Some(id) then
                                   Row(r.id, r.account, r.kind, amount, at, slate, description, note,
                                       if e.account.Some? then e.account else r.linked, r.pair, r.investment)
                                 else r)
            && (r.id == id ==>
                  var i := r.investment;
                  after.invested == if i.Some? && i.value < |b.invested| then
                                      b.invested[i.value := b.invested[i.value] + amount - r.amount]
                                    else b.invested)
  {
    hide Has, UniqueIds, ShapeOk, HasLeg, Legs;
    var r := b.rows[k];
    var named := FoundRow(b, id);
    EditTouches(o, b, named, e, r);
    if r.id == id { SameId(b.rows, r, named); }
    if named.pair.Some? { var leg := OnlyLeg(o, b, named); }
    EditTouches(o, b, named, e, named);
  }

  /** A delete leaves every row but the named one and its other leg, and takes its amount
      out of its investment. */
  lemma {:induction false} DeleteWrites(o: Owned, b: Book, id: nat, r: Row)
    requires Invariant(o, b) && r in b.rows && r.id == id && DeleteStatus(KindAt(b.rows, id)) == 200
    ensures var after := Do(o, b, Delete(id));
            && (forall s :: s in after.rows <==> s in b.rows && s.id != id && s.pair != Some(id))
            && after.invested == if r.investment.Some? && r.investment.value < |b.invested| then
                                   b.invested[r.investment.value := b.invested[r.investment.value] - r.amount]
                                 else b.invested
  {
    hide Has, UniqueIds, ShapeOk, HasLeg, Without, FirstAt;
    var named := FoundRow(b, id);
    SameId(b.rows, r, named);
    WithoutMembers(b.rows, id);
    if r.pair.Some? {
      WithoutMembers(Without(b.rows, id), r.pair.value);
      var leg := OnlyLeg(o, b, r);
      forall s | s in b.rows && s.id == leg.id ensures s == leg { SameId(b.rows, s, leg); }
    } else {
      NoLeg(o, b, r);
    }
  }

  /** Every row moves something and lies on a slate of the user's. */
  ghost predicate Sound(o: Owned, b: Book) {
    forall k :: 0 <= k < |b.rows| ==>
      b.rows[k].amount > 0.0 && (b.rows[k].slate == o.plain || b.rows[k].slate in o.slates)
  }

  lemma {:induction false} RunKeepsSound(o: Owned, b: Book, ops: seq<Op>)
    requires Sound(o, b) && Invariant(o, b)
    ensures Sound(o, DoAll(o, b, ops))
    decreases |ops|
  {
    hide Invariant, Do, Sound;
    if ops != [] {
      StepKeepsInvariant(o, b, ops[0]);
      StepKeepsSound(o, b, ops[0]);
      RunKeepsSound(o, Do(o, b, ops[0]), ops[1..]);
    }
  }

  lemma {:induction false} StepKeepsSound(o: Owned, b: Book, op: Op)
    requires Sound(o, b) && Invariant(o, b)
    ensures Sound(o, Do(o, b, op))
  {
    hide Has, Invariant, KindAt, FirstAt, EditRows;
    var after := Do(o, b, op);
    match op
    case Update(id, e) =>
      if UpdateStatus(o, KindAt(b.rows, id), e) == 200 {
        var r := FoundRow(b, id);
        ChangeAcceptedIff(o, r.kind, e);
        forall k | 0 <= k < |after.rows|
          ensures after.rows[k].amount > 0.0 && (after.rows[k].slate == o.plain || after.rows[k].slate in o.slates)
        {
          EditWrites(o, b, id, e, k);
        }
      }
    case Delete(id) =>
      forall k | 0 <= k < |after.rows|
        ensures after.rows[k].amount > 0.0 && (after.rows[k].slate == o.plain || after.rows[k].slate in o.slates)
      {
        StaysBehind(o, b, id, after.rows[k]);
      }
    case Plain(_, _) => if CreateStatus(o, b, op) == 201 { CreateWrites(o, b, op); CreateAcceptedIff(o, b, op); }
    case Transfer(_, _) => if CreateStatus(o, b, op) == 201 { CreateWrites(o, b, op); CreateAcceptedIff(o, b, op); }
    case IntoInvestment(_, _) =>
      if CreateStatus(o, b, op) == 201 { CreateWrites(o, b, op); CreateAcceptedIff(o, b, op); }
  }

  lemma {:induction false} StaysBehind(o: Owned, b: Book, id: nat, r: Row)
    requires r in Do(o, b, Delete(id)).rows
    ensures exists k :: 0 <= k < |b.rows| && b.rows[k] == r
  {
    hide FirstAt, Without;
    WithoutMembers(b.rows, id);
    if DeleteStatus(KindAt(b.rows, id)) == 200 {
      var named := FoundRow(b, id);
      if named.pair.Some? { WithoutMembers(Without(b.rows, id), named.pair.value); }
    }
    assert r in b.rows;
  }
}

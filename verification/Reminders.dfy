/**
 Task reminders of internal/api/reminders.go: a due row is claimed for five minutes,
 delivered, then stamped, or released when delivery failed.

 Sweeps and single fires run side by side on one clock, each SQL statement is one
 step, and a worker may die between steps. A reminder is not rescheduled while one
 of its deliveries is in flight.
 */
module Reminders {
  import opened Options

  const GRACE: int := 1800
  const LEASE: int := 300

  /** `multi`: a task_reminders row, else a task's own reminder. `open`: the task is
      not done or scratched (and, for its own reminder, remind is on). `arming`
      counts how often the row was rescheduled. */
  datatype Row = Row(multi: bool, open: bool, owner: bool, remindAt: int, sentAt: Option<int>,
                     claimedUntil: Option<int>, arming: nat)

  /** Due for delivery, whoever asks. */
  predicate Due(row: Row, now: int) {
    && row.sentAt.None?
    && (row.claimedUntil.None? || row.claimedUntil.value < now)
    && row.remindAt <= now <= row.remindAt + GRACE
  }

  predicate SweepDue(row: Row, now: int) { Due(row, now) && row.open && row.owner }

  /** A single fire looks at the owner, and for a multi-reminder at the task, only after it has claimed. */
  predicate FireDue(row: Row, now: int) { Due(row, now) && (row.multi || row.open) }

  function Claimed(row: Row, now: int): Row { row.(claimedUntil := Some(now + LEASE)) }

  function Released(row: Row): Row { row.(claimedUntil := None) }

  function Stamped(row: Row, now: int): Row { row.(sentAt := Some(now), claimedUntil := None) }

  /** What a pass writes after the delivery attempt. */
  function Settled(row: Row, delivered: bool, now: int): Row {
    if delivered then Stamped(row, now) else Released(row)
  }

  lemma {:induction false} SettledForgetsClaim(row: Row, delivered: bool, now: int, at: int)
    ensures Settled(Claimed(row, at), delivered, now) == Settled(row, delivered, now)
  {
  }

  function DueIds(rows: map<nat, Row>, now: int): (due: set<nat>)
    ensures due <= rows.Keys
  {
    set id | id in rows && SweepDue(rows[id], now)
  }

  /** The table once the claims on `ids` have been worked off. */
  function Worked(rows: map<nat, Row>, ids: set<nat>, delivers: set<nat>, now: int): map<nat, Row> {
    map id | id in rows :: if id in ids then Settled(rows[id], id in delivers, now) else rows[id]
  }

  /** The table after an undisturbed sweep. */
  function Swept(rows: map<nat, Row>, delivers: set<nat>, now: int): map<nat, Row> {
    Worked(rows, DueIds(rows, now), delivers, now)
  }

  lemma {:induction false} WorkedStep(rows: map<nat, Row>, ids: set<nat>, delivers: set<nat>, now: int, id: nat)
    requires id in ids && id in rows
    ensures Worked(rows[id := Settled(rows[id], id in delivers, now)], ids - {id}, delivers, now)
        == Worked(rows, ids, delivers, now)
    ensures |ids * delivers| == |(ids - {id}) * delivers| + if id in delivers then 1 else 0
  {
    hide Settled;
    assert ids * delivers == (ids - {id}) * delivers + if id in delivers then {id} else {};
  }

  lemma {:induction false} WorkedForgetsClaims(rows: map<nat, Row>, claimed: map<nat, Row>, ids: set<nat>,
      delivers: set<nat>, now: int)
    requires claimed.Keys == rows.Keys
    requires forall id :: id in rows ==> claimed[id] == if id in ids then Claimed(rows[id], now) else rows[id]
    ensures Worked(claimed, ids, delivers, now) == Worked(rows, ids, delivers, now)
  {
    hide Settled, Claimed;
    forall id | id in rows
      ensures Worked(claimed, ids, delivers, now)[id] == Worked(rows, ids, delivers, now)[id]
    {
      SettledForgetsClaim(rows[id], id in delivers, now, now);
    }
  }

  lemma {:induction false} NothingToWork(rows: map<nat, Row>, delivers: set<nat>, now: int)
    ensures Worked(rows, {}, delivers, now) == rows
  {
  }

  /** A pass under way: `todo` is claimed, the rest of `pending` settled, all else as before. */
  ghost predicate Midway(before: map<nat, Row>, rows: map<nat, Row>, pending: set<nat>, todo: set<nat>,
      delivers: set<nat>, now: int) {
    && todo <= pending <= before.Keys == rows.Keys
    && forall id :: id in rows ==>
         rows[id] == if id in todo then Claimed(before[id], now)
                     else if id in pending then Settled(before[id], id in delivers, now)
                     else before[id]
  }

  lemma {:induction false} PassStep(before: map<nat, Row>, rows: map<nat, Row>, pending: set<nat>, todo: set<nat>,
      delivers: set<nat>, now: int, id: nat)
    requires Midway(before, rows, pending, todo, delivers, now) && id in todo
    ensures Midway(before, rows[id := Settled(rows[id], id in delivers, now)], pending, todo - {id}, delivers, now)
    ensures |(pending - (todo - {id})) * delivers| == |(pending - todo) * delivers| + if id in delivers then 1 else 0
  {
    hide Settled, Claimed;
    SettledForgetsClaim(before[id], id in delivers, now, now);
    var done := (pending - todo) * delivers;
    assert (pending - (todo - {id})) * delivers == if id in delivers then done + {id} else done;
  }

  lemma {:induction false} PassEnds(before: map<nat, Row>, rows: map<nat, Row>, pending: set<nat>, delivers: set<nat>,
      now: int)
    requires Midway(before, rows, pending, {}, delivers, now)
    ensures rows == Worked(before, pending, delivers, now)
  {
    hide Settled, Claimed;
  }

  // ----- the passes, run without interruption -----

  class Table {
    var rows: map<nat, Row>

    constructor (rows: map<nat, Row>)
      ensures this.rows == rows
    {
      this.rows := rows;
    }

    /** A claim keeps everybody else off its row until the lease is over, and only then is
        the row due again; no stamp, time or arming moves. */
    method ClaimDue(now: int) returns (pending: set<nat>)
      modifies this
      ensures rows.Keys == old(rows).Keys
      ensures pending == DueIds(old(rows), now)
      ensures forall id :: id in rows ==> rows[id] == if id in pending then Claimed(old(rows)[id], now)
          else old(rows)[id]
      ensures forall id, later :: id in pending ==>
          (Due(rows[id], later) <==> now + 300 < later <= rows[id].remindAt + 1800)
      ensures forall id :: id in rows ==> !SweepDue(rows[id], now)
      ensures forall id :: id in rows ==> rows[id].(claimedUntil := None) == old(rows)[id].(claimedUntil := None)
    {
      pending := DueIds(rows, now);
      rows := map id | id in rows :: if id in pending then Claimed(rows[id], now) else rows[id];
    }

    /** `delivers`: the rows whose delivery succeeds. Every due row ends stamped or free again, no other row moves. */
    method ProcessReminderCron(now: int, delivers: set<nat>) returns (sent: nat)
      modifies this
      ensures rows == Swept(old(rows), delivers, now)
      ensures sent == |DueIds(old(rows), now) * delivers|
    {
      hide DueIds, Due, SweepDue, Settled, Claimed, Worked;
      ghost var before := rows;
      var pending := ClaimDue(now);
      var todo := pending;
      sent := 0;
      assert (pending - todo) * delivers == {};
      while todo != {}
        invariant Midway(before, rows, pending, todo, delivers, now)
        invariant sent == |(pending - todo) * delivers|
        decreases todo
      {
        var id :| id in todo;
        PassStep(before, rows, pending, todo, delivers, now, id);
        rows := rows[id := Settled(rows[id], id in delivers, now)];
        todo := todo - {id};
        if id in delivers {
          sent := sent + 1;
        }
      }
      assert pending - todo == pending;
      PassEnds(before, rows, pending, delivers, now);
    }

    /** A fire for a row that is gone, not due or already claimed is a no-op. */
    method SendSingle(id: nat, now: int, delivers: bool) returns (sent: bool)
      modifies this
      ensures rows.Keys == old(rows).Keys
      ensures forall k :: k in rows && k != id ==> rows[k] == old(rows)[k]
      ensures sent == (id in old(rows) && FireDue(old(rows)[id], now) && old(rows)[id].open && old(rows)[id].owner
          && delivers)
      ensures id in rows ==>
                var row := old(rows)[id];
                rows[id] == if !FireDue(row, now) then row
                            else if !row.open || !row.owner then Claimed(row, now)
                            else Settled(row, delivers, now)
    {
      if id !in rows || !FireDue(rows[id], now) {
        return false;
      }
      rows := rows[id := Claimed(rows[id], now)];
      if !rows[id].open || !rows[id].owner {
        return false;
      }
      if !delivers {
        rows := rows[id := Released(rows[id])];
        return false;
      }
      sent := rows[id].sentAt.None?;
      if sent {
        rows := rows[id := Stamped(rows[id], now)];
      }
    }
  }

  // ----- workers side by side -----

  datatype Stage = Idle | Delivered(id: nat) | Failed(id: nat)

  /** A pass that holds claims: a single fire holds one, a sweep a batch. */
  datatype Worker = Worker(single: bool, claimedAt: int, pending: set<nat>, stage: Stage)

  datatype Delivery = Delivery(id: nat, arming: nat, remindAt: int, claimedAt: int, at: int)

  datatype Action =
    | Sweep(w: nat, ids: set<nat>)       // claims due rows; rows locked elsewhere are skipped
    | Fire(w: nat, id: nat)
    | Deliver(w: nat, id: nat)
    | Fail(w: nat, id: nat)
    | Write(w: nat)                      // stamp or release
    | WriteFails(w: nat)                 // the error is logged and the pass goes on
    | Die(w: nat)
    | Wait(seconds: nat)
    | Toggle(id: nat, open: bool, owner: bool)
    | Rearm(id: nat, remindAt: int, dropClaim: bool)

  datatype State = State(now: int, rows: map<nat, Row>, workers: map<nat, Worker>, log: seq<Delivery>)

  ghost predicate Holds(s: State, w: nat, id: nat) { w in s.workers && id in s.workers[w].pending }

  ghost predicate Idles(s: State, w: nat, id: nat) { Holds(s, w, id) && s.workers[w].stage.Idle? }

  function Finish(worker: Worker, id: nat): Worker { worker.(pending := worker.pending - {id}, stage := Idle) }

  /** One step; an action that is not enabled does nothing. */
  ghost function Do(s: State, a: Action): State {
    var rows, ws := s.rows, s.workers;
    match a
    case Sweep(w, ids) =>
      if w !in ws && ids <= rows.Keys && forall id :: id in ids ==> SweepDue(rows[id], s.now) then
        s.(rows := map id | id in rows :: if id in ids then Claimed(rows[id], s.now) else rows[id],
           workers := ws[w := Worker(false, s.now, ids, Idle)])
      else s
    case Fire(w, id) =>
      if w !in ws && id in rows && FireDue(rows[id], s.now) then
        s.(rows := rows[id := Claimed(rows[id], s.now)],
           workers := if rows[id].open && rows[id].owner then ws[w := Worker(true, s.now, {id}, Idle)] else ws)
      else s
    case Deliver(w, id) =>
      if Idles(s, w, id) && id in rows then
        s.(workers := ws[w := ws[w].(stage := Delivered(id))],
           log := s.log + [Delivery(id, rows[id].arming, rows[id].remindAt, ws[w].claimedAt, s.now)])
      else s
    case Fail(w, id) =>
      if Idles(s, w, id) then s.(workers := ws[w := ws[w].(stage := Failed(id))]) else s
    case Write(w) =>
      if w in ws && !ws[w].stage.Idle? && ws[w].stage.id in rows then
        var id := ws[w].stage.id;
        s.(rows := rows[id := Written(ws[w], rows[id], s.now)], workers := ws[w := Finish(ws[w], id)])
      else s
    case WriteFails(w) =>
      if w in ws && !ws[w].stage.Idle? then s.(workers := ws[w := Finish(ws[w], ws[w].stage.id)]) else s
    case Die(w) => s.(workers := ws - {w})
    case Wait(seconds) => s.(now := s.now + seconds)
    case Toggle(id, open, owner) =>
      if id in rows then s.(rows := rows[id := rows[id].(open := open, owner := owner)]) else s
    case Rearm(id, remindAt, dropClaim) =>
      if id in rows && forall w :: !Holds(s, w, id) then
        s.(rows := rows[id := Rearmed(rows[id], remindAt, dropClaim)])
      else s
  }

  /** A sweep stamps unconditionally, a single fire only a row without a stamp. */
  function Written(worker: Worker, row: Row, now: int): Row {
    if worker.single && worker.stage.Delivered? && row.sentAt.Some? then row
    else Settled(row, worker.stage.Delivered?, now)
  }

  function Rearmed(row: Row, remindAt: int, dropClaim: bool): Row {
    row.(remindAt := remindAt, sentAt := None, arming := row.arming + 1,
         claimedUntil := if dropClaim then None else row.claimedUntil)
  }

  ghost function DoAll(s: State, actions: seq<Action>): State
    decreases |actions|
  {
    if actions == [] then s else DoAll(Do(s, actions[0]), actions[1..])
  }

  function Initial(now: int, rows: map<nat, Row>): State { State(now, rows, map[], []) }

  /** Nobody holds a claim past its lease. */
  ghost predicate OnTime(s: State) {
    forall w, id :: Holds(s, w, id) ==> s.now <= s.workers[w].claimedAt + LEASE
  }

  /** What a step must not do: lose the stamp of a delivery that succeeded. */
  ghost predicate KeepsStamp(s: State, a: Action) {
    (a.Die? || a.WriteFails?) && a.w in s.workers ==> !s.workers[a.w].stage.Delivered?
  }

  ghost predicate CarefulRun(s: State, actions: seq<Action>)
    decreases |actions|
  {
    OnTime(s) && (actions != [] ==> KeepsStamp(s, actions[0]) && CarefulRun(Do(s, actions[0]), actions[1..]))
  }

  // ----- what every careful run keeps -----

  /** A claim somebody works on: the lease is theirs, the row unsent, and the claim was made in the window. */
  ghost predicate HeldOk(s: State, w: nat, id: nat)
    requires Holds(s, w, id)
  {
    && id in s.rows
    && s.rows[id].sentAt.None?
    && s.rows[id].claimedUntil == Some(s.workers[w].claimedAt + LEASE)
    && s.rows[id].remindAt <= s.workers[w].claimedAt <= s.rows[id].remindAt + GRACE
    && s.workers[w].claimedAt <= s.now
  }

  ghost predicate WorkersOk(s: State) {
    && (forall w, id :: Holds(s, w, id) ==> HeldOk(s, w, id))
    && (forall v, w, id :: Holds(s, v, id) && Holds(s, w, id) ==> v == w)
    && (forall w :: w in s.workers && !s.workers[w].stage.Idle? ==> Holds(s, w, s.workers[w].stage.id))
  }

  ghost predicate InFlight(s: State, id: nat) {
    exists w :: w in s.workers && s.workers[w].stage == Delivered(id)
  }

  /** A delivery of an earlier arming, or one that is stamped or about to be. */
  ghost predicate Accounted(s: State, d: Delivery) {
    && d.id in s.rows
    && d.arming <= s.rows[d.id].arming
    && (d.arming == s.rows[d.id].arming ==> s.rows[d.id].sentAt.Some? || InFlight(s, d.id))
  }

  ghost predicate InWindow(d: Delivery) {
    d.remindAt <= d.claimedAt <= d.remindAt + 1800 && d.claimedAt <= d.at <= d.claimedAt + 300
  }

  ghost predicate LogOk(log: seq<Delivery>) {
    && (forall i, j :: 0 <= i < j < |log| ==> (log[i].id, log[i].arming) != (log[j].id, log[j].arming))
    && (forall i :: 0 <= i < |log| ==> InWindow(log[i]))
  }

  ghost predicate AllAccounted(s: State) { forall i :: 0 <= i < |s.log| ==> Accounted(s, s.log[i]) }

  ghost predicate Invariant(s: State) { WorkersOk(s) && AllAccounted(s) && LogOk(s.log) }

  /** A row that is due is nobody's. */
  lemma {:induction false} DueIsFree(s: State, id: nat)
    requires WorkersOk(s) && OnTime(s) && id in s.rows && Due(s.rows[id], s.now)
    ensures forall w :: !Holds(s, w, id)
  {
    assert forall w :: Holds(s, w, id) ==> HeldOk(s, w, id);
  }

  lemma {:induction false} ClaimKeeps(s: State, s': State, v: nat, ids: set<nat>, worker: Worker)
    requires WorkersOk(s) && OnTime(s) && ids <= s.rows.Keys && v !in s.workers
    requires forall id :: id in ids ==> Due(s.rows[id], s.now)
    requires s'.now == s.now && s'.rows.Keys == s.rows.Keys
    requires forall id :: id in s.rows ==> s'.rows[id] == if id in ids then Claimed(s.rows[id], s.now) else s.rows[id]
    requires s'.workers == s.workers || s'.workers == s.workers[v := worker]
    requires worker.claimedAt == s.now && worker.pending == ids && worker.stage.Idle?
    ensures WorkersOk(s')
  {
    hide Due;
    forall id | id in ids ensures forall w :: !Holds(s, w, id) { DueIsFree(s, id); }
    forall w, id | Holds(s', w, id) ensures HeldOk(s', w, id) {
      if w == v {
        InTheWindow(s.rows[id], s.now);
      } else {
        assert Holds(s, w, id) && HeldOk(s, w, id);
      }
    }
    assert forall w, id :: Holds(s', w, id) && w != v ==> Holds(s, w, id);
    assert forall w :: w in s'.workers && w != v ==> w in s.workers && s'.workers[w] == s.workers[w];
  }

  lemma {:induction false} InTheWindow(row: Row, now: int)
    requires Due(row, now)
    ensures row.sentAt.None? && row.remindAt <= now <= row.remindAt + GRACE
  {
  }

  /** A step that leaves every row's arming, and every stamp and delivery under way, in place. */
  lemma {:induction false} StaysAccounted(s: State, s': State)
    requires AllAccounted(s) && s'.log == s.log
    requires forall id :: id in s.rows ==> id in s'.rows && s.rows[id].arming == s'.rows[id].arming
    requires forall id :: id in s.rows && (s.rows[id].sentAt.Some? || InFlight(s, id)) ==>
        s'.rows[id].sentAt.Some? || InFlight(s', id)
    ensures AllAccounted(s')
  {
    hide InFlight;
    forall i | 0 <= i < |s'.log| ensures Accounted(s', s'.log[i]) { assert Accounted(s, s.log[i]); }
  }

  lemma {:induction false} FlightsStay(s: State, s': State)
    requires forall w :: w in s.workers && s.workers[w].stage.Delivered? ==>
        w in s'.workers && s'.workers[w].stage == s.workers[w].stage
    ensures forall id :: InFlight(s, id) ==> InFlight(s', id)
  {
  }

  lemma {:induction false} DeliverKeeps(s: State, w: nat, id: nat)
    requires Invariant(s) && OnTime(s) && Idles(s, w, id)
    ensures Invariant(Do(s, Deliver(w, id)))
  {
    hide LogOk;
    assert HeldOk(s, w, id);
    var s' := Do(s, Deliver(w, id));
    var d := Delivery(id, s.rows[id].arming, s.rows[id].remindAt, s.workers[w].claimedAt, s.now);
    assert s'.log == s.log + [d];
    forall i | 0 <= i < |s.log| ensures (s.log[i].id, s.log[i].arming) != (id, d.arming) {
      assert Accounted(s, s.log[i]);
    }
    LogGrows(s.log, d);
    FlightsStay(s, s');
    assert InFlight(s', id) by { assert s'.workers[w].stage == Delivered(id); }
    forall i | 0 <= i < |s'.log| ensures Accounted(s', s'.log[i]) {
      if i < |s.log| { assert Accounted(s, s.log[i]); }
    }
    assert forall v, k :: Holds(s', v, k) ==> Holds(s, v, k);
    forall v, k | Holds(s', v, k) ensures HeldOk(s', v, k) { assert HeldOk(s, v, k); }
  }

  lemma {:induction false} LogGrows(log: seq<Delivery>, d: Delivery)
    requires LogOk(log) && InWindow(d)
    requires forall i :: 0 <= i < |log| ==> (log[i].id, log[i].arming) != (d.id, d.arming)
    ensures LogOk(log + [d])
  {
    assert forall i :: 0 <= i < |log| ==> (log + [d])[i] == log[i];
  }

  /** Stamping, releasing, or giving up the row a worker is on. */
  lemma {:induction false} WriteKeeps(s: State, w: nat, s': State)
    requires Invariant(s) && w in s.workers && !s.workers[w].stage.Idle?
    requires s' == Do(s, Write(w)) || (s' == Do(s, WriteFails(w)) && s.workers[w].stage.Failed?)
    ensures Invariant(s')
  {
    hide LogOk;
    var id := s.workers[w].stage.id;
    assert Holds(s, w, id) && HeldOk(s, w, id);
    forall v, k | Holds(s', v, k) ensures Holds(s, v, k) && HeldOk(s', v, k) {
      assert Holds(s, v, k) && HeldOk(s, v, k);
      assert k != id;
    }
    forall k | k in s.rows && InFlight(s, k) ensures s'.rows[k].sentAt.Some? || InFlight(s', k) {
      var v :| v in s.workers && s.workers[v].stage == Delivered(k);
      assert v != w ==> s'.workers[v].stage == Delivered(k);
      assert Holds(s, v, k);
    }
    StaysAccounted(s, s');
  }

  lemma {:induction false} DieKeeps(s: State, w: nat)
    requires Invariant(s) && KeepsStamp(s, Die(w))
    ensures Invariant(Do(s, Die(w)))
  {
    hide LogOk;
    var s' := Do(s, Die(w));
    assert forall v, k :: Holds(s', v, k) ==> Holds(s, v, k);
    forall v, k | Holds(s', v, k) ensures HeldOk(s', v, k) { assert HeldOk(s, v, k); }
    FlightsStay(s, s');
    StaysAccounted(s, s');
  }

  /** Steps that only touch fields no claim or delivery depends on. */
  lemma {:induction false} QuietStep(s: State, s': State)
    requires Invariant(s) && s'.log == s.log && s'.workers == s.workers && s'.now >= s.now
        && s'.rows.Keys == s.rows.Keys
    requires forall id :: id in s.rows ==>
               s'.rows[id] == s.rows[id].(open := s'.rows[id].open, owner := s'.rows[id].owner)
    ensures Invariant(s')
  {
    hide LogOk;
    assert forall v, k :: Holds(s', v, k) <==> Holds(s, v, k);
    forall v, k | Holds(s', v, k) ensures HeldOk(s', v, k) { assert HeldOk(s, v, k); }
    FlightsStay(s, s');
    StaysAccounted(s, s');
  }

  lemma {:induction false} RearmKeeps(s: State, id: nat, remindAt: int, dropClaim: bool)
    requires Invariant(s) && id in s.rows && forall w :: !Holds(s, w, id)
    ensures Invariant(Do(s, Rearm(id, remindAt, dropClaim)))
  {
    hide LogOk;
    var s' := Do(s, Rearm(id, remindAt, dropClaim));
    assert forall v, k :: Holds(s', v, k) <==> Holds(s, v, k);
    forall v, k | Holds(s', v, k) ensures HeldOk(s', v, k) { assert HeldOk(s, v, k); }
    FlightsStay(s, s');
    forall i | 0 <= i < |s'.log| ensures Accounted(s', s'.log[i]) { assert Accounted(s, s.log[i]); }
  }

  lemma {:induction false} ClaimStepKeeps(s: State, a: Action)
    requires Invariant(s) && OnTime(s) && (a.Sweep? || a.Fire?)
    ensures Invariant(Do(s, a))
  {
    hide LogOk, Due, WorkersOk, AllAccounted;
    var s' := Do(s, a);
    if s' != s {
      var ids := if a.Sweep? then a.ids else {a.id};
      ClaimKeeps(s, s', a.w, ids, Worker(a.Fire?, s.now, ids, Idle));
      FlightsStay(s, s');
      StaysAccounted(s, s');
    }
  }

  lemma {:induction false} StepKeepsInvariant(s: State, a: Action)
    requires Invariant(s) && OnTime(s) && KeepsStamp(s, a)
    ensures Invariant(Do(s, a))
  {
    hide LogOk, AllAccounted, Due, OnTime;
    match a
    case Sweep(_, _) => ClaimStepKeeps(s, a);
    case Fire(_, _) => ClaimStepKeeps(s, a);
    case Deliver(w, id) => if Idles(s, w, id) { DeliverKeeps(s, w, id); }
    case Fail(w, id) => if Idles(s, w, id) { FailKeeps(s, w, id); }
    case Write(w) => if w in s.workers && !s.workers[w].stage.Idle? { WriteKeeps(s, w, Do(s, a)); }
    case WriteFails(w) => if w in s.workers && !s.workers[w].stage.Idle? { WriteKeeps(s, w, Do(s, a)); }
    case Die(w) => DieKeeps(s, w);
    case Wait(_) => QuietStep(s, Do(s, a));
    case Toggle(_, _, _) => QuietStep(s, Do(s, a));
    case Rearm(id, remindAt, dropClaim) => if Do(s, a) != s { RearmKeeps(s, id, remindAt, dropClaim); }
  }

  lemma {:induction false} FailKeeps(s: State, w: nat, id: nat)
    requires Invariant(s) && Idles(s, w, id)
    ensures Invariant(Do(s, Fail(w, id)))
  {
    hide LogOk;
    var s' := Do(s, Fail(w, id));
    assert forall v, k :: Holds(s', v, k) <==> Holds(s, v, k);
    forall v, k | Holds(s', v, k) ensures HeldOk(s', v, k) { assert HeldOk(s, v, k); }
    FlightsStay(s, s');
    StaysAccounted(s, s');
  }

  lemma {:induction false} RunKeepsInvariant(s: State, actions: seq<Action>)
    requires Invariant(s) && CarefulRun(s, actions)
    ensures Invariant(DoAll(s, actions))
    decreases |actions|
  {
    hide Invariant, Do, OnTime, KeepsStamp;
    if actions != [] {
      StepKeepsInvariant(s, actions[0]);
      RunKeepsInvariant(Do(s, actions[0]), actions[1..]);
    }
  }

  /** However sweeps and fires race: no arming of a reminder is delivered twice, and
      every delivery was claimed within thirty minutes of its time and went out
      within the lease of that claim. */
  lemma {:induction false} EachArmingDeliveredOnce(now: int, rows: map<nat, Row>, actions: seq<Action>)
    requires CarefulRun(Initial(now, rows), actions)
    ensures var log := DoAll(Initial(now, rows), actions).log;
            && (forall i, j :: 0 <= i < j < |log| ==> (log[i].id, log[i].arming) != (log[j].id, log[j].arming))
            && (forall i :: 0 <= i < |log| ==> InWindow(log[i]))
  {
    hide Do, WorkersOk, AllAccounted, InWindow;
    assert Invariant(Initial(now, rows)) by { EmptyIsOk(now, rows); }
    RunKeepsInvariant(Initial(now, rows), actions);
  }

  lemma {:induction false} EmptyIsOk(now: int, rows: map<nat, Row>)
    ensures Invariant(Initial(now, rows))
  {
  }

  /** A failed delivery is retried: once its claim is released the row is due again
      for anybody, at once, as long as its thirty minutes last. A delivered one is not. */
  lemma {:induction false} OnlyFailedIsDueAgain(s: State, w: nat)
    requires Invariant(s) && w in s.workers && !s.workers[w].stage.Idle?
    ensures var id := s.workers[w].stage.id;
            var s' := Do(s, Write(w));
            && id in s'.rows
            && (Due(s'.rows[id], s'.now) <==> s.workers[w].stage.Failed? && s.now <= s.rows[id].remindAt + 1800)
  {
    hide LogOk, AllAccounted;
    assert Holds(s, w, s.workers[w].stage.id) && HeldOk(s, w, s.workers[w].stage.id);
  }

  /** When anybody may take over a row that is worked on: after the lease, while the
      thirty minutes last. */
  lemma {:induction false} TakeoverIff(s: State, w: nat, id: nat, wait: nat)
    requires Invariant(s) && Holds(s, w, id)
    ensures id in s.rows
    ensures Due(s.rows[id], s.now + wait)
            <==> s.workers[w].claimedAt + 300 < s.now + wait <= s.rows[id].remindAt + 1800
  {
    hide LogOk, AllAccounted;
    assert HeldOk(s, w, id);
  }

  /** A reminder whose stamp is lost goes out a second time for the same arming, to a
      sweep that comes after any wait, exactly when by then the lease is over, the
      thirty minutes are not, and task and owner are still there. */
  lemma {:induction false} LostStampDeliversAgainIff(s: State, w: nat, id: nat, wait: nat, v: nat)
    requires Invariant(s) && Idles(s, w, id) && v !in s.workers
    ensures id in s.rows
    ensures var row, claimedAt := s.rows[id], s.workers[w].claimedAt;
            var lost := Do(Do(Do(s, Deliver(w, id)), WriteFails(w)), Wait(wait));
            var log := Do(Do(lost, Sweep(v, {id})), Deliver(v, id)).log;
            var first := Delivery(id, row.arming, row.remindAt, claimedAt, s.now);
            log == s.log + [first]
                   + if row.open && row.owner && claimedAt + 300 < s.now + wait <= row.remindAt + 1800
                     then [Delivery(id, row.arming, row.remindAt, s.now + wait, s.now + wait)] else []
  {
    hide LogOk, AllAccounted, Invariant;
    assert HeldOk(s, w, id) by { HeldIsOk(s, w, id); }
    var lost := Do(Do(Do(s, Deliver(w, id)), WriteFails(w)), Wait(wait));
    assert lost.rows == s.rows && lost.now == s.now + wait && v !in lost.workers;
    var swept := Do(lost, Sweep(v, {id}));
    if SweepDue(s.rows[id], lost.now) {
      assert swept.workers[v] == Worker(false, lost.now, {id}, Idle);
      assert swept.rows[id] == Claimed(s.rows[id], lost.now);
      assert Idles(swept, v, id);
    } else {
      assert swept == lost;
      assert !Idles(lost, v, id);
    }
  }

  lemma {:induction false} HeldIsOk(s: State, w: nat, id: nat)
    requires Invariant(s) && Holds(s, w, id)
    ensures HeldOk(s, w, id)
  {
  }

  // ----- an undisturbed sweep is a run -----

  lemma {:induction false} DoAllAppend(s: State, a: seq<Action>, b: seq<Action>)
    ensures DoAll(s, a + b) == DoAll(DoAll(s, a), b)
    decreases |a|
  {
    hide Do;
    if a == [] {
      assert a + b == b;
    } else {
      assert (a + b)[1..] == a[1..] + b;
      DoAllAppend(Do(s, a[0]), a[1..], b);
    }
  }

  /** Delivering one claimed row, or failing to, and writing the result. */
  function Settling(w: nat, id: nat, delivered: bool): seq<Action> {
    [if delivered then Deliver(w, id) else Fail(w, id), Write(w)]
  }

  lemma {:induction false} SettlingSettles(s: State, w: nat, id: nat, delivered: bool)
    requires Idles(s, w, id) && !s.workers[w].single && id in s.rows
    ensures var s' := DoAll(s, Settling(w, id, delivered));
            && s'.now == s.now && s'.rows == s.rows[id := Settled(s.rows[id], delivered, s.now)]
            && s'.workers == s.workers[w := Finish(s.workers[w], id)]
            && |s'.log| == |s.log| + if delivered then 1 else 0
  {
    var first := if delivered then Deliver(w, id) else Fail(w, id);
    assert Settling(w, id, delivered)[1..] == [Write(w)] && [Write(w)][1..] == [];
    var mid := Do(s, first);
    var s' := Do(mid, Write(w));
    assert DoAll(mid, [Write(w)]) == s';
    assert s'.workers == s.workers[w := Finish(s.workers[w], id)];
  }

  /** A sweep works its claims off one by one. */
  lemma {:induction false} PendingRuns(s: State, w: nat, delivers: set<nat>) returns (actions: seq<Action>)
    requires w in s.workers && s.workers[w].stage.Idle? && !s.workers[w].single && s.workers[w].pending <= s.rows.Keys
    ensures var s', pending := DoAll(s, actions), s.workers[w].pending;
            s'.rows == Worked(s.rows, pending, delivers, s.now) && |s'.log| == |s.log| + |pending * delivers|
    decreases |s.workers[w].pending|
  {
    hide Settled, Do, Worked;
    var pending := s.workers[w].pending;
    if pending == {} {
      actions := [];
      NothingToWork(s.rows, delivers, s.now);
      assert pending * delivers == {};
    } else {
      var id :| id in pending;
      var first := Settling(w, id, id in delivers);
      SettlingSettles(s, w, id, id in delivers);
      WorkedStep(s.rows, pending, delivers, s.now, id);
      var mid := DoAll(s, first);
      var rest := PendingRuns(mid, w, delivers);
      actions := first + rest;
      DoAllAppend(s, first, rest);
    }
  }

  /** What `ProcessReminderCron` computes in one go is one of the runs above. */
  lemma {:induction false} SweepIsRun(rows: map<nat, Row>, delivers: set<nat>, now: int, w: nat)
      returns (actions: seq<Action>)
    ensures var s := DoAll(Initial(now, rows), actions);
            s.rows == Swept(rows, delivers, now) && |s.log| == |DueIds(rows, now) * delivers|
  {
    hide Settled, Due, Worked;
    var s, ids := Initial(now, rows), DueIds(rows, now);
    var claimed := Do(s, Sweep(w, ids));
    assert claimed.workers[w] == Worker(false, now, ids, Idle);
    WorkedForgetsClaims(rows, claimed.rows, ids, delivers, now);
    var rest := PendingRuns(claimed, w, delivers);
    actions := [Sweep(w, ids)] + rest;
    assert actions[0] == Sweep(w, ids) && actions[1..] == rest;
  }

  /** What an undisturbed sweep leaves of a row, field by field. */
  lemma {:induction false} SweptRow(rows: map<nat, Row>, delivers: set<nat>, now: int, id: nat)
    requires id in rows
    ensures var row := rows[id];
            var due := && row.sentAt.None? && row.remindAt <= now <= row.remindAt + 1800
                       && (row.claimedUntil.None? || row.claimedUntil.value < now)
                       && row.open && row.owner;
            Swept(rows, delivers, now)[id]
            == if !due then row
               else row.(sentAt := if id in delivers then Some(now) else None, claimedUntil := None)
  {
  }

  /** What `SendSingle` does in one go is a run of the steps above. It delivers exactly when
      the row is due and task and owner are there; a multi-reminder whose task is closed,
      or any whose owner is gone, is left claimed for five minutes. */
  lemma {:induction false} FireIsRun(s: State, w: nat, id: nat, delivers: bool)
    requires w !in s.workers && id in s.rows
    ensures var s' := DoAll(s, [Fire(w, id), if delivers then Deliver(w, id) else Fail(w, id), Write(w)]);
            var row := s.rows[id];
            var due := && row.sentAt.None? && row.remindAt <= s.now <= row.remindAt + 1800
                       && (row.claimedUntil.None? || row.claimedUntil.value < s.now)
                       && (row.multi || row.open);
            && s'.rows == s.rows[id := if !due then row
                                       else if !row.open || !row.owner then row.(claimedUntil := Some(s.now + 300))
                                       else row.(sentAt := if delivers then Some(s.now) else None,
                                                 claimedUntil := None)]
            && s'.log == s.log + if due && row.open && row.owner && delivers
                                 then [Delivery(id, row.arming, row.remindAt, s.now, s.now)] else []
  {
    var second := if delivers then Deliver(w, id) else Fail(w, id);
    var all := [Fire(w, id), second, Write(w)];
    assert all[1..] == [second, Write(w)] && all[1..][1..] == [Write(w)] && [Write(w)][1..] == [];
    var s1 := Do(s, Fire(w, id));
    var s2 := Do(s1, second);
    assert DoAll(s2, [Write(w)]) == Do(s2, Write(w));
    assert DoAll(s1, [second, Write(w)]) == DoAll(s2, [Write(w)]);
    assert FireDue(s.rows[id], s.now) && s.rows[id].open && s.rows[id].owner ==> Idles(s1, w, id);
    assert !(w in s1.workers) ==> s2 == s1;
  }

  /** A rescheduled reminder is due again at its new time, for half an hour, as soon as no
      claim is on it. */
  lemma {:induction false} RearmedIsDue(s: State, id: nat, remindAt: int, dropClaim: bool, later: int)
    requires id in s.rows && forall w :: !Holds(s, w, id)
    ensures var row, after := s.rows[id], Do(s, Rearm(id, remindAt, dropClaim));
            && after.rows.Keys == s.rows.Keys && after.rows[id].arming == row.arming + 1
            && (Due(after.rows[id], later)
                <==> && remindAt <= later <= remindAt + 1800
                     && (dropClaim || row.claimedUntil.None? || row.claimedUntil.value < later))
  {
  }

  /** A fire that writes after somebody else stamped leaves that stamp; a sweep that does
      overwrites it with its own. */
  lemma {:induction false} LateWrite(s: State, w: nat)
    requires w in s.workers && s.workers[w].stage.Delivered? && s.workers[w].stage.id in s.rows
    requires s.rows[s.workers[w].stage.id].sentAt.Some?
    ensures var id := s.workers[w].stage.id;
            Do(s, Write(w)).rows[id] == if s.workers[w].single then s.rows[id]
                                        else s.rows[id].(sentAt := Some(s.now), claimedUntil := None)
  {
  }

  /** For instance with a fire and a sweep five minutes and a second later. */
  lemma {:induction false} LostStampDeliversAgain(now: int, id: nat)
    ensures var row := Row(false, true, true, now, None, None, 0);
            var first := Do(Do(Initial(now, map[id := row]), Fire(0, id)), Deliver(0, id));
            var lost := Do(Do(first, WriteFails(0)), Wait(LEASE + 1));
            && OnTime(first) && !KeepsStamp(first, WriteFails(0)) && OnTime(lost)
            && Do(Do(lost, Sweep(1, {id})), Deliver(1, id)).log
               == [Delivery(id, 0, now, now, now), Delivery(id, 0, now, now + 301, now + 301)]
  {
    var row := Row(false, true, true, now, None, None, 0);
    var claimed := row.(claimedUntil := Some(now + 300));
    var first := Do(Do(Initial(now, map[id := row]), Fire(0, id)), Deliver(0, id));
    var d := Delivery(id, 0, now, now, now);
    assert first == State(now, map[id := claimed], map[0 := Worker(true, now, {id}, Delivered(id))], [d]);
    var lost := Do(Do(first, WriteFails(0)), Wait(LEASE + 1));
    assert {id} - {id} == {};
    assert lost == State(now + 301, map[id := claimed], map[0 := Worker(true, now, {}, Idle)], [d]);
    var again := Do(lost, Sweep(1, {id}));
    assert again.workers[1] == Worker(false, now + 301, {id}, Idle);
    assert again.rows[id] == row.(claimedUntil := Some(now + 601));
    assert Idles(again, 1, id);
  }

  /** So does a fire that outstays its lease before it delivers. */
  lemma {:induction false} LateFireDeliversAgain(now: int, id: nat)
    ensures var row := Row(false, true, true, now, None, None, 0);
            var late := Do(Do(Initial(now, map[id := row]), Fire(0, id)), Wait(LEASE + 1));
            && !OnTime(late)
            && Do(Do(Do(late, Sweep(1, {id})), Deliver(1, id)), Deliver(0, id)).log
               == [Delivery(id, 0, now, now + 301, now + 301), Delivery(id, 0, now, now, now + 301)]
  {
    var row := Row(false, true, true, now, None, None, 0);
    var late := Do(Do(Initial(now, map[id := row]), Fire(0, id)), Wait(LEASE + 1));
    var single := Worker(true, now, {id}, Idle);
    assert late == State(now + 301, map[id := row.(claimedUntil := Some(now + 300))], map[0 := single], []);
    assert Holds(late, 0, id);
    var taken := row.(claimedUntil := Some(now + 601));
    var both := Do(late, Sweep(1, {id}));
    assert both == State(now + 301, map[id := taken], map[0 := single, 1 := Worker(false, now + 301, {id}, Idle)], []);
    assert Idles(both, 1, id);
    var once := Do(both, Deliver(1, id));
    assert once.rows == map[id := taken] && once.workers[0] == single && Idles(once, 0, id);
  }
}

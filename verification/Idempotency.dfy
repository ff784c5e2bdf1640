/**
 Keyed changes of internal/api/idempotency.go: the first copy of a request claims
 its key and runs, later copies get the stored reply.

 Each SQL statement is one step. Requests for one key run side by side on one
 clock, and a request may die between any two of its steps. The purge of rows
 older than 30 days is not part of this model.
 */
module Idempotency {
  import opened Options

  const TAKEOVER: int := 120 // seconds a claim is left alone
  const MAX_KEY: int := 100

  /** The codes that end a reply; the informational ones below 200 are not part of this model. */
  type Code = c: int | 200 <= c <= 999 witness 200

  /** Replies the HTTP server sends without a body, whatever the handler writes. */
  predicate Bodyless(code: Code) { code == 204 || code == 304 }

  datatype Reply = Reply(status: Code, body: string)

  /** A row of idempotency_keys; status 0 is a claim that is still running. */
  datatype Row = Row(status: int, body: string, createdAt: int)

  // ----- the statements, on the row of one key -----

  predicate Claimable(row: Option<Row>, now: int) {
    row.None? || (row.value.status == 0 && row.value.createdAt < now - TAKEOVER)
  }

  /** INSERT ... ON CONFLICT DO UPDATE SET created_at. */
  function ClaimRow(row: Option<Row>, now: int): Option<Row>
    requires Claimable(row, now)
  {
    if row.None? then Some(Row(0, "", now)) else Some(row.value.(createdAt := now))
  }

  /** A 5xx reply deletes the row; any other is written to the row if there still is one. */
  function SettleRow(row: Option<Row>, reply: Reply): Option<Row> {
    if reply.status >= 500 || row.None? then None
    else Some(row.value.(status := reply.status, body := reply.body))
  }

  // ----- the middleware, run without interruption -----

  /** The copy the middleware keeps of the reply its handler writes, and the writer it passes through to. */
  class RecordingWriter {
    var status: Code
    var wroteHeader: bool
    var body: string
    var sentStatus: Option<Code> // the connection keeps its first code, and sends 200 with a bare body
    var sent: string

    constructor ()
      ensures Mirrors() && sentStatus == None && sent == ""
    {
      status, wroteHeader, body, sentStatus, sent := 200, false, "", None, "";
    }

    /** What is kept is what the client got; under a bodyless code nothing was sent, whatever is kept. */
    ghost predicate Mirrors()
      reads this
    {
      && sent == (if sentStatus.Some? && Bodyless(sentStatus.value) then "" else body)
      && wroteHeader == sentStatus.Some? && (!wroteHeader ==> body == "")
      && status == if sentStatus.Some? then sentStatus.value else 200
    }

    method WriteHeader(code: Code)
      requires Mirrors()
      modifies this
      ensures Mirrors() && sent == old(sent) && body == old(body)
      ensures sentStatus == if old(sentStatus).Some? then old(sentStatus) else Some(code)
    {
      if !wroteHeader {
        status := code;
        wroteHeader := true;
      }
      if sentStatus == None { sentStatus := Some(code); }
    }

    method Write(chunk: string)
      requires Mirrors()
      modifies this
      ensures Mirrors() && body == old(body) + chunk
      ensures sentStatus == if old(sentStatus).Some? then old(sentStatus) else Some(200)
      ensures sent == old(sent) + if Bodyless(sentStatus.value) then "" else chunk
    {
      wroteHeader := true;
      body := body + chunk;
      if sentStatus == None { sentStatus := Some(200); }
      if !Bodyless(sentStatus.value) { sent := sent + chunk; }
    }
  }

  datatype Outcome = Ran(reply: Reply) | Replayed(reply: Reply) | Pending

  class Keys {
    var rows: map<string, Row>

    constructor ()
      ensures rows == map[]
    {
      rows := map[];
    }

    function RowOf(key: string): Option<Row>
      reads this
    {
      if key in rows then Some(rows[key]) else None
    }

    method Claim(key: string, now: int) returns (claimed: bool)
      modifies this
      ensures claimed == Claimable(old(RowOf(key)), now)
      ensures RowOf(key) == if claimed then ClaimRow(old(RowOf(key)), now) else old(RowOf(key))
      ensures forall k :: k != key ==> RowOf(k) == old(RowOf(k))
    {
      if key !in rows {
        rows := rows[key := Row(0, "", now)];
        return true;
      }
      var row := rows[key];
      claimed := row.status == 0 && row.createdAt < now - TAKEOVER;
      if claimed {
        rows := rows[key := row.(createdAt := now)];
      }
    }

    method Settle(key: string, reply: Reply)
      modifies this
      ensures RowOf(key) == SettleRow(old(RowOf(key)), reply)
      ensures forall k :: k != key ==> RowOf(k) == old(RowOf(k))
    {
      if reply.status >= 500 {
        rows := rows - {key};
        return;
      }
      if key in rows {
        rows := rows[key := rows[key].(status := reply.status, body := reply.body)];
      }
    }

    /** One request with nothing beside it; `fromHandler` is what the handler would answer. */
    method WithIdempotency(key: string, isGet: bool, now: int, fromHandler: Reply) returns (outcome: Outcome)
      requires key in rows && rows[key].status != 0 ==> 200 <= rows[key].status <= 999
      modifies this
      ensures var row := old(RowOf(key));
              if key == "" || isGet || |key| > 100 then
                outcome == Ran(fromHandler) && RowOf(key) == row
              else if Claimable(row, now) then
                outcome == Ran(fromHandler) && RowOf(key) == SettleRow(ClaimRow(row, now), fromHandler)
              else
                && RowOf(key) == row
                && outcome == if row.value.status == 0 then Pending
                    else Replayed(Reply(row.value.status, row.value.body))
      ensures forall k :: k != key ==> RowOf(k) == old(RowOf(k))
    {
      if key == "" || isGet || |key| > MAX_KEY {
        return Ran(fromHandler);
      }
      var claimed := Claim(key, now);
      if !claimed {
        var row := rows[key];
        if row.status == 0 {
          return Pending;
        }
        return Replayed(Reply(row.status, row.body));
      }
      Settle(key, fromHandler);
      return Ran(fromHandler);
    }
  }

  // ----- requests for one key side by side -----

  datatype Phase =
    | Refused                              // the claim found a row it may not take
    | Running(claimedAt: int)              // the handler runs
    | Settling(claimedAt: int, reply: Reply) // the handler has answered, the row is not written yet

  datatype Event =
    | Started(worker: nat)
    | Stored(reply: Reply)
    | Dropped                // a 5xx reply took the row away
    | Died                   // a request died with its change under way or not stored
    | Repeated(reply: Reply) // a later copy got this reply
    | Told409
    | Told500

  datatype Action =
    | Claim(worker: nat)
    | Read(worker: nat)
    | Answer(worker: nat, reply: Reply)
    | Settle(worker: nat)
    | Die(worker: nat)
    | Wait(worker: nat, seconds: nat)

  datatype State = State(now: int, row: Option<Row>, workers: map<nat, Phase>, log: seq<Event>)

  /** One step; an action that is not enabled does nothing. A worker is one request. */
  function Do(s: State, a: Action): State {
    var ws, w := s.workers, a.worker;
    match a
    case Claim(_) =>
      if w in ws then s
      else if Claimable(s.row, s.now) then
        State(s.now, ClaimRow(s.row, s.now), ws[w := Running(s.now)], s.log + [Started(w)])
      else s.(workers := ws[w := Refused])
    case Read(_) =>
      if w in ws && ws[w].Refused? then s.(workers := ws - {w}, log := s.log + [Answered(s.row)]) else s
    case Answer(_, reply) =>
      if w in ws && ws[w].Running? then s.(workers := ws[w := Settling(ws[w].claimedAt, reply)]) else s
    case Settle(_) =>
      if w in ws && ws[w].Settling? then
        var reply := ws[w].reply;
        State(s.now, SettleRow(s.row, reply), ws - {w}, s.log + Settled(s.row, reply))
      else s
    case Die(_) =>
      s.(workers := ws - {w}, log := s.log + if w in ws && !ws[w].Refused? then [Died] else [])
    case Wait(_, seconds) => s.(now := s.now + seconds)
  }

  function Answered(row: Option<Row>): Event {
    if row.None? then Told500
    else if row.value.status == 0 then Told409
    else if 200 <= row.value.status <= 999 then Repeated(Reply(row.value.status, row.value.body))
    else Told500
  }

  function Settled(row: Option<Row>, reply: Reply): seq<Event> {
    if reply.status >= 500 then [Dropped] else if row.None? then [] else [Stored(reply)]
  }

  function DoAll(s: State, actions: seq<Action>): State
    decreases |actions|
  {
    if actions == [] then s else DoAll(Do(s, actions[0]), actions[1..])
  }

  function Initial(now: int): State { State(now, None, map[], []) }

  predicate Live(s: State, w: nat) { w in s.workers && !s.workers[w].Refused? }

  /** No live request has held its claim for longer than the takeover time. */
  ghost predicate Timely(s: State) {
    forall w :: Live(s, w) ==> s.now <= s.workers[w].claimedAt + TAKEOVER
  }

  ghost predicate TimelyRun(s: State, actions: seq<Action>)
    decreases |actions|
  {
    Timely(s) && (actions != [] ==> TimelyRun(Do(s, actions[0]), actions[1..]))
  }

  // ----- what every timely run keeps -----

  ghost predicate OneLive(s: State) { forall v, w :: Live(s, v) && Live(s, w) ==> v == w }

  /** A live request owns the row: it is still running, under its own claim. */
  ghost predicate OwnsRow(s: State, w: nat)
    requires Live(s, w)
  {
    s.row.Some? && s.row.value.status == 0 && s.row.value.createdAt == s.workers[w].claimedAt
  }

  ghost predicate Holds(row: Option<Row>, reply: Reply) {
    row.Some? && row.value.status == reply.status && row.value.body == reply.body
  }

  /** The row holds a reply exactly when one was stored, and then that one. */
  ghost predicate RowIsLog(s: State) {
    && (forall i :: 0 <= i < |s.log| && s.log[i].Stored? ==> Holds(s.row, s.log[i].reply))
    && (s.row.Some? && s.row.value.status != 0 ==> HasStored(s.log))
  }

  ghost predicate HasStored(log: seq<Event>) { exists i :: 0 <= i < |log| && log[i].Stored? }

  ghost predicate StoredBefore(log: seq<Event>, j: nat, reply: Reply) {
    exists i :: 0 <= i < j && i < |log| && log[i] == Stored(reply)
  }

  /** Nothing starts or is stored once a reply is stored, and every repeat is that reply. */
  ghost predicate LogOk(log: seq<Event>) {
    && (forall i, j :: 0 <= i < j < |log| && log[i].Stored? ==> !log[j].Started? && !log[j].Stored? && !log[j].Dropped?)
    && (forall j :: 0 <= j < |log| && log[j].Repeated? ==> StoredBefore(log, j, log[j].reply))
  }

  ghost predicate Invariant(s: State) {
    && OneLive(s)
    && (forall w :: Live(s, w) ==> OwnsRow(s, w))
    && RowIsLog(s)
    && LogOk(s.log)
  }

  lemma {:induction false} LogGrows(log: seq<Event>, e: Event)
    requires LogOk(log)
    requires e.Started? || e.Stored? || e.Dropped? ==> !HasStored(log)
    requires e.Repeated? ==> StoredBefore(log, |log|, e.reply)
    ensures LogOk(log + [e])
  {
    var n, log' := |log|, log + [e];
    assert forall i :: 0 <= i < n ==> log'[i] == log[i];
    forall j | 0 <= j <= n && log'[j].Repeated? ensures StoredBefore(log', j, log'[j].reply) {
      assert StoredBefore(log, j, log'[j].reply);
      var i :| 0 <= i < j && i < n && log[i] == Stored(log'[j].reply);
      assert log'[i] == log[i];
    }
  }

  lemma {:induction false} ClaimKeeps(s: State, w: nat)
    requires Invariant(s) && Timely(s) && w !in s.workers && Claimable(s.row, s.now)
    ensures Invariant(Do(s, Claim(w)))
  {
    hide LogOk;
    var s' := Do(s, Claim(w));
    LogGrows(s.log, Started(w));
    assert forall v :: Live(s, v) ==> !OwnsRow(s, v);
    assert forall v :: Live(s', v) && v != w ==> Live(s, v);
  }

  lemma {:induction false} SettleKeeps(s: State, w: nat)
    requires Invariant(s) && w in s.workers && s.workers[w].Settling?
    ensures Invariant(Do(s, Settle(w)))
  {
    hide LogOk;
    var s', reply := Do(s, Settle(w)), s.workers[w].reply;
    assert Live(s, w) && OwnsRow(s, w);
    var e := if reply.status >= 500 then Dropped else Stored(reply);
    assert s'.log == s.log + [e];
    LogGrows(s.log, e);
    assert s'.log[|s.log|] == e;
    assert forall v :: Live(s', v) ==> Live(s, v) && v != w;
  }

  lemma {:induction false} ReadKeeps(s: State, w: nat)
    requires Invariant(s) && w in s.workers && s.workers[w].Refused?
    ensures Invariant(Do(s, Read(w)))
  {
    hide LogOk;
    var s', e := Do(s, Read(w)), Answered(s.row);
    if e.Repeated? {
      var i :| 0 <= i < |s.log| && s.log[i].Stored?;
      assert Holds(s.row, s.log[i].reply);
      assert StoredBefore(s.log, |s.log|, e.reply);
    }
    LogGrows(s.log, e);
    assert forall i :: 0 <= i < |s.log| ==> s'.log[i] == s.log[i];
    assert HasStored(s.log) ==> HasStored(s'.log);
    assert forall v :: Live(s', v) ==> Live(s, v) && OwnsRow(s, v);
  }

  lemma {:induction false} StepKeepsInvariant(s: State, a: Action)
    requires Invariant(s) && Timely(s)
    ensures Invariant(Do(s, a))
  {
    hide LogOk, RowIsLog;
    var s' := Do(s, a);
    if s' != s {
      match a
      case Claim(w) =>
        if Claimable(s.row, s.now) { ClaimKeeps(s, w); } else { SameRow(s, s'); }
      case Settle(w) => SettleKeeps(s, w);
      case Read(w) => ReadKeeps(s, w);
      case Answer(_, _) => SameRow(s, s');
      case Die(w) => DieKeeps(s, w);
      case Wait(_, _) => SameRow(s, s');
    }
  }

  lemma {:induction false} DieKeeps(s: State, w: nat)
    requires Invariant(s)
    ensures Invariant(Do(s, Die(w)))
  {
    hide LogOk;
    var s' := Do(s, Die(w));
    assert forall v :: Live(s', v) ==> Live(s, v) && OwnsRow(s, v);
    if Live(s, w) {
      LogGrows(s.log, Died);
      assert forall i :: 0 <= i < |s.log| ==> s'.log[i] == s.log[i];
      assert HasStored(s.log) ==> HasStored(s'.log);
    } else {
      assert s'.log == s.log;
    }
  }

  lemma {:induction false} SameRow(s: State, s': State)
    requires Invariant(s) && s'.row == s.row && s'.log == s.log
    requires forall w :: Live(s', w) ==> Live(s, w) && s'.workers[w].claimedAt == s.workers[w].claimedAt
    ensures Invariant(s')
  {
    assert forall w :: Live(s', w) ==> OwnsRow(s, w);
  }

  lemma {:induction false} RunKeepsInvariant(s: State, actions: seq<Action>)
    requires Invariant(s) && TimelyRun(s, actions)
    ensures Invariant(DoAll(s, actions))
    decreases |actions|
  {
    hide Invariant, Do, Timely;
    if actions != [] {
      StepKeepsInvariant(s, actions[0]);
      RunKeepsInvariant(Do(s, actions[0]), actions[1..]);
    }
  }

  /** Any interleaving of copies of one request, with deaths and takeovers, in which
      no live request outstays its claim: at most one handler runs at a time, none
      starts and nothing is stored or dropped after a reply is stored, and every
      repeated reply is the stored one. */
  lemma {:induction false} EveryTimelyRunIsSafe(now: int, actions: seq<Action>)
    requires TimelyRun(Initial(now), actions)
    ensures var s := DoAll(Initial(now), actions);
            && OneLive(s)
            && LogOk(s.log)
            && (forall i :: 0 <= i < |s.log| && s.log[i].Stored? ==> Holds(s.row, s.log[i].reply))
  {
    hide Do, LogOk, OneLive;
    assert Invariant(Initial(now)) by { EmptyIsOk(now); }
    RunKeepsInvariant(Initial(now), actions);
  }

  lemma {:induction false} EmptyIsOk(now: int)
    ensures Invariant(Initial(now))
  {
  }

  ghost predicate Over(log: seq<Event>, i: nat, before: nat) {
    exists k :: i < k < before && k < |log| && (log[k].Dropped? || log[k].Died?)
  }

  /** A second start comes only after the first one died or answered with a 5xx. */
  ghost predicate RerunsOk(log: seq<Event>) {
    forall i, j :: 0 <= i < j < |log| && log[i].Started? && log[j].Started? ==> Over(log, i, j)
  }

  ghost predicate AnyLive(s: State) { exists w :: Live(s, w) }

  ghost predicate Reruns(s: State) {
    && RerunsOk(s.log)
    && (forall i :: 0 <= i < |s.log| && s.log[i].Started? ==> Over(s.log, i, |s.log|) || HasStored(s.log) || AnyLive(s))
  }

  lemma {:induction false} OverStays(log: seq<Event>, more: seq<Event>, i: nat, before: nat, before': nat)
    requires Over(log, i, before) && before <= before'
    ensures Over(log + more, i, before')
  {
    var k :| i < k < before && k < |log| && (log[k].Dropped? || log[k].Died?);
    assert (log + more)[k] == log[k];
  }

  /** A log that grows by anything but a start, while what is live stays live or ends on record. */
  lemma {:induction false} RerunsGrow(s: State, s': State, more: seq<Event>)
    requires Reruns(s) && s'.log == s.log + more
    requires more == [] || (|more| == 1 && !more[0].Started?)
    requires AnyLive(s) ==> AnyLive(s') || (more != [] && (more[0].Stored? || more[0].Dropped? || more[0].Died?))
    ensures Reruns(s')
  {
    hide Over, AnyLive;
    var n := |s.log|;
    assert forall i :: 0 <= i < n ==> s'.log[i] == s.log[i];
    if more != [] { assert s'.log[n] == more[0]; }
    forall i, j | 0 <= i < j < |s'.log| && s'.log[i].Started? && s'.log[j].Started? ensures Over(s'.log, i, j) {
      OverStays(s.log, more, i, j, j);
    }
    forall i | 0 <= i < |s'.log| && s'.log[i].Started?
        ensures Over(s'.log, i, |s'.log|) || HasStored(s'.log) || AnyLive(s') {
      if Over(s.log, i, n) {
        OverStays(s.log, more, i, n, |s'.log|);
      } else if more != [] && (more[0].Dropped? || more[0].Died?) {
        OverNow(s'.log, i, n);
      }
    }
  }

  lemma {:induction false} OverNow(log: seq<Event>, i: nat, k: nat)
    requires i < k < |log| && (log[k].Dropped? || log[k].Died?)
    ensures Over(log, i, |log|)
  {
  }

  lemma {:induction false} ClaimReruns(s: State, w: nat)
    requires Invariant(s) && Timely(s) && Reruns(s) && w !in s.workers && Claimable(s.row, s.now)
    ensures Reruns(Do(s, Claim(w)))
  {
    hide LogOk, Over;
    var s', n := Do(s, Claim(w)), |s.log|;
    assert forall v :: Live(s, v) ==> !OwnsRow(s, v);
    assert s'.log == s.log + [Started(w)];
    forall i, j | 0 <= i < j < |s'.log| && s'.log[i].Started? && s'.log[j].Started? ensures Over(s'.log, i, j) {
      OverStays(s.log, [Started(w)], i, j, j);
    }
    assert Live(s', w);
  }

  lemma {:induction false} StepKeepsReruns(s: State, a: Action)
    requires Invariant(s) && Timely(s) && Reruns(s)
    ensures Reruns(Do(s, a))
  {
    hide LogOk, RowIsLog, Over, HasStored, RerunsOk, Timely;
    var s', w := Do(s, a), a.worker;
    if a.Claim? && w !in s.workers && Claimable(s.row, s.now) {
      ClaimReruns(s, w);
    } else {
      assert s.log + [] == s.log;
      var more := s'.log[|s.log|..];
      assert s'.log == s.log + more;
      if AnyLive(s) {
        var v :| Live(s, v);
        assert OwnsRow(s, v);
        assert v != w || a.Answer? || a.Claim? || a.Read? || a.Wait? ==> Live(s', v);
      }
      RerunsGrow(s, s', more);
    }
  }

  lemma {:induction false} RunKeepsReruns(s: State, actions: seq<Action>)
    requires Invariant(s) && Reruns(s) && TimelyRun(s, actions)
    ensures Reruns(DoAll(s, actions))
    decreases |actions|
  {
    hide Invariant, Reruns, Do, Timely;
    if actions != [] {
      StepKeepsInvariant(s, actions[0]);
      StepKeepsReruns(s, actions[0]);
      RunKeepsReruns(Do(s, actions[0]), actions[1..]);
    }
  }

  /** The change is run again only when the run before it died or failed with a 5xx. */
  lemma {:induction false} RerunsOnlyAfterFailure(now: int, actions: seq<Action>)
    requires TimelyRun(Initial(now), actions)
    ensures RerunsOk(DoAll(Initial(now), actions).log)
  {
    hide Do, RerunsOk, Timely, LogOk, RowIsLog;
    EmptyIsOk(now);
    NoReruns(now);
    RunKeepsReruns(Initial(now), actions);
  }

  lemma {:induction false} NoReruns(now: int)
    ensures Reruns(Initial(now))
  {
  }

  /** A stored reply stays in the row for the rest of the run. */
  lemma {:induction false} StoredReplyStays(s: State, actions: seq<Action>)
    requires Invariant(s) && TimelyRun(s, actions)
    requires s.row.Some? && s.row.value.status != 0
    ensures DoAll(s, actions).row == s.row
    decreases |actions|
  {
    hide LogOk, RowIsLog, OneLive;
    if actions != [] {
      StepKeepsInvariant(s, actions[0]);
      RowStays(s, actions[0]);
      StoredReplyStays(Do(s, actions[0]), actions[1..]);
    }
  }

  lemma {:induction false} RowStays(s: State, a: Action)
    requires Invariant(s) && s.row.Some? && s.row.value.status != 0
    ensures Do(s, a).row == s.row
  {
    hide LogOk, RowIsLog, OneLive;
    var w := a.worker;
    assert Live(s, w) ==> OwnsRow(s, w);
  }

  /** While a request is live, another one starts the change a second time exactly when
      the first has held its claim for longer than two minutes. */
  lemma {:induction false} SecondStartIff(s: State, v: nat, w: nat)
    requires Invariant(s) && Live(s, v) && w !in s.workers
    ensures Live(Do(s, Claim(w)), w) <==> s.now > s.workers[v].claimedAt + 120
    ensures Do(s, Claim(w)).log != s.log <==> s.now > s.workers[v].claimedAt + 120
  {
    hide LogOk, RowIsLog;
    assert OwnsRow(s, v);
    assert |Do(s, Claim(w)).log| == |s.log| + if Claimable(s.row, s.now) then 1 else 0;
  }

  /** What a later copy is told: the stored reply if there is one, that the change is under
      way while it is, and an error when a failure took the claim away in between. */
  lemma {:induction false} ReadTells(s: State, w: nat)
    requires Invariant(s) && w in s.workers && s.workers[w].Refused?
    ensures Do(s, Read(w)).row == s.row
    ensures forall i :: 0 <= i < |s.log| && s.log[i].Stored? ==>
              Do(s, Read(w)).log == s.log + [Repeated(s.log[i].reply)]
    ensures AnyLive(s) ==> Do(s, Read(w)).log == s.log + [Told409]
    ensures !HasStored(s.log) ==> Do(s, Read(w)).log == s.log + [if s.row.Some? then Told409 else Told500]
  {
    hide LogOk;
    assert AnyLive(s) ==> exists v :: Live(s, v) && OwnsRow(s, v);
    forall i | 0 <= i < |s.log| && s.log[i].Stored? ensures Answered(s.row) == Repeated(s.log[i].reply) {
      assert Holds(s.row, s.log[i].reply);
    }
  }

  /** What `WithIdempotency` does in one go is a run of the steps above: claimed, answered
      and settled, or refused and told what the row says. */
  lemma {:induction false} RequestIsRun(s: State, w: nat, reply: Reply)
    requires w !in s.workers
    requires s.row.Some? && s.row.value.status != 0 ==> 200 <= s.row.value.status <= 999
    ensures Claimable(s.row, s.now) ==>
              var s' := DoAll(s, [Claim(w), Answer(w, reply), Settle(w)]);
              && s'.row == SettleRow(ClaimRow(s.row, s.now), reply)
              && s'.log == s.log + [Started(w), if reply.status >= 500 then Dropped else Stored(reply)]
    ensures !Claimable(s.row, s.now) ==>
              var s' := DoAll(s, [Claim(w), Read(w)]);
              && s'.row == s.row
              && s'.log == s.log + [if s.row.value.status == 0 then Told409
                                    else Repeated(Reply(s.row.value.status, s.row.value.body))]
  {
    var all, short := [Claim(w), Answer(w, reply), Settle(w)], [Claim(w), Read(w)];
    assert all[1..] == [Answer(w, reply), Settle(w)] && all[1..][1..] == [Settle(w)] && [Settle(w)][1..] == [];
    assert short[1..] == [Read(w)] && [Read(w)][1..] == [];
    var s1 := Do(s, Claim(w));
    var s2 := Do(s1, Answer(w, reply));
    assert DoAll(s1, [Read(w)]) == Do(s1, Read(w));
    assert DoAll(s2, [Settle(w)]) == Do(s2, Settle(w));
    assert DoAll(s1, all[1..]) == DoAll(s2, [Settle(w)]);
  }

  /** The time limit is needed. A handler that outstays its claim answers after
      another request took the claim over and stored its reply: its 5xx deletes that
      reply, and the next copy runs the change once more. */
  lemma {:induction false} LateHandlerRunsChangeAgain(now: int, done: Reply, failed: Reply)
    requires done.status < 500 <= failed.status
    ensures var overtaken := Do(Do(Do(Initial(now), Claim(0)), Wait(0, TAKEOVER + 1)), Claim(1));
            var stored := Do(Do(overtaken, Answer(1, done)), Settle(1));
            var late := Do(Do(stored, Answer(0, failed)), Settle(0));
            && !Timely(overtaken)
            && Holds(stored.row, done)
            && late.row == None
            && Do(late, Claim(2)).log == [Started(0), Started(1), Stored(done), Dropped, Started(2)]
  {
    var one := Do(Do(Initial(now), Claim(0)), Wait(0, TAKEOVER + 1));
    assert one == State(now + 121, Some(Row(0, "", now)), map[0 := Running(now)], [Started(0)]);
    var overtaken := Do(one, Claim(1));
    assert Live(overtaken, 0) && overtaken.workers[0].claimedAt == now;
    assert overtaken == State(now + 121, Some(Row(0, "", now + 121)), map[0 := Running(now), 1 := Running(now + 121)],
                              [Started(0), Started(1)]);
    var stored := Do(Do(overtaken, Answer(1, done)), Settle(1));
    assert stored == State(now + 121, Some(Row(done.status, done.body, now + 121)), map[0 := Running(now)],
                           [Started(0), Started(1), Stored(done)]);
    var late := Do(Do(stored, Answer(0, failed)), Settle(0));
    assert late == State(now + 121, None, map[], [Started(0), Started(1), Stored(done), Dropped]);
  }
}

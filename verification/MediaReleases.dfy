/**
 Release reminders of internal/api/media_releases.go: an upcoming title is announced
 at ten in the morning of the day before its release, and moves to the pending
 queue on the day itself.

 The claim is the five-minute lease of the task reminders; the stamp is the release
 date that was announced. One title and its owner's local clock are modelled; the
 release date may change at any moment, also while an announcement is under way.
 */
module MediaReleases {
  import opened Options

  const LEASE: int := 300
  const DAY: int := 86400

  /** Local calendar day of a local time in seconds. */
  function Day(now: int): int { now / DAY }

  /** The quarter of an hour that starts at ten. */
  predicate InWindow(now: int) { 36000 <= now % DAY < 36900 }

  lemma {:induction false} DaysPass(at: int, now: int)
    requires at <= now
    ensures Day(at) <= Day(now) && (InWindow(at) && now <= at + LEASE ==> Day(now) == Day(at))
    ensures Day(now) == now / 86400
  {
    assert now == DAY * Day(at) + (at % DAY + now - at);
  }

  datatype Title = Title(upcoming: bool, date: Option<int>, remindedFor: Option<int>, claimedUntil: Option<int>)

  // ----- the statements -----

  predicate Claimable(t: Title, now: int) {
    && t.upcoming
    && t.date == Some(Day(now) + 1)
    && t.remindedFor != t.date
    && (t.claimedUntil.None? || t.claimedUntil.value < now)
  }

  function Claimed(t: Title, now: int): Title { t.(claimedUntil := Some(now + LEASE)) }

  function Released(t: Title): Title { t.(claimedUntil := None) }

  /** Only a title that is still upcoming, on the announced date and not stamped for it. */
  predicate Stampable(t: Title, date: int) { t.upcoming && t.date == Some(date) && t.remindedFor != t.date }

  function Stamped(t: Title, date: int): Title {
    if Stampable(t, date) then t.(remindedFor := t.date, claimedUntil := None) else t
  }

  predicate Out(t: Title, today: int) { t.upcoming && t.date.Some? && t.date.value <= today }

  function Graduated(t: Title, today: int): Title {
    if Out(t, today) then t.(upcoming := false, claimedUntil := None) else t
  }

  // ----- the sweep, run without interruption -----

  class Library {
    var titles: map<nat, Title>

    constructor (titles: map<nat, Title>)
      ensures this.titles == titles
    {
      this.titles := titles;
    }

    /** Afterwards no upcoming title is out, a second call has nothing to move, and dates
        and stamps are as they were. */
    method GraduateReleasedMedia(now: int) returns (moved: nat)
      modifies this
      ensures titles == map id | id in old(titles) :: Graduated(old(titles)[id], Day(now))
      ensures moved == |set id | id in old(titles) && Out(old(titles)[id], Day(now))|
      ensures forall id :: id in titles ==> !Out(titles[id], Day(now)) && Graduated(titles[id], Day(now)) == titles[id]
      ensures forall id :: id in titles ==>
                && titles[id].date == old(titles)[id].date && titles[id].remindedFor == old(titles)[id].remindedFor
                && (titles[id].upcoming <==>
                      old(titles)[id].upcoming && (titles[id].date.None? || titles[id].date.value > now / 86400))
      ensures moved == 0 <==> titles == old(titles)
    {
      hide Day;
      DaysPass(now, now);
      ghost var before := titles;
      ghost var out := set id | id in before && Out(before[id], Day(now));
      assert out == set id | id in titles && Out(titles[id], Day(now));
      moved := |set id | id in titles && Out(titles[id], Day(now))|;
      titles := map id | id in titles :: Graduated(titles[id], Day(now));
      if id :| id in out {
        assert Out(before[id], Day(now)) && titles[id] == Graduated(before[id], Day(now));
        assert before[id].upcoming && !titles[id].upcoming;
      } else {
        assert out == {};
        forall id | id in before ensures titles[id] == before[id] { assert id !in out; }
      }
    }

    /** `lands`: the titles whose announcement arrives on some channel. */
    method SendDueReminders(now: int, lands: set<nat>) returns (sent: nat)
      modifies this
      ensures titles.Keys == old(titles).Keys
      ensures forall id :: id in titles ==> titles[id] == Announced(old(titles)[id], now, id in lands)
      ensures sent == |Due(old(titles), now) * lands|
    {
      hide Due, Claimable, Announced, Settled;
      ghost var before := titles;
      var pending := Due(titles, now);
      Begins(titles, now, lands);
      titles := map id | id in titles :: if id in pending then Claimed(titles[id], now) else titles[id];
      var todo := pending;
      sent := 0;
      assert (pending - todo) * lands == {};
      assert Midway(before, titles, pending, todo, lands, now);
      while todo != {}
        invariant Midway(before, titles, pending, todo, lands, now)
        invariant sent == |(pending - todo) * lands|
        decreases todo
      {
        var id :| id in todo;
        SweepStep(before, titles, pending, todo, lands, now, id);
        titles := titles[id := Settled(titles[id], Day(now) + 1, id in lands)];
        todo := todo - {id};
        if id in lands { sent := sent + 1; }
      }
      assert pending - todo == pending;
      Ends(before, titles, pending, lands, now);
    }
  }

  function Due(titles: map<nat, Title>, now: int): (due: set<nat>)
    ensures due <= titles.Keys
  {
    set id | id in titles && Claimable(titles[id], now)
  }

  function Settled(t: Title, date: int, landed: bool): Title { if landed then Stamped(t, date) else Released(t) }

  /** What one undisturbed sweep makes of a title: announced means stamped for tomorrow and free again. */
  function Announced(t: Title, now: int, landed: bool): (r: Title)
    ensures r.upcoming == t.upcoming && r.date == t.date
  {
    if !Claimable(t, now) then t
    else if landed then t.(remindedFor := Some(Day(now) + 1), claimedUntil := None)
    else t.(claimedUntil := None)
  }

  ghost predicate Midway(before: map<nat, Title>, titles: map<nat, Title>, pending: set<nat>, todo: set<nat>,
      lands: set<nat>, now: int) {
    && todo <= pending <= before.Keys == titles.Keys
    && (forall id :: id in before ==> (id in pending <==> Claimable(before[id], now)))
    && forall id :: id in titles ==>
         titles[id] == if id in todo then Claimed(before[id], now) else Announced(before[id], now, id in lands)
  }

  lemma {:induction false} Begins(before: map<nat, Title>, now: int, lands: set<nat>)
    ensures var pending := Due(before, now);
            var titles := map id | id in before :: if id in pending then Claimed(before[id], now) else before[id];
            Midway(before, titles, pending, pending, lands, now)
  {
    hide Claimable;
  }

  lemma {:induction false} SettlesClaimed(t: Title, now: int, landed: bool)
    requires Claimable(t, now)
    ensures Settled(Claimed(t, now), Day(now) + 1, landed) == Announced(t, now, landed)
  {
  }

  lemma {:induction false} SweepStep(before: map<nat, Title>, titles: map<nat, Title>, pending: set<nat>,
      todo: set<nat>, lands: set<nat>, now: int, id: nat)
    requires Midway(before, titles, pending, todo, lands, now) && id in todo
    ensures Midway(before, titles[id := Settled(titles[id], Day(now) + 1, id in lands)], pending, todo - {id}, lands,
        now)
    ensures |(pending - (todo - {id})) * lands| == |(pending - todo) * lands| + if id in lands then 1 else 0
  {
    hide Claimable, Announced, Settled, Claimed;
    SettlesClaimed(before[id], now, id in lands);
    var done := (pending - todo) * lands;
    assert (pending - (todo - {id})) * lands == if id in lands then done + {id} else done;
  }

  lemma {:induction false} Ends(before: map<nat, Title>, titles: map<nat, Title>, pending: set<nat>, lands: set<nat>,
      now: int)
    requires Midway(before, titles, pending, {}, lands, now)
    ensures titles.Keys == before.Keys
    ensures forall id :: id in titles ==> titles[id] == Announced(before[id], now, id in lands)
  {
    hide Claimable, Announced;
  }

  // ----- one title, sweeps and edits side by side -----

  datatype Stage = Claiming | Delivered | Failed

  datatype Worker = Worker(claimedAt: int, date: int, stage: Stage)

  datatype Action =
    | Claim(w: nat)
    | Deliver(w: nat)
    | Fail(w: nat)
    | Write(w: nat)
    | Die(w: nat)     // or the write fails, which is only logged
    | Wait(seconds: nat)
    | Edit(upcoming: bool, date: Option<int>)
    | Graduate

  datatype Announcement = Announcement(date: int, at: int)

  datatype State = State(now: int, title: Title, workers: map<nat, Worker>, log: seq<Announcement>)

  function Do(s: State, a: Action): State {
    var t, ws := s.title, s.workers;
    match a
    case Claim(w) =>
      if w !in ws && InWindow(s.now) && Claimable(t, s.now) then
        s.(title := Claimed(t, s.now), workers := ws[w := Worker(s.now, Day(s.now) + 1, Claiming)])
      else s
    case Deliver(w) =>
      if w in ws && ws[w].stage.Claiming? then
        s.(workers := ws[w := ws[w].(stage := Delivered)], log := s.log + [Announcement(ws[w].date, s.now)])
      else s
    case Fail(w) =>
      if w in ws && ws[w].stage.Claiming? then s.(workers := ws[w := ws[w].(stage := Failed)]) else s
    case Write(w) =>
      if w in ws && !ws[w].stage.Claiming? then
        s.(title := Settled(t, ws[w].date, ws[w].stage.Delivered?), workers := ws - {w})
      else s
    case Die(w) => s.(workers := ws - {w})
    case Wait(seconds) => s.(now := s.now + seconds)
    case Edit(upcoming, date) => s.(title := t.(upcoming := upcoming, date := date))
    case Graduate => s.(title := Graduated(t, Day(s.now)))
  }

  function DoAll(s: State, actions: seq<Action>): State
    decreases |actions|
  {
    if actions == [] then s else DoAll(Do(s, actions[0]), actions[1..])
  }

  function Initial(now: int, upcoming: bool, date: Option<int>): State {
    State(now, Title(upcoming, date, None, None), map[], [])
  }

  // ----- every run: a stamp means an announcement of that very date -----

  ghost predicate Announces(log: seq<Announcement>, date: int) { exists i :: 0 <= i < |log| && log[i].date == date }

  ghost predicate Honest(s: State) {
    && (s.title.remindedFor.Some? ==> Announces(s.log, s.title.remindedFor.value))
    && (forall w :: w in s.workers && s.workers[w].stage.Delivered? ==> Announces(s.log, s.workers[w].date))
  }

  lemma {:induction false} StepKeepsHonest(s: State, a: Action)
    requires Honest(s)
    ensures Honest(Do(s, a))
  {
    hide Day, Claimable;
    var s' := Do(s, a);
    forall date | Announces(s.log, date) ensures Announces(s'.log, date) {
      var i :| 0 <= i < |s.log| && s.log[i].date == date;
      assert s'.log[i].date == date;
    }
    if s'.log != s.log {
      assert s'.log[|s.log|].date == s.workers[a.w].date;
      assert Announces(s'.log, s.workers[a.w].date);
    }
  }

  /** Whatever dies, is late, or is edited: a title stamped for a date was announced
      with that date, so an edit during delivery never gets the new date marked. */
  lemma {:induction false} StampMeansAnnounced(s: State, actions: seq<Action>)
    requires Honest(s)
    ensures Honest(DoAll(s, actions))
    decreases |actions|
  {
    hide Do, Honest;
    if actions != [] {
      StepKeepsHonest(s, actions[0]);
      StampMeansAnnounced(Do(s, actions[0]), actions[1..]);
    }
  }

  /** Only a write that finds the title as it was claimed moves the stamp. */
  lemma {:induction false} StampMovesOnlyUnchanged(s: State, a: Action)
    requires Do(s, a).title.remindedFor != s.title.remindedFor
    ensures a.Write? && a.w in s.workers && s.workers[a.w].stage.Delivered?
    ensures s.title.upcoming && s.title.date == Some(s.workers[a.w].date)
    ensures Do(s, a).title.remindedFor == s.title.date
  {
    hide Day, Claimable;
  }

  // ----- undisturbed deliveries: each date is announced at most once -----

  ghost predicate OnTime(s: State) { forall w :: w in s.workers ==> s.now <= s.workers[w].claimedAt + LEASE }

  /** No stamp of a successful delivery is lost, and nobody edits the title meanwhile. */
  ghost predicate Undisturbed(s: State, a: Action) {
    && (a.Die? && a.w in s.workers ==> !s.workers[a.w].stage.Delivered?)
    && (a.Edit? ==> s.workers == map[])
  }

  ghost predicate CarefulRun(s: State, actions: seq<Action>)
    decreases |actions|
  {
    OnTime(s) && (actions != [] ==> Undisturbed(s, actions[0]) && CarefulRun(Do(s, actions[0]), actions[1..]))
  }

  ghost predicate Holds(s: State, w: nat)
    requires w in s.workers
  {
    var x := s.workers[w];
    && Stampable(s.title, x.date)
    && s.title.claimedUntil == Some(x.claimedAt + LEASE)
    && InWindow(x.claimedAt) && x.date == Day(x.claimedAt) + 1 && x.claimedAt <= s.now
  }

  ghost predicate WorkersOk(s: State) {
    && (forall w :: w in s.workers ==> Holds(s, w))
    && (forall v, w :: v in s.workers && w in s.workers ==> v == w)
  }

  ghost predicate InFlight(s: State, date: int) {
    exists w :: w in s.workers && s.workers[w].stage.Delivered? && s.workers[w].date == date
  }

  /** An announcement was for its next day; tomorrow's is stamped or about to be. */
  ghost predicate Accounted(s: State, date: int) {
    && date <= Day(s.now) + 1
    && (date == Day(s.now) + 1 ==> s.title.remindedFor == Some(date) || InFlight(s, date))
  }

  ghost predicate AllAccounted(s: State) { forall i :: 0 <= i < |s.log| ==> Accounted(s, s.log[i].date) }

  ghost predicate LogOk(log: seq<Announcement>) {
    && (forall i, j :: 0 <= i < j < |log| ==> log[i].date != log[j].date)
    && (forall i :: 0 <= i < |log| ==> Day(log[i].at) + 1 == log[i].date)
  }

  ghost predicate Invariant(s: State) { WorkersOk(s) && AllAccounted(s) && LogOk(s.log) }

  /** Inside its lease a worker still lives on the day it claimed. */
  lemma {:induction false} SameDay(s: State, w: nat)
    requires w in s.workers && Holds(s, w) && OnTime(s)
    ensures s.workers[w].date == Day(s.now) + 1
  {
    hide Day, Stampable;
    DaysPass(s.workers[w].claimedAt, s.now);
  }

  lemma {:induction false} ClaimKeeps(s: State, w: nat)
    requires Invariant(s) && OnTime(s) && w !in s.workers && InWindow(s.now) && Claimable(s.title, s.now)
    ensures Invariant(Do(s, Claim(w)))
  {
    hide LogOk, Day, InWindow;
    var s' := Do(s, Claim(w));
    assert forall v :: v in s.workers ==> Holds(s, v);
    assert s.workers == map[];
    forall i | 0 <= i < |s'.log| ensures Accounted(s', s'.log[i].date) { assert Accounted(s, s.log[i].date); }
  }

  lemma {:induction false} DeliverKeeps(s: State, w: nat)
    requires Invariant(s) && OnTime(s) && w in s.workers && s.workers[w].stage.Claiming?
    ensures Invariant(Do(s, Deliver(w)))
  {
    hide Day, InWindow;
    var s', date := Do(s, Deliver(w)), s.workers[w].date;
    assert Holds(s, w);
    SameDay(s, w);
    forall i | 0 <= i < |s.log| ensures s.log[i].date != date { assert Accounted(s, s.log[i].date); }
    assert s'.workers[w].stage.Delivered? && s'.workers[w].date == date;
    forall i | 0 <= i < |s'.log| ensures Accounted(s', s'.log[i].date) {
      if i < |s.log| { assert Accounted(s, s.log[i].date); }
    }
    assert forall v :: v in s'.workers ==> Holds(s, v) && Holds(s', v);
    assert forall i :: 0 <= i < |s.log| ==> s'.log[i] == s.log[i];
  }

  lemma {:induction false} LeaveKeeps(s: State, a: Action)
    requires Invariant(s) && OnTime(s) && Undisturbed(s, a) && (a.Write? || a.Die?) && a.w in s.workers
    requires a.Write? ==> !s.workers[a.w].stage.Claiming?
    ensures Invariant(Do(s, a))
  {
    hide LogOk, Day, InWindow;
    var s' := Do(s, a);
    assert Holds(s, a.w);
    SameDay(s, a.w);
    assert s'.workers == map[];
    forall i | 0 <= i < |s'.log| ensures Accounted(s', s'.log[i].date) { assert Accounted(s, s.log[i].date); }
  }

  lemma {:induction false} FailKeeps(s: State, w: nat)
    requires Invariant(s) && w in s.workers && s.workers[w].stage.Claiming?
    ensures Invariant(Do(s, Fail(w)))
  {
    hide LogOk, Day, InWindow;
    var s' := Do(s, Fail(w));
    assert forall v :: v in s'.workers ==> Holds(s, v) && Holds(s', v);
    SameTitle(s, s');
  }

  /** Time passes, or the title changes with no announcement under way, or an idle worker moves. */
  lemma {:induction false} SameTitle(s: State, s': State)
    requires Invariant(s) && s'.log == s.log && s'.title.remindedFor == s.title.remindedFor && s.now <= s'.now
    requires WorkersOk(s')
    requires forall w :: w in s.workers && s.workers[w].stage.Delivered? ==>
        w in s'.workers && s'.workers[w] == s.workers[w]
    ensures Invariant(s')
  {
    hide LogOk, Day, InWindow, WorkersOk;
    DaysPass(s.now, s'.now);
    forall i | 0 <= i < |s'.log| ensures Accounted(s', s'.log[i].date) {
      var date := s.log[i].date;
      assert Accounted(s, date);
    }
  }

  lemma {:induction false} GraduateKeeps(s: State)
    requires Invariant(s) && OnTime(s)
    ensures Invariant(Do(s, Graduate))
  {
    hide LogOk, Day, InWindow, AllAccounted;
    var s' := Do(s, Graduate);
    forall w | w in s'.workers ensures Holds(s', w) {
      assert Holds(s, w);
      SameDay(s, w);
    }
    SameTitle(s, s');
  }

  lemma {:induction false} StepKeepsInvariant(s: State, a: Action)
    requires Invariant(s) && OnTime(s) && Undisturbed(s, a)
    ensures Invariant(Do(s, a))
  {
    hide LogOk, AllAccounted, OnTime, Day, InWindow;
    var s' := Do(s, a);
    match a
    case Claim(w) => if s' != s { ClaimKeeps(s, w); }
    case Deliver(w) => if s' != s { DeliverKeeps(s, w); }
    case Fail(w) => if s' != s { FailKeeps(s, w); }
    case Write(w) => if s' != s { LeaveKeeps(s, a); }
    case Die(w) => if w in s.workers { LeaveKeeps(s, a); } else { assert s' == s; }
    case Wait(_) =>
      assert forall w :: w in s.workers ==> Holds(s, w) && Holds(s', w);
      SameTitle(s, s');
    case Edit(_, _) => SameTitle(s, s');
    case Graduate => GraduateKeeps(s);
  }

  lemma {:induction false} RunKeepsInvariant(s: State, actions: seq<Action>)
    requires Invariant(s) && CarefulRun(s, actions)
    ensures Invariant(DoAll(s, actions))
    decreases |actions|
  {
    hide Invariant, Do, OnTime, Undisturbed;
    if actions != [] {
      StepKeepsInvariant(s, actions[0]);
      RunKeepsInvariant(Do(s, actions[0]), actions[1..]);
    }
  }

  /** While deliveries stay undisturbed, no date of a title is announced twice, even
      if the date is moved away and back later, and each goes out on the day before. */
  lemma {:induction false} EachDateAnnouncedOnce(now: int, upcoming: bool, date: Option<int>, actions: seq<Action>)
    requires CarefulRun(Initial(now, upcoming, date), actions)
    ensures LogOk(DoAll(Initial(now, upcoming, date), actions).log)
  {
    hide Do, LogOk, WorkersOk;
    EmptyIsOk(now, upcoming, date);
    RunKeepsInvariant(Initial(now, upcoming, date), actions);
  }

  lemma {:induction false} EmptyIsOk(now: int, upcoming: bool, date: Option<int>)
    ensures Invariant(Initial(now, upcoming, date))
  {
  }

  /** An edit during delivery keeps the stamp off, so moving the date back within the
      quarter of an hour announces it again. */
  lemma {:induction false} EditDuringDeliveryAnnouncesTwice(day: int)
    ensures var now := DAY * day + 36000;
            var date := Some(day + 1);
            var sent := Do(Do(Initial(now, true, date), Claim(0)), Deliver(0));
            var missed := Do(Do(sent, Edit(true, Some(day + 9))), Write(0));
            var back := Do(Do(missed, Edit(true, date)), Wait(LEASE + 1));
            && missed.title.remindedFor == None
            && Do(Do(back, Claim(1)), Deliver(1)).log
               == [Announcement(day + 1, now), Announcement(day + 1, now + 301)]
  {
    var now := DAY * day + 36000;
    var date := Some(day + 1);
    DayOf(day, 36000);
    DayOf(day, 36301);
    var sent := Do(Do(Initial(now, true, date), Claim(0)), Deliver(0));
    assert sent == State(now, Title(true, date, None, Some(now + 300)), map[0 := Worker(now, day + 1, Delivered)],
                         [Announcement(day + 1, now)]);
    var back := Do(Do(Do(Do(sent, Edit(true, Some(day + 9))), Write(0)), Edit(true, date)), Wait(LEASE + 1));
    assert back == State(now + 301, Title(true, date, None, Some(now + 300)), map[], [Announcement(day + 1, now)]);
  }

  /** Once an edit came between a delivery and its stamp, moving the title back lets the
      same date be claimed again exactly when the edit had changed something the stamp
      looks at and the lease ends within the same quarter of an hour. */
  lemma {:induction false} EditDuringDeliveryIff(s: State, w: nat, upcoming: bool, date: Option<int>, wait: nat)
    requires Invariant(s) && OnTime(s) && w in s.workers && s.workers[w].stage.Delivered?
    ensures var claim := s.workers[w];
            var written := Do(Do(s, Edit(upcoming, date)), Write(w));
            var back := Do(Do(written, Edit(true, Some(claim.date))), Wait(wait));
            (InWindow(back.now) && Claimable(back.title, back.now))
            <==> && (!upcoming || date != Some(claim.date))
                 && InWindow(s.now + wait) && Day(s.now + wait) == Day(s.now) && s.now + wait > claim.claimedAt + LEASE
  {
    hide Day, InWindow, AllAccounted, LogOk;
    assert Holds(s, w);
    SameDay(s, w);
  }

  // ----- an undisturbed sweep is a run -----

  /** What the sweep and the graduation compute for a title is what it goes through in the
      runs above: in the quarter of an hour after ten, an upcoming title of tomorrow that is
      neither stamped for that day nor claimed is announced, and nothing else is. */
  lemma {:induction false} SweepIsRun(now: int, title: Title, landed: bool)
    requires 36000 <= now % 86400 < 36900
    ensures var s := DoAll(State(now, title, map[], []), [Claim(0), if landed then Deliver(0) else Fail(0), Write(0)]);
            var tomorrow := now / 86400 + 1;
            var due := && title.upcoming && title.date == Some(tomorrow) && title.remindedFor != Some(tomorrow)
                       && (title.claimedUntil.None? || title.claimedUntil.value < now);
            && s.title == Announced(title, now, landed)
            && s.title == (if !due then title
                           else title.(remindedFor := if landed then Some(tomorrow) else title.remindedFor,
                                       claimedUntil := None))
            && s.log == if due && landed then [Announcement(tomorrow, now)] else []
    ensures Do(State(now, title, map[], []), Graduate).title == Graduated(title, Day(now))
  {
    var second := if landed then Deliver(0) else Fail(0);
    var actions := [Claim(0), second, Write(0)];
    assert actions[1..] == [second, Write(0)] && [second, Write(0)][1..] == [Write(0)] && [Write(0)][1..] == [];
    var s0 := State(now, title, map[], []);
    var s2 := Do(Do(s0, Claim(0)), second);
    assert DoAll(s0, actions) == DoAll(Do(s0, Claim(0)), [second, Write(0)]);
    assert DoAll(s2, [Write(0)]) == Do(s2, Write(0));
  }

  lemma {:induction false} DayOf(day: int, second: int)
    requires 0 <= second < DAY
    ensures Day(DAY * day + second) == day && (DAY * day + second) % DAY == second
  {
  }
}

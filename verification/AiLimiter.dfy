/**
 The usage limiter of internal/api/ailimit.go: a one-hour sliding window over each
 user's AI calls. Times are seconds of one clock that does not run backwards.
 */
module AiLimiter {
  const WINDOW: int := 3600
  const MAX_MESSAGES: int := 240
  const MAX_TOKENS: int := 400_000

  datatype Event = Event(ts: int, tokens: nat)

  /** The events that are not before the cutoff, wherever they stand. */
  function Since(events: seq<Event>, cutoff: int): seq<Event> {
    if events == [] then []
    else
      var last := events[|events| - 1];
      Since(events[..|events| - 1], cutoff) + if last.ts >= cutoff then [last] else []
  }

  function Tokens(events: seq<Event>): nat {
    if events == [] then 0 else Tokens(events[..|events| - 1]) + events[|events| - 1].tokens
  }

  predicate Allows(live: seq<Event>) { |live| < MAX_MESSAGES && Tokens(live) < MAX_TOKENS }

  ghost predicate Sorted(events: seq<Event>) {
    forall i, j :: 0 <= i < j < |events| ==> events[i].ts <= events[j].ts
  }

  ghost predicate UpTo(events: seq<Event>, now: int) { forall i :: 0 <= i < |events| ==> events[i].ts <= now }

  lemma {:induction false} SinceSplits(events: seq<Event>, cutoff: int, i: nat)
    requires i <= |events|
    requires forall j :: 0 <= j < i ==> events[j].ts < cutoff
    requires forall j :: i <= j < |events| ==> events[j].ts >= cutoff
    ensures Since(events, cutoff) == events[i..]
  {
    if events != [] {
      var n := |events| - 1;
      var front := events[..n];
      SinceSplits(front, cutoff, if i > n then n else i);
      if i <= n { assert events[i..] == front[i..] + [events[n]]; }
    }
  }

  /** In a sorted log the expired events are a prefix. */
  lemma {:induction false} SinceIsSuffix(events: seq<Event>, cutoff: int, i: nat)
    requires Sorted(events) && i <= |events|
    requires forall j :: 0 <= j < i ==> events[j].ts < cutoff
    requires i < |events| ==> events[i].ts >= cutoff
    ensures Since(events, cutoff) == events[i..]
  {
    SinceSplits(events, cutoff, i);
  }

  lemma {:induction false} SinceTwice(events: seq<Event>, early: int, late: int)
    requires early <= late
    ensures Since(Since(events, early), late) == Since(events, late)
  {
    if events != [] {
      var n := |events| - 1;
      SinceTwice(events[..n], early, late);
      if events[n].ts >= early { SinceAppend(Since(events[..n], early), events[n], late); }
      assert events[n].ts < early ==> Since(events, early) == Since(events[..n], early);
    }
  }

  lemma {:induction false} SinceAppend(events: seq<Event>, e: Event, cutoff: int)
    ensures Since(events + [e], cutoff) == Since(events, cutoff) + if e.ts >= cutoff then [e] else []
  {
    assert (events + [e])[..|events|] == events;
  }

  class Limiter {
    var log: map<string, seq<Event>>
    ghost var clock: int

    constructor (now: int)
      ensures Valid() && log == map[] && clock == now
    {
      log, clock := map[], now;
    }

    ghost predicate Valid()
      reads this
    {
      forall uid :: uid in log ==> Sorted(log[uid]) && UpTo(log[uid], clock)
    }

    function Events(uid: string): seq<Event>
      reads this
    {
      if uid in log then log[uid] else []
    }

    /** Drops exactly the user's events from before the window. */
    method Prune(uid: string, now: int) returns (events: seq<Event>)
      requires Valid() && now >= clock
      modifies this
      ensures Valid() && clock == now
      ensures events == Events(uid) == Since(old(Events(uid)), now - WINDOW)
      ensures forall other :: other != uid ==> Events(other) == old(Events(other))
    {
      var cutoff := now - WINDOW;
      events := Events(uid);
      var i := 0;
      while i < |events| && events[i].ts < cutoff
        invariant i <= |events|
        invariant forall j :: 0 <= j < i ==> events[j].ts < cutoff
      {
        i := i + 1;
      }
      SinceIsSuffix(events, cutoff, i);
      clock := now;
      if i > 0 {
        events := events[i..];
        log := log[uid := events];
      }
    }

    /** `later` is the clock when the wait is worked out. A refusal never finds an empty log. */
    method Check(uid: string, now: int, later: int) returns (allowed: bool, retryAfter: int)
      requires Valid() && clock <= now <= later
      modifies this
      ensures Valid() && clock == now
      ensures Events(uid) == Since(old(Events(uid)), now - WINDOW)
      ensures forall other :: other != uid ==> Events(other) == old(Events(other))
      ensures allowed == Allows(Events(uid))
      ensures !allowed ==> Events(uid) != []
      ensures retryAfter == if allowed then 0 else Events(uid)[0].ts + WINDOW - later
    {
      var events := Prune(uid, now);
      var tokens := 0;
      for i := 0 to |events|
        invariant tokens == Tokens(events[..i])
      {
        assert events[..i + 1][..i] == events[..i];
        tokens := tokens + events[i].tokens;
      }
      assert events[..|events|] == events;
      if |events| >= MAX_MESSAGES || tokens >= MAX_TOKENS {
        return false, events[0].ts + WINDOW - later;
      }
      return true, 0;
    }

    /** `later` is the clock when the event is stamped. */
    method Record(uid: string, tokens: int, now: int, later: int)
      requires Valid() && clock <= now <= later
      modifies this
      ensures Valid() && clock == later
      ensures Events(uid) == Since(old(Events(uid)), now - WINDOW) + [Event(later, if tokens < 0 then 0 else tokens)]
      ensures forall other :: other != uid ==> Events(other) == old(Events(other))
    {
      var events := Prune(uid, now);
      log := log[uid := events + [Event(later, if tokens < 0 then 0 else tokens)]];
      clock := later;
    }
  }

  /** The first event that is not before the cutoff. */
  lemma {:induction false} FirstSince(events: seq<Event>, cutoff: int) returns (i: nat)
    requires Sorted(events)
    ensures i <= |events| && Since(events, cutoff) == events[i..]
    ensures i < |events| ==> events[i].ts >= cutoff
    ensures forall j :: 0 <= j < i ==> events[j].ts < cutoff
  {
    i := 0;
    while i < |events| && events[i].ts < cutoff
      invariant i <= |events|
      invariant forall j :: 0 <= j < i ==> events[j].ts < cutoff
    {
      i := i + 1;
    }
    SinceIsSuffix(events, cutoff, i);
  }

  /** After a refusal's wait, the oldest event has just reached the end of its hour. */
  lemma {:induction false} WaitEndsWithOldest(events: seq<Event>, now: int)
    requires Sorted(events) && UpTo(events, now) && !Allows(Since(events, now - WINDOW))
    ensures var live := Since(events, now - WINDOW);
            live != [] && 0 <= live[0].ts + WINDOW - now <= WINDOW
            && |Since(events, live[0].ts + 1)| < |live|
  {
    hide Since, Sorted;
    var i := FirstSince(events, now - WINDOW);
    assert i < |events|;
    var j := FirstSince(events, events[i].ts + 1);
  }

  // ----- one user over time -----

  datatype Call = Check(now: int) | Record(tokens: int, now: int, later: int)

  /** `log` is what the limiter keeps, `all` every event ever recorded; `left` is how
      many more records the last successful check still covers. */
  datatype Usage = Usage(log: seq<Event>, all: seq<Event>, clock: int, checkedAt: int, left: nat)

  /** Each successful check is followed by at most `k` records before the next check. */
  predicate Enabled(u: Usage, c: Call) { u.clock <= c.now && (c.Record? ==> c.now <= c.later && u.left > 0) }

  function Do(k: nat, u: Usage, c: Call): Usage
    requires Enabled(u, c)
  {
    var live := Since(u.log, c.now - WINDOW);
    match c
    case Check(now) => Usage(live, u.all, now, now, if Allows(live) then k else 0)
    case Record(tokens, now, later) =>
      var e := Event(later, if tokens < 0 then 0 else tokens);
      Usage(live + [e], u.all + [e], later, u.checkedAt, u.left - 1)
  }

  ghost predicate AllEnabled(k: nat, u: Usage, calls: seq<Call>)
    decreases |calls|
  {
    calls != [] ==> Enabled(u, calls[0]) && AllEnabled(k, Do(k, u, calls[0]), calls[1..])
  }

  function DoAll(k: nat, u: Usage, calls: seq<Call>): Usage
    requires AllEnabled(k, u, calls)
    decreases |calls|
  {
    if calls == [] then u else DoAll(k, Do(k, u, calls[0]), calls[1..])
  }

  function Initial(now: int): Usage { Usage([], [], now, now, 0) }

  /** Events between two times, both included. */
  function Within(events: seq<Event>, from: int, to: int): nat {
    if events == [] then 0
    else Within(events[..|events| - 1], from, to) + if from <= events[|events| - 1].ts <= to then 1 else 0
  }

  lemma {:induction false} WithinAppend(events: seq<Event>, e: Event, from: int, to: int)
    ensures Within(events + [e], from, to) == Within(events, from, to) + if from <= e.ts <= to then 1 else 0
  {
    assert (events + [e])[..|events|] == events;
  }

  lemma {:induction false} WithinAtMostSince(events: seq<Event>, from: int, to: int, cutoff: int)
    requires cutoff <= from
    ensures Within(events, from, to) <= |Since(events, cutoff)|
  {
    if events != [] {
      WithinAtMostSince(events[..|events| - 1], from, to, cutoff);
    }
  }

  /** The log lost only events that are out of every window to come. */
  ghost predicate Faithful(u: Usage) {
    forall cutoff :: cutoff >= u.clock - WINDOW ==> Since(u.log, cutoff) == Since(u.all, cutoff)
  }

  ghost predicate BurstOk(k: nat, u: Usage) {
    && u.checkedAt <= u.clock
    && u.left <= k
    && (u.left > 0 ==> forall from, to :: from >= u.checkedAt - WINDOW ==>
        Within(u.all, from, to) < MAX_MESSAGES + k - u.left)
  }

  function InHour(events: seq<Event>, from: int): nat { Within(events, from, from + WINDOW) }

  ghost predicate WindowsOk(k: nat, all: seq<Event>) {
    forall from :: InHour(all, from) <= MAX_MESSAGES + k - 1
  }

  lemma {:induction false} CheckKeeps(k: nat, u: Usage, now: int)
    requires Faithful(u) && BurstOk(k, u) && u.clock <= now
    ensures Faithful(Do(k, u, Check(now))) && BurstOk(k, Do(k, u, Check(now)))
  {
    var u' := Do(k, u, Check(now));
    forall cutoff | cutoff >= now - WINDOW ensures Since(u'.log, cutoff) == Since(u.all, cutoff) {
      SinceTwice(u.log, now - WINDOW, cutoff);
    }
    forall from, to | from >= now - WINDOW && u'.left > 0 ensures Within(u.all, from, to) < MAX_MESSAGES {
      WithinAtMostSince(u.all, from, to, now - WINDOW);
      SinceTwice(u.log, now - WINDOW, now - WINDOW);
    }
  }

  lemma {:induction false} RecordKeeps(k: nat, u: Usage, c: Call)
    requires Faithful(u) && BurstOk(k, u) && Enabled(u, c) && c.Record?
    ensures Faithful(Do(k, u, c)) && BurstOk(k, Do(k, u, c))
  {
    var u', live := Do(k, u, c), Since(u.log, c.now - WINDOW);
    var e := Event(c.later, if c.tokens < 0 then 0 else c.tokens);
    forall cutoff | cutoff >= c.later - WINDOW ensures Since(u'.log, cutoff) == Since(u'.all, cutoff) {
      SinceTwice(u.log, c.now - WINDOW, cutoff);
      SinceAppend(live, e, cutoff);
      SinceAppend(u.all, e, cutoff);
    }
    forall from, to | from >= u.checkedAt - WINDOW ensures Within(u'.all, from, to) < MAX_MESSAGES + k - u'.left {
      WithinAppend(u.all, e, from, to);
    }
  }

  lemma {:induction false} StepKeepsWindows(k: nat, u: Usage, c: Call)
    requires BurstOk(k, u) && Enabled(u, c) && WindowsOk(k, u.all)
    ensures WindowsOk(k, Do(k, u, c).all)
  {
    if c.Record? {
      var e := Event(c.later, if c.tokens < 0 then 0 else c.tokens);
      forall from ensures InHour(u.all + [e], from) <= MAX_MESSAGES + k - 1 {
        assert InHour(u.all, from) <= MAX_MESSAGES + k - 1;
        WithinAppend(u.all, e, from, from + WINDOW);
        if from <= e.ts <= from + WINDOW {
          assert Within(u.all, from, from + WINDOW) < MAX_MESSAGES + k - u.left;
        }
      }
    }
  }

  lemma {:induction false} RunKeeps(k: nat, u: Usage, calls: seq<Call>)
    requires Faithful(u) && BurstOk(k, u) && WindowsOk(k, u.all) && AllEnabled(k, u, calls)
    ensures WindowsOk(k, DoAll(k, u, calls).all)
    ensures Faithful(DoAll(k, u, calls))
    decreases |calls|
  {
    hide Faithful, BurstOk, WindowsOk, Do;
    if calls != [] {
      if calls[0].Check? { CheckKeeps(k, u, calls[0].now); } else { RecordKeeps(k, u, calls[0]); }
      StepKeepsWindows(k, u, calls[0]);
      RunKeeps(k, Do(k, u, calls[0]), calls[1..]);
    }
  }

  /** Whatever a user does: no hour, wherever it starts, holds more than 240 + k - 1
      of all the events ever recorded, and pruning never forgot one that still counts. */
  lemma {:induction false} NoHourExceedsLimit(k: nat, now: int, calls: seq<Call>)
    requires AllEnabled(k, Initial(now), calls)
    ensures var u := DoAll(k, Initial(now), calls);
            && (forall from, to :: to <= from + 3600 ==> Within(u.all, from, to) <= 240 + k - 1)
            && (forall cutoff :: cutoff >= u.clock - 3600 ==> Since(u.log, cutoff) == Since(u.all, cutoff))
  {
    assert WindowsOk(k, []) by { assert forall from :: InHour([], from) == 0; }
    RunKeeps(k, Initial(now), calls);
    var u := DoAll(k, Initial(now), calls);
    forall from, to | to <= from + 3600 ensures Within(u.all, from, to) <= 240 + k - 1 {
      assert InHour(u.all, from) <= 240 + k - 1;
      WithinGrows(u.all, from, to, from + WINDOW);
    }
  }

  lemma {:induction false} WithinGrows(events: seq<Event>, from: int, to: int, later: int)
    requires to <= later
    ensures Within(events, from, to) <= Within(events, from, later)
  {
    if events != [] { WithinGrows(events[..|events| - 1], from, to, later); }
  }

  // ----- what a check looks at -----

  /** The tokens of the events between two times, both included. */
  function TokensWithin(events: seq<Event>, from: int, to: int): nat {
    if events == [] then 0
    else
      var last := events[|events| - 1];
      TokensWithin(events[..|events| - 1], from, to) + if from <= last.ts <= to then last.tokens else 0
  }

  lemma {:induction false} SinceIsWithin(events: seq<Event>, from: int, to: int)
    requires UpTo(events, to)
    ensures |Since(events, from)| == Within(events, from, to)
    ensures Tokens(Since(events, from)) == TokensWithin(events, from, to)
  {
    if events != [] {
      var front, last := events[..|events| - 1], events[|events| - 1];
      SinceIsWithin(front, from, to);
      var kept := Since(front, from);
      assert (kept + [last])[..|kept|] == kept;
      assert kept + [] == kept;
    }
  }

  lemma {:induction false} RunUpTo(k: nat, u: Usage, calls: seq<Call>)
    requires UpTo(u.all, u.clock) && AllEnabled(k, u, calls)
    ensures UpTo(DoAll(k, u, calls).all, DoAll(k, u, calls).clock)
    decreases |calls|
  {
    hide Since, Allows;
    if calls != [] { RunUpTo(k, Do(k, u, calls[0]), calls[1..]); }
  }

  /** After any run a check is allowed exactly when, of all events ever recorded, the last
      hour holds fewer than 240 with fewer than 400 000 tokens together. */
  lemma {:induction false} CheckLooksAtLastHour(k: nat, start: int, calls: seq<Call>, now: int)
    requires AllEnabled(k, Initial(start), calls) && DoAll(k, Initial(start), calls).clock <= now
    ensures var u := DoAll(k, Initial(start), calls);
            Do(k, u, Check(now)).left
            == if Within(u.all, now - 3600, now) < 240 && TokensWithin(u.all, now - 3600, now) < 400_000 then k else 0
  {
    hide Since, Within, TokensWithin, Tokens, DoAll;
    var u := DoAll(k, Initial(start), calls);
    NoHourExceedsLimit(k, start, calls);
    RunUpTo(k, Initial(start), calls);
    SinceIsWithin(u.all, now - 3600, now);
  }
}

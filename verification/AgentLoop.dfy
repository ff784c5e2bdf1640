/**
 The tool-calling loop `run` of internal/ai/service.go, and how the history it
 saves meets the repair of internal/ai/sessions.go.

 The model is an oracle that gives a stream for every model call, and a tool is
 an oracle that gives an outcome for every call of every round; all statements
 are for every choice of both. Cancellation is not part of this model.
 */
module AgentLoop {
  import opened Options
  import opened Conversation
  import opened History

  datatype StreamItem = Chunk(parts: seq<Part>) | StreamFailure
  datatype ToolOutcome = Succeeded(data: string) | Failed(message: string)
  datatype Event =
    | Delta(text: string)
    | ToolCall(name: string, args: string)
    | ToolResult(name: string, ok: bool)
    | Done(text: string, history: seq<Content>)
    | Error

  /** What the loop does to the outside world, in order. */
  datatype Step = ModelCall(tools: bool) | Dispatch(call: Call)

  function FunctionCallKey(c: Call): string {
    if c.id != "" then "id|" + c.id else c.name + "|" + c.args
  }

  function Payload(outcome: ToolOutcome): string {
    match outcome
    case Succeeded(data) => "result:" + data
    case Failed(message) => "error:" + message
  }

  function ResponsePart(c: Call, payload: string): Part {
    Part(false, "", None, Some(Response(c.name, c.id, payload)), false)
  }

  // ----- what a stream says -----

  /** The parts received before the stream ends or breaks. */
  function Received(items: seq<StreamItem>): seq<Part> {
    if items == [] || items[0].StreamFailure? then [] else items[0].parts + Received(items[1..])
  }

  predicate Breaks(items: seq<StreamItem>) { StreamFailure in items }

  function DeltasOf(p: Part): seq<Event> {
    if p.text != "" && !p.thought then [Delta(p.text)] else []
  }

  function Deltas(parts: seq<Part>): seq<Event> { Collect(parts, DeltasOf) }

  function VisibleOf(p: Part): string { if p.thought then "" else p.text }

  function Visible(parts: seq<Part>): string { Collect(parts, VisibleOf) }

  /** What is shown is the text of everything but thoughts. */
  lemma {:induction false} ThoughtsAreHidden(parts: seq<Part>)
    ensures Visible(parts) == Text(Spoken(parts))
  {
    if parts != [] {
      ThoughtsAreHidden(parts[1..]);
      if !parts[0].thought { assert Spoken(parts)[1..] == Spoken(parts[1..]); }
    }
  }

  /** What comes before a break is received, and nothing after it. */
  lemma {:induction false} ReceivedUntilBreak(before: seq<StreamItem>, parts: seq<Part>, after: seq<StreamItem>)
    requires StreamFailure !in before
    ensures Received(before + [Chunk(parts)]) == Received(before) + parts
    ensures Received(before + [StreamFailure] + after) == Received(before)
    ensures Breaks(before + [StreamFailure] + after) && !Breaks(before + [Chunk(parts)])
    decreases |before|
  {
    if before == [] {
      assert [Chunk(parts)][1..] == [] && parts + [] == parts;
      assert before + [StreamFailure] + after == [StreamFailure] + after;
    } else {
      ReceivedUntilBreak(before[1..], parts, after);
      assert before[0] in before;
      assert (before + [Chunk(parts)])[1..] == before[1..] + [Chunk(parts)];
      assert (before + [StreamFailure] + after)[1..] == before[1..] + [StreamFailure] + after;
    }
  }

  predicate KeyKept(c: Call, kept: seq<Part>) {
    exists i :: 0 <= i < |kept| && kept[i].call.Some? && FunctionCallKey(kept[i].call.value) == FunctionCallKey(c)
  }

  function DedupeStep(p: Part, kept: seq<Part>): seq<Part> {
    if p.call.Some? && !KeyKept(p.call.value, kept) then kept + [p] else kept
  }

  /** The call parts the round keeps: the first part of every key. */
  function Dedupe(parts: seq<Part>, kept: seq<Part>): seq<Part>
    decreases |parts|
  {
    if parts == [] then kept else Dedupe(parts[1..], DedupeStep(parts[0], kept))
  }

  lemma {:induction false} DedupeAppend(a: seq<Part>, p: Part, kept: seq<Part>)
    ensures Dedupe(a + [p], kept) == DedupeStep(p, Dedupe(a, kept))
    decreases |a|
  {
    if a == [] {
      assert a + [p] == [p];
    } else {
      assert (a + [p])[1..] == a[1..] + [p];
      DedupeAppend(a[1..], p, DedupeStep(a[0], kept));
    }
  }

  ghost predicate DistinctKeys(calls: seq<Call>) {
    forall i, j :: 0 <= i < j < |calls| ==> FunctionCallKey(calls[i]) != FunctionCallKey(calls[j])
  }

  ghost predicate AllCalls(parts: seq<Part>) {
    forall i :: 0 <= i < |parts| ==> parts[i].call.Some?
  }

  lemma {:induction false} CallsOfCallParts(parts: seq<Part>)
    requires AllCalls(parts)
    ensures |Calls(parts)| == |parts| && forall i :: 0 <= i < |parts| ==> Calls(parts)[i] == parts[i].call.value
  {
    if parts != [] { CallsOfCallParts(parts[1..]); }
  }

  /** Deduplication keeps calls only, no key twice, and no received key is lost. */
  lemma {:induction false} DedupeCorrect(parts: seq<Part>, kept: seq<Part>)
    requires AllCalls(kept) && DistinctKeys(Calls(kept))
    ensures var d := Dedupe(parts, kept);
            && AllCalls(d) && DistinctKeys(Calls(d)) && kept <= d
            && (forall p :: p in d ==> p in kept || p in parts)
            && (forall p :: p in parts && p.call.Some? ==> KeyKept(p.call.value, d))
    decreases |parts|
  {
    if parts != [] {
      var p := parts[0];
      var next := DedupeStep(p, kept);
      CallsOfCallParts(kept);
      if next != kept { CallsOfCallParts(next); }
      DedupeCorrect(parts[1..], next);
      var d := Dedupe(parts, kept);
      if p.call.Some? {
        assert KeyKept(p.call.value, next) by {
          if next != kept { assert next[|kept|] == p; }
        }
        KeyStaysKept(p.call.value, next, d);
      }
    }
  }

  lemma {:induction false} DedupeFresh(parts: seq<Part>)
    ensures var d := Dedupe(parts, []);
            && AllCalls(d) && DistinctKeys(Calls(d))
            && (forall p :: p in d ==> p in parts)
            && (forall p :: p in parts && p.call.Some? ==> KeyKept(p.call.value, d))
  {
    hide Dedupe, KeyKept;
    DedupeCorrect(parts, []);
  }

  lemma {:induction false} KeyStaysKept(c: Call, kept: seq<Part>, more: seq<Part>)
    requires kept <= more && KeyKept(c, kept)
    ensures KeyKept(c, more)
  {
    var i :| 0 <= i < |kept| && kept[i].call.Some? && FunctionCallKey(kept[i].call.value) == FunctionCallKey(c);
    assert more[i] == kept[i];
  }

  // ----- which calls a key tells apart -----

  /** The same call sent again: under the same ID, or with no ID, the same name and the same arguments. */
  predicate SameCall(a: Call, b: Call) {
    if a.id != "" || b.id != "" then a.id == b.id else a.name == b.name && a.args == b.args
  }

  /** A name that cannot run into the rest of its key. */
  predicate PlainName(name: string) { '|' !in name && name != "id" }

  ghost predicate PlainCalls(parts: seq<Part>) {
    forall p :: p in parts && p.call.Some? ==> PlainName(p.call.value.name)
  }

  lemma {:induction false} FirstBar(a: string, b: string, rest: string, other: string)
    requires '|' !in a && '|' !in b && a + "|" + rest == b + "|" + other
    ensures a == b && rest == other
  {
    var s := a + "|" + rest;
    assert s[|a|] == '|' && forall i :: 0 <= i < |a| ==> s[i] == a[i] && s[i] != '|';
    assert s == b + "|" + other && s[|b|] == '|' && forall i :: 0 <= i < |b| ==> s[i] == b[i] && s[i] != '|';
    assert |a| == |b|;
    assert a == s[..|a|] == b && rest == s[|a| + 1..] == other;
  }

  /** With plain names two calls share a key exactly when they are the same call. */
  lemma {:induction false} SameKeyIff(a: Call, b: Call)
    requires PlainName(a.name) && PlainName(b.name)
    ensures FunctionCallKey(a) == FunctionCallKey(b) <==> SameCall(a, b)
  {
    assert "id|" == "id" + "|";
    if FunctionCallKey(a) == FunctionCallKey(b) {
      FirstBar(if a.id != "" then "id" else a.name, if b.id != "" then "id" else b.name,
               if a.id != "" then a.id else a.args, if b.id != "" then b.id else b.args);
    }
  }

  /** Other names can collide: a call of a tool named `id` with an ID sent as an argument. */
  lemma {:induction false} OddNamesCollide(name: string, id: string, args: string)
    requires id != ""
    ensures FunctionCallKey(Call("id", "", id)) == FunctionCallKey(Call(name, id, args))
    ensures !SameCall(Call("id", "", id), Call(name, id, args))
    ensures Dedupe([Part(false, "", Some(Call("id", "", id)), None, false),
                    Part(false, "", Some(Call(name, id, args)), None, false)], [])
            == [Part(false, "", Some(Call("id", "", id)), None, false)]
  {
    assert "id" + "|" + id == "id|" + id;
    var p, q := Part(false, "", Some(Call("id", "", id)), None, false),
                Part(false, "", Some(Call(name, id, args)), None, false);
    assert [p, q][1..] == [q] && [q][1..] == [];
    assert DedupeStep(p, []) == [p];
    assert KeyKept(q.call.value, [p]) by { assert [p][0].call.value == p.call.value; }
    assert DedupeStep(q, [p]) == [p];
    assert Dedupe([q], [p]) == Dedupe([], [p]) == [p];
    assert Dedupe([p, q], []) == Dedupe([q], [p]);
  }

  lemma {:induction false} KeyTells(a: Call, b: Call)
    requires FunctionCallKey(a) == FunctionCallKey(b)
    ensures a.id != "" && b.id != "" ==> a.id == b.id
    ensures a.id == "" && b.id == "" && a.name == b.name ==> a.args == b.args
  {
    if a.id != "" && b.id != "" {
      assert ("id|" + a.id)[3..] == a.id && ("id|" + b.id)[3..] == b.id;
    } else if a.id == "" && b.id == "" && a.name == b.name {
      assert (a.name + "|" + a.args)[|a.name| + 1..] == a.args && (b.name + "|" + b.args)[|b.name| + 1..] == b.args;
    }
  }

  /** Whatever the names: a call is lost only to one with its ID, or, neither having an
      ID and both the same name, its arguments. */
  lemma {:induction false} KeptCallStandsFor(parts: seq<Part>, p: Part)
    requires p in parts && p.call.Some?
    ensures exists i {:trigger Dedupe(parts, [])[i]} :: 0 <= i < |Dedupe(parts, [])| &&
              var kept := Dedupe(parts, [])[i];
              && kept in parts && kept.call.Some?
              && (p.call.value.id != "" && kept.call.value.id != "" ==> p.call.value.id == kept.call.value.id)
              && (p.call.value.id == "" && kept.call.value.id == "" && p.call.value.name == kept.call.value.name ==>
                    p.call.value.args == kept.call.value.args)
  {
    hide Dedupe, FunctionCallKey;
    DedupeFresh(parts);
    var d, c := Dedupe(parts, []), p.call.value;
    var i :| 0 <= i < |d| && d[i].call.Some? && FunctionCallKey(d[i].call.value) == FunctionCallKey(c);
    assert d[i] in parts;
    KeyTells(c, d[i].call.value);
  }

  lemma {:induction false} KeptSame(parts: seq<Part>, p: Part)
    requires PlainCalls(parts) && p in parts && p.call.Some?
    ensures exists c :: c in Calls(Dedupe(parts, [])) && SameCall(p.call.value, c)
  {
    hide Dedupe, FunctionCallKey, SameCall, PlainName, Collect, DistinctKeys;
    DedupeFresh(parts);
    var d := Dedupe(parts, []);
    CallsOfCallParts(d);
    var i :| 0 <= i < |d| && d[i].call.Some? && FunctionCallKey(d[i].call.value) == FunctionCallKey(p.call.value);
    assert d[i] in parts && Calls(d)[i] in Calls(d);
    SameKeyIff(p.call.value, d[i].call.value);
  }

  /** With plain names every call of a stream is kept once: each has its own among the
      kept ones, and no two of those are the same. */
  lemma {:induction false} EachCallKeptOnce(parts: seq<Part>)
    requires PlainCalls(parts)
    ensures var calls := Calls(Dedupe(parts, []));
            && (forall p :: p in parts && p.call.Some? ==> exists c :: c in calls && SameCall(p.call.value, c))
            && (forall i, j :: 0 <= i < j < |calls| ==> !SameCall(calls[i], calls[j]))
  {
    hide Dedupe, FunctionCallKey, SameCall, PlainName, Collect;
    DedupeFresh(parts);
    var d := Dedupe(parts, []);
    CallsOfCallParts(d);
    forall p | p in parts && p.call.Some? ensures exists c :: c in Calls(d) && SameCall(p.call.value, c) {
      KeptSame(parts, p);
    }
    forall i, j | 0 <= i < j < |Calls(d)| ensures !SameCall(Calls(d)[i], Calls(d)[j]) {
      assert d[i] in parts && d[j] in parts;
      SameKeyIff(Calls(d)[i], Calls(d)[j]);
    }
  }

  /** `seenCalls` holds the keys of the calls kept so far. */
  ghost predicate SeenAre(seenCalls: map<string, nat>, callParts: seq<Part>) {
    forall c: Call {:trigger KeyKept(c, callParts)} :: FunctionCallKey(c) in seenCalls <==> KeyKept(c, callParts)
  }

  /** Reads the parts of one chunk after the parts `read` of the chunks before it. */
  method ReadChunk(parts: seq<Part>, seenCalls: map<string, nat>, callParts: seq<Part>, ghost read: seq<Part>)
    returns (text: string, events: seq<Event>, seenCalls': map<string, nat>, callParts': seq<Part>)
    requires SeenAre(seenCalls, callParts) && callParts == Dedupe(read, [])
    ensures text == Visible(parts) && events == Deltas(parts)
    ensures SeenAre(seenCalls', callParts') && callParts' == Dedupe(read + parts, [])
  {
    hide Collect, KeyKept, Dedupe, FunctionCallKey;
    text, events, seenCalls', callParts' := "", [], seenCalls, callParts;
    NothingRead();
    assert read + parts[..0] == read;
    for k := 0 to |parts|
      invariant text == Visible(parts[..k]) && events == Deltas(parts[..k])
      invariant SeenAre(seenCalls', callParts') && callParts' == Dedupe(read + parts[..k], [])
    {
      var p := parts[k];
      assert parts[..k + 1] == parts[..k] + [p] && read + parts[..k + 1] == (read + parts[..k]) + [p];
      ReadOne(parts[..k], p);
      ReadOne(read + parts[..k], p);
      if p.text != "" && !p.thought {
        text := text + p.text;
        events := events + [Delta(p.text)];
      }
      if p.call.Some? {
        var key := FunctionCallKey(p.call.value);
        assert key in seenCalls' <==> KeyKept(p.call.value, callParts');
        if key in seenCalls' {
          continue;
        }
        KeyKeptAppend(callParts', p);
        seenCalls' := seenCalls'[key := |callParts'|];
        callParts' := callParts' + [p];
      }
    }
    assert parts[..|parts|] == parts;
  }

  lemma {:induction false} NothingRead()
    ensures Visible([]) == "" && Deltas([]) == [] && Dedupe([], []) == []
    ensures forall c: Call {:trigger KeyKept(c, [])} :: !KeyKept(c, [])
  {
  }

  /** Reads one model stream until it ends or breaks. */
  method StreamRound(items: seq<StreamItem>) returns (turnText: string, callParts: seq<Part>, events: seq<Event>,
      broke: bool)
    ensures broke == Breaks(items)
    ensures turnText == Visible(Received(items)) && events == Deltas(Received(items))
    ensures callParts == Dedupe(Received(items), [])
  {
    hide Collect, KeyKept, Dedupe, Received;
    turnText, callParts, events, broke := "", [], [], false;
    NothingRead();
    var seenCalls: map<string, nat> := map[];
    assert SeenAre(seenCalls, []);
    ghost var read: seq<Part> := [];
    for n := 0 to |items|
      invariant Received(items) == read + Received(items[n..])
      invariant StreamFailure !in items[..n]
      invariant turnText == Visible(read) && events == Deltas(read) && callParts == Dedupe(read, [])
      invariant SeenAre(seenCalls, callParts)
    {
      ReceivedStep(items, n, read);
      if items[n].StreamFailure? {
        return turnText, callParts, events, true;
      }
      var text, deltas;
      text, deltas, seenCalls, callParts := ReadChunk(items[n].parts, seenCalls, callParts, read);
      CollectAppend(read, items[n].parts, VisibleOf);
      CollectAppend(read, items[n].parts, DeltasOf);
      turnText := turnText + text;
      events := events + deltas;
      read := read + items[n].parts;
    }
    ReceivedStep(items, |items|, read);
  }

  lemma {:induction false} ReceivedStep(items: seq<StreamItem>, n: nat, read: seq<Part>)
    requires n <= |items|
    ensures n == |items| ==> items[..n] == items && read + Received(items[n..]) == read
    ensures n < |items| && items[n].StreamFailure? ==> read + Received(items[n..]) == read
    ensures n < |items| && items[n].Chunk? ==>
              read + Received(items[n..]) == (read + items[n].parts) + Received(items[n + 1..])
  {
    if n < |items| { assert items[n..][0] == items[n] && items[n..][1..] == items[n + 1..]; }
  }

  lemma {:induction false} ReadOne(read: seq<Part>, p: Part)
    ensures Visible(read + [p]) == Visible(read) + VisibleOf(p)
    ensures Deltas(read + [p]) == Deltas(read) + DeltasOf(p)
    ensures Dedupe(read + [p], []) == DedupeStep(p, Dedupe(read, []))
  {
    CollectAppend(read, [p], VisibleOf);
    CollectAppend(read, [p], DeltasOf);
    CollectOne(p, VisibleOf);
    CollectOne(p, DeltasOf);
    DedupeAppend(read, p, []);
  }

  lemma {:induction false} KeyKeptAppend(kept: seq<Part>, p: Part)
    requires p.call.Some?
    ensures forall c: Call {:trigger KeyKept(c, kept + [p])} ::
              KeyKept(c, kept + [p]) <==> KeyKept(c, kept) || FunctionCallKey(c) == FunctionCallKey(p.call.value)
  {
    forall c: Call ensures KeyKept(c, kept + [p])
        <==> KeyKept(c, kept) || FunctionCallKey(c) == FunctionCallKey(p.call.value) {
      var more := kept + [p];
      if KeyKept(c, kept) { KeyStaysKept(c, kept, more); }
      if FunctionCallKey(c) == FunctionCallKey(p.call.value) { assert more[|kept|] == p; }
    }
  }

  // ----- the events of a run -----

  predicate Terminal(e: Event) { e.Done? || e.Error? }

  function DeltaText(events: seq<Event>): string {
    if events == [] then "" else (if events[0].Delta? then events[0].text else "") + DeltaText(events[1..])
  }

  /** Not terminal; a tool call is followed at once by its result, and a result follows its call. */
  ghost predicate FitsAt(events: seq<Event>, i: nat) {
    && i < |events|
    && !Terminal(events[i])
    && (events[i].ToolCall? ==> i + 1 < |events| && events[i + 1].ToolResult? && events[i + 1].name == events[i].name)
    && (events[i].ToolResult? ==> i > 0 && events[i - 1].ToolCall?)
  }

  ghost predicate Running(events: seq<Event>) {
    forall i :: 0 <= i < |events| ==> FitsAt(events, i)
  }

  lemma {:induction false} DeltaTextAppend(a: seq<Event>, b: seq<Event>)
    ensures DeltaText(a + b) == DeltaText(a) + DeltaText(b)
  {
    if a == [] {
      assert a + b == b;
    } else {
      assert (a + b)[1..] == a[1..] + b;
      DeltaTextAppend(a[1..], b);
      ConcatAssociates(if a[0].Delta? then a[0].text else "", DeltaText(a[1..]), DeltaText(b));
    }
  }

  lemma {:induction false} RunningAppend(a: seq<Event>, b: seq<Event>)
    requires Running(a) && Running(b)
    ensures Running(a + b)
  {
    var all := a + b;
    forall i | 0 <= i < |all| ensures FitsAt(all, i) {
      if i < |a| { assert FitsAt(a, i); } else { assert FitsAt(b, i - |a|); }
    }
  }

  /** The deltas of a round say exactly its visible text. */
  lemma {:induction false} DeltasSayVisible(parts: seq<Part>)
    ensures DeltaText(Deltas(parts)) == Visible(parts)
    ensures forall i :: 0 <= i < |Deltas(parts)| ==> Deltas(parts)[i].Delta?
  {
    if parts != [] {
      DeltasSayVisible(parts[1..]);
      DeltaTextAppend(DeltasOf(parts[0]), Deltas(parts[1..]));
      var one := DeltasOf(parts[0]);
      if one != [] {
        assert one[1..] == [];
        assert DeltaText(one) == parts[0].text + "";
      }
    }
  }

  // ----- one round of dispatch -----

  /** What the first n dispatches of a round send: each call, then its result. */
  function ToolEvents(calls: seq<Call>, round: nat, tool: (nat, nat) -> ToolOutcome, n: nat): seq<Event>
    requires n <= |calls|
  {
    if n == 0 then []
    else
      var c := calls[n - 1];
      ToolEvents(calls, round, tool, n - 1)
      + [ToolCall(c.name, c.args), ToolResult(c.name, tool(round, n - 1).Succeeded?)]
  }

  function ToolResponses(calls: seq<Call>, round: nat, tool: (nat, nat) -> ToolOutcome): (parts: seq<Part>)
    ensures |parts| == |calls| && forall k :: 0 <= k < |calls| ==> ResponseTo(calls[k], parts[k])
  {
    var parts := seq(|calls|, k requires 0 <= k < |calls| => ResponsePart(calls[k], Payload(tool(round, k))));
    assert forall k :: 0 <= k < |calls| ==> parts[k] == ResponsePart(calls[k], Payload(tool(round, k)));
    parts
  }

  function Dispatches(calls: seq<Call>): (steps: seq<Step>)
    ensures |steps| == |calls| && forall k :: 0 <= k < |calls| ==> steps[k] == Dispatch(calls[k])
  {
    seq(|calls|, k requires 0 <= k < |calls| => Dispatch(calls[k]))
  }

  lemma {:induction false} NoText(call: Event, result: Event)
    requires !call.Delta? && !result.Delta?
    ensures DeltaText([call, result]) == ""
  {
    assert [result][1..] == [] && DeltaText([result]) == "" + DeltaText([]);
    assert [call, result][1..] == [result] && DeltaText([call, result]) == "" + DeltaText([result]);
  }

  lemma {:induction false} ToolEventsRunning(calls: seq<Call>, round: nat, tool: (nat, nat) -> ToolOutcome, n: nat)
    requires n <= |calls|
    ensures Running(ToolEvents(calls, round, tool, n)) && DeltaText(ToolEvents(calls, round, tool, n)) == ""
  {
    if n > 0 {
      ToolEventsRunning(calls, round, tool, n - 1);
      var c := calls[n - 1];
      var call, result := ToolCall(c.name, c.args), ToolResult(c.name, tool(round, n - 1).Succeeded?);
      RunningAppend(ToolEvents(calls, round, tool, n - 1), [call, result]);
      DeltaTextAppend(ToolEvents(calls, round, tool, n - 1), [call, result]);
      NoText(call, result);
    }
  }

  method DispatchCalls(calls: seq<Call>, round: nat, tool: (nat, nat) -> ToolOutcome)
    returns (events: seq<Event>, respParts: seq<Part>, trace: seq<Step>)
    ensures events == ToolEvents(calls, round, tool, |calls|)
    ensures respParts == ToolResponses(calls, round, tool)
    ensures trace == Dispatches(calls)
  {
    hide ToolResponses, Dispatches, ResponsePart, Payload;
    events, respParts, trace := [], [], [];
    for k := 0 to |calls|
      invariant events == ToolEvents(calls, round, tool, k)
      invariant |respParts| == k && |trace| == k
      invariant forall i :: 0 <= i < k ==> respParts[i] == ResponsePart(calls[i], Payload(tool(round, i)))
      invariant forall i :: 0 <= i < k ==> trace[i] == Dispatch(calls[i])
    {
      var call := calls[k];
      ghost var before := events;
      events := events + [ToolCall(call.name, call.args)];
      var outcome := tool(round, k);
      trace := trace + [Dispatch(call)];
      events := events + [ToolResult(call.name, outcome.Succeeded?)];
      assert events == before + [ToolCall(call.name, call.args), ToolResult(call.name, outcome.Succeeded?)];
      respParts := respParts + [ResponsePart(call, Payload(outcome))];
    }
    AllDispatched(calls, round, tool, respParts, trace);
  }

  lemma {:induction false} AllDispatched(calls: seq<Call>, round: nat, tool: (nat, nat) -> ToolOutcome,
      respParts: seq<Part>, trace: seq<Step>)
    requires |respParts| == |trace| == |calls|
    requires forall i :: 0 <= i < |calls| ==> respParts[i] == ResponsePart(calls[i], Payload(tool(round, i)))
    requires forall i :: 0 <= i < |calls| ==> trace[i] == Dispatch(calls[i])
    ensures respParts == ToolResponses(calls, round, tool) && trace == Dispatches(calls)
  {
    hide ResponsePart, Payload;
  }

  // ----- the shape of the saved history -----

  /** A model turn of a tool round: perhaps text, then calls. */
  ghost predicate CallTurnShape(c: Content) {
    && HasCall(c)
    && forall i :: 0 <= i < |c.parts| ==>
         c.parts[i].call.Some? || (i == 0 && c.parts[0].text != "" && c.parts[0] == TextPart(c.parts[0].text))
  }

  /** A user turn with one response per call, in order, with the same name and ID. */
  ghost predicate Mirrors(c: Content, r: Content) {
    && r.role == User
    && |r.parts| == |Calls(c.parts)|
    && forall k :: 0 <= k < |r.parts| ==> ResponseTo(Calls(c.parts)[k], r.parts[k])
  }

  /** A part that is nothing but the response to one call. */
  predicate ResponseTo(c: Call, p: Part) {
    p.response.Some? && p == ResponsePart(c, p.response.value.payload)
  }

  ghost predicate AnswerTurn(c: Content) { exists text :: text != "" && c == TextTurn(Model, text) }

  ghost predicate ExchangeAt(h: seq<Content>, i: nat) {
    i + 1 < |h| && CallTurnShape(h[i]) && Mirrors(h[i], h[i + 1])
  }

  ghost predicate AnswerAt(h: seq<Content>, i: nat) {
    i == |h| - 1 && AnswerTurn(h[i])
  }

  /** The prior history, the question, then call/response exchanges, then perhaps one text answer. */
  ghost predicate Conversing(prior: seq<Content>, message: string, h: seq<Content>) {
    && |prior| < |h| && prior <= h
    && h[|prior|] == TextTurn(User, message)
    && forall i :: |prior| < i < |h| && (i - |prior|) % 2 == 1 ==> ExchangeAt(h, i) || AnswerAt(h, i)
  }

  /** Everything said so far is paired: the next turn may be a model turn. */
  ghost predicate Awaiting(prior: seq<Content>, message: string, h: seq<Content>) {
    Conversing(prior, message, h) && (|h| - |prior|) % 2 == 1
  }

  lemma {:induction false} AddExchange(prior: seq<Content>, message: string, h: seq<Content>, c: Content, r: Content)
    requires Awaiting(prior, message, h) && CallTurnShape(c) && Mirrors(c, r)
    ensures Awaiting(prior, message, h + [c, r])
  {
    hide CallTurnShape, Mirrors, AnswerTurn;
    var all := h + [c, r];
    forall i | |prior| < i < |all| && (i - |prior|) % 2 == 1 ensures ExchangeAt(all, i) || AnswerAt(all, i) {
      if i < |h| { assert ExchangeAt(h, i) || AnswerAt(h, i); }
    }
  }

  lemma {:induction false} AddAnswer(prior: seq<Content>, message: string, h: seq<Content>, text: string)
    requires Awaiting(prior, message, h) && text != ""
    ensures Conversing(prior, message, h + [TextTurn(Model, text)])
  {
    hide CallTurnShape, Mirrors;
    var all := h + [TextTurn(Model, text)];
    assert AnswerTurn(all[|h|]);
    forall i | |prior| < i < |all| && (i - |prior|) % 2 == 1 ensures ExchangeAt(all, i) || AnswerAt(all, i) {
      if i < |h| { assert ExchangeAt(h, i) || AnswerAt(h, i); }
    }
  }

  lemma {:induction false} CallTurnFits(turnText: string, callParts: seq<Part>, respParts: seq<Part>)
    requires AllCalls(callParts) && callParts != [] && |respParts| == |callParts|
    requires forall k :: 0 <= k < |callParts| ==> ResponseTo(callParts[k].call.value, respParts[k])
    ensures var c := Content(Model, (if turnText != "" then [TextPart(turnText)] else []) + callParts);
            CallTurnShape(c) && Mirrors(c, Content(User, respParts))
  {
    var head := if turnText != "" then [TextPart(turnText)] else [];
    var c := Content(Model, head + callParts);
    CollectAppend(head, callParts, CallOf);
    CollectOne(TextPart(turnText), CallOf);
    CallsOfCallParts(callParts);
    assert Calls(c.parts) == Calls(callParts);
  }

  // ----- the trace of a run -----

  function ToolRounds(trace: seq<Step>): nat {
    if trace == [] then 0 else (if trace[0] == ModelCall(true) then 1 else 0) + ToolRounds(trace[1..])
  }

  /** Calls dispatched with no model call in between have different keys. */
  ghost predicate DistinctWithinRounds(trace: seq<Step>) {
    forall i, j :: 0 <= i < j < |trace| && (forall k :: i <= k <= j ==> trace[k].Dispatch?) ==>
      FunctionCallKey(trace[i].call) != FunctionCallKey(trace[j].call)
  }

  lemma {:induction false} ToolRoundsAppend(a: seq<Step>, b: seq<Step>)
    ensures ToolRounds(a + b) == ToolRounds(a) + ToolRounds(b)
  {
    if a == [] {
      assert a + b == b;
    } else {
      assert (a + b)[1..] == a[1..] + b;
      ToolRoundsAppend(a[1..], b);
    }
  }

  lemma {:induction false} NoRounds(trace: seq<Step>)
    requires forall i :: 0 <= i < |trace| ==> trace[i].Dispatch?
    ensures ToolRounds(trace) == 0
  {
    if trace != [] { NoRounds(trace[1..]); }
  }

  lemma {:induction false} ApartInRound(trace: seq<Step>, calls: seq<Call>, dispatches: seq<Step>, i: nat, j: nat)
    requires DistinctWithinRounds(trace) && DistinctKeys(calls)
    requires |dispatches| == |calls| && forall k :: 0 <= k < |calls| ==> dispatches[k] == Dispatch(calls[k])
    requires i < j < |trace| + 1 + |dispatches| && (j < |trace| || |trace| < i)
    requires forall k :: i <= k <= j ==> (trace + [ModelCall(true)] + dispatches)[k].Dispatch?
    ensures var all := trace + [ModelCall(true)] + dispatches;
            FunctionCallKey(all[i].call) != FunctionCallKey(all[j].call)
  {
    hide FunctionCallKey;
    var all, n := trace + [ModelCall(true)] + dispatches, |trace|;
    if j < n {
      forall k | i <= k <= j ensures trace[k].Dispatch? { assert all[k] == trace[k]; }
      assert all[i] == trace[i] && all[j] == trace[j];
    } else {
      assert all[i] == dispatches[i - n - 1] && all[j] == dispatches[j - n - 1];
    }
  }

  lemma {:induction false} AddRound(trace: seq<Step>, calls: seq<Call>, dispatches: seq<Step>)
    requires DistinctWithinRounds(trace) && DistinctKeys(calls)
    requires |dispatches| == |calls| && forall k :: 0 <= k < |calls| ==> dispatches[k] == Dispatch(calls[k])
    ensures DistinctWithinRounds(trace + [ModelCall(true)] + dispatches)
    ensures ToolRounds(trace + [ModelCall(true)] + dispatches) == ToolRounds(trace) + 1
  {
    hide FunctionCallKey, DistinctKeys;
    var all, n := trace + [ModelCall(true)] + dispatches, |trace|;
    ToolRoundsAppend(trace + [ModelCall(true)], dispatches);
    ToolRoundsAppend(trace, [ModelCall(true)]);
    NoRounds(dispatches);
    assert !all[n].Dispatch?;
    forall i, j | 0 <= i < j < |all| && (forall k :: i <= k <= j ==> all[k].Dispatch?)
      ensures FunctionCallKey(all[i].call) != FunctionCallKey(all[j].call)
    {
      assert j < n || n < i;
      ApartInRound(trace, calls, dispatches, i, j);
    }
  }

  // ----- the loop -----

  function Answer(text: string): seq<Content> {
    if text == "" then [] else [TextTurn(Model, text)]
  }

  function Exchange(turnText: string, callParts: seq<Part>, round: nat,
      tool: (nat, nat) -> ToolOutcome): (turns: seq<Content>)
    ensures |turns| == 2
  {
    [Content(Model, (if turnText != "" then [TextPart(turnText)] else []) + callParts),
     Content(User, ToolResponses(Calls(callParts), round, tool))]
  }

  /** The whole run from round r on: what is sent and what is asked, given what was
      saved, said, sent and asked before. */
  function RunFrom(saved: seq<Content>, finalText: string, events: seq<Event>, trace: seq<Step>, r: nat, rounds: nat,
      model: nat -> seq<StreamItem>, tool: (nat, nat) -> ToolOutcome): (run: (seq<Event>, seq<Step>))
    requires r <= rounds
    ensures run.0 != []
    decreases rounds - r
  {
    var said := Received(model(r));
    var text, sent, asked := finalText + Visible(said), events + Deltas(said), trace + [ModelCall(r < rounds)];
    var calls := if r < rounds then Dedupe(said, []) else [];
    if Breaks(model(r)) || (r == rounds && text == "") then (sent + [Error], asked)
    else if calls == [] then (sent + [Done(text, saved + Answer(Visible(said)))], asked)
    else
      RunFrom(saved + Exchange(Visible(said), calls, r, tool), text,
              sent + ToolEvents(Calls(calls), r, tool, |Calls(calls)|),
              asked + Dispatches(Calls(calls)), r + 1, rounds, model, tool)
  }

  function RunOf(prior: seq<Content>, message: string, rounds: nat, model: nat -> seq<StreamItem>,
      tool: (nat, nat) -> ToolOutcome): (run: (seq<Event>, seq<Step>))
    ensures run.0 != []
  {
    RunFrom(prior + [TextTurn(User, message)], "", [], [], 0, rounds, model, tool)
  }

  /** What holds of every finished run, whatever the model and the tools did. */
  ghost predicate Finished(prior: seq<Content>, message: string, rounds: nat, events: seq<Event>, trace: seq<Step>) {
    && events != [] && Running(events[..|events| - 1]) && Terminal(Last(events))
    && (Last(events).Done? ==>
          && Last(events).text == DeltaText(events)
          && Conversing(prior, message, Last(events).history))
    && ToolRounds(trace) <= rounds
    && DistinctWithinRounds(trace)
    && (forall i :: 0 <= i < |trace| && trace[i] == ModelCall(false) ==>
        i == |trace| - 1 && ToolRounds(trace) == rounds)
  }

  /** What holds between two rounds. */
  ghost predicate Between(prior: seq<Content>, message: string, r: nat, finalText: string, saved: seq<Content>,
      events: seq<Event>, trace: seq<Step>) {
    && Running(events) && DeltaText(events) == finalText
    && Awaiting(prior, message, saved)
    && ToolRounds(trace) == r && DistinctWithinRounds(trace)
    && ModelCall(false) !in trace
  }

  lemma {:induction false} EndRun(prior: seq<Content>, message: string, rounds: nat, events: seq<Event>,
      trace: seq<Step>, last: Event)
    requires Running(events) && Terminal(last)
    requires last.Done? ==> last.text == DeltaText(events) && Conversing(prior, message, last.history)
    requires ToolRounds(trace) <= rounds && DistinctWithinRounds(trace)
    requires forall i :: 0 <= i < |trace| && trace[i] == ModelCall(false) ==>
        i == |trace| - 1 && ToolRounds(trace) == rounds
    ensures Finished(prior, message, rounds, events + [last], trace)
  {
    var all := events + [last];
    assert all[..|all| - 1] == events;
    DeltaTextAppend(events, [last]);
    assert DeltaText([last]) == "";
  }

  /** A round that asked for tools keeps the run paired. */
  lemma {:induction false} RoundKeepsBetween(prior: seq<Content>, message: string, r: nat, finalText: string,
      saved: seq<Content>, events: seq<Event>, trace: seq<Step>, turnText: string, callParts: seq<Part>, tool: (nat,
      nat) -> ToolOutcome)
    requires Between(prior, message, r, finalText, saved, events, trace)
    requires callParts != [] && AllCalls(callParts) && DistinctKeys(Calls(callParts))
    ensures Between(prior, message, r + 1, finalText, saved + Exchange(turnText, callParts, r, tool),
                    events + ToolEvents(Calls(callParts), r, tool, |Calls(callParts)|),
                    trace + [ModelCall(true)] + Dispatches(Calls(callParts)))
  {
    hide Running, Awaiting, DistinctWithinRounds, DistinctKeys, ToolRounds, DeltaText, CallTurnShape, Mirrors;
    var calls := Calls(callParts);
    CallsOfCallParts(callParts);
    var turns := Exchange(turnText, callParts, r, tool);
    CallTurnFits(turnText, callParts, turns[1].parts);
    AddExchange(prior, message, saved, turns[0], turns[1]);
    var toolEvents := ToolEvents(calls, r, tool, |calls|);
    ToolEventsRunning(calls, r, tool, |calls|);
    RunningAppend(events, toolEvents);
    DeltaTextAppend(events, toolEvents);
    AddRound(trace, calls, Dispatches(calls));
  }

  /** The second half of a round that asked for tools: dispatch, then record the exchange. */
  method ToolRound(prior: seq<Content>, message: string, r: nat, finalText: string, contents: seq<Content>,
      ghost saved: seq<Content>, events: seq<Event>, trace: seq<Step>, turnText: string, callParts: seq<Part>,
      tool: (nat, nat) -> ToolOutcome)
    returns (contents': seq<Content>, events': seq<Event>, trace': seq<Step>, ghost saved': seq<Content>)
    requires Between(prior, message, r, finalText, saved, events, trace)
    requires Backed(prior, message, contents, saved)
    requires callParts != [] && AllCalls(callParts) && DistinctKeys(Calls(callParts))
    ensures Between(prior, message, r + 1, finalText, saved', events', trace')
    ensures Backed(prior, message, contents', saved')
    ensures saved' == saved + Exchange(turnText, callParts, r, tool)
    ensures events' == events + ToolEvents(Calls(callParts), r, tool, |Calls(callParts)|)
    ensures trace' == trace + [ModelCall(true)] + Dispatches(Calls(callParts))
  {
    hide Running, Awaiting, DistinctWithinRounds, DistinctKeys, ToolRounds, DeltaText, CallTurnShape, Mirrors;
    var turnParts := (if |turnText| > 0 then [TextPart(turnText)] else []) + callParts;
    var callTurn := Content(Model, turnParts);
    contents' := contents + [callTurn];
    CallsOfCallParts(callParts);
    var calls := Calls(callParts);
    var toolEvents, respParts, dispatches := DispatchCalls(calls, r, tool);
    var respTurn := Content(User, respParts);
    contents' := contents' + [respTurn];
    saved' := saved + [callTurn, respTurn];
    events' := events + toolEvents;
    trace' := trace + [ModelCall(true)] + dispatches;
    RoundKeepsBetween(prior, message, r, finalText, saved, events, trace, turnText, callParts, tool);
  }

  /** `contents` goes to the model; `saved` is the same with the message turn freed of the live context. */
  ghost predicate Backed(prior: seq<Content>, message: string, contents: seq<Content>, saved: seq<Content>) {
    |prior| < |contents| && saved == contents[|prior| := TextTurn(User, message)]
  }

  method Run(prior: seq<Content>, liveContext: string, message: string, rounds: nat, model: nat -> seq<StreamItem>,
      tool: (nat, nat) -> ToolOutcome)
    returns (events: seq<Event>, trace: seq<Step>)
    ensures (events, trace) == RunOf(prior, message, rounds, model, tool)
    ensures Finished(prior, message, rounds, events, trace)
  {
    hide Finished, Conversing, Running, DistinctWithinRounds, ToolRounds, DeltaText, Collect, Received, Dedupe;
    RunFinishes(prior, message, rounds, model, tool);
    var msgAt := |prior|;
    var contents := prior + [Content(User, [TextPart(liveContext), TextPart(message)])];
    var finalText := "";
    events, trace := [], [];
    ghost var saved := prior + [TextTurn(User, message)];
    StartRun(prior, message);
    for r := 0 to rounds
      invariant Backed(prior, message, contents, saved)
      invariant Between(prior, message, r, finalText, saved, events, trace)
      invariant RunFrom(saved, finalText, events, trace, r, rounds, model, tool)
          == RunOf(prior, message, rounds, model, tool)
    {
      var turnText, callParts, deltas, broke := StreamRound(model(r));
      StreamSaid(prior, message, r, finalText, saved, events, trace, model(r));
      events := events + deltas;
      if broke {
        return events + [Error], trace + [ModelCall(true)];
      }
      finalText := finalText + turnText;
      if |callParts| == 0 {
        assert |turnText| == 0 ==> saved + Answer(turnText) == saved;
        if |turnText| > 0 {
          contents := contents + [TextTurn(Model, turnText)];
          saved := saved + [TextTurn(Model, turnText)];
        }
        assert Backed(prior, message, contents, saved);
        return events + [Done(finalText, contents[msgAt := TextTurn(User, message)])], trace + [ModelCall(true)];
      }
      DedupeFresh(Received(model(r)));
      contents, events, trace, saved := ToolRound(prior, message, r, finalText, contents, saved, events, trace,
          turnText, callParts, tool);
    }
    var synthesisText, unused, deltas, broke := StreamRound(model(rounds));
    finalText := finalText + synthesisText;
    events := events + deltas;
    trace := trace + [ModelCall(false)];
    if broke {
      return events + [Error], trace;
    }
    assert |synthesisText| == 0 ==> saved + Answer(synthesisText) == saved;
    if |synthesisText| > 0 {
      contents := contents + [TextTurn(Model, synthesisText)];
      saved := saved + [TextTurn(Model, synthesisText)];
    }
    if |finalText| == 0 {
      return events + [Error], trace;
    }
    assert Backed(prior, message, contents, saved);
    return events + [Done(finalText, contents[msgAt := TextTurn(User, message)])], trace;
  }

  // ----- every run -----

  lemma {:induction false} AnswerKeepsConversing(prior: seq<Content>, message: string, h: seq<Content>, text: string)
    requires Awaiting(prior, message, h)
    ensures Conversing(prior, message, h + Answer(text))
  {
    hide Conversing;
    if text == "" {
      assert h + Answer(text) == h;
    } else {
      AddAnswer(prior, message, h, text);
    }
  }

  lemma {:induction false} RoundSays(prior: seq<Content>, message: string, r: nat, finalText: string,
      saved: seq<Content>, events: seq<Event>, trace: seq<Step>, items: seq<StreamItem>)
    requires Between(prior, message, r, finalText, saved, events, trace)
    ensures Between(prior, message, r, finalText + Visible(Received(items)), saved, events + Deltas(Received(items)),
        trace)
  {
    hide Running, Awaiting, DistinctWithinRounds, ToolRounds, DeltaText, Collect, Received;
    StreamSaid(prior, message, r, finalText, saved, events, trace, items);
  }

  /** Stopping after round r has spoken. */
  lemma {:induction false} RunStops(prior: seq<Content>, message: string, r: nat, rounds: nat, text: string,
      saved: seq<Content>, sent: seq<Event>, trace: seq<Step>, answer: string)
    requires r <= rounds && Between(prior, message, r, text, saved, sent, trace)
    ensures Finished(prior, message, rounds, sent + [Error], trace + [ModelCall(r < rounds)])
    ensures Finished(prior, message, rounds, sent + [Done(text, saved + Answer(answer))],
                     trace + [ModelCall(r < rounds)])
  {
    hide Finished, Conversing, Running, DistinctWithinRounds, ToolRounds, DeltaText, Answer;
    AskedModel(trace, r < rounds);
    AnswerKeepsConversing(prior, message, saved, answer);
    EndRun(prior, message, rounds, sent, trace + [ModelCall(r < rounds)], Error);
    EndRun(prior, message, rounds, sent, trace + [ModelCall(r < rounds)], Done(text, saved + Answer(answer)));
  }

  lemma {:induction false} RunFromFinishes(prior: seq<Content>, message: string, saved: seq<Content>,
      finalText: string, events: seq<Event>, trace: seq<Step>, r: nat, rounds: nat, model: nat -> seq<StreamItem>,
      tool: (nat, nat) -> ToolOutcome)
    requires r <= rounds && Between(prior, message, r, finalText, saved, events, trace)
    ensures var run := RunFrom(saved, finalText, events, trace, r, rounds, model, tool);
            Finished(prior, message, rounds, run.0, run.1)
    decreases rounds - r
  {
    hide Finished, Between, Collect, Received, Dedupe, AllCalls, DistinctKeys, Breaks, Answer;
    var said := Received(model(r));
    var text, sent := finalText + Visible(said), events + Deltas(said);
    var calls := if r < rounds then Dedupe(said, []) else [];
    RoundSays(prior, message, r, finalText, saved, events, trace, model(r));
    RunStops(prior, message, r, rounds, text, saved, sent, trace, Visible(said));
    if !Breaks(model(r)) && calls != [] {
      DedupeFresh(said);
      RoundKeepsBetween(prior, message, r, text, saved, sent, trace, Visible(said), calls, tool);
      RunFromFinishes(prior, message, saved + Exchange(Visible(said), calls, r, tool), text,
                      sent + ToolEvents(Calls(calls), r, tool, |Calls(calls)|),
                      trace + [ModelCall(true)] + Dispatches(Calls(calls)), r + 1, rounds, model, tool);
    }
  }

  lemma {:induction false} RunFinishes(prior: seq<Content>, message: string, rounds: nat,
      model: nat -> seq<StreamItem>, tool: (nat, nat) -> ToolOutcome)
    ensures var run := RunOf(prior, message, rounds, model, tool);
            Finished(prior, message, rounds, run.0, run.1)
  {
    hide Finished, Between, RunFrom;
    StartRun(prior, message);
    RunFromFinishes(prior, message, prior + [TextTurn(User, message)], "", [], [], 0, rounds, model, tool);
  }

  // ----- where a run stops, read off the streams -----

  predicate Asks(parts: seq<Part>) { exists i :: 0 <= i < |parts| && parts[i].call.Some? }

  lemma {:induction false} DedupeAsks(parts: seq<Part>)
    ensures Dedupe(parts, []) != [] <==> Asks(parts)
  {
    hide Dedupe;
    DedupeCorrect(parts, []);
    var d := Dedupe(parts, []);
    if d != [] {
      assert d[0] in parts && d[0].call.Some?;
    }
    if Asks(parts) {
      var i :| 0 <= i < |parts| && parts[i].call.Some?;
      assert KeyKept(parts[i].call.value, d);
    }
  }

  /** The stream is read to its end and asks for a tool. */
  predicate Continues(items: seq<StreamItem>) { !Breaks(items) && Asks(Received(items)) }

  /** The round that ends a run: the wrap-up round, or the first one that breaks or asks for nothing. */
  function StopRound(model: nat -> seq<StreamItem>, r: nat, rounds: nat): (n: nat)
    requires r <= rounds
    ensures r <= n <= rounds
    ensures forall k: nat :: r <= k < n ==> Continues(model(k))
    ensures n < rounds ==> !Continues(model(n))
    decreases rounds - r
  {
    if r < rounds && Continues(model(r)) then StopRound(model, r + 1, rounds) else r
  }

  /** What some rounds in a row say to the user. */
  function Said(model: nat -> seq<StreamItem>, first: nat, count: nat): string
    decreases count
  {
    if count == 0 then "" else Visible(Received(model(first))) + Said(model, first + 1, count - 1)
  }

  function IfSaid(text: string): nat { if text == "" then 0 else 1 }

  /** The last event of a run that saved `size` turns before its last round. */
  ghost predicate EndsAs(last: Event, broken: bool, final: bool, text: string, size: nat, answer: string) {
    && (last.Done? <==> !broken && (final ==> text != ""))
    && (last.Done? ==>
          && last.text == text
          && |last.history| == size + IfSaid(answer)
          && last.history != []
          && (Last(last.history).role == Model <==> answer != ""))
  }

  lemma {:induction false} ExchangeEndsInUser(saved: seq<Content>, turnText: string, callParts: seq<Part>, round: nat,
      tool: (nat, nat) -> ToolOutcome)
    ensures var all := saved + Exchange(turnText, callParts, round, tool);
            |all| == |saved| + 2 && Last(all).role == User
  {
  }

  lemma {:induction false} AnswerEnds(saved: seq<Content>, answer: string)
    requires saved != [] && Last(saved).role == User
    ensures var all := saved + Answer(answer);
            |all| == |saved| + IfSaid(answer) && (Last(all).role == Model <==> answer != "")
  {
  }

  /** A round that asks goes over into the next one. */
  lemma {:induction false} RunGoesOn(saved: seq<Content>, finalText: string, events: seq<Event>, trace: seq<Step>,
      r: nat, rounds: nat, model: nat -> seq<StreamItem>, tool: (nat, nat) -> ToolOutcome)
    requires r < rounds && Continues(model(r))
    ensures var said := Received(model(r));
            var calls := Dedupe(said, []);
            && calls != []
            && RunFrom(saved, finalText, events, trace, r, rounds, model, tool)
               == RunFrom(saved + Exchange(Visible(said), calls, r, tool), finalText + Visible(said),
                          events + Deltas(said) + ToolEvents(Calls(calls), r, tool, |Calls(calls)|),
                          trace + [ModelCall(true)] + Dispatches(Calls(calls)), r + 1, rounds, model, tool)
  {
    hide Collect, Received, Dedupe, Asks, ToolEvents, Dispatches, Exchange, Answer, Breaks;
    DedupeAsks(Received(model(r)));
  }

  /** How a run ends, from its streams alone. */
  lemma {:induction false} RunEnds(saved: seq<Content>, finalText: string, events: seq<Event>, trace: seq<Step>,
      r: nat, rounds: nat, model: nat -> seq<StreamItem>, tool: (nat, nat) -> ToolOutcome)
    requires r <= rounds && saved != [] && Last(saved).role == User
    ensures var n := StopRound(model, r, rounds);
            EndsAs(Last(RunFrom(saved, finalText, events, trace, r, rounds, model, tool).0), Breaks(model(n)),
                   n == rounds, finalText + Said(model, r, n - r + 1), |saved| + 2 * (n - r),
                   Visible(Received(model(n))))
    decreases rounds - r
  {
    hide Collect, Received, Dedupe, Asks, Deltas, Visible, ToolEvents, Dispatches, Exchange, Answer, Breaks, EndsAs,
        RunFrom, Said, Continues;
    var said := Received(model(r));
    SaidStep(model, r, StopRound(model, r, rounds) - r, finalText);
    if r < rounds && Continues(model(r)) {
      var calls := Dedupe(said, []);
      RunGoesOn(saved, finalText, events, trace, r, rounds, model, tool);
      ExchangeEndsInUser(saved, Visible(said), calls, r, tool);
      RunEnds(saved + Exchange(Visible(said), calls, r, tool), finalText + Visible(said),
              events + Deltas(said) + ToolEvents(Calls(calls), r, tool, |Calls(calls)|),
              trace + [ModelCall(true)] + Dispatches(Calls(calls)), r + 1, rounds, model, tool);
    } else {
      StopsHere(saved, finalText, events, trace, r, rounds, model, tool);
    }
  }

  lemma {:induction false} SaidStep(model: nat -> seq<StreamItem>, r: nat, more: nat, finalText: string)
    ensures finalText + Said(model, r, more + 1) == (finalText + Visible(Received(model(r)))) + Said(model, r + 1, more)
    ensures Said(model, r, 1) == Visible(Received(model(r)))
  {
    hide Collect, Received;
    ConcatAssociates(finalText, Visible(Received(model(r))), Said(model, r + 1, more));
    assert Said(model, r, 1) == Visible(Received(model(r))) + Said(model, r + 1, 0);
  }

  lemma {:induction false} StopsHere(saved: seq<Content>, finalText: string, events: seq<Event>, trace: seq<Step>,
      r: nat, rounds: nat, model: nat -> seq<StreamItem>, tool: (nat, nat) -> ToolOutcome)
    requires r <= rounds && saved != [] && Last(saved).role == User
    requires r == rounds || !Continues(model(r))
    ensures EndsAs(Last(RunFrom(saved, finalText, events, trace, r, rounds, model, tool).0), Breaks(model(r)),
                   r == rounds, finalText + Visible(Received(model(r))), |saved|, Visible(Received(model(r))))
  {
    hide Collect, Received, Dedupe, Asks, Deltas, Visible, ToolEvents, Dispatches, Exchange, Answer, Breaks;
    DedupeAsks(Received(model(r)));
    AnswerEnds(saved, Visible(Received(model(r))));
  }

  // ----- every call of a round is made, told and answered -----

  /** What a tool returned can be read back from the response. */
  lemma {:induction false} PayloadTells(a: ToolOutcome, b: ToolOutcome)
    ensures Payload(a) == Payload(b) <==> a == b
  {
    assert Payload(a)[0] == if a.Succeeded? then 'r' else 'e';
    assert Payload(b)[0] == if b.Succeeded? then 'r' else 'e';
    if Payload(a) == Payload(b) {
      assert a.Succeeded? <==> b.Succeeded?;
      var n := if a.Succeeded? then 7 else 6;
      assert Payload(a)[n..] == if a.Succeeded? then a.data else a.message;
      assert Payload(b)[n..] == if b.Succeeded? then b.data else b.message;
    }
  }

  /** The model is asked and these calls are dispatched, in order. */
  ghost predicate DispatchedAt(trace: seq<Step>, at: nat, calls: seq<Call>) {
    && at + |calls| < |trace|
    && trace[at] == ModelCall(true)
    && forall k :: 0 <= k < |calls| ==> trace[at + 1 + k] == Dispatch(calls[k])
  }

  /** Each call is announced, and then how it came out. */
  ghost predicate ToldAt(events: seq<Event>, at: nat, calls: seq<Call>, round: nat, tool: (nat, nat) -> ToolOutcome) {
    && at + 2 * |calls| <= |events|
    && forall k :: 0 <= k < |calls| ==>
         && events[at + 2 * k] == ToolCall(calls[k].name, calls[k].args)
         && events[at + 2 * k + 1] == ToolResult(calls[k].name, tool(round, k).Succeeded?)
  }

  /** The text and the calls, and behind them what each tool returned, under the name and ID of its call. */
  ghost predicate AnsweredAt(h: seq<Content>, at: nat, text: string, callParts: seq<Part>, round: nat,
      tool: (nat, nat) -> ToolOutcome) {
    && at + 1 < |h|
    && h[at] == Content(Model, (if text != "" then [TextPart(text)] else []) + callParts)
    && h[at + 1].role == User && |h[at + 1].parts| == |callParts|
    && forall k :: 0 <= k < |callParts| && callParts[k].call.Some? ==>
         var c := callParts[k].call.value;
         h[at + 1].parts[k] == Part(false, "", None, Some(Response(c.name, c.id, Payload(tool(round, k)))), false)
  }

  lemma {:induction false} ToolEventsTell(calls: seq<Call>, round: nat, tool: (nat, nat) -> ToolOutcome, n: nat)
    requires n <= |calls|
    ensures |ToolEvents(calls, round, tool, n)| == 2 * n
    ensures forall k :: 0 <= k < n ==>
              && ToolEvents(calls, round, tool, n)[2 * k] == ToolCall(calls[k].name, calls[k].args)
              && ToolEvents(calls, round, tool, n)[2 * k + 1] == ToolResult(calls[k].name, tool(round, k).Succeeded?)
  {
    if n > 0 { ToolEventsTell(calls, round, tool, n - 1); }
  }

  /** A run never takes back what it sent, asked or saved. */
  lemma {:induction false} RunExtends(saved: seq<Content>, finalText: string, events: seq<Event>, trace: seq<Step>,
      r: nat, rounds: nat, model: nat -> seq<StreamItem>, tool: (nat, nat) -> ToolOutcome)
    requires r <= rounds
    ensures var run := RunFrom(saved, finalText, events, trace, r, rounds, model, tool);
            events <= run.0 && trace <= run.1 && (Last(run.0).Done? ==> saved <= Last(run.0).history)
    decreases rounds - r
  {
    hide Collect, Received, Dedupe, Breaks, ToolEvents, Dispatches, Exchange, Answer;
    var said := Received(model(r));
    var calls := if r < rounds then Dedupe(said, []) else [];
    if !Breaks(model(r)) && calls != [] {
      RunExtends(saved + Exchange(Visible(said), calls, r, tool), finalText + Visible(said),
                 events + Deltas(said) + ToolEvents(Calls(calls), r, tool, |Calls(calls)|),
                 trace + [ModelCall(true)] + Dispatches(Calls(calls)), r + 1, rounds, model, tool);
    }
  }

  /** What one tool round leaves behind. */
  ghost predicate OnRecord(run: (seq<Event>, seq<Step>), at: nat, text: string, callParts: seq<Part>, round: nat,
      tool: (nat, nat) -> ToolOutcome) {
    && (exists i: nat :: DispatchedAt(run.1, i, Calls(callParts)))
    && (exists i: nat :: ToldAt(run.0, i, Calls(callParts), round, tool))
    && run.0 != []
    && (Last(run.0).Done? ==> AnsweredAt(Last(run.0).history, at, text, callParts, round, tool))
  }

  lemma {:induction false} RoundDispatches(trace: seq<Step>, calls: seq<Call>, whole: seq<Step>)
    requires trace + [ModelCall(true)] + Dispatches(calls) <= whole
    ensures DispatchedAt(whole, |trace|, calls)
  {
    var asked := trace + [ModelCall(true)] + Dispatches(calls);
    assert forall i :: 0 <= i < |asked| ==> whole[i] == asked[i];
    assert asked[|trace|] == ModelCall(true);
    forall k | 0 <= k < |calls| ensures whole[|trace| + 1 + k] == Dispatch(calls[k]) {
      assert asked[|trace| + 1 + k] == Dispatches(calls)[k];
    }
  }

  lemma {:induction false} RoundTells(events: seq<Event>, calls: seq<Call>, round: nat,
      tool: (nat, nat) -> ToolOutcome, whole: seq<Event>)
    requires events + ToolEvents(calls, round, tool, |calls|) <= whole
    ensures ToldAt(whole, |events|, calls, round, tool)
  {
    hide ToolEvents;
    ToolEventsTell(calls, round, tool, |calls|);
    var told := ToolEvents(calls, round, tool, |calls|);
    forall i | 0 <= i < |told| ensures whole[|events| + i] == told[i] {
      assert (events + told)[|events| + i] == told[i];
    }
    forall k | 0 <= k < |calls|
      ensures whole[|events| + 2 * k] == ToolCall(calls[k].name, calls[k].args)
      ensures whole[|events| + 2 * k + 1] == ToolResult(calls[k].name, tool(round, k).Succeeded?)
    {
      assert whole[|events| + 2 * k] == told[2 * k] && whole[|events| + (2 * k + 1)] == told[2 * k + 1];
    }
  }

  lemma {:induction false} RoundAnswers(saved: seq<Content>, text: string, callParts: seq<Part>, round: nat,
      tool: (nat, nat) -> ToolOutcome, h: seq<Content>)
    requires AllCalls(callParts) && saved + Exchange(text, callParts, round, tool) <= h
    ensures AnsweredAt(h, |saved|, text, callParts, round, tool)
  {
    hide Collect, Payload;
    CallsOfCallParts(callParts);
    var turns := Exchange(text, callParts, round, tool);
    assert (saved + turns)[|saved|] == turns[0] && (saved + turns)[|saved| + 1] == turns[1];
  }

  lemma {:induction false} RoundLeaves(saved: seq<Content>, events: seq<Event>, trace: seq<Step>, text: string,
      callParts: seq<Part>, round: nat, tool: (nat, nat) -> ToolOutcome, run: (seq<Event>, seq<Step>))
    requires AllCalls(callParts) && run.0 != []
    requires events + ToolEvents(Calls(callParts), round, tool, |Calls(callParts)|) <= run.0
    requires trace + [ModelCall(true)] + Dispatches(Calls(callParts)) <= run.1
    requires Last(run.0).Done? ==> saved + Exchange(text, callParts, round, tool) <= Last(run.0).history
    ensures OnRecord(run, |saved|, text, callParts, round, tool)
  {
    hide Collect, ToolEvents, Exchange, Dispatches, DispatchedAt, ToldAt, AnsweredAt, AllCalls;
    RoundDispatches(trace, Calls(callParts), run.1);
    RoundTells(events, Calls(callParts), round, tool, run.0);
    if Last(run.0).Done? { RoundAnswers(saved, text, callParts, round, tool, Last(run.0).history); }
  }

  lemma {:induction false} RoundOnRecord(saved: seq<Content>, finalText: string, events: seq<Event>, trace: seq<Step>,
      r: nat, rounds: nat, model: nat -> seq<StreamItem>, tool: (nat, nat) -> ToolOutcome, n: nat)
    requires r <= n < rounds && forall k: nat :: r <= k <= n ==> Continues(model(k))
    ensures OnRecord(RunFrom(saved, finalText, events, trace, r, rounds, model, tool), |saved| + 2 * (n - r),
                     Visible(Received(model(n))), Dedupe(Received(model(n)), []), n, tool)
    decreases rounds - r
  {
    hide Collect, Received, Dedupe, Asks, Deltas, Visible, ToolEvents, Dispatches, Breaks, OnRecord, AllCalls,
        Continues, RunFrom, Exchange;
    var said := Received(model(r));
    RunGoesOn(saved, finalText, events, trace, r, rounds, model, tool);
    DedupeFresh(said);
    var calls := Dedupe(said, []);
    var saved', text := saved + Exchange(Visible(said), calls, r, tool), finalText + Visible(said);
    var events' := events + Deltas(said) + ToolEvents(Calls(calls), r, tool, |Calls(calls)|);
    var trace' := trace + [ModelCall(true)] + Dispatches(Calls(calls));
    var run := RunFrom(saved', text, events', trace', r + 1, rounds, model, tool);
    assert |saved'| == |saved| + 2;
    if r == n {
      RunExtends(saved', text, events', trace', r + 1, rounds, model, tool);
      RoundLeaves(saved, events + Deltas(said), trace, Visible(said), calls, r, tool, run);
    } else {
      RoundOnRecord(saved', text, events', trace', r + 1, rounds, model, tool, n);
    }
  }

  /** A round that asks for tools and is reached by tools alone: its text, its kept calls
      and what each tool returned are dispatched, told and saved, in order. */
  lemma {:induction false} EveryKeptCallRuns(prior: seq<Content>, message: string, rounds: nat,
      model: nat -> seq<StreamItem>, tool: (nat, nat) -> ToolOutcome, n: nat)
    requires n < rounds && forall k: nat :: k <= n ==> Continues(model(k))
    ensures OnRecord(RunOf(prior, message, rounds, model, tool), |prior| + 1 + 2 * n,
                     Visible(Received(model(n))), Dedupe(Received(model(n)), []), n, tool)
  {
    hide OnRecord, Dedupe, Collect, Received, RunFrom, Continues;
    RoundOnRecord(prior + [TextTurn(User, message)], "", [], [], 0, rounds, model, tool, n);
  }

  /** So two calls without IDs that differ in their arguments are both dispatched. */
  lemma {:induction false} DifferentCallsBothRun(prior: seq<Content>, message: string, rounds: nat,
      model: nat -> seq<StreamItem>, tool: (nat, nat) -> ToolOutcome, n: nat, p: Part, q: Part)
    requires n < rounds && forall k: nat :: k <= n ==> Continues(model(k))
    requires p in Received(model(n)) && q in Received(model(n)) && PlainCalls(Received(model(n)))
    requires p.call.Some? && q.call.Some? && p.call.value.id == q.call.value.id == ""
    requires p.call.value.args != q.call.value.args
    ensures var trace := RunOf(prior, message, rounds, model, tool).1;
            exists i, j :: 0 <= i < |trace| && 0 <= j < |trace| && i != j
                           && trace[i] == Dispatch(p.call.value) && trace[j] == Dispatch(q.call.value)
  {
    hide Dedupe, Collect, Received, RunFrom, PlainCalls, Continues;
    EveryKeptCallRuns(prior, message, rounds, model, tool, n);
    EachCallKeptOnce(Received(model(n)));
    var calls := Calls(Dedupe(Received(model(n)), []));
    var trace := RunOf(prior, message, rounds, model, tool).1;
    var at: nat :| DispatchedAt(trace, at, calls);
    assert p.call.value in calls && q.call.value in calls;
    var i :| 0 <= i < |calls| && calls[i] == p.call.value;
    var j :| 0 <= j < |calls| && calls[j] == q.call.value;
    assert trace[at + 1 + i] == Dispatch(p.call.value) && trace[at + 1 + j] == Dispatch(q.call.value);
  }

  // ----- the saved history and its repair -----

  /** The model named its calls and put none of them in a thought. */
  ghost predicate NamedCalls(prior: seq<Content>, h: seq<Content>) {
    forall i :: |prior| <= i < |h| ==>
      forall k :: 0 <= k < |h[i].parts| && h[i].parts[k].call.Some? ==>
          h[i].parts[k].call.value.name != "" && !h[i].parts[k].thought
  }

  lemma {:induction false} ResponsesOfResponseParts(parts: seq<Part>)
    requires forall i :: 0 <= i < |parts| ==> parts[i].response.Some?
    ensures |Responses(parts)| == |parts|
    ensures forall i :: 0 <= i < |parts| ==> Responses(parts)[i] == parts[i].response.value
  {
    if parts != [] { ResponsesOfResponseParts(parts[1..]); }
  }

  lemma {:induction false} CallsAreFrom(parts: seq<Part>)
    ensures forall c :: c in Calls(parts) ==> exists k :: 0 <= k < |parts| && parts[k].call == Some(c)
  {
    if parts != [] {
      CallsAreFrom(parts[1..]);
      forall c | c in Calls(parts) ensures exists k :: 0 <= k < |parts| && parts[k].call == Some(c) {
        if c in Calls(parts[1..]) {
          var k :| 0 <= k < |parts[1..]| && parts[1..][k].call == Some(c);
          assert parts[k + 1].call == Some(c);
        } else {
          assert parts[0].call == Some(c);
        }
      }
    }
  }

  /** The writer and the repairer agree: the loop's response turn answers its call turn. */
  lemma {:induction false} MirrorAnswers(c: Content, r: Content)
    requires CallTurnShape(c) && Mirrors(c, r)
    requires forall k :: 0 <= k < |c.parts| && c.parts[k].call.Some? ==> c.parts[k].call.value.name != ""
    ensures HasResponse(r) && Answers(c, r)
  {
    var calls := Calls(c.parts);
    forall k | 0 <= k < |r.parts|
      ensures r.parts[k].response.Some? && r.parts[k].response.value.name == calls[k].name
          && r.parts[k].response.value.id == calls[k].id
    {
      assert ResponseTo(calls[k], r.parts[k]);
    }
    ResponsesOfResponseParts(r.parts);
    var rs := Responses(r.parts);
    CallsAreFrom(c.parts);
    forall i | 0 <= i < |calls| ensures calls[i].name != "" { assert calls[i] in calls; }
    GreedyInOrder(calls, rs, rs, 0);
    assert calls[0..] == calls && FirstUsed(|rs|, 0) == NoneUsed(|rs|);
    assert Greedy(calls, rs, NoneUsed(|rs|)).responses == rs;
    WithResponsesShape(r.parts, rs);
  }

  /** One turn of a saved history is good, has the role its place asks for, and is paired. */
  ghost predicate TurnFits(h: seq<Content>, i: nat) {
    && i < |h|
    && GoodTurn(h[i]) && Tidy(h[i].parts)
    && h[i].role == (if i % 2 == 0 then User else Model)
    && (HasResponse(h[i]) ==> i > 0 && HasCall(h[i - 1]) && Answers(h[i - 1], h[i]))
    && (HasCall(h[i]) ==> i + 1 < |h| && HasResponse(h[i + 1]))
  }

  lemma {:induction false} PriorTurnFits(prior: seq<Content>, message: string, h: seq<Content>, i: nat)
    requires Stable(prior) && message != "" && Conversing(prior, message, h) && i <= |prior|
    ensures TurnFits(h, i)
  {
    if i == |prior| {
      TextTurnIsPlain(User, message);
    } else {
      assert h[i] == prior[i] && GoodTurn(prior[i]) && Tidy(prior[i].parts);
      if HasResponse(prior[i]) { assert h[i - 1] == prior[i - 1]; }
      if HasCall(prior[i]) {
        assert i == |prior| - 1 ==> EndsInCall(prior);
        assert h[i + 1] == prior[i + 1];
      }
    }
  }

  lemma {:induction false} NewTurnFits(prior: seq<Content>, message: string, h: seq<Content>, i: nat)
    requires |prior| % 2 == 0 && Conversing(prior, message, h) && NamedCalls(prior, h)
    requires |prior| < i < |h| && (i - |prior|) % 2 == 1
    ensures TurnFits(h, i) && (i + 1 < |h| ==> TurnFits(h, i + 1))
  {
    var c := h[i];
    assert ExchangeAt(h, i) || AnswerAt(h, i);
    if AnswerAt(h, i) {
      var text :| text != "" && c == TextTurn(Model, text);
      TextTurnIsPlain(Model, text);
    } else {
      MirrorAnswers(c, h[i + 1]);
    }
  }

  lemma {:induction false} AllTurnsFit(prior: seq<Content>, message: string, h: seq<Content>)
    requires Stable(prior) && message != "" && Conversing(prior, message, h) && NamedCalls(prior, h)
    ensures forall i :: 0 <= i < |h| ==> TurnFits(h, i)
  {
    hide TurnFits, Stable, NamedCalls, Conversing;
    assert |prior| % 2 == 0 by { StableShape(prior); }
    forall i | 0 <= i < |h| ensures TurnFits(h, i) {
      if i <= |prior| {
        PriorTurnFits(prior, message, h, i);
      } else if (i - |prior|) % 2 == 1 {
        NewTurnFits(prior, message, h, i);
      } else {
        NewTurnFits(prior, message, h, i - 1);
      }
    }
  }

  /** If the conversation before the question needs no repair, the saved history
      needs none either when it ends in a model turn; otherwise the repair cuts
      exactly its last turn. */
  lemma {:induction false} SavedHistoryRepair(prior: seq<Content>, message: string, h: seq<Content>)
    requires Sanitize(prior) == prior && message != ""
    requires Conversing(prior, message, h) && NamedCalls(prior, h)
    ensures Last(h).role == Model ==> Sanitize(h) == h
    ensures Last(h).role != Model ==> Sanitize(h) == h[..|h| - 1]
  {
    SanitizeFixedIff(prior);
    AllTurnsFit(prior, message, h);
    FittingRepair(h);
  }

  /** The repair of a history whose every turn fits its place. */
  lemma {:induction false} FittingRepair(h: seq<Content>)
    requires h != [] && forall i :: 0 <= i < |h| ==> TurnFits(h, i)
    ensures Last(h).role == Model ==> Sanitize(h) == h
    ensures Last(h).role != Model ==> Sanitize(h) == h[..|h| - 1]
  {
    var n := |h| - 1;
    TurnFitsPlace(h, n);
    hide TurnFits, Stable, Sanitize, HasCall, HasResponse, Answers, GoodTurn, Tidy;
    if Last(h).role == Model {
      FittingIsStable(h, |h|);
      SanitizeFixedIff(h);
    } else {
      FittingIsStable(h, n);
      assert h == h[..n] + [h[n]];
      CutAnswer(h[..n], h[n]);
    }
  }

  lemma {:induction false} TurnFitsPlace(h: seq<Content>, i: nat)
    requires TurnFits(h, i)
    ensures i < |h| && GoodTurn(h[i]) && Tidy(h[i].parts) && h[i].role == if i % 2 == 0 then User else Model
  {
  }

  lemma {:induction false} FittingIsStable(h: seq<Content>, n: nat)
    requires n <= |h| && n % 2 == 0 && forall i :: 0 <= i < |h| ==> TurnFits(h, i)
    ensures WellFormed(h[..n]) && AllTidy(h[..n])
    ensures n == |h| ==> Stable(h)
    ensures n == |h| - 1 ==> (HasResponse(h[n]) <==> EndsInCall(h[..n]))
    ensures n == |h| - 1 && EndsInCall(h[..n]) ==> Answers(Last(h[..n]), h[n])
  {
    hide GoodTurn, Tidy, HasCall, HasResponse, Answers;
    var g := h[..n];
    assert forall i :: 0 <= i < |g| ==> g[i] == h[i] && TurnFits(h, i);
    assert ResponsesPaired(g) by {
      forall i | 0 <= i < |g| && HasResponse(g[i]) ensures i > 0 && Answers(g[i - 1], g[i]) { assert TurnFits(h, i); }
    }
    assert CallsPaired(g, |g| - 1);
    if n == |h| { assert g == h; }
    if n > 0 { assert Last(g) == h[n - 1] && TurnFits(h, n - 1); }
    if n == |h| - 1 { assert TurnFits(h, n); }
  }

  lemma {:induction false} SavedEndsInCall(prior: seq<Content>, message: string, h: seq<Content>)
    requires Sanitize(prior) == prior && message != ""
    requires Conversing(prior, message, h) && NamedCalls(prior, h)
    ensures EndsInCall(Sanitize(h)) <==> Last(h).role != Model && |h| > |prior| + 1
  {
    hide Sanitize, HasCall, TurnFits, NamedCalls, Stable, CallTurnShape, Mirrors;
    SavedHistoryRepair(prior, message, h);
    SanitizeFixedIff(prior);
    AllTurnsFit(prior, message, h);
    var n := |h| - 1;
    TurnFitsPlace(h, n);
    StableShape(prior);
    if |h| > |prior| + 1 && Last(h).role != Model {
      assert ExchangeAt(h, n - 1) || AnswerAt(h, n - 1);
      CallTurnsCall(h[n - 1]);
      assert Last(h[..n]) == h[n - 1];
    } else if Last(h).role == Model {
      SanitizeFixedIff(h);
      StableShape(h);
    } else {
      assert h[..n] == prior;
    }
  }

  // ----- from the model's streams to the repaired history -----

  ghost predicate NamedPart(p: Part) { p.call.Some? ==> p.call.value.name != "" && !p.thought }

  /** Every call the model makes while it has tools is named and is no thought. */
  ghost predicate NamedStreams(model: nat -> seq<StreamItem>, rounds: nat) {
    forall r: nat, p {:trigger p in Received(model(r))} :: r < rounds && p in Received(model(r)) ==> NamedPart(p)
  }

  lemma {:induction false} ExchangeNamed(prior: seq<Content>, saved: seq<Content>, turnText: string,
      callParts: seq<Part>, round: nat, tool: (nat, nat) -> ToolOutcome)
    requires |prior| < |saved| && NamedCalls(prior, saved)
    requires forall p :: p in callParts ==> NamedPart(p)
    ensures NamedCalls(prior, saved + Exchange(turnText, callParts, round, tool))
  {
    hide Collect;
    var turns := Exchange(turnText, callParts, round, tool);
    var all := saved + turns;
    forall i, k | |prior| <= i < |all| && 0 <= k < |all[i].parts| ensures NamedPart(all[i].parts[k]) {
      if i < |saved| {
        assert all[i] == saved[i];
      } else if i == |saved| {
        assert all[i] == turns[0];
        assert all[i].parts[k] == TextPart(turnText) || all[i].parts[k] in callParts;
      } else {
        assert all[i] == turns[1];
        assert ResponseTo(Calls(callParts)[k], all[i].parts[k]);
      }
    }
  }

  lemma {:induction false} AnswerNamed(prior: seq<Content>, saved: seq<Content>, text: string)
    requires NamedCalls(prior, saved)
    ensures NamedCalls(prior, saved + Answer(text))
  {
  }

  lemma {:induction false} RunSavesNamed(prior: seq<Content>, saved: seq<Content>, finalText: string,
      events: seq<Event>, trace: seq<Step>, r: nat, rounds: nat, model: nat -> seq<StreamItem>,
      tool: (nat, nat) -> ToolOutcome)
    requires r <= rounds && |prior| < |saved| && NamedCalls(prior, saved) && NamedStreams(model, rounds)
    ensures var last := Last(RunFrom(saved, finalText, events, trace, r, rounds, model, tool).0);
            last.Done? ==> NamedCalls(prior, last.history)
    decreases rounds - r
  {
    hide Collect, Received, Dedupe, NamedCalls, NamedPart;
    var said := Received(model(r));
    var calls := if r < rounds then Dedupe(said, []) else [];
    AnswerNamed(prior, saved, Visible(said));
    if !Breaks(model(r)) && calls != [] {
      NothingRead();
      assert Calls([]) == [] by { CallsOfCallParts([]); }
      DedupeCorrect(said, []);
      ExchangeNamed(prior, saved, Visible(said), calls, r, tool);
      RunSavesNamed(prior, saved + Exchange(Visible(said), calls, r, tool), finalText + Visible(said),
                    events + Deltas(said) + ToolEvents(Calls(calls), r, tool, |Calls(calls)|),
                    trace + [ModelCall(true)] + Dispatches(Calls(calls)), r + 1, rounds, model, tool);
    }
  }

  /** The loop and the repair, end to end: ask a conversation that needs no repair,
      with a model that names its calls. Whatever the tools do, the history that a
      run hands over is the conversation, the question and answered calls, and the
      repair leaves it alone when it ends in a model turn and otherwise cuts exactly
      its last turn. */
  lemma {:induction false} RunSurvivesRepair(prior: seq<Content>, message: string, rounds: nat,
      model: nat -> seq<StreamItem>, tool: (nat, nat) -> ToolOutcome)
    requires Sanitize(prior) == prior && message != "" && NamedStreams(model, rounds)
    ensures var last := Last(RunOf(prior, message, rounds, model, tool).0);
            last.Done? ==>
              var h := last.history;
              && Conversing(prior, message, h) && NamedCalls(prior, h)
              && (Last(h).role == Model ==> Sanitize(h) == h)
              && (Last(h).role != Model ==> Sanitize(h) == h[..|h| - 1])
  {
    hide Sanitize, RunFrom, Running, DistinctWithinRounds, ToolRounds, DeltaText, NamedStreams;
    var saved := prior + [TextTurn(User, message)];
    RunFinishes(prior, message, rounds, model, tool);
    RunSavesNamed(prior, saved, "", [], [], 0, rounds, model, tool);
    var last := Last(RunOf(prior, message, rounds, model, tool).0);
    if last.Done? { SavedHistoryRepair(prior, message, last.history); }
  }

  /** The run reaches round r by tools alone and stops there with nothing said. */
  ghost predicate SilentStop(model: nat -> seq<StreamItem>, rounds: nat, r: nat) {
    && 0 < r <= rounds
    && (forall k: nat :: k < r ==> Continues(model(k)))
    && !Breaks(model(r))
    && (r < rounds ==> !Asks(Received(model(r))))
    && Visible(Received(model(r))) == ""
    && (r == rounds ==> Said(model, 0, rounds + 1) != "")
  }

  /** The repaired history of a finished run ends in an unanswered call exactly when
      some round after the first is silent: the rounds before it all asked for tools,
      and it neither breaks, asks, nor says anything. (In the wrap-up round an earlier
      one must have spoken, or the run ends in an error.) */
  lemma {:induction false} SilentRoundLeavesCall(prior: seq<Content>, message: string, rounds: nat,
      model: nat -> seq<StreamItem>, tool: (nat, nat) -> ToolOutcome)
    requires Sanitize(prior) == prior && message != "" && NamedStreams(model, rounds)
    ensures var last := Last(RunOf(prior, message, rounds, model, tool).0);
            last.Done? && EndsInCall(Sanitize(last.history)) <==> exists r :: SilentStop(model, rounds, r)
  {
    hide Sanitize, RunFrom, EndsInCall, Conversing, NamedCalls, NamedStreams, Collect, Received, Asks, Said;
    RunSurvivesRepair(prior, message, rounds, model, tool);
    var saved := prior + [TextTurn(User, message)];
    RunEnds(saved, "", [], [], 0, rounds, model, tool);
    var last, n := Last(RunOf(prior, message, rounds, model, tool).0), StopRound(model, 0, rounds);
    if last.Done? {
      SavedEndsInCall(prior, message, last.history);
      if EndsInCall(Sanitize(last.history)) { assert SilentStop(model, rounds, n); }
    }
    forall r | SilentStop(model, rounds, r) ensures r == n { }
  }

  lemma {:induction false} CallTurnsCall(c: Content)
    requires CallTurnShape(c)
    ensures HasCall(c)
  {
  }

  lemma {:induction false} StartRun(prior: seq<Content>, message: string)
    ensures Between(prior, message, 0, "", prior + [TextTurn(User, message)], [], [])
  {
  }

  lemma {:induction false} StreamSaid(prior: seq<Content>, message: string, r: nat, finalText: string,
      saved: seq<Content>, events: seq<Event>, trace: seq<Step>, items: seq<StreamItem>)
    requires Between(prior, message, r, finalText, saved, events, trace)
    ensures Running(events + Deltas(Received(items)))
    ensures DeltaText(events + Deltas(Received(items))) == finalText + Visible(Received(items))
  {
    DeltasSayVisible(Received(items));
    RunningAppend(events, Deltas(Received(items)));
    DeltaTextAppend(events, Deltas(Received(items)));
  }

  lemma {:induction false} AskedModel(trace: seq<Step>, tools: bool)
    requires DistinctWithinRounds(trace) && ModelCall(false) !in trace
    ensures DistinctWithinRounds(trace + [ModelCall(tools)])
    ensures ToolRounds(trace + [ModelCall(tools)]) == ToolRounds(trace) + if tools then 1 else 0
    ensures forall i :: 0 <= i < |trace| + 1 && (trace + [ModelCall(tools)])[i] == ModelCall(false) ==>
        i == |trace| && !tools
  {
    var all := trace + [ModelCall(tools)];
    ToolRoundsAppend(trace, [ModelCall(tools)]);
    forall i, j | 0 <= i < j < |all| && (forall k :: i <= k <= j ==> all[k].Dispatch?)
      ensures FunctionCallKey(all[i].call) != FunctionCallKey(all[j].call)
    {
      assert all[j].Dispatch?;
      forall k | i <= k <= j ensures trace[k].Dispatch? { assert all[k] == trace[k]; }
      assert all[i] == trace[i] && all[j] == trace[j];
    }
  }
}

/**
 Turns, parts and the pure specification of the history repair of
 internal/ai/sessions.go.

 A part is a record, as in the source, so one part may carry text and a call at
 once. A nil turn is represented by a turn with role `Other` and a nil part by
 a part with nothing set: the source drops both in the same branch.
 */
module Conversation {
  import opened Options

  datatype Role = User | Model | Other
  datatype Call = Call(name: string, id: string, args: string)
  datatype Response = Response(name: string, id: string, payload: string)

  /** `extra` stands for any other payload: inline data, file data, code. */
  datatype Part = Part(thought: bool, text: string, call: Option<Call>, response: Option<Response>, extra: bool)
  datatype Content = Content(role: Role, parts: seq<Part>)

  function TextPart(text: string): Part { Part(false, text, None, None, false) }

  function Last<T>(s: seq<T>): T
    requires s != []
  {
    s[|s| - 1]
  }

  // ----- cleaning the parts of one turn -----

  predicate ValidPart(p: Part) {
    !p.thought && (p.text != "" || p.call.Some? || p.response.Some? || p.extra)
  }

  /** Two neighbours that `sanitizeParts` melts into one text part. */
  predicate Mergeable(a: Part, b: Part) {
    a.text != "" && b.text != "" && a.call.None? && b.call.None? && a.response.None? && b.response.None?
  }

  /** What `sanitizeParts` appends to `out` when it reads `parts`. */
  function CleanParts(parts: seq<Part>, out: seq<Part>): seq<Part>
    decreases |parts|
  {
    if parts == [] then out
    else CleanParts(parts[1..], CleanStep(parts[0], out))
  }

  function CleanStep(p: Part, out: seq<Part>): seq<Part> {
    if !ValidPart(p) then out
    else if out != [] && Mergeable(Last(out), p) then out[..|out| - 1] + [Last(out).(text := Last(out).text + p.text)]
    else out + [p]
  }

  /** Nothing left to drop and no two neighbours left to merge. */
  predicate Tidy(parts: seq<Part>) {
    && (forall i :: 0 <= i < |parts| ==> ValidPart(parts[i]))
    && (forall i :: 0 <= i < |parts| - 1 ==> !Mergeable(parts[i], parts[i + 1]))
  }

  lemma {:induction false} CleanPartsTidy(parts: seq<Part>, out: seq<Part>)
    requires Tidy(out)
    ensures Tidy(CleanParts(parts, out))
    decreases |parts|
  {
    if parts != [] {
      var next := CleanStep(parts[0], out);
      assert Tidy(next) by {
        forall i | 0 <= i < |next| - 1 ensures !Mergeable(next[i], next[i + 1]) {
          if i < |out| - 1 { assert !Mergeable(out[i], out[i + 1]); }
        }
      }
      CleanPartsTidy(parts[1..], next);
    }
  }

  lemma {:induction false} CleanPartsFixed(parts: seq<Part>, out: seq<Part>)
    requires Tidy(out + parts)
    ensures CleanParts(parts, out) == out + parts
    decreases |parts|
  {
    if parts == [] {
      assert out + parts == out;
    } else {
      var all := out + parts;
      assert ValidPart(all[|out|]);
      if out != [] { assert !Mergeable(all[|out| - 1], all[|out|]); }
      assert (out + [parts[0]]) + parts[1..] == all;
      CleanPartsFixed(parts[1..], out + [parts[0]]);
    }
  }

  /** A part list is left alone exactly when it is tidy: no part is a thought or holds
      nothing, and of two neighbours with text one has a call or a response. */
  lemma {:induction false} CleanPartsFixedIff(parts: seq<Part>)
    ensures CleanParts(parts, []) == parts <==> Tidy(parts)
    ensures Tidy(parts) <==>
            && (forall i :: 0 <= i < |parts| ==>
                  && !parts[i].thought
                  && (parts[i].text != "" || parts[i].call.Some? || parts[i].response.Some? || parts[i].extra))
            && (forall i :: 0 <= i < |parts| - 1 ==>
                  || parts[i].text == "" || parts[i].call.Some? || parts[i].response.Some?
                  || parts[i + 1].text == "" || parts[i + 1].call.Some? || parts[i + 1].response.Some?)
  {
    CleanPartsTidy(parts, []);
    if Tidy(parts) {
      assert [] + parts == parts;
      CleanPartsFixed(parts, []);
    }
  }

  // ----- what a turn says -----

  function CallOf(p: Part): seq<Call> { if p.call.Some? then [p.call.value] else [] }

  function ResponseOf(p: Part): seq<Response> { if p.response.Some? then [p.response.value] else [] }

  function TextOf(p: Part): string { p.text }

  /** What the parts say, in order, where `of` reads one part. */
  function Collect<T>(parts: seq<Part>, of: Part -> seq<T>): seq<T> {
    if parts == [] then [] else of(parts[0]) + Collect(parts[1..], of)
  }

  function Calls(parts: seq<Part>): seq<Call> { Collect(parts, CallOf) }

  function Responses(parts: seq<Part>): seq<Response> { Collect(parts, ResponseOf) }

  function Text(parts: seq<Part>): string { Collect(parts, TextOf) }

  /** The parts that are not thoughts. */
  function Spoken(parts: seq<Part>): seq<Part> {
    if parts == [] then []
    else if parts[0].thought then Spoken(parts[1..])
    else [parts[0]] + Spoken(parts[1..])
  }

  lemma {:induction false} CollectAppend<T>(a: seq<Part>, b: seq<Part>, of: Part -> seq<T>)
    ensures Collect(a + b, of) == Collect(a, of) + Collect(b, of)
  {
    if a == [] {
      assert a + b == b;
    } else {
      assert (a + b)[1..] == a[1..] + b;
      CollectAppend(a[1..], b, of);
    }
  }

  /** A reading that cleaning cannot change: dropped parts say nothing and
      merging two neighbours says both. */
  ghost predicate Preserved<T(!new)>(of: Part -> seq<T>) {
    && (forall p: Part :: !p.thought && !ValidPart(p) ==> of(p) == [])
    && (forall a: Part, b: Part :: Mergeable(a, b) ==> of(a.(text := a.text + b.text)) == of(a) + of(b))
  }

  lemma {:induction false} CleanPartsPreserves<T(!new)>(parts: seq<Part>, out: seq<Part>, of: Part -> seq<T>)
    requires Preserved(of)
    ensures Collect(CleanParts(parts, out), of) == Collect(out, of) + Collect(Spoken(parts), of)
    decreases |parts|
  {
    if parts != [] {
      hide Preserved, CleanStep, ValidPart;
      CleanPartsPreserves(parts[1..], CleanStep(parts[0], out), of);
      CleanStepPreserves(parts[0], out, of);
      var spoken := if parts[0].thought then [] else of(parts[0]);
      ConcatAssociates(Collect(out, of), spoken, Collect(Spoken(parts[1..]), of));
    }
  }

  lemma {:induction false} ConcatAssociates<T>(a: seq<T>, b: seq<T>, c: seq<T>)
    ensures (a + b) + c == a + (b + c)
  {
  }

  lemma {:induction false} CleanStepPreserves<T(!new)>(p: Part, out: seq<Part>, of: Part -> seq<T>)
    requires Preserved(of)
    ensures Collect(CleanStep(p, out), of) == Collect(out, of) + if p.thought then [] else of(p)
  {
    if !ValidPart(p) {
      assert p.thought || of(p) == [];
    } else if out != [] && Mergeable(Last(out), p) {
      var front, merged := out[..|out| - 1], Last(out).(text := Last(out).text + p.text);
      assert of(merged) == of(Last(out)) + of(p);
      assert front + [Last(out)] == out;
      hide Collect, Preserved, ValidPart;
      CollectAppend(front, [merged], of);
      CollectAppend(front, [Last(out)], of);
      CollectOne(merged, of);
      CollectOne(Last(out), of);
      ConcatAssociates(Collect(front, of), of(Last(out)), of(p));
    } else {
      CollectAppend(out, [p], of);
      CollectOne(p, of);
    }
  }

  lemma {:induction false} CollectOne<T>(p: Part, of: Part -> seq<T>)
    ensures Collect([p], of) == of(p)
  {
    assert [p][1..] == [];
    assert of(p) + [] == of(p);
  }

  /** Cleaning loses no call, no response and no visible text, and keeps their order. */
  lemma {:induction false} CleanPartsKeepsSayings(parts: seq<Part>)
    ensures Calls(CleanParts(parts, [])) == Calls(Spoken(parts))
    ensures Responses(CleanParts(parts, [])) == Responses(Spoken(parts))
    ensures Text(CleanParts(parts, [])) == Text(Spoken(parts))
  {
    CleanPartsPreserves(parts, [], CallOf);
    CleanPartsPreserves(parts, [], ResponseOf);
    CleanPartsPreserves(parts, [], TextOf);
  }

  /** A run of texts becomes one text. */
  lemma {:induction false} TextsMelt(parts: seq<Part>)
    requires parts != [] && forall i :: 0 <= i < |parts| ==> parts[i].text != "" && parts[i] == TextPart(parts[i].text)
    ensures CleanParts(parts, []) == [TextPart(Text(parts))]
  {
    assert CleanStep(parts[0], []) == [parts[0]];
    TextsMeltInto(parts[0].text, parts[1..]);
    assert parts[0].text + Text(parts[1..]) == Text(parts);
  }

  lemma {:induction false} TextsMeltInto(text: string, parts: seq<Part>)
    requires text != "" && forall i :: 0 <= i < |parts| ==> parts[i].text != "" && parts[i] == TextPart(parts[i].text)
    ensures CleanParts(parts, [TextPart(text)]) == [TextPart(text + Text(parts))]
    decreases |parts|
  {
    if parts == [] {
      assert text + Text(parts) == text;
    } else {
      var next := TextPart(text + parts[0].text);
      assert CleanStep(parts[0], [TextPart(text)]) == [next];
      TextsMeltInto(next.text, parts[1..]);
      ConcatAssociates(text, parts[0].text, Text(parts[1..]));
    }
  }

  lemma {:induction false} ValidPartsSpoken(parts: seq<Part>)
    requires forall i :: 0 <= i < |parts| ==> ValidPart(parts[i])
    ensures Spoken(parts) == parts
  {
    if parts != [] { ValidPartsSpoken(parts[1..]); }
  }

  predicate HasCall(c: Content) { c.role == Model && Calls(c.parts) != [] }

  predicate HasResponse(c: Content) { c.role == User && Responses(c.parts) != [] }

  // ----- matching responses to calls -----

  /** A response may answer a call: same non-empty name, and IDs that do not contradict each other. */
  predicate Fits(c: Call, r: Response) {
    c.name != "" && r.name == c.name && (c.id == "" || r.id == "" || r.id == c.id)
  }

  function Repair(c: Call, r: Response): Response {
    if r.id == "" then r.(id := c.id) else r
  }

  function FirstFit(c: Call, rs: seq<Response>, used: seq<bool>, from: nat): (k: nat)
    requires |used| == |rs| && from <= |rs|
    ensures from <= k <= |rs|
    ensures k < |rs| ==> !used[k] && Fits(c, rs[k])
    ensures forall j :: from <= j < k ==> used[j] || !Fits(c, rs[j])
    decreases |rs| - from
  {
    if from == |rs| then from
    else if !used[from] && Fits(c, rs[from]) then from
    else FirstFit(c, rs, used, from + 1)
  }

  /** `responses` are the responses after repair; `picks[k]` answers call k. */
  datatype Matching = Matching(ok: bool, responses: seq<Response>, picks: seq<nat>)

  /** The greedy pass: every call takes the first free response that fits. A
      failing pass keeps the repairs it has already made. */
  function Greedy(calls: seq<Call>, rs: seq<Response>, used: seq<bool>): (m: Matching)
    requires |used| == |rs|
    ensures |m.responses| == |rs|
    ensures m.ok ==> |m.picks| == |calls|
    decreases |calls|
  {
    if calls == [] then Matching(true, rs, [])
    else
      var k := FirstFit(calls[0], rs, used, 0);
      if k == |rs| then Matching(false, rs, [])
      else
        var m := Greedy(calls[1..], rs[k := Repair(calls[0], rs[k])], used[k := true]);
        Matching(m.ok, m.responses, [k] + m.picks)
  }

  /** Repair only ever fills an empty ID of a free response. */
  ghost predicate Evolves(rs: seq<Response>, rs': seq<Response>, used: seq<bool>) {
    && |rs| == |rs'| == |used|
    && forall j :: 0 <= j < |rs| ==>
         && rs'[j].name == rs[j].name
         && rs'[j].payload == rs[j].payload
         && (used[j] || rs[j].id != "" ==> rs'[j] == rs[j])
  }

  lemma {:induction false} GreedyEvolves(calls: seq<Call>, rs: seq<Response>, used: seq<bool>)
    requires |used| == |rs|
    ensures Evolves(rs, Greedy(calls, rs, used).responses, used)
    decreases |calls|
  {
    if calls != [] {
      var k := FirstFit(calls[0], rs, used, 0);
      if k < |rs| {
        GreedyEvolves(calls[1..], rs[k := Repair(calls[0], rs[k])], used[k := true]);
      }
    }
  }

  /** A matching is one-to-one, every pair agrees on the name and, after repair,
      on the ID unless the call has none. */
  ghost predicate OneToOne(calls: seq<Call>, rs: seq<Response>, picks: seq<nat>) {
    && |picks| == |calls|
    && (forall k :: 0 <= k < |picks| ==> picks[k] < |rs|)
    && (forall j, k :: 0 <= j < k < |picks| ==> picks[j] != picks[k])
    && (forall k :: 0 <= k < |picks| ==>
          && calls[k].name != ""
          && rs[picks[k]].name == calls[k].name
          && (calls[k].id != "" ==> rs[picks[k]].id == calls[k].id))
  }

  lemma {:induction false} OneToOneCons(calls: seq<Call>, rs: seq<Response>, k: nat, picks: seq<nat>)
    requires calls != [] && k < |rs| && k !in picks
    requires OneToOne(calls[1..], rs, picks)
    requires calls[0].name != "" && rs[k].name == calls[0].name && (calls[0].id != "" ==> rs[k].id == calls[0].id)
    ensures OneToOne(calls, rs, [k] + picks)
  {
    var all := [k] + picks;
    forall i | 0 < i < |all| ensures all[i] == picks[i - 1] && calls[i] == calls[1..][i - 1] && all[i] != k {
      assert picks[i - 1] in picks;
    }
  }

  lemma {:induction false} GreedySound(calls: seq<Call>, rs: seq<Response>, used: seq<bool>)
    requires |used| == |rs|
    requires Greedy(calls, rs, used).ok
    ensures OneToOne(calls, Greedy(calls, rs, used).responses, Greedy(calls, rs, used).picks)
    ensures forall p :: p in Greedy(calls, rs, used).picks ==> p < |rs| && !used[p]
    decreases |calls|
  {
    if calls != [] {
      var k := FirstFit(calls[0], rs, used, 0);
      var rs1, used1 := rs[k := Repair(calls[0], rs[k])], used[k := true];
      GreedySound(calls[1..], rs1, used1);
      GreedyEvolves(calls[1..], rs1, used1);
      var m1 := Greedy(calls[1..], rs1, used1);
      assert k !in m1.picks && m1.responses[k] == rs1[k];
      OneToOneCons(calls, m1.responses, k, m1.picks);
    }
  }

  /** Matching the repaired responses again gives the same picks and repairs
      nothing: the second check of a response turn agrees with the first. */
  lemma {:induction false} GreedyStable(calls: seq<Call>, rs: seq<Response>, used: seq<bool>)
    requires |used| == |rs|
    requires Greedy(calls, rs, used).ok
    ensures Greedy(calls, Greedy(calls, rs, used).responses, used) == Greedy(calls, rs, used)
    decreases |calls|
  {
    if calls != [] {
      var c := calls[0];
      var k := FirstFit(c, rs, used, 0);
      var rs1, used1 := rs[k := Repair(c, rs[k])], used[k := true];
      var final := Greedy(calls, rs, used).responses;
      assert final == Greedy(calls[1..], rs1, used1).responses;
      GreedyEvolves(calls[1..], rs1, used1);
      GreedyEvolves(calls, rs, used);
      assert final[k] == rs1[k];
      assert final[k := Repair(c, final[k])] == final;
      GreedyStable(calls[1..], rs1, used1);
    }
  }

  function FirstUsed(n: nat, k: nat): (used: seq<bool>)
    requires k <= n
    ensures |used| == n && forall i :: 0 <= i < n ==> used[i] == (i < k)
  {
    seq(n, i => i < k)
  }

  /** Responses that come in the order of the calls: each has its call's name, which is
      not empty, and of the two IDs one is missing or they are equal. */
  ghost predicate InCallOrder(calls: seq<Call>, rs: seq<Response>) {
    && |calls| == |rs|
    && forall k :: 0 <= k < |calls| ==>
         && calls[k].name != "" && rs[k].name == calls[k].name
         && (calls[k].id == "" || rs[k].id == "" || calls[k].id == rs[k].id)
  }

  /** The same responses, each with its own ID, or its call's if it had none. */
  ghost predicate FilledIn(calls: seq<Call>, rs: seq<Response>, filled: seq<Response>) {
    && |filled| == |rs| == |calls|
    && forall k :: 0 <= k < |rs| ==>
         filled[k] == Response(rs[k].name, if rs[k].id != "" then rs[k].id else calls[k].id, rs[k].payload)
  }

  /** Responses in call order pass, each answers its own call, and missing IDs are filled in. */
  lemma {:induction false} GreedyInOrder(calls: seq<Call>, rs: seq<Response>, now: seq<Response>, k: nat)
    requires InCallOrder(calls, rs) && k <= |calls| == |now|
    requires forall i :: 0 <= i < |rs| ==>
               now[i] == if i < k then Response(rs[i].name, if rs[i].id != "" then rs[i].id else calls[i].id,
                                                rs[i].payload) else rs[i]
    ensures var m := Greedy(calls[k..], now, FirstUsed(|rs|, k)); m.ok && FilledIn(calls, rs, m.responses)
    decreases |calls| - k
  {
    if k < |calls| {
      assert calls[k..][0] == calls[k] && calls[k..][1..] == calls[k + 1..];
      assert FirstFit(calls[k], now, FirstUsed(|rs|, k), 0) == k;
      assert FirstUsed(|rs|, k)[k := true] == FirstUsed(|rs|, k + 1);
      GreedyInOrder(calls, rs, now[k := Repair(calls[k], now[k])], k + 1);
    }
  }

  /** Every call finds a free response with its name and its ID. */
  ghost predicate AllNamed(calls: seq<Call>, rs: seq<Response>, used: seq<bool>) {
    && |used| == |rs|
    && (forall i, j :: 0 <= i < j < |calls| ==> calls[i].id != calls[j].id)
    && (forall i :: 0 <= i < |calls| ==> calls[i].name != "" && calls[i].id != "")
    && (forall j :: 0 <= j < |rs| ==> rs[j].id != "")
    && (forall i :: 0 <= i < |calls| ==> NamedBy(calls[i], rs, used))
  }

  ghost predicate NamedBy(c: Call, rs: seq<Response>, used: seq<bool>)
    requires |used| == |rs|
  {
    exists j :: 0 <= j < |rs| && !used[j] && rs[j].name == c.name && rs[j].id == c.id
  }

  /** With IDs on both sides the order of the responses does not matter: they pass and stay as they are. */
  lemma {:induction false} GreedyById(calls: seq<Call>, rs: seq<Response>, used: seq<bool>)
    requires AllNamed(calls, rs, used)
    ensures Greedy(calls, rs, used).ok && Greedy(calls, rs, used).responses == rs
    decreases |calls|
  {
    if calls != [] {
      var c := calls[0];
      assert NamedBy(c, rs, used);
      var k := FirstFit(c, rs, used, 0);
      assert k < |rs| && rs[k].id == c.id && rs[k := Repair(c, rs[k])] == rs;
      forall i | 0 <= i < |calls[1..]| ensures NamedBy(calls[1..][i], rs, used[k := true]) {
        assert calls[1..][i] == calls[i + 1] && NamedBy(calls[i + 1], rs, used);
        var j :| 0 <= j < |rs| && !used[j] && rs[j].name == calls[i + 1].name && rs[j].id == calls[i + 1].id;
        assert j != k && !used[k := true][j];
      }
      GreedyById(calls[1..], rs, used[k := true]);
    }
  }

  function NoneUsed(n: nat): (used: seq<bool>)
    ensures |used| == n && forall i :: 0 <= i < n ==> !used[i]
  {
    seq(n, i => false)
  }

  /** Puts repaired responses back into the parts they came from. */
  function WithResponses(parts: seq<Part>, rs: seq<Response>): (out: seq<Part>)
    requires |rs| == |Responses(parts)|
    ensures |out| == |parts|
  {
    if parts == [] then []
    else if parts[0].response.Some? then
      [parts[0].(response := Some(rs[0]))] + WithResponses(parts[1..], rs[1..])
    else [parts[0]] + WithResponses(parts[1..], rs)
  }

  /** Only what the responses say may differ. */
  ghost predicate SameShape(a: seq<Part>, b: seq<Part>) {
    |a| == |b| && forall i :: 0 <= i < |a| ==>
      a[i].(response := None) == b[i].(response := None) && (a[i].response.Some? <==> b[i].response.Some?)
  }

  lemma {:induction false} WithResponsesSayings(parts: seq<Part>, rs: seq<Response>)
    requires |rs| == |Responses(parts)|
    ensures Responses(WithResponses(parts, rs)) == rs
    ensures Calls(WithResponses(parts, rs)) == Calls(parts)
    ensures rs == Responses(parts) ==> WithResponses(parts, rs) == parts
  {
    if parts != [] {
      var rest := if parts[0].response.Some? then rs[1..] else rs;
      WithResponsesSayings(parts[1..], rest);
      assert WithResponses(parts, rs)[1..] == WithResponses(parts[1..], rest);
      if parts[0].response.Some? {
        assert rs == [rs[0]] + rest;
      }
    }
  }

  lemma {:induction false} WithResponsesSameShape(parts: seq<Part>, rs: seq<Response>)
    requires |rs| == |Responses(parts)|
    ensures SameShape(WithResponses(parts, rs), parts)
  {
    if parts != [] {
      var rest := if parts[0].response.Some? then rs[1..] else rs;
      WithResponsesSameShape(parts[1..], rest);
      var out, tail := WithResponses(parts, rs), WithResponses(parts[1..], rest);
      forall i | 1 <= i < |parts| ensures out[i] == tail[i - 1] {}
    }
  }

  lemma {:induction false} WithResponsesShape(parts: seq<Part>, rs: seq<Response>)
    requires |rs| == |Responses(parts)|
    ensures Responses(WithResponses(parts, rs)) == rs
    ensures Calls(WithResponses(parts, rs)) == Calls(parts)
    ensures rs == Responses(parts) ==> WithResponses(parts, rs) == parts
    ensures SameShape(WithResponses(parts, rs), parts)
  {
    WithResponsesSayings(parts, rs);
    WithResponsesSameShape(parts, rs);
  }

  lemma {:induction false} WithResponsesTwice(parts: seq<Part>, rs: seq<Response>, rs': seq<Response>)
    requires |rs| == |rs'| == |Responses(parts)|
    ensures |Responses(WithResponses(parts, rs))| == |rs'|
    ensures WithResponses(WithResponses(parts, rs), rs') == WithResponses(parts, rs')
  {
    WithResponsesShape(parts, rs);
    if parts != [] {
      var some := parts[0].response.Some?;
      WithResponsesTwice(parts[1..], if some then rs[1..] else rs, if some then rs'[1..] else rs');
      var out := WithResponses(parts, rs);
      assert out[1..] == WithResponses(parts[1..], if some then rs[1..] else rs);
    }
  }

  lemma {:induction false} WithResponsesTidy(parts: seq<Part>, rs: seq<Response>)
    requires |rs| == |Responses(parts)|
    ensures Tidy(WithResponses(parts, rs)) <==> Tidy(parts)
    ensures (forall i :: 0 <= i < |parts| ==> ValidPart(WithResponses(parts, rs)[i]))
        <==> (forall i :: 0 <= i < |parts| ==> ValidPart(parts[i]))
  {
    WithResponsesShape(parts, rs);
    var out := WithResponses(parts, rs);
    forall i | 0 <= i < |parts| ensures ValidPart(out[i]) <==> ValidPart(parts[i]) {
      assert out[i].(response := None) == parts[i].(response := None);
      assert out[i].text == parts[i].text && out[i].thought == parts[i].thought && out[i].call == parts[i].call
          && out[i].extra == parts[i].extra by {
        var a, b := out[i].(response := None), parts[i].(response := None);
        assert a.text == out[i].text && a.thought == out[i].thought && a.call == out[i].call && a.extra == out[i].extra;
      }
    }
    forall i | 0 <= i < |parts| - 1 ensures Mergeable(out[i], out[i + 1]) <==> Mergeable(parts[i], parts[i + 1]) {
      forall k | i <= k <= i + 1 ensures out[k].text == parts[k].text && out[k].call == parts[k].call {
        var a, b := out[k].(response := None), parts[k].(response := None);
        assert a == b && a.text == out[k].text && a.call == out[k].call;
      }
    }
  }

  datatype PairCheck = PairCheck(ok: bool, response: Content)

  /** `functionPairMatches`: the verdict and the response turn as it stands afterwards. */
  function PairMatch(callTurn: Content, responseTurn: Content): (m: PairCheck)
    ensures m.ok ==> HasCall(callTurn) && HasResponse(responseTurn)
    ensures m.response.role == responseTurn.role && |m.response.parts| == |responseTurn.parts|
  {
    var calls, rs := Calls(callTurn.parts), Responses(responseTurn.parts);
    if !HasCall(callTurn) || !HasResponse(responseTurn) || |calls| != |rs| then PairCheck(false, responseTurn)
    else
      var m := Greedy(calls, rs, NoneUsed(|rs|));
      PairCheck(m.ok, responseTurn.(parts := WithResponses(responseTurn.parts, m.responses)))
  }

  /** A response turn answers a call turn as it stands: the pair check passes and repairs nothing. */
  predicate Answers(callTurn: Content, responseTurn: Content) {
    PairMatch(callTurn, responseTurn) == PairCheck(true, responseTurn)
  }

  lemma {:induction false} PairMatchStable(callTurn: Content, responseTurn: Content)
    requires PairMatch(callTurn, responseTurn).ok
    ensures Answers(callTurn, PairMatch(callTurn, responseTurn).response)
  {
    var calls, rs := Calls(callTurn.parts), Responses(responseTurn.parts);
    var m := Greedy(calls, rs, NoneUsed(|rs|));
    var repaired := PairMatch(callTurn, responseTurn).response;
    WithResponsesShape(responseTurn.parts, m.responses);
    GreedyStable(calls, rs, NoneUsed(|rs|));
    WithResponsesTwice(responseTurn.parts, m.responses, m.responses);
  }

  /** Which response turns must pass, on the fields alone: one response per call, in call
      order, with the names of the calls and IDs that may be missing on either side. The
      turn comes back with its IDs filled in and as it was otherwise. */
  lemma {:induction false} OrderedResponsesPass(callTurn: Content, responseTurn: Content)
    requires callTurn.role == Model && responseTurn.role == User && Calls(callTurn.parts) != []
    requires InCallOrder(Calls(callTurn.parts), Responses(responseTurn.parts))
    ensures var m := PairMatch(callTurn, responseTurn);
            && m.ok && Answers(callTurn, m.response)
            && SameShape(m.response.parts, responseTurn.parts)
            && FilledIn(Calls(callTurn.parts), Responses(responseTurn.parts), Responses(m.response.parts))
  {
    var calls, rs := Calls(callTurn.parts), Responses(responseTurn.parts);
    assert calls[0..] == calls && FirstUsed(|rs|, 0) == NoneUsed(|rs|);
    GreedyInOrder(calls, rs, rs, 0);
    WithResponsesShape(responseTurn.parts, Greedy(calls, rs, NoneUsed(|rs|)).responses);
    PairMatchStable(callTurn, responseTurn);
  }

  /** And in any order, when every call and every response has an ID. */
  lemma {:induction false} IdentifiedResponsesPass(callTurn: Content, responseTurn: Content)
    requires callTurn.role == Model && responseTurn.role == User && Calls(callTurn.parts) != []
    requires |Calls(callTurn.parts)| == |Responses(responseTurn.parts)|
    requires AllNamed(Calls(callTurn.parts), Responses(responseTurn.parts), NoneUsed(|Responses(responseTurn.parts)|))
    ensures Answers(callTurn, responseTurn)
  {
    var rs := Responses(responseTurn.parts);
    GreedyById(Calls(callTurn.parts), rs, NoneUsed(|rs|));
    WithResponsesShape(responseTurn.parts, rs);
  }

  /** What a passed check means: the responses answer the calls one-to-one. */
  lemma {:induction false} AnswersMeaning(callTurn: Content, responseTurn: Content)
    requires Answers(callTurn, responseTurn)
    ensures |Responses(responseTurn.parts)| == |Calls(callTurn.parts)|
    ensures exists picks :: OneToOne(Calls(callTurn.parts), Responses(responseTurn.parts), picks)
  {
    var calls, rs := Calls(callTurn.parts), Responses(responseTurn.parts);
    var m := Greedy(calls, rs, NoneUsed(|rs|));
    GreedySound(calls, rs, NoneUsed(|rs|));
    WithResponsesShape(responseTurn.parts, m.responses);
    assert OneToOne(calls, rs, m.picks);
  }

  // ----- cleaning a history and dropping what has no partner -----

  /** A turn with its parts cleaned, or nothing when its role is unknown or no part is left. */
  function CleanTurn(c: Content): (out: seq<Content>)
    ensures |out| <= 1
  {
    var parts := CleanParts(c.parts, []);
    if c.role == Other || parts == [] then [] else [Content(c.role, parts)]
  }

  function CleanTurns(history: seq<Content>): (out: seq<Content>)
    ensures |out| <= |history|
  {
    if history == [] then [] else CleanTurn(history[0]) + CleanTurns(history[1..])
  }

  /** The parts of a call turn that survive when its calls are stripped. */
  function NonCallParts(parts: seq<Part>): (out: seq<Part>)
    ensures Calls(out) == []
    ensures forall p :: p in out <==> p in parts && p.call.None?
  {
    if parts == [] then []
    else if parts[0].call.None? then
      var rest := NonCallParts(parts[1..]);
      assert ([parts[0]] + rest)[1..] == rest;
      [parts[0]] + rest
    else NonCallParts(parts[1..])
  }

  /** The pending turns once the turn at their head has been checked as a call turn:
      a failing check may already have written IDs into the next turn. */
  function AfterCheck(c: Content, rest: seq<Content>): (out: seq<Content>)
    ensures |out| == |rest|
  {
    if rest == [] then rest else [PairMatch(c, rest[0]).response] + rest[1..]
  }

  predicate CheckedOk(c: Content, rest: seq<Content>) {
    rest != [] && PairMatch(c, rest[0]).ok
  }

  /** What the pass keeps of one turn, given what it has kept so far. */
  function Keep(c: Content, rest: seq<Content>, kept: seq<Content>): (out: seq<Content>)
    ensures |out| <= 1
  {
    if HasResponse(c) then
      if kept == [] || !PairMatch(Last(kept), c).ok then [] else [PairMatch(Last(kept), c).response]
    else if HasCall(c) && !CheckedOk(c, rest) then
      if NonCallParts(c.parts) == [] then [] else [Content(c.role, NonCallParts(c.parts))]
    else [c]
  }

  function Advance(c: Content, rest: seq<Content>): (out: seq<Content>)
    ensures |out| == |rest|
  {
    if !HasResponse(c) && HasCall(c) then AfterCheck(c, rest) else rest
  }

  /** The second loop of `SanitizeHistory`: `kept` is what it has validated, `pending` what is left. */
  function Validate(pending: seq<Content>, kept: seq<Content>): seq<Content>
    decreases |pending|
  {
    if pending == [] then kept
    else Validate(Advance(pending[0], pending[1..]), kept + Keep(pending[0], pending[1..], kept))
  }

  predicate GoodTurn(c: Content) {
    && c.role != Other
    && c.parts != []
    && forall i :: 0 <= i < |c.parts| ==> ValidPart(c.parts[i])
  }

  /** Every response answers the turn before it. */
  predicate ResponsesPaired(h: seq<Content>) {
    forall i :: 0 <= i < |h| && HasResponse(h[i]) ==> i > 0 && Answers(h[i - 1], h[i])
  }

  /** Every call before position `end` has its response right behind it. */
  predicate CallsPaired(h: seq<Content>, end: int) {
    forall i :: 0 <= i < |h| && i < end && HasCall(h[i]) ==> i + 1 < |h| && HasResponse(h[i + 1])
  }

  predicate GoodTurns(h: seq<Content>) {
    forall i :: 0 <= i < |h| ==> GoodTurn(h[i])
  }

  lemma {:induction false} CleanTurnsGood(history: seq<Content>)
    ensures GoodTurns(CleanTurns(history))
    ensures forall i :: 0 <= i < |CleanTurns(history)| ==> Tidy(CleanTurns(history)[i].parts)
  {
    if history != [] {
      CleanTurnsGood(history[1..]);
      CleanPartsTidy(history[0].parts, []);
    }
  }

  lemma {:induction false} PairMatchKeepsGood(a: Content, b: Content)
    ensures GoodTurn(PairMatch(a, b).response) <==> GoodTurn(b)
    ensures Tidy(PairMatch(a, b).response.parts) <==> Tidy(b.parts)
    ensures Calls(PairMatch(a, b).response.parts) == Calls(b.parts)
    ensures HasResponse(PairMatch(a, b).response) <==> HasResponse(b)
    ensures HasCall(PairMatch(a, b).response) <==> HasCall(b)
  {
    var calls, rs := Calls(a.parts), Responses(b.parts);
    if HasCall(a) && HasResponse(b) && |calls| == |rs| {
      var m := Greedy(calls, rs, NoneUsed(|rs|));
      WithResponsesShape(b.parts, m.responses);
      WithResponsesTidy(b.parts, m.responses);
    }
  }

  /** The state of the validation pass: what was kept is paired, and if it ends
      in a call then the next pending turn answers it. */
  ghost predicate PassInvariant(pending: seq<Content>, kept: seq<Content>) {
    && GoodTurns(pending) && GoodTurns(kept)
    && ResponsesPaired(kept)
    && CallsPaired(kept, |kept| - 1)
    && (kept != [] && HasCall(Last(kept)) ==> pending != [] && Answers(Last(kept), pending[0]))
  }

  lemma {:induction false} AdvanceKeepsGood(c: Content, rest: seq<Content>)
    requires GoodTurns(rest)
    ensures GoodTurns(Advance(c, rest))
  {
    if rest != [] {
      assert GoodTurn(rest[0]);
      PairMatchKeepsGood(c, rest[0]);
    }
  }

  /** One step keeps nothing, or one good turn that is an answered response,
      a call turn the next turn answers, or neither. */
  lemma {:induction false} KeepShape(c: Content, rest: seq<Content>, kept: seq<Content>)
    requires GoodTurn(c) && PassInvariant([c] + rest, kept)
    ensures forall k :: k in Keep(c, rest, kept) ==>
              && GoodTurn(k)
              && (HasResponse(k) <==> HasResponse(c))
              && (HasResponse(k) ==> kept != [] && Answers(Last(kept), k))
              && (HasCall(k) ==> k == c && Advance(c, rest) != [] && Answers(k, Advance(c, rest)[0]))
    ensures HasResponse(c) && kept != [] && HasCall(Last(kept)) ==> Keep(c, rest, kept) == [c]
  {
    assert ([c] + rest)[0] == c;
    if HasResponse(c) {
      if kept != [] && PairMatch(Last(kept), c).ok {
        PairMatchStable(Last(kept), c);
        PairMatchKeepsGood(Last(kept), c);
      }
    } else if HasCall(c) {
      if CheckedOk(c, rest) {
        PairMatchStable(c, rest[0]);
      } else {
        var k := NonCallParts(c.parts);
        forall i | 0 <= i < |k| ensures ValidPart(k[i]) { assert k[i] in c.parts; }
      }
    }
  }

  lemma {:induction false} PassStep(pending: seq<Content>, kept: seq<Content>)
    requires pending != [] && PassInvariant(pending, kept)
    ensures PassInvariant(Advance(pending[0], pending[1..]), kept + Keep(pending[0], pending[1..], kept))
  {
    var c, rest := pending[0], pending[1..];
    assert pending == [c] + rest && GoodTurn(c);
    assert GoodTurns(rest) by {
      forall i | 0 <= i < |rest| ensures GoodTurn(rest[i]) { assert rest[i] == pending[i + 1]; }
    }
    AdvanceKeepsGood(c, rest);
    KeepShape(c, rest, kept);
    var one := Keep(c, rest, kept);
    if one == [] {
      assert kept + one == kept;
      assert kept != [] && HasCall(Last(kept)) ==> HasResponse(c);
    } else {
      assert one == [one[0]];
      PassAppend(kept, one[0]);
    }
  }

  lemma {:induction false} PassAppend(kept: seq<Content>, k: Content)
    requires GoodTurns(kept) && ResponsesPaired(kept) && CallsPaired(kept, |kept| - 1)
    requires HasResponse(k) ==> kept != [] && Answers(Last(kept), k)
    requires kept != [] && HasCall(Last(kept)) ==> HasResponse(k)
    ensures ResponsesPaired(kept + [k]) && CallsPaired(kept + [k], |kept|)
  {
    var all := kept + [k];
    forall i | 0 <= i < |all| && HasResponse(all[i]) ensures i > 0 && Answers(all[i - 1], all[i]) {
      if i < |kept| { assert HasResponse(kept[i]); }
    }
    forall i | 0 <= i < |kept| && HasCall(all[i]) ensures HasResponse(all[i + 1]) {
      assert all[i] == kept[i];
      if i < |kept| - 1 { assert all[i + 1] == kept[i + 1]; }
    }
  }

  /** Every validated history has its calls and responses paired, with no exception. */
  lemma {:induction false} ValidatePaired(pending: seq<Content>, kept: seq<Content>)
    requires PassInvariant(pending, kept)
    ensures var v := Validate(pending, kept); GoodTurns(v) && ResponsesPaired(v) && CallsPaired(v, |v|)
    decreases |pending|
  {
    if pending != [] {
      PassStep(pending, kept);
      ValidatePaired(Advance(pending[0], pending[1..]), kept + Keep(pending[0], pending[1..], kept));
    }
  }
}

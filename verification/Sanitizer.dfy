/**
 The loops of internal/ai/sessions.go in their own form: turns are objects, and
 the pair check writes repaired IDs into the response turn in place. Each method
 is proved against the function of the same step in `Conversation` or `History`.
 */
module Sanitizer {
  import opened Options
  import opened Conversation
  import opened History

  /** A turn the repair owns. The parts were copied from the stored history, so
      writing to them never touches what the caller passed in. */
  class Turn {
    const role: Role
    var parts: seq<Part>

    constructor (role: Role, parts: seq<Part>)
      ensures View() == Content(role, parts)
    {
      this.role := role;
      this.parts := parts;
    }

    function View(): Content
      reads this
    {
      Content(role, parts)
    }
  }

  /** The turns, read one by one, are `vs`. */
  ghost predicate Shows(turns: seq<Turn>, vs: seq<Content>)
    reads turns
  {
    |turns| == |vs| && forall i :: 0 <= i < |turns| ==> turns[i].View() == vs[i]
  }

  lemma {:induction false} ShowsAppend(a: seq<Turn>, b: seq<Turn>, vs: seq<Content>)
    requires |a| <= |vs| && Shows(a, vs[..|a|]) && Shows(b, vs[|a|..])
    ensures Shows(a + b, vs)
  {
    forall i | 0 <= i < |vs| ensures (a + b)[i].View() == vs[i] {
      if i >= |a| { assert vs[|a|..][i - |a|] == vs[i]; }
    }
  }

  method SanitizeParts(parts: seq<Part>) returns (out: seq<Part>)
    ensures out == CleanParts(parts, [])
  {
    out := [];
    for i := 0 to |parts|
      invariant CleanParts(parts[i..], out) == CleanParts(parts, [])
    {
      var p := parts[i];
      assert parts[i..][0] == p && parts[i..][1..] == parts[i + 1..];
      if !ValidPart(p) {
        continue;
      }
      if |out| > 0 && Mergeable(out[|out| - 1], p) {
        out := out[..|out| - 1] + [out[|out| - 1].(text := out[|out| - 1].text + p.text)];
        continue;
      }
      out := out + [p];
    }
  }

  // ----- the pair check -----

  /** The m-th response of a turn sits at part q. */
  ghost predicate SitsAt(parts: seq<Part>, q: nat, m: nat) {
    q < |parts| && parts[q].response.Some? && |Responses(parts[..q])| == m
  }

  lemma {:induction false} SameShapeUnique(parts: seq<Part>, out: seq<Part>)
    requires SameShape(parts, out)
    ensures |Responses(out)| == |Responses(parts)|
    ensures out == WithResponses(parts, Responses(out))
  {
    if parts != [] {
      SameShapeUnique(parts[1..], out[1..]);
      assert out == [out[0]] + out[1..];
      if out[0].response.Some? {
        assert Responses(out)[1..] == Responses(out[1..]);
      } else {
        assert out[0] == parts[0] && Responses(out) == Responses(out[1..]);
      }
    }
  }

  /** Writing one response in place is an update of that response alone. */
  lemma {:induction false} WriteThrough(parts: seq<Part>, q: nat, m: nat, r: Response)
    requires SitsAt(parts, q, m)
    ensures m < |Responses(parts)| && parts[q].response == Some(Responses(parts)[m])
    ensures Responses(parts[q := parts[q].(response := Some(r))]) == Responses(parts)[m := r]
  {
    hide Collect;
    var front, back, written := parts[..q], parts[q + 1..], parts[q].(response := Some(r));
    assert parts == front + ([parts[q]] + back);
    assert parts[q := written] == front + ([written] + back);
    CollectAppend(front, [parts[q]] + back, ResponseOf);
    CollectAppend([parts[q]], back, ResponseOf);
    CollectAppend(front, [written] + back, ResponseOf);
    CollectAppend([written], back, ResponseOf);
    CollectOne(parts[q], ResponseOf);
    CollectOne(written, ResponseOf);
  }

  lemma {:induction false} SitsAtShape(a: seq<Part>, b: seq<Part>, q: nat, m: nat)
    requires SameShape(a, b) && SitsAt(a, q, m)
    ensures SitsAt(b, q, m)
  {
    SameShapeUnique(a[..q], b[..q]);
  }

  method GatherCalls(turn: Turn) returns (calls: seq<Call>)
    ensures calls == Calls(turn.parts)
  {
    calls := [];
    for i := 0 to |turn.parts|
      invariant calls == Calls(turn.parts[..i])
    {
      CollectAppend(turn.parts[..i], [turn.parts[i]], CallOf);
      CollectOne(turn.parts[i], CallOf);
      assert turn.parts[..i + 1] == turn.parts[..i] + [turn.parts[i]];
      if turn.parts[i].call.Some? { calls := calls + [turn.parts[i].call.value]; }
    }
    assert turn.parts[..|turn.parts|] == turn.parts;
  }

  /** The response objects of a turn, as the places they can be written through. */
  method GatherResponses(turn: Turn) returns (responses: seq<nat>)
    ensures |responses| == |Responses(turn.parts)|
    ensures forall m :: 0 <= m < |responses| ==> SitsAt(turn.parts, responses[m], m)
  {
    responses := [];
    for i := 0 to |turn.parts|
      invariant |responses| == |Responses(turn.parts[..i])|
      invariant forall m :: 0 <= m < |responses| ==> SitsAt(turn.parts, responses[m], m)
    {
      CollectAppend(turn.parts[..i], [turn.parts[i]], ResponseOf);
      CollectOne(turn.parts[i], ResponseOf);
      assert turn.parts[..i + 1] == turn.parts[..i] + [turn.parts[i]];
      if turn.parts[i].response.Some? { responses := responses + [i]; }
    }
    assert turn.parts[..|turn.parts|] == turn.parts;
  }

  method FunctionPairMatches(callTurn: Turn, responseTurn: Turn) returns (ok: bool)
    modifies responseTurn
    ensures ok == PairMatch(old(callTurn.View()), old(responseTurn.View())).ok
    ensures responseTurn.View() == PairMatch(old(callTurn.View()), old(responseTurn.View())).response
  {
    if !HasCall(callTurn.View()) || !HasResponse(responseTurn.View()) {
      return false;
    }
    var calls := GatherCalls(callTurn);
    var responses := GatherResponses(responseTurn);
    if |calls| == 0 || |calls| != |responses| {
      return false;
    }
    ok := MatchInPlace(calls, responseTurn, responses);
  }

  /** The scan for the first free response that fits one call; |responses| when there is none. */
  method FindFit(call: Call, turn: Turn, responses: seq<nat>, used: array<bool>, ghost rs: seq<Response>)
      returns (matched: nat)
    requires |rs| == |responses| == used.Length
    requires forall m :: 0 <= m < |rs| ==>
               responses[m] < |turn.parts| && turn.parts[responses[m]].response == Some(rs[m])
    ensures matched == FirstFit(call, rs, used[..], 0)
  {
    for index := 0 to |responses|
      invariant forall j :: 0 <= j < index ==> used[j] || !Fits(call, rs[j])
    {
      var response := turn.parts[responses[index]].response.value;
      if used[index] || call.name == "" || response.name != call.name {
        continue;
      }
      if call.id != "" && response.id != "" && response.id != call.id {
        continue;
      }
      return index;
    }
    return |responses|;
  }

  method RepairInPlace(call: Call, turn: Turn, q: nat, ghost m: nat)
    requires SitsAt(turn.parts, q, m)
    modifies turn
    ensures SameShape(old(turn.parts), turn.parts)
    ensures m < |Responses(old(turn.parts))|
    ensures Responses(turn.parts) == Responses(old(turn.parts))[m := Repair(call, Responses(old(turn.parts))[m])]
  {
    WriteThrough(turn.parts, q, m, Repair(call, turn.parts[q].response.value));
    if turn.parts[q].response.value.id == "" {
      turn.parts := turn.parts[q := turn.parts[q].(response := Some(turn.parts[q].response.value.(id := call.id)))];
    }
  }

  method MatchInPlace(calls: seq<Call>, turn: Turn, responses: seq<nat>) returns (ok: bool)
    requires |responses| == |Responses(turn.parts)|
    requires forall m :: 0 <= m < |responses| ==> SitsAt(turn.parts, responses[m], m)
    modifies turn
    ensures var rs := Responses(old(turn.parts));
            var m := Greedy(calls, rs, NoneUsed(|rs|));
            ok == m.ok && turn.parts == WithResponses(old(turn.parts), m.responses)
  {
    hide Collect, FirstFit, Repair, WithResponses;
    ghost var before := turn.parts;
    ghost var goal := Greedy(calls, Responses(before), NoneUsed(|responses|));
    var used := new bool[|responses|](_ => false);
    assert used[..] == NoneUsed(|responses|);
    ok := true;
    var i := 0;
    while i < |calls|
      invariant 0 <= i <= |calls| && SameShape(before, turn.parts)
      invariant |Responses(turn.parts)| == |responses|
      invariant forall m :: 0 <= m < |responses| ==> SitsAt(turn.parts, responses[m], m)
      invariant ok ==> goal.ok == Greedy(calls[i..], Responses(turn.parts), used[..]).ok
      invariant ok ==> goal.responses == Greedy(calls[i..], Responses(turn.parts), used[..]).responses
      invariant !ok ==> !goal.ok && goal.responses == Responses(turn.parts)
      decreases |calls| - i, ok
    {
      var call := calls[i];
      assert calls[i..][0] == call && calls[i..][1..] == calls[i + 1..];
      ghost var rs := Responses(turn.parts);
      forall m | 0 <= m < |rs| ensures turn.parts[responses[m]].response == Some(rs[m]) {
        WriteThrough(turn.parts, responses[m], m, rs[m]);
      }
      var matched := FindFit(call, turn, responses, used, rs);
      if matched == |responses| {
        ok := false;
        break;
      }
      ghost var used0, parts0 := used[..], turn.parts;
      used[matched] := true;
      assert used[..] == used0[matched := true];
      RepairInPlace(call, turn, responses[matched], matched);
      forall m | 0 <= m < |responses| ensures SitsAt(turn.parts, responses[m], m) {
        SitsAtShape(parts0, turn.parts, responses[m], m);
      }
      i := i + 1;
    }
    assert i == |calls| ==> calls[i..] == [];
    SameShapeUnique(before, turn.parts);
  }

  // ----- the alternating suffix -----

  /** The inner scan: do the roles alternate from `start` to `end`? */
  method RolesAlternate(history: seq<Turn>, start: nat, end: nat, ghost h: seq<Content>) returns (valid: bool)
    requires start <= end <= |history| && Shows(history, h)
    ensures valid == Alternates(h[start..end])
  {
    ghost var segment := h[start..end];
    for index := start to end
      invariant forall i :: 0 <= i < index - start ==> segment[i].role == if i % 2 == 0 then User else Model
    {
      var want := if (index - start) % 2 == 1 then Model else User;
      assert segment[index - start] == history[index].View();
      if history[index].role != want {
        return false;
      }
    }
    return true;
  }

  method LastModelEnd(history: seq<Turn>, ghost h: seq<Content>) returns (end: nat)
    requires Shows(history, h)
    ensures end == ModelEnd(h)
  {
    end := |history|;
    while end > 0 && history[end - 1].role != Model
      invariant 0 <= end <= |history|
      invariant forall i :: end <= i < |history| ==> h[i].role != Model
    {
      assert h[end - 1] == history[end - 1].View();
      end := end - 1;
    }
    assert end > 0 ==> h[end - 1] == history[end - 1].View();
  }

  method AlternatingHistorySuffix(history: seq<Turn>, ghost h: seq<Content>) returns (out: seq<Turn>)
    requires Shows(history, h)
    ensures Shows(out, AlternatingSuffix(h))
    ensures forall i :: 0 <= i < |out| ==> out[i] in history
  {
    hide HasResponse, Alternates;
    var end := LastModelEnd(history, h);
    for start := 0 to end
      invariant SuffixFrom(h, start, end) == AlternatingSuffix(h)
    {
      var first := history[start].View();
      assert h[start] == first;
      if first.role != User || HasResponse(first) || (end - start) % 2 != 0 {
        continue;
      }
      var valid := RolesAlternate(history, start, end, h);
      if valid {
        out := history[start..end];
        assert AlternatingSuffix(h) == h[start..end];
        return;
      }
    }
    out := [];
  }

  // ----- the whole repair -----

  method CleanHistory(history: seq<Content>) returns (cleaned: seq<Turn>)
    ensures Shows(cleaned, CleanTurns(history))
    ensures forall i :: 0 <= i < |cleaned| ==> fresh(cleaned[i])
    ensures forall i, j :: 0 <= i < j < |cleaned| ==> cleaned[i] != cleaned[j]
  {
    hide CleanParts, CleanTurns;
    cleaned := [];
    ghost var shown: seq<Content> := [];
    for i := 0 to |history|
      invariant forall k :: 0 <= k < |cleaned| ==> fresh(cleaned[k])
      invariant forall j, k :: 0 <= j < k < |cleaned| ==> cleaned[j] != cleaned[k]
      invariant Shows(cleaned, shown)
      invariant shown + CleanTurns(history[i..]) == CleanTurns(history)
    {
      var c := history[i];
      CleanTurnsStep(history, i, shown);
      if c.role == Other {
        continue;
      }
      var validParts := SanitizeParts(c.parts);
      if |validParts| == 0 {
        continue;
      }
      var turn := new Turn(c.role, validParts);
      cleaned := cleaned + [turn];
      shown := shown + [turn.View()];
    }
  }

  lemma {:induction false} CleanTurnsStep(history: seq<Content>, i: nat, shown: seq<Content>)
    requires i < |history|
    ensures shown + CleanTurns(history[i..]) == (shown + CleanTurn(history[i])) + CleanTurns(history[i + 1..])
    ensures CleanTurn(history[i]) == [] ==> shown + CleanTurn(history[i]) == shown
  {
    assert history[i..][0] == history[i] && history[i..][1..] == history[i + 1..];
  }

  method StripCalls(parts: seq<Part>) returns (out: seq<Part>)
    ensures out == NonCallParts(parts)
  {
    out := [];
    for i := 0 to |parts|
      invariant out + NonCallParts(parts[i..]) == NonCallParts(parts)
    {
      assert parts[i..][0] == parts[i] && parts[i..][1..] == parts[i + 1..];
      if parts[i].call.None? { out := out + [parts[i]]; }
    }
    assert parts[|parts|..] == [];
  }

  /** The body of the second loop: what is kept of turn `c`, given the kept turn
      before it (if any) and the cleaned turn after it (if any). At most one of
      `c` and `after` is written to, and only its response IDs. */
  method ValidateTurn(before: Turn?, c: Turn, after: Turn?) returns (keep: seq<Turn>)
    requires c != before && c != after && (before != null ==> before != after)
    modifies c, after
    ensures var last := if before == null then [] else [old(before.View())];
            var rest := if after == null then [] else [old(after.View())];
            && Shows(keep, Keep(old(c.View()), rest, last))
            && (after != null ==> [after.View()] == Advance(old(c.View()), rest))
    ensures forall i :: 0 <= i < |keep| ==> keep[i] == c || fresh(keep[i])
  {
    keep := [];
    if HasResponse(c.View()) {
      if before != null {
        var ok := FunctionPairMatches(before, c);
        if ok { keep := [c]; }
      }
    } else if HasCall(c.View()) {
      var ok := false;
      if after != null {
        ok := FunctionPairMatches(c, after);
      }
      if ok {
        keep := [c];
      } else {
        var nonCallParts := StripCalls(c.parts);
        if |nonCallParts| > 0 {
          var stripped := new Turn(c.role, nonCallParts);
          keep := [stripped];
        }
      }
    } else {
      keep := [c];
    }
  }

  /** `Keep` and `Advance` look no further than one turn back and one turn ahead. */
  lemma {:induction false} StepIsLocal(c: Content, one: seq<Content>, later: seq<Content>, kept: seq<Content>,
      last: seq<Content>)
    requires |one| <= 1 && (one == [] ==> later == [])
    requires last == if kept == [] then [] else [Last(kept)]
    ensures Validate([c] + (one + later), kept) == Validate(Advance(c, one) + later, kept + Keep(c, one, last))
  {
    hide PairMatch, HasCall, HasResponse, NonCallParts;
    var rest := one + later;
    assert ([c] + rest)[1..] == rest;
    assert Advance(c, rest) == Advance(c, one) + later by {
      if one != [] { assert rest == [one[0]] + later && rest[1..] == later; }
    }
    assert Keep(c, rest, kept) == Keep(c, one, last);
  }

  /** What the second loop may rely on: its own objects, no two of them the same. */
  ghost predicate Apart(todo: seq<Turn>, validated: seq<Turn>) {
    && (forall j, k :: 0 <= j < k < |todo| ==> todo[j] != todo[k])
    && (forall j, k :: 0 <= j < |validated| && 0 <= k < |todo| ==> validated[j] != todo[k])
  }

  /** One round of the second loop is one step of `Validate`: `pending'` and
      `kept'` are what is left and what is kept after it. */
  method ValidateStep(todo: seq<Turn>, validated: seq<Turn>, ghost pending: seq<Content>, ghost kept: seq<Content>)
    returns (keep: seq<Turn>, ghost pending': seq<Content>, ghost kept': seq<Content>)
    requires todo != [] && Apart(todo, validated)
    requires Shows(todo, pending) && Shows(validated, kept)
    modifies todo
    ensures Validate(pending', kept') == Validate(pending, kept)
    ensures Shows(todo[1..], pending') && Shows(validated + keep, kept')
    ensures Apart(todo[1..], validated + keep)
    ensures forall i :: 0 <= i < |keep| ==> keep[i] == todo[0] || fresh(keep[i])
  {
    hide Validate, Keep, Advance;
    var before: Turn? := if |validated| > 0 then validated[|validated| - 1] else null;
    var after: Turn? := if |todo| > 1 then todo[1] else null;
    ghost var one := if |pending| == 1 then [] else [pending[1]];
    ghost var last := if kept == [] then [] else [Last(kept)];
    ghost var added := Keep(pending[0], one, last);
    ghost var later := if |todo| == 1 then [] else todo[2..];
    ghost var laterShown := if |todo| == 1 then [] else pending[2..];
    assert pending == [pending[0]] + (one + laterShown);
    StepIsLocal(pending[0], one, laterShown, kept, last);
    assert Shows(later, laterShown);
    keep := ValidateTurn(before, todo[0], after);
    assert Shows(later, laterShown) by {
      forall i | 0 <= i < |later| ensures later[i].View() == old(later[i].View()) { assert later[i] == todo[i + 2]; }
    }
    assert Shows(validated, kept) by {
      forall j | 0 <= j < |validated| ensures validated[j].View() == old(validated[j].View()) {}
    }
    pending' := Advance(pending[0], one) + laterShown;
    kept' := kept + added;
    assert kept'[..|kept|] == kept && kept'[|kept|..] == added;
    ShowsAppend(validated, keep, kept');
    forall k | 0 <= k < |todo| - 1 ensures todo[1..][k].View() == pending'[k] {
      if k > 0 { assert todo[1..][k] == later[k - 1]; }
    }
  }

  method SanitizeHistory(history: seq<Content>) returns (out: seq<Turn>)
    ensures Shows(out, Sanitize(history))
    ensures forall i :: 0 <= i < |out| ==> fresh(out[i])
  {
    if |history| == 0 {
      return [];
    }
    hide Validate, CleanTurns, AlternatingSuffix;
    var cleaned := CleanHistory(history);
    if |cleaned| == 0 {
      return [];
    }
    var validated: seq<Turn> := [];
    ghost var pending, kept: seq<Content> := CleanTurns(history), [];
    while |cleaned| > 0
      invariant forall k :: 0 <= k < |cleaned| ==> fresh(cleaned[k])
      invariant forall j :: 0 <= j < |validated| ==> fresh(validated[j])
      invariant Apart(cleaned, validated)
      invariant Shows(cleaned, pending) && Shows(validated, kept)
      invariant Validate(pending, kept) == Validated(history)
    {
      var keep;
      ghost var pending0, kept0 := pending, kept;
      keep, pending, kept := ValidateStep(cleaned, validated, pending0, kept0);
      validated := validated + keep;
      cleaned := cleaned[1..];
    }
    out := AlternatingHistorySuffix(validated, kept);
  }

  method TrimHistory(history: seq<Content>) returns (out: seq<Turn>)
    ensures Shows(out, Trim(history))
    ensures forall i :: 0 <= i < |out| ==> fresh(out[i])
  {
    hide Sanitize;
    var newest := history;
    if |newest| > HISTORY_WINDOW * 2 {
      newest := newest[|newest| - HISTORY_WINDOW * 2..];
    }
    out := SanitizeHistory(newest);
  }
}

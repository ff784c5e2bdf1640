/**
 What `SanitizeHistory` (internal/ai/sessions.go) guarantees for every input:
 the shape of its result, its exact fixed points, and exactly when its result
 ends in a call nobody answers.
 */
module History {
  import opened Options
  import opened Conversation

  // ----- the alternating suffix -----

  /** One past the last model turn. */
  function ModelEnd(h: seq<Content>): (end: nat)
    ensures end <= |h|
    ensures end > 0 ==> h[end - 1].role == Model
    ensures forall i :: end <= i < |h| ==> h[i].role != Model
  {
    if h == [] then 0
    else if Last(h).role == Model then |h|
    else ModelEnd(h[..|h| - 1])
  }

  predicate Alternates(h: seq<Content>) {
    forall i :: 0 <= i < |h| ==> h[i].role == if i % 2 == 0 then User else Model
  }

  /** A segment the search may return: an alternation whose first turn is a question. */
  predicate Candidate(h: seq<Content>) {
    h != [] && !HasResponse(h[0]) && Alternates(h)
  }

  /** The search of `alternatingHistorySuffix`, from `start` on; the parity test comes before the scan. */
  function SuffixFrom(h: seq<Content>, start: nat, end: nat): seq<Content>
    requires end <= |h|
    decreases end - start
  {
    if start >= end then []
    else if h[start].role == User && !HasResponse(h[start]) && (end - start) % 2 == 0 && Alternates(h[start..end])
        then h[start..end]
    else SuffixFrom(h, start + 1, end)
  }

  function AlternatingSuffix(h: seq<Content>): seq<Content> {
    SuffixFrom(h, 0, ModelEnd(h))
  }

  lemma {:induction false} SuffixFromLongest(h: seq<Content>, start: nat, end: nat)
    requires end <= |h| && (end > 0 ==> h[end - 1].role == Model)
    ensures var r := SuffixFrom(h, start, end);
            && (r != [] ==> Candidate(r) && start <= end - |r| && r == h[end - |r|..end])
            && forall s {:trigger h[s..end]} :: start <= s < end && Candidate(h[s..end]) ==> end - s <= |r|
    decreases end - start
  {
    hide Alternates, HasResponse;
    if start < end {
      SuffixFromLongest(h, start + 1, end);
      var here := h[start..end];
      if Candidate(here) {
        CandidateIsEven(here);
        assert SuffixFrom(h, start, end) == here;
      }
    }
  }

  lemma {:induction false} CandidateIsEven(here: seq<Content>)
    requires Candidate(here) && here[|here| - 1].role == Model
    ensures here[0].role == User && |here| % 2 == 0
  {
  }

  /** The result is the longest segment up to the last model turn that starts
      with a question and alternates; it is empty exactly when there is none. */
  lemma {:induction false} SuffixLongest(h: seq<Content>)
    ensures var r, end := AlternatingSuffix(h), ModelEnd(h);
            && (r != [] ==> Candidate(r) && |r| <= end && r == h[end - |r|..end])
            && (forall s {:trigger h[s..end]} :: 0 <= s < end && Candidate(h[s..end]) ==> end - s <= |r|)
            && (r == [] <==> forall s {:trigger h[s..end]} :: 0 <= s < end ==> !Candidate(h[s..end]))
  {
    SuffixFromLongest(h, 0, ModelEnd(h));
    var r, end := AlternatingSuffix(h), ModelEnd(h);
    if r != [] {
      var s := end - |r|;
      assert Candidate(h[s..end]);
    }
  }

  // ----- the whole repair -----

  /** The validated turns, before the suffix is cut. */
  function Validated(history: seq<Content>): seq<Content> {
    Validate(CleanTurns(history), [])
  }

  function Sanitize(history: seq<Content>): seq<Content> {
    AlternatingSuffix(Validated(history))
  }

  ghost predicate WellFormed(h: seq<Content>) {
    && |h| % 2 == 0
    && Alternates(h)
    && (h != [] ==> !HasResponse(h[0]))
    && GoodTurns(h)
    && ResponsesPaired(h)
    && CallsPaired(h, |h| - 1)
  }

  lemma {:induction false} ValidatedPaired(history: seq<Content>)
    ensures var v := Validated(history); GoodTurns(v) && ResponsesPaired(v) && CallsPaired(v, |v|)
  {
    CleanTurnsGood(history);
    ValidatePaired(CleanTurns(history), []);
  }

  /** Whatever was stored, the repaired history is an even user/model alternation
      that opens with a question and closes with a model turn; every response
      answers the call right before it and every call but possibly the last is
      answered right away. */
  lemma {:induction false} SanitizeWellFormed(history: seq<Content>)
    ensures WellFormed(Sanitize(history))
  {
    ValidatedPaired(history);
    SuffixWellFormed(Validated(history));
  }

  lemma {:induction false} SuffixWellFormed(v: seq<Content>)
    requires GoodTurns(v) && ResponsesPaired(v) && CallsPaired(v, |v|)
    ensures WellFormed(AlternatingSuffix(v))
  {
    hide Answers, HasCall, GoodTurn;
    SuffixLongest(v);
    var r, end := AlternatingSuffix(v), ModelEnd(v);
    if r != [] {
      SegmentWellFormed(v, end - |r|, end);
    }
  }

  lemma {:induction false} SegmentWellFormed(v: seq<Content>, start: nat, end: nat)
    requires start < end <= |v| && Candidate(v[start..end]) && v[end - 1].role == Model
    requires GoodTurns(v) && ResponsesPaired(v) && CallsPaired(v, |v|)
    ensures WellFormed(v[start..end])
  {
    hide Answers, HasCall, GoodTurn;
    var r := v[start..end];
    assert r[0] == v[start] && r[|r| - 1] == v[end - 1];
    SegmentPaired(v, start, end);
  }

  lemma {:induction false} SegmentPaired(v: seq<Content>, start: nat, end: nat)
    requires start < end <= |v|
    requires GoodTurns(v) && ResponsesPaired(v) && CallsPaired(v, |v|) && !HasResponse(v[start])
    ensures GoodTurns(v[start..end]) && ResponsesPaired(v[start..end]) && CallsPaired(v[start..end], end - start - 1)
  {
    var r := v[start..end];
    forall i | 0 <= i < |r| ensures r[i] == v[start + i] && GoodTurn(r[i]) {}
    forall i | 0 <= i < |r| && HasResponse(r[i]) ensures i > 0 && Answers(r[i - 1], r[i]) {
      assert HasResponse(v[start + i]);
    }
    forall i | 0 <= i < |r| - 1 && HasCall(r[i]) ensures HasResponse(r[i + 1]) {
      assert HasCall(v[start + i]);
    }
  }

  // ----- the exact fixed points -----

  ghost predicate AllTidy(h: seq<Content>) {
    forall i :: 0 <= i < |h| ==> Tidy(h[i].parts)
  }

  ghost predicate EndsInCall(h: seq<Content>) {
    h != [] && HasCall(Last(h))
  }

  ghost predicate Stable(h: seq<Content>) {
    WellFormed(h) && AllTidy(h) && !EndsInCall(h)
  }

  lemma {:induction false} CleanTurnsFixed(h: seq<Content>)
    requires GoodTurns(h) && AllTidy(h)
    ensures CleanTurns(h) == h
  {
    if h != [] {
      assert GoodTurn(h[0]) && Tidy(h[0].parts);
      CleanPartsFixedIff(h[0].parts);
      forall i | 0 <= i < |h[1..]| ensures GoodTurn(h[1..][i]) && Tidy(h[1..][i].parts) {
        assert h[1..][i] == h[i + 1];
      }
      CleanTurnsFixed(h[1..]);
    }
  }

  lemma {:induction false} ValidateFixed(pending: seq<Content>, kept: seq<Content>)
    requires ResponsesPaired(kept + pending) && CallsPaired(kept + pending, |kept + pending|)
    ensures Validate(pending, kept) == kept + pending
    decreases |pending|
  {
    var all := kept + pending;
    if pending == [] {
      assert all == kept;
    } else {
      var c, rest := pending[0], pending[1..];
      assert all[|kept|] == c;
      if HasResponse(c) {
        assert kept != [] && Answers(all[|kept| - 1], c);
      } else if HasCall(c) {
        assert all[|kept| + 1] == rest[0] && Answers(c, rest[0]);
        assert AfterCheck(c, rest) == rest;
      }
      assert Keep(c, rest, kept) == [c] && Advance(c, rest) == rest;
      assert (kept + [c]) + rest == all;
      ValidateFixed(rest, kept + [c]);
    }
  }

  lemma {:induction false} StableIsFixed(h: seq<Content>)
    requires Stable(h)
    ensures Sanitize(h) == h
  {
    CleanTurnsFixed(h);
    assert Validated(h) == h by {
      assert CallsPaired(h, |h|);
      assert [] + h == h;
      ValidateFixed(h, []);
    }
    WholeSuffix(h);
  }

  lemma {:induction false} WholeSuffix(h: seq<Content>)
    requires Alternates(h) && |h| % 2 == 0 && (h != [] ==> !HasResponse(h[0]))
    ensures AlternatingSuffix(h) == h
  {
    if h != [] {
      assert Last(h).role == Model && ModelEnd(h) == |h|;
      assert h[0..|h|] == h;
    }
  }

  /** A turn the pass kept: tidiness is only ever lost together with calls. */
  ghost predicate Derived(p: Content, k: Content) {
    Calls(k.parts) == Calls(p.parts) && Tidy(p.parts) ==> Tidy(k.parts)
  }

  lemma {:induction false} KeepDerived(c: Content, rest: seq<Content>, kept: seq<Content>)
    ensures forall k :: k in Keep(c, rest, kept) ==> Derived(c, k)
  {
    if HasResponse(c) && kept != [] {
      PairMatchKeepsGood(Last(kept), c);
    }
  }

  ghost predicate DerivedAll(pending: seq<Content>, kept: seq<Content>) {
    |pending| == |kept| && forall i :: 0 <= i < |pending| ==> Derived(pending[i], kept[i])
  }

  lemma {:induction false} AdvanceDerived(c: Content, rest: seq<Content>, i: nat, v: Content)
    requires i < |rest| && Derived(Advance(c, rest)[i], v)
    ensures Derived(rest[i], v)
  {
    hide Tidy, Collect;
    if i == 0 { PairMatchKeepsGood(c, rest[0]); }
  }

  lemma {:induction false} StepDerived(c: Content, rest: seq<Content>, kept: seq<Content>, vs: seq<Content>)
    requires DerivedAll(Advance(c, rest), vs)
    requires Keep(c, rest, kept) != []
    ensures DerivedAll([c] + rest, Keep(c, rest, kept) + vs)
  {
    hide Derived, Keep, Advance;
    var one := Keep(c, rest, kept);
    KeepDerived(c, rest, kept);
    assert Derived(c, one[0]);
    forall i | 0 <= i < |rest| ensures Derived(rest[i], vs[i]) { AdvanceDerived(c, rest, i, vs[i]); }
  }

  lemma {:induction false} SplitSlice<T>(v: seq<T>, a: seq<T>, one: seq<T>)
    requires a + one <= v
    ensures v[..|a|] == a
    ensures v[|a|..] == one + v[|a + one|..]
  {
    assert v == (a + one) + v[|a + one|..];
  }

  /** The pass keeps at most one turn for each pending one; when it drops none,
      each kept turn derives from the one in its place. */
  lemma {:induction false} ValidateTracks(pending: seq<Content>, kept: seq<Content>)
    ensures |kept| <= |Validate(pending, kept)| <= |kept| + |pending|
    ensures Validate(pending, kept)[..|kept|] == kept
    ensures |Validate(pending, kept)| == |kept| + |pending| ==> DerivedAll(pending, Validate(pending, kept)[|kept|..])
    decreases |pending|
  {
    if pending != [] {
      var c, rest := pending[0], pending[1..];
      var one := Keep(c, rest, kept);
      var kept' := kept + one;
      ValidateTracks(Advance(c, rest), kept');
      var v := Validate(pending, kept);
      assert v == Validate(Advance(c, rest), kept');
      SplitSlice(v, kept, one);
      if |v| == |kept| + |pending| {
        StepDerived(c, rest, kept, v[|kept'|..]);
        assert [c] + rest == pending;
      }
    }
  }

  lemma {:induction false} CleanTurnsTracks(h: seq<Content>)
    requires |CleanTurns(h)| == |h|
    ensures forall i :: 0 <= i < |h| ==> CleanTurns(h)[i].parts == CleanParts(h[i].parts, [])
  {
    if h != [] {
      assert |CleanTurns(h[1..])| == |h[1..]|;
      CleanTurnsTracks(h[1..]);
      forall i | 1 <= i < |h| ensures CleanTurns(h)[i].parts == CleanParts(h[i].parts, []) {
        assert CleanTurns(h)[i] == CleanTurns(h[1..])[i - 1];
      }
    }
  }

  lemma {:induction false} FixedIsValidated(h: seq<Content>)
    requires Sanitize(h) == h
    ensures Validated(h) == h && |CleanTurns(h)| == |h|
  {
    ValidateTracks(CleanTurns(h), []);
    SuffixLongest(Validated(h));
  }

  lemma {:induction false} FixedIsTidy(h: seq<Content>)
    requires Validated(h) == h && |CleanTurns(h)| == |h| && GoodTurns(h)
    ensures AllTidy(h)
  {
    var c := CleanTurns(h);
    ValidateTracks(c, []);
    CleanTurnsTracks(h);
    CleanTurnsGood(h);
    forall i | 0 <= i < |h| ensures Tidy(h[i].parts) {
      assert GoodTurn(h[i]) && Derived(c[i], h[i]);
      ValidPartsSpoken(h[i].parts);
      CleanPartsKeepsSayings(h[i].parts);
    }
  }

  lemma {:induction false} FixedIsStable(h: seq<Content>)
    requires Sanitize(h) == h
    ensures Stable(h)
  {
    SanitizeWellFormed(h);
    FixedIsValidated(h);
    ValidatedPaired(h);
    FixedIsTidy(h);
  }

  /** The repair leaves a history alone exactly when it is well formed, tidy and
      does not end in a call. */
  lemma {:induction false} SanitizeFixedIff(h: seq<Content>)
    ensures Sanitize(h) == h <==> Stable(h)
  {
    if Sanitize(h) == h { FixedIsStable(h); }
    if Stable(h) { StableIsFixed(h); }
  }

  // ----- the bounded history the model is given -----

  const HISTORY_WINDOW: nat := 20

  function Newest(history: seq<Content>): (newest: seq<Content>)
    ensures |newest| <= 2 * HISTORY_WINDOW
  {
    if |history| > 2 * HISTORY_WINDOW then history[|history| - 2 * HISTORY_WINDOW..] else history
  }

  function Trim(history: seq<Content>): seq<Content> { Sanitize(Newest(history)) }

  /** The repair never makes a history longer. */
  lemma {:induction false} SanitizeShortens(history: seq<Content>)
    ensures |Sanitize(history)| <= |history|
  {
    ValidateTracks(CleanTurns(history), []);
    SuffixLongest(Validated(history));
  }

  /** What the model is given is well formed and within the window; it is the whole
      history exactly when that is short enough and needs no repair. */
  lemma {:induction false} TrimBounds(history: seq<Content>)
    ensures WellFormed(Trim(history)) && |Trim(history)| <= 40
    ensures Trim(history) == history <==> |history| <= 40 && Stable(history)
  {
    hide WellFormed, Stable, Sanitize;
    SanitizeWellFormed(Newest(history));
    SanitizeShortens(Newest(history));
    SanitizeFixedIff(history);
  }

  lemma {:induction false} StableEnd(h: seq<Content>, n: nat)
    requires Stable(h) && n < |h| && n % 2 == 0 && !HasResponse(h[n])
    ensures Stable(h[n..])
  {
    hide HasResponse, HasCall, Answers, GoodTurn, Tidy;
    var w := h[n..];
    assert |h| % 2 == 0 && |w| % 2 == 0;
    assert forall i :: 0 <= i < |w| ==> w[i] == h[n + i];
    assert Last(w) == Last(h);
    forall i | 0 <= i < |w| && HasResponse(w[i]) ensures i > 0 && Answers(w[i - 1], w[i]) {
      assert HasResponse(h[n + i]);
    }
    forall i | 0 <= i < |w| - 1 && HasCall(w[i]) ensures HasResponse(w[i + 1]) { assert HasCall(h[n + i]); }
  }

  /** Of a longer history that needs no repair the model is given the forty newest turns,
      unless they start with a response whose call is older. */
  lemma {:induction false} TrimKeepsNewest(h: seq<Content>)
    requires Stable(h) && |h| > 40
    ensures Trim(h) == h[|h| - 40..] <==> !HasResponse(h[|h| - 40])
  {
    hide HasResponse, Stable, Sanitize;
    var w := h[|h| - 40..];
    SanitizeFixedIff(w);
    StableShape(h);
    if !HasResponse(h[|h| - 40]) { StableEnd(h, |h| - 40); }
    if Stable(w) { StableShape(w); }
  }

  // ----- when the result ends in a call -----

  /** Of the cleaned turns, the last model turn that is kept is a call with its
      answer behind it; `otherwise` is the verdict when no model turn is kept. */
  predicate LastKeptIsCall(turns: seq<Content>, otherwise: bool)
    decreases |turns|
  {
    if turns == [] then otherwise
    else
      var c, rest := turns[0], turns[1..];
      if c.role != Model then LastKeptIsCall(rest, otherwise)
      else if HasCall(c) && CheckedOk(c, rest) then LastKeptIsCall(rest, true)
      else if HasCall(c) && NonCallParts(c.parts) == [] then LastKeptIsCall(rest, otherwise)
      else LastKeptIsCall(rest, false)
  }

  predicate LastModelIsCall(h: seq<Content>) {
    ModelEnd(h) > 0 && HasCall(h[ModelEnd(h) - 1])
  }

  lemma {:induction false} AdvanceKeepsVerdict(c: Content, rest: seq<Content>, otherwise: bool)
    ensures LastKeptIsCall(Advance(c, rest), otherwise) == LastKeptIsCall(rest, otherwise)
  {
    if rest != [] && HasCall(c) && !HasResponse(c) {
      var next := PairMatch(c, rest[0]).response;
      assert AfterCheck(c, rest)[1..] == rest[1..];
      if HasResponse(rest[0]) { assert next.role == User; } else { assert next == rest[0]; }
    }
  }

  lemma {:induction false} ValidateVerdict(pending: seq<Content>, kept: seq<Content>)
    ensures LastModelIsCall(Validate(pending, kept)) == LastKeptIsCall(pending, LastModelIsCall(kept))
    decreases |pending|
  {
    if pending != [] {
      var c, rest := pending[0], pending[1..];
      var one := Keep(c, rest, kept);
      ValidateVerdict(Advance(c, rest), kept + one);
      AdvanceKeepsVerdict(c, rest, LastModelIsCall(kept + one));
      KeepVerdict(c, rest, kept);
      assert pending[1..] == rest;
    }
  }

  lemma {:induction false} KeepVerdict(c: Content, rest: seq<Content>, kept: seq<Content>)
    ensures LastModelIsCall(kept + Keep(c, rest, kept)) ==
            if c.role != Model then LastModelIsCall(kept)
            else if HasCall(c) && CheckedOk(c, rest) then true
            else if HasCall(c) && NonCallParts(c.parts) == [] then LastModelIsCall(kept)
            else false
  {
    var one := Keep(c, rest, kept);
    if one == [] {
      assert kept + one == kept;
    } else {
      assert one == [one[0]];
      assert one[0].role == c.role;
    }
  }

  /** The segment from s up to the last model turn may be returned. */
  predicate CandidateAt(v: seq<Content>, s: nat) { s < ModelEnd(v) && Candidate(v[s..ModelEnd(v)]) }

  ghost predicate HasCandidate(v: seq<Content>) { exists s: nat :: CandidateAt(v, s) }

  lemma {:induction false} SuffixAtLeast(v: seq<Content>, end: nat, s: nat)
    requires s < end <= |v| && v[end - 1].role == Model && Candidate(v[s..end])
    ensures |SuffixFrom(v, 0, end)| >= end - s
  {
    hide Candidate, SuffixFrom;
    SuffixFromLongest(v, 0, end);
    assert Candidate(v[s..end]);
  }

  /** The suffix is the candidate that starts first. */
  lemma {:induction false} FirstCandidate(v: seq<Content>)
    ensures var r, end := AlternatingSuffix(v), ModelEnd(v);
            && (r == [] <==> !HasCandidate(v))
            && (r != [] ==> |r| <= end && CandidateAt(v, end - |r|) && r == v[end - |r|..end])
            && (forall s: nat :: CandidateAt(v, s) ==> end - |r| <= s)
  {
    hide Candidate, SuffixFrom;
    SuffixLongest(v);
    var r, end := AlternatingSuffix(v), ModelEnd(v);
    forall s: nat | CandidateAt(v, s) ensures r != [] && end - |r| <= s {
      SuffixAtLeast(v, end, s);
    }
    if r != [] { assert CandidateAt(v, end - |r|); }
  }

  /** A result ends in an unanswered call exactly when the validated turns hold an
      alternation up to their last model turn and that turn is an answered call: its
      answer is then a trailing user turn, and the final cut removes it. */
  lemma {:induction false} SanitizeEndsInCallIff(history: seq<Content>)
    ensures EndsInCall(Sanitize(history))
            <==> HasCandidate(Validated(history)) && LastKeptIsCall(CleanTurns(history), false)
  {
    hide HasCall, CleanTurns, Validate, CandidateAt, SuffixFrom, HasCandidate;
    var v := Validated(history);
    ValidateVerdict(CleanTurns(history), []);
    FirstCandidate(v);
    if Sanitize(history) != [] { assert Last(Sanitize(history)) == v[ModelEnd(v) - 1]; }
  }

  // ----- when a second repair changes the result -----

  /** The turns whose neighbouring texts could still be merged. */
  function Untidy(h: seq<Content>): seq<Content> {
    if h == [] then []
    else (if Tidy(h[0].parts) then [] else [h[0]]) + Untidy(h[1..])
  }

  /** What is left of a turn that is an unanswered call, if its other parts can be merged
      once the calls between them are gone. */
  function StrippedOf(c: Content, rest: seq<Content>): seq<Content> {
    if HasCall(c) && !CheckedOk(c, rest) && !Tidy(NonCallParts(c.parts)) then [Content(c.role, NonCallParts(c.parts))]
    else []
  }

  function Stripped(turns: seq<Content>): seq<Content>
    decreases |turns|
  {
    if turns == [] then [] else StrippedOf(turns[0], turns[1..]) + Stripped(turns[1..])
  }

  lemma {:induction false} UntidyAppend(a: seq<Content>, b: seq<Content>)
    ensures Untidy(a + b) == Untidy(a) + Untidy(b)
  {
    if a == [] {
      assert a + b == b;
    } else {
      assert (a + b)[1..] == a[1..] + b;
      UntidyAppend(a[1..], b);
    }
  }

  lemma {:induction false} AdvanceKeepsStripped(c: Content, rest: seq<Content>)
    ensures Stripped(Advance(c, rest)) == Stripped(rest)
  {
    if rest != [] && HasCall(c) && !HasResponse(c) {
      var next := PairMatch(c, rest[0]).response;
      assert AfterCheck(c, rest)[1..] == rest[1..];
      if HasResponse(rest[0]) { assert next.role == User; } else { assert next == rest[0]; }
    }
  }

  lemma {:induction false} KeepUntidy(c: Content, rest: seq<Content>, kept: seq<Content>)
    requires Tidy(c.parts)
    ensures Untidy(Keep(c, rest, kept)) == StrippedOf(c, rest)
  {
    var one := Keep(c, rest, kept);
    if HasResponse(c) && kept != [] { PairMatchKeepsGood(Last(kept), c); }
    if one != [] { assert one == [one[0]] && one[1..] == []; }
  }

  ghost predicate TidyTurns(pending: seq<Content>) { forall i :: 0 <= i < |pending| ==> Tidy(pending[i].parts) }

  lemma {:induction false} AdvanceKeepsTidy(c: Content, rest: seq<Content>)
    requires TidyTurns(rest)
    ensures TidyTurns(Advance(c, rest))
  {
    if rest != [] { PairMatchKeepsGood(c, rest[0]); }
  }

  /** From clean turns, the validation pass makes untidy turns by stripping calls and in no other way. */
  lemma {:induction false} ValidateUntidy(pending: seq<Content>, kept: seq<Content>)
    requires TidyTurns(pending)
    ensures Untidy(Validate(pending, kept)) == Untidy(kept) + Stripped(pending)
    decreases |pending|
  {
    hide Tidy, Keep, Advance, StrippedOf, Untidy;
    if pending != [] {
      var c, rest := pending[0], pending[1..];
      AdvanceKeepsTidy(c, rest);
      ValidateUntidy(Advance(c, rest), kept + Keep(c, rest, kept));
      UntidyAppend(kept, Keep(c, rest, kept));
      KeepUntidy(c, rest, kept);
      AdvanceKeepsStripped(c, rest);
      ConcatAssociates(Untidy(kept), StrippedOf(c, rest), Stripped(rest));
    }
  }

  lemma {:induction false} NothingUntidy(h: seq<Content>)
    ensures Untidy(h) == [] <==> AllTidy(h)
  {
    if h != [] {
      NothingUntidy(h[1..]);
      assert forall i :: 0 <= i < |h| - 1 ==> h[1..][i] == h[i + 1];
      if AllTidy(h[1..]) && Tidy(h[0].parts) {
        forall i | 0 <= i < |h| ensures Tidy(h[i].parts) { if i > 0 { assert Tidy(h[1..][i - 1].parts); } }
      }
      if AllTidy(h) {
        forall i | 0 <= i < |h[1..]| ensures Tidy(h[1..][i].parts) { assert Tidy(h[i + 1].parts); }
      }
    }
  }

  /** The validated turns that a second cleaning would change are exactly what is
      left of the unanswered call turns whose other parts can be merged. */
  lemma {:induction false} UntidyAreStripped(history: seq<Content>)
    ensures Untidy(Validated(history)) == Stripped(CleanTurns(history))
    ensures AllTidy(Validated(history)) <==> Stripped(CleanTurns(history)) == []
  {
    hide CleanTurns, Validate;
    CleanTurnsGood(history);
    ValidateUntidy(CleanTurns(history), []);
    NothingUntidy(Validated(history));
  }

  lemma {:induction false} AllTidyPart(h: seq<Content>, from: nat, start: nat, end: nat)
    requires from <= start <= end <= |h| && AllTidy(h[from..end])
    ensures AllTidy(h[start..end])
  {
    forall i | 0 <= i < end - start ensures Tidy(h[start..end][i].parts) {
      assert h[start..end][i] == h[from..end][start - from + i];
    }
  }

  lemma {:induction false} NothingTidy()
    ensures AllTidy([])
  {
  }

  /** Repairing twice equals repairing once exactly when every segment of the validated
      turns that may be returned is tidy, and none may be returned if the last model turn
      to survive is an answered call. */
  lemma {:induction false} SanitizeIdempotentIff(history: seq<Content>)
    ensures var v := Validated(history);
            Sanitize(Sanitize(history)) == Sanitize(history)
            <==> forall s: nat :: CandidateAt(v, s) ==>
                   AllTidy(v[s..ModelEnd(v)]) && !LastKeptIsCall(CleanTurns(history), false)
  {
    hide Tidy, Candidate, WellFormed, Validate, CleanTurns, SuffixFrom, HasCall, LastKeptIsCall, AllTidy;
    var v, r := Validated(history), Sanitize(history);
    var end := ModelEnd(v);
    SanitizeFixedIff(r);
    SanitizeWellFormed(history);
    SanitizeEndsInCallIff(history);
    FirstCandidate(v);
    NothingTidy();
    forall s: nat | AllTidy(r) && CandidateAt(v, s) ensures AllTidy(v[s..end]) {
      AllTidyPart(v, end - |r|, s, end);
    }
  }

  /** So one repair is enough unless it strips calls from between texts or cuts an answer off. */
  lemma {:induction false} OneRepairIsEnough(history: seq<Content>)
    requires Stripped(CleanTurns(history)) == [] && !LastKeptIsCall(CleanTurns(history), false)
    ensures Sanitize(Sanitize(history)) == Sanitize(history)
  {
    hide Tidy, Candidate, Sanitize, Validate, CleanTurns, LastKeptIsCall, Stripped;
    var v := Validated(history);
    SanitizeIdempotentIff(history);
    UntidyAreStripped(history);
    forall s: nat | s < ModelEnd(v) ensures AllTidy(v[s..ModelEnd(v)]) {
      AllTidyPart(v, 0, s, ModelEnd(v));
    }
  }

  // ----- what the repair must keep -----

  function TextTurn(role: Role, text: string): Content { Content(role, [TextPart(text)]) }

  lemma {:induction false} TextTurnIsPlain(role: Role, text: string)
    requires text != "" && role != Other
    ensures GoodTurn(TextTurn(role, text)) && Tidy(TextTurn(role, text).parts)
    ensures !HasCall(TextTurn(role, text)) && !HasResponse(TextTurn(role, text))
  {
    CollectOne(TextPart(text), CallOf);
    CollectOne(TextPart(text), ResponseOf);
  }

  function CallPart(c: Call): Part { Part(false, "", Some(c), None, false) }

  /** A turn of nothing but calls, or of nothing but responses. */
  ghost predicate OnlyCalls(c: Content) {
    c.role == Model && c.parts != [] && forall i :: 0 <= i < |c.parts| ==>
      c.parts[i].call.Some? && c.parts[i] == CallPart(c.parts[i].call.value)
  }

  ghost predicate OnlyResponses(r: Content) {
    r.role == User && r.parts != [] && forall i :: 0 <= i < |r.parts| ==>
      r.parts[i].response.Some? && r.parts[i] == Part(false, "", None, r.parts[i].response, false)
  }

  lemma {:induction false} OnlyCallsShape(c: Content)
    requires OnlyCalls(c)
    ensures c.role == Model && GoodTurn(c) && Tidy(c.parts) && HasCall(c) && !HasResponse(c)
    ensures Calls(c.parts) != []
  {
    assert Calls(c.parts) == [c.parts[0].call.value] + Calls(c.parts[1..]);
  }

  lemma {:induction false} OnlyResponsesShape(r: Content)
    requires OnlyResponses(r)
    ensures r.role == User && GoodTurn(r) && Tidy(r.parts) && HasResponse(r) && !HasCall(r)
  {
    assert Responses(r.parts) == [r.parts[0].response.value] + Responses(r.parts[1..]);
  }

  lemma {:induction false} ValidatedWhole(h: seq<Content>, kept: seq<Content>)
    requires GoodTurns(h) && AllTidy(h) && Validate(h, []) == kept
    requires Alternates(kept) && |kept| % 2 == 0 && (kept != [] ==> !HasResponse(kept[0]))
    ensures Sanitize(h) == kept
  {
    hide GoodTurns, AllTidy, Validate, Alternates, HasResponse;
    CleanTurnsFixed(h);
    WholeSuffix(kept);
  }

  /** The validation pass over one exchange whose responses are repaired. */
  lemma {:induction false} ExchangeValidates(q: Content, c: Content, r: Content, a: Content)
    requires !HasCall(q) && !HasResponse(q) && !HasCall(a) && !HasResponse(a)
    requires HasCall(c) && !HasResponse(c) && PairMatch(c, r).ok && HasResponse(PairMatch(c, r).response)
    ensures Validate([q, c, r, a], []) == [q, c, PairMatch(c, r).response, a]
  {
    hide HasCall, HasResponse, PairMatch;
    var r' := PairMatch(c, r).response;
    assert Answers(c, r') by { PairMatchStable(c, r); }
    assert [q, c, r, a][1..] == [c, r, a] && [c, r, a][1..] == [r, a] && [r, a][1..] == [a] && [r', a][1..] == [a];
    assert Keep(q, [c, r, a], []) == [q] && Advance(q, [c, r, a]) == [c, r, a];
    assert Keep(c, [r, a], [q]) == [c] && Advance(c, [r, a]) == [r', a];
    assert Keep(r', [a], [q, c]) == [r'] && Advance(r', [a]) == [a];
    assert Keep(a, [], [q, c, r']) == [a] && Advance(a, []) == [] && [a][1..] == [];
    assert [] + [q] == [q] && [q] + [c] == [q, c] && [q, c] + [r'] == [q, c, r'] && [q, c, r'] + [a] == [q, c, r', a];
    assert Validate([], [q, c, r', a]) == [q, c, r', a];
    assert Validate([a], [q, c, r']) == [q, c, r', a];
    assert Validate([r', a], [q, c]) == [q, c, r', a];
    assert Validate([c, r, a], [q]) == [q, c, r', a];
  }

  /** A stored exchange whose responses have names but no IDs, as old sessions have them,
      is kept whole: question, calls, responses and answer, with the missing IDs filled
      in from the calls and nothing else changed. */
  lemma {:induction false} LegacyExchangeIsKept(text: string, c: Content, r: Content, answer: string)
    requires text != "" && answer != "" && OnlyCalls(c) && OnlyResponses(r)
    requires InCallOrder(Calls(c.parts), Responses(r.parts))
    ensures var s := Sanitize([TextTurn(User, text), c, r, TextTurn(Model, answer)]);
            && |s| == 4 && s[0] == TextTurn(User, text) && s[1] == c && s[3] == TextTurn(Model, answer)
            && s[2].role == User && SameShape(s[2].parts, r.parts)
            && FilledIn(Calls(c.parts), Responses(r.parts), Responses(s[2].parts))
  {
    hide HasCall, HasResponse, PairMatch, GoodTurn, Tidy, OnlyCalls, OnlyResponses, InCallOrder, FilledIn, SameShape,
        Validate, Sanitize, Answers, Collect;
    var q, a := TextTurn(User, text), TextTurn(Model, answer);
    OnlyCallsShape(c);
    OnlyResponsesShape(r);
    TextTurnIsPlain(User, text);
    TextTurnIsPlain(Model, answer);
    OrderedResponsesPass(c, r);
    PairMatchKeepsGood(c, r);
    ExchangeValidates(q, c, r, a);
    ValidatedWhole([q, c, r, a], [q, c, PairMatch(c, r).response, a]);
  }

  /** A text with a call nobody answered loses the call and keeps the text. */
  lemma {:induction false} UnansweredCallIsStripped(text: string, said: string, c: Call)
    requires text != "" && said != ""
    ensures Sanitize([TextTurn(User, text), Content(Model, [TextPart(said), CallPart(c)])])
            == [TextTurn(User, text), TextTurn(Model, said)]
  {
    hide HasCall, HasResponse, GoodTurn, Tidy, Validate, Sanitize, Collect;
    var q, m := TextTurn(User, text), Content(Model, [TextPart(said), CallPart(c)]);
    TextTurnIsPlain(User, text);
    TextTurnIsPlain(Model, said);
    SaidAndCalled(said, c);
    StrippedValidates(q, m, TextTurn(Model, said));
    ValidatedWhole([q, m], [q, TextTurn(Model, said)]);
  }

  lemma {:induction false} SaidAndCalled(said: string, c: Call)
    requires said != ""
    ensures var m := Content(Model, [TextPart(said), CallPart(c)]);
            && GoodTurn(m) && Tidy(m.parts) && HasCall(m) && !HasResponse(m)
            && NonCallParts(m.parts) == [TextPart(said)]
  {
    var parts := [TextPart(said), CallPart(c)];
    assert parts[1..] == [CallPart(c)] && [CallPart(c)][1..] == [];
    CollectOne(TextPart(said), CallOf);
    CollectOne(CallPart(c), CallOf);
    CollectAppend([TextPart(said)], [CallPart(c)], CallOf);
    assert parts == [TextPart(said)] + [CallPart(c)];
    assert NonCallParts([CallPart(c)]) == [] && NonCallParts(parts) == [TextPart(said)] + NonCallParts(parts[1..]);
  }

  lemma {:induction false} StrippedValidates(q: Content, m: Content, left: Content)
    requires !HasCall(q) && !HasResponse(q) && HasCall(m) && !HasResponse(m)
    requires NonCallParts(m.parts) != [] && left == Content(m.role, NonCallParts(m.parts))
    ensures Validate([q, m], []) == [q, left]
  {
    hide HasCall, HasResponse;
    assert [q, m][1..] == [m] && [m][1..] == [];
    assert Keep(q, [m], []) == [q] && Advance(q, [m]) == [m];
    assert Keep(m, [], [q]) == [left] && Advance(m, []) == [];
    assert [] + [q] == [q] && [q] + [left] == [q, left];
    assert Validate([], [q, left]) == [q, left];
    assert Validate([m], [q]) == [q, left];
  }

  // ----- what the documentation promises and the code does not keep -----

  function CallTurn(name: string, id: string): Content {
    Content(Model, [Part(false, "", Some(Call(name, id, "{}")), None, false)])
  }

  function ResponseTurn(name: string, id: string): Content {
    Content(User, [Part(false, "", None, Some(Response(name, id, "{}")), false)])
  }

  lemma {:induction false} CallTurnAnswered(name: string, id: string)
    requires name != ""
    ensures HasCall(CallTurn(name, id)) && HasResponse(ResponseTurn(name, id))
    ensures Calls(ResponseTurn(name, id).parts) == [] && !HasResponse(CallTurn(name, id))
    ensures Tidy(CallTurn(name, id).parts) && Tidy(ResponseTurn(name, id).parts)
    ensures Answers(CallTurn(name, id), ResponseTurn(name, id))
  {
    var a, b := CallTurn(name, id), ResponseTurn(name, id);
    CollectOne(a.parts[0], CallOf);
    CollectOne(b.parts[0], CallOf);
    CollectOne(b.parts[0], ResponseOf);
    var calls, rs := Calls(a.parts), Responses(b.parts);
    assert FirstFit(calls[0], rs, NoneUsed(1), 0) == 0;
    assert rs[0 := Repair(calls[0], rs[0])] == rs;
    assert Greedy(calls[1..], rs, NoneUsed(1)[0 := true]) == Matching(true, rs, []);
    WithResponsesShape(b.parts, rs);
  }

  /** A well-formed, tidy history followed by one more user turn: the extra turn
      is cut. When it was the answer to a call, that call is left unanswered. */
  lemma {:induction false} CutAnswer(h: seq<Content>, extra: Content)
    requires WellFormed(h) && AllTidy(h) && GoodTurn(extra) && Tidy(extra.parts) && extra.role == User
    requires HasResponse(extra) <==> EndsInCall(h)
    requires EndsInCall(h) ==> Answers(Last(h), extra)
    ensures Sanitize(h + [extra]) == h
  {
    ValidatedWithExtra(h, extra);
    hide Validated, GoodTurn, Tidy, HasResponse, HasCall, Answers;
    SuffixWithoutExtra(h, extra);
  }

  lemma {:induction false} SuffixWithoutExtra(h: seq<Content>, extra: Content)
    requires Alternates(h) && |h| % 2 == 0 && (h != [] ==> !HasResponse(h[0])) && extra.role != Model
    ensures AlternatingSuffix(h + [extra]) == h
  {
    hide HasResponse;
    var all := h + [extra];
    assert all[..|all| - 1] == h && Last(all) == extra;
    if h != [] {
      assert Last(h).role == Model && ModelEnd(h) == |h|;
      assert all[0..|h|] == h;
    }
  }

  lemma {:induction false} ValidatedWithExtra(h: seq<Content>, extra: Content)
    requires WellFormed(h) && AllTidy(h) && GoodTurn(extra) && Tidy(extra.parts) && extra.role == User
    requires HasResponse(extra) <==> EndsInCall(h)
    requires EndsInCall(h) ==> Answers(Last(h), extra)
    ensures Validated(h + [extra]) == h + [extra]
  {
    hide CleanTurns, Validate, GoodTurns, AllTidy, ResponsesPaired, CallsPaired, WellFormed, GoodTurn, Tidy,
        HasResponse, HasCall, Answers;
    var all := h + [extra];
    WithExtraPaired(h, extra);
    CleanTurnsFixed(all);
    assert [] + all == all;
    ValidateFixed(all, []);
  }

  lemma {:induction false} WithExtraPaired(h: seq<Content>, extra: Content)
    requires WellFormed(h) && AllTidy(h) && GoodTurn(extra) && Tidy(extra.parts) && extra.role == User
    requires HasResponse(extra) <==> EndsInCall(h)
    requires EndsInCall(h) ==> Answers(Last(h), extra)
    ensures var all := h + [extra]; GoodTurns(all) && AllTidy(all) && ResponsesPaired(all) && CallsPaired(all, |all|)
  {
    hide GoodTurn, Tidy, HasResponse, HasCall, Answers;
    PassAppend(h, extra);
    RoleExcludesCall(extra);
  }

  lemma {:induction false} RoleExcludesCall(c: Content)
    ensures c.role == User ==> !HasCall(c)
  {
  }

  lemma {:induction false} QuestionAndCall(text: string, name: string, id: string)
    requires text != "" && name != ""
    ensures var h := [TextTurn(User, text), CallTurn(name, id)]; WellFormed(h) && AllTidy(h) && EndsInCall(h)
    ensures GoodTurn(ResponseTurn(name, id))
  {
    hide Answers;
    CallTurnAnswered(name, id);
    CollectOne(TextPart(text), ResponseOf);
  }

  lemma {:induction false} StableShape(h: seq<Content>)
    ensures Stable(h) ==> |h| % 2 == 0 && !EndsInCall(h) && (h != [] ==> !HasResponse(h[0]))
  {
  }

  /** A paired exchange cut off after the tool's answer loses the answer, keeps
      the call, and a second repair then loses the question as well. */
  lemma {:induction false} DanglingCallExample(text: string, name: string, id: string)
    requires text != "" && name != ""
    ensures var h := [TextTurn(User, text), CallTurn(name, id), ResponseTurn(name, id)];
            && Sanitize(h) == h[..2] && EndsInCall(Sanitize(h))
            && Sanitize(Sanitize(h)) != Sanitize(h)
  {
    hide Sanitize, Answers, WellFormed, AllTidy, GoodTurn, Tidy, EndsInCall, HasCall, HasResponse, Stable;
    var h := [TextTurn(User, text), CallTurn(name, id), ResponseTurn(name, id)];
    var cut := [h[0], h[1]];
    QuestionAndCall(text, name, id);
    CallTurnAnswered(name, id);
    assert Last(cut) == h[1];
    CutAnswer(cut, h[2]);
    assert cut + [h[2]] == h && h[..2] == cut;
    SanitizeFixedIff(cut);
    StableShape(cut);
  }
}

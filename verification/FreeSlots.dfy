/**
 The free-slot sweep of internal/ai/tools.go over one day's scheduled tasks, in
 seconds. The rows come ordered by start; their lengths are not checked anywhere.
 */
module FreeSlots {
  datatype Block = Block(start: int, end: int)

  predicate Overlap(a: Block, b: Block) { a.start < b.end && b.start < a.end && a.start < a.end && b.start < b.end }

  predicate Inside(a: Block, b: Block) { b.start <= a.start && a.end <= b.end }

  /** Whole minutes of a span, as the tool compares and reports them. */
  function Minutes(a: Block): int { (a.end - a.start) / 60 }

  ghost predicate ByStart(busy: seq<Block>) { forall i, j :: 0 <= i < j < |busy| ==> busy[i].start <= busy[j].start }

  ghost predicate Free(busy: seq<Block>, a: Block) { forall i :: 0 <= i < |busy| ==> !Overlap(a, busy[i]) }

  ghost predicate Covered(slots: seq<Block>, a: Block) { exists k :: 0 <= k < |slots| && Inside(a, slots[k]) }

  /** Nonempty, free, long enough, and starting inside the day. */
  ghost predicate GoodSlot(busy: seq<Block>, from: int, dur: int, s: Block) {
    from <= s.start < s.end && s.end - s.start >= 60 * dur && Free(busy, s)
  }

  /** A slot begins where the day or a gap begins and ends where the day or a gap ends. */
  ghost predicate Bordered(busy: seq<Block>, from: int, to: int, s: Block) {
    && (s.start == from || exists i :: 0 <= i < |busy| && busy[i].end == s.start)
    && (s.end == to || exists i :: 0 <= i < |busy| && busy[i].start == s.end)
  }

  /** What somebody could ask for: a free span of the day that is long enough. */
  ghost predicate Wanted(busy: seq<Block>, from: int, to: int, dur: int, a: Block) {
    from <= a.start < a.end <= to && a.end - a.start >= 60 * dur && Free(busy, a)
  }

  ghost predicate EndedBy(busy: seq<Block>, n: nat, cur: int)
    requires n <= |busy|
  {
    forall i :: 0 <= i < n ==> busy[i].end <= cur
  }

  lemma {:induction false} GapIsFree(busy: seq<Block>, n: nat, gap: Block)
    requires ByStart(busy) && n <= |busy| && EndedBy(busy, n, gap.start)
    requires n < |busy| ==> gap.end <= busy[n].start
    ensures Free(busy, gap)
  {
    forall i | 0 <= i < |busy| ensures !Overlap(gap, busy[i]) {
      if i >= n { assert busy[n].start <= busy[i].start; }
    }
  }

  lemma {:induction false} CoveredStays(slots: seq<Block>, s: Block, a: Block)
    ensures Covered(slots, a) ==> Covered(slots + [s], a)
    ensures Inside(a, s) ==> Covered(slots + [s], a)
  {
    if Covered(slots, a) {
      var k :| 0 <= k < |slots| && Inside(a, slots[k]);
      assert (slots + [s])[k] == slots[k];
    }
    assert (slots + [s])[|slots|] == s;
  }

  /** A wanted span that starts after all the blocks so far ended, and before this one
      does, lies in the gap before it. */
  lemma {:induction false} InTheGap(busy: seq<Block>, n: nat, cur: int, a: Block)
    requires n < |busy| && busy[n].start < busy[n].end && Free(busy, a)
    requires cur <= a.start < a.end && a.start < busy[n].end
    ensures cur < busy[n].start && Inside(a, Block(cur, busy[n].start))
  {
    assert !Overlap(a, busy[n]);
  }

  ghost predicate AllGood(busy: seq<Block>, from: int, to: int, dur: int, slots: seq<Block>) {
    forall k :: 0 <= k < |slots| ==> GoodSlot(busy, from, dur, slots[k]) && Bordered(busy, from, to, slots[k])
  }

  ghost predicate InOrder(slots: seq<Block>) { forall k, l :: 0 <= k < l < |slots| ==> slots[k].end <= slots[l].start }

  ghost predicate AllBy(slots: seq<Block>, cur: int) { forall k :: 0 <= k < |slots| ==> slots[k].end <= cur }

  /** Every wanted span that starts before `cur` is in a slot. */
  ghost predicate Catches(busy: seq<Block>, from: int, to: int, dur: int, cur: int, slots: seq<Block>) {
    forall a :: Wanted(busy, from, to, dur, a) && a.start < cur ==> Covered(slots, a)
  }

  ghost predicate NoneBackwards(busy: seq<Block>) { forall i :: 0 <= i < |busy| ==> busy[i].start <= busy[i].end }

  ghost predicate AllPositive(busy: seq<Block>) { forall i :: 0 <= i < |busy| ==> busy[i].start < busy[i].end }

  ghost predicate IsEdge(busy: seq<Block>, from: int, cur: int) {
    cur == from || exists i :: 0 <= i < |busy| && busy[i].end == cur
  }

  /** The sweep after `n` blocks, with everything before `cur` dealt with. */
  ghost predicate Swept(busy: seq<Block>, from: int, to: int, dur: int, n: nat, cur: int, slots: seq<Block>)
    requires n <= |busy|
  {
    && from <= cur && EndedBy(busy, n, cur) && IsEdge(busy, from, cur)
    && AllGood(busy, from, to, dur, slots)
    && (NoneBackwards(busy) ==> InOrder(slots) && AllBy(slots, cur))
    && (AllPositive(busy) ==> Catches(busy, from, to, dur, cur, slots))
  }

  function Later(cur: int, b: Block): int { if b.end > cur then b.end else cur }

  function WithGap(slots: seq<Block>, gap: Block, dur: int): seq<Block> {
    if gap.end > gap.start && Minutes(gap) >= dur then slots + [gap] else slots
  }

  lemma {:induction false} GapIsGood(busy: seq<Block>, from: int, to: int, dur: int, n: nat, slots: seq<Block>,
      gap: Block)
    requires n <= |busy| && ByStart(busy) && Swept(busy, from, to, dur, n, gap.start, slots)
    requires if n < |busy| then gap.end == busy[n].start else gap.end == to
    ensures AllGood(busy, from, to, dur, WithGap(slots, gap, dur))
    ensures NoneBackwards(busy) ==> InOrder(WithGap(slots, gap, dur))
  {
    hide Free, Catches, Covered;
    GapIsFree(busy, n, gap);
  }

  lemma {:induction false} CatchesMore(busy: seq<Block>, from: int, to: int, dur: int, n: nat, cur: int,
      slots: seq<Block>)
    requires n < |busy| && ByStart(busy) && AllPositive(busy) && Catches(busy, from, to, dur, cur, slots)
    ensures Catches(busy, from, to, dur, Later(cur, busy[n]), WithGap(slots, Block(cur, busy[n].start), dur))
  {
    hide Free, Covered, Inside, Overlap;
    var gap := Block(cur, busy[n].start);
    forall a | Wanted(busy, from, to, dur, a) && a.start < Later(cur, busy[n])
        ensures Covered(WithGap(slots, gap, dur), a) {
      CoveredStays(slots, gap, a);
      if cur <= a.start {
        InTheGap(busy, n, cur, a);
      }
    }
  }

  lemma {:induction false} SweepStep(busy: seq<Block>, from: int, to: int, dur: int, n: nat, cur: int,
      slots: seq<Block>)
    requires n < |busy| && ByStart(busy) && Swept(busy, from, to, dur, n, cur, slots)
    ensures Swept(busy, from, to, dur, n + 1, Later(cur, busy[n]), WithGap(slots, Block(cur, busy[n].start), dur))
  {
    hide Catches, AllGood, InOrder, Minutes;
    var gap := Block(cur, busy[n].start);
    GapIsGood(busy, from, to, dur, n, slots, gap);
    if AllPositive(busy) { CatchesMore(busy, from, to, dur, n, cur, slots); }
  }

  lemma {:induction false} LastGap(busy: seq<Block>, from: int, to: int, dur: int, cur: int, slots: seq<Block>)
    requires ByStart(busy) && Swept(busy, from, to, dur, |busy|, cur, slots) && AllPositive(busy)
    ensures forall a :: Wanted(busy, from, to, dur, a) ==> Covered(WithGap(slots, Block(cur, to), dur), a)
  {
    hide Free, Covered, AllGood, InOrder, AllBy;
    var gap := Block(cur, to);
    forall a | Wanted(busy, from, to, dur, a) ensures Covered(WithGap(slots, gap, dur), a) {
      CoveredStays(slots, gap, a);
    }
  }

  /** Every slot is free, long enough and properly bordered. The slots follow one
      another unless a block runs backwards, and if every block has a positive length
      each wanted span of the day lies in one of them. */
  method FindFreeSlots(busy: seq<Block>, dayStart: int, dayEnd: int, dur: int) returns (free: seq<Block>)
    requires ByStart(busy)
    ensures AllGood(busy, dayStart, dayEnd, dur, free)
    ensures NoneBackwards(busy) ==> InOrder(free)
    ensures AllPositive(busy) ==> forall a :: Wanted(busy, dayStart, dayEnd, dur, a) ==> Covered(free, a)
  {
    hide Swept, Minutes, Wanted, Covered, AllGood, InOrder, ByStart;
    free := [];
    var cur := dayStart;
    SweepStarts(busy, dayStart, dayEnd, dur);
    for n := 0 to |busy|
      invariant Swept(busy, dayStart, dayEnd, dur, n, cur, free)
    {
      var b := busy[n];
      SweepStep(busy, dayStart, dayEnd, dur, n, cur, free);
      if b.start > cur && Minutes(Block(cur, b.start)) >= dur {
        free := free + [Block(cur, b.start)];
      }
      if b.end > cur {
        cur := b.end;
      }
    }
    GapIsGood(busy, dayStart, dayEnd, dur, |busy|, free, Block(cur, dayEnd));
    if AllPositive(busy) { LastGap(busy, dayStart, dayEnd, dur, cur, free); }
    if dayEnd > cur && Minutes(Block(cur, dayEnd)) >= dur {
      free := free + [Block(cur, dayEnd)];
    }
  }

  lemma {:induction false} SweepStarts(busy: seq<Block>, from: int, to: int, dur: int)
    ensures Swept(busy, from, to, dur, 0, from, [])
  {
  }
}

/** The conformance sweep: comparing a candidate table against the
    reference (C) table slot by slot, stopping at the first slot that
    disagrees. `Sweep` follows `check_pixelprimitives` branch for branch;
    `Walk` over `SlotOrder` is an independent description of the same
    sweep as a fail-fast walk over a list of slots, and the lemmas relate
    the two and state the sweep's guarantees. */
module Conformance {
  import opened Primitives
  import opened Output

  /** Offsets probed per slot (`i = 0 .. 100`). */
  const NUM_OFFSETS: nat := 101
  /** Distance in samples between two probed offsets into `pbuf1`. */
  const OFFSET_STEP: nat := 16
  /** Stride passed for both blocks, whatever the partition's width. */
  const STRIDE: int := 16

  /** Everything a sweep reads: the reference table, the candidate table
      and the contents of `pbuf1` and `pbuf2`. */
  datatype Env = Env(cprim: Table, cand: Table, buf1: seq<int>, buf2: seq<int>)

  /** Candidate and reference give the same result at the `i`-th offset. */
  predicate Agrees(ref: PixelCmp, opt: PixelCmp, b1: seq<int>, b2: seq<int>, i: int)
  {
    opt(b1, OFFSET_STEP * i, STRIDE, b2, STRIDE) == ref(b1, OFFSET_STEP * i, STRIDE, b2, STRIDE)
  }

  /** Candidate and reference agree at all probed offsets. */
  predicate Conforms(ref: PixelCmp, opt: PixelCmp, b1: seq<int>, b2: seq<int>)
  {
    forall i :: 0 <= i < NUM_OFFSETS ==> Agrees(ref, opt, b1, b2, i)
  }

  /** Slot `s` is implemented by the candidate and disagrees with the
      reference somewhere. */
  predicate Fails(env: Env, s: Slot)
    requires env.cprim.Full()
    ensures Fails(env, s) ==> InRange(s) && env.cand.Entry(s).Some?
  {
    match env.cand.Entry(s)
    case None => false
    case Some(opt) => !Conforms(env.cprim.Entry(s).value, opt, env.buf1, env.buf2)
  }

  /** What visiting slot `s` prints: nothing for an unimplemented slot, a
      failure line, or a pass line followed by the timing figures. */
  function SlotEvents(env: Env, s: Slot): (r: seq<Event>)
    requires env.cprim.Full()
    ensures |r| <= 2
    ensures r == [] <==> env.cand.Entry(s).None?
  {
    match env.cand.Entry(s)
    case None => []
    case Some(_) => if Fails(env, s) then [Failed(s)] else [Passed(s), Timed(s)]
  }

  /** Everything visiting slot `s` prints is about `s`, and it prints a
      failure line exactly when `s` fails. */
  lemma SlotEventsAbout(env: Env, s: Slot)
    requires env.cprim.Full()
    ensures forall e :: e in SlotEvents(env, s) ==> Mentions(e, s)
    ensures Failed(s) in SlotEvents(env, s) <==> Fails(env, s)
  {
  }

  // ---------------------------------------------------------------------
  // The sweep as check_pixelprimitives performs it

  datatype LoopExit = FellThrough | Returned(code: int)
  datatype LoopResult = LoopResult(exit: LoopExit, cursor: nat, events: seq<Event>)
  datatype SweepResult = SweepResult(ret: int, cursor: nat, events: seq<Event>)

  /** The partition loop `for (; curpar < NUM_PARTITIONS; curpar++)` run
      from cursor `p`: how it leaves (by falling through or by a `return`),
      where it leaves the cursor and what it prints. */
  function PartitionLoop(env: Env, p: nat, single: bool): (l: LoopResult)
    requires env.cprim.Full()
    decreases NUM_PARTITIONS - p
    ensures p <= l.cursor
    ensures l.exit.FellThrough? ==> l.cursor == if p < NUM_PARTITIONS then NUM_PARTITIONS else p
    ensures l.exit.Returned? ==> l.cursor < NUM_PARTITIONS && (l.exit.code == 0 || l.exit.code == -1)
    ensures l.exit == Returned(0) ==> single
  {
    if p >= NUM_PARTITIONS then LoopResult(FellThrough, p, [])
    else if Fails(env, Satd(p)) then LoopResult(Returned(-1), p, [Failed(Satd(p))])
    else if Fails(env, Sad(p)) then
      LoopResult(Returned(-1), p, SlotEvents(env, Satd(p)) + [Failed(Sad(p))])
    else if single then
      LoopResult(Returned(0), p, SlotEvents(env, Satd(p)) + SlotEvents(env, Sad(p)))
    else
      var rest := PartitionLoop(env, p + 1, single);
      LoopResult(rest.exit, rest.cursor, SlotEvents(env, Satd(p)) + SlotEvents(env, Sad(p)) + rest.events)
  }

  /** Whether a guarded pair of blocks fails: the first, or else the second. */
  predicate PairFails(env: Env, a: Slot, b: Slot)
    requires env.cprim.Full()
  {
    Fails(env, a) || Fails(env, b)
  }

  /** What a guarded pair of blocks prints: the second block runs only
      when the first did not fail. */
  function PairEvents(env: Env, a: Slot, b: Slot): seq<Event>
    requires env.cprim.Full()
  {
    if Fails(env, a) then [Failed(a)] else SlotEvents(env, a) + SlotEvents(env, b)
  }

  /** A turn of the partition loop that ends it: after the SATD/SAD pair
      of partition `p`, `return -1` on a failure, else `return 0` in
      single-partition mode. */
  lemma LoopTurnExit(env: Env, p: nat, single: bool)
    requires env.cprim.Full() && p < NUM_PARTITIONS
    requires PairFails(env, Satd(p), Sad(p)) || single
    ensures PartitionLoop(env, p, single) ==
      LoopResult(Returned(if PairFails(env, Satd(p), Sad(p)) then -1 else 0), p, PairEvents(env, Satd(p), Sad(p)))
  {
  }

  /** A turn of the partition loop that goes on to the next partition. */
  lemma LoopTurnNext(env: Env, p: nat, single: bool)
    requires env.cprim.Full() && p < NUM_PARTITIONS
    requires !PairFails(env, Satd(p), Sad(p)) && !single
    ensures var here, next := PartitionLoop(env, p, single), PartitionLoop(env, p + 1, single);
      here.exit == next.exit && here.cursor == next.cursor &&
      here.events == PairEvents(env, Satd(p), Sad(p)) + next.events
  {
  }

  /** `check_pixelprimitives` from cursor `cursor`: the partition loop,
      then, if it fell through, the SA8D 8x8 and 16x16 blocks. */
  function Sweep(env: Env, cursor: nat, single: bool): (r: SweepResult)
    requires env.cprim.Full()
    ensures r.ret == 0 || r.ret == -1
    ensures cursor <= r.cursor
    ensures r.cursor < NUM_PARTITIONS ==> r.cursor == cursor || r.ret == -1
  {
    var l := PartitionLoop(env, cursor, single);
    if l.exit.Returned? then SweepResult(l.exit.code, l.cursor, l.events)
    else if Fails(env, Sa8d8x8) then SweepResult(-1, l.cursor, l.events + [Failed(Sa8d8x8)])
    else if Fails(env, Sa8d16x16) then
      SweepResult(-1, l.cursor, l.events + SlotEvents(env, Sa8d8x8) + [Failed(Sa8d16x16)])
    else
      SweepResult(0, l.cursor, l.events + SlotEvents(env, Sa8d8x8) + SlotEvents(env, Sa8d16x16))
  }

  /** The sweep after the partition loop left by `return`. */
  lemma SweepReturned(env: Env, cursor: nat, single: bool)
    requires env.cprim.Full() && PartitionLoop(env, cursor, single).exit.Returned?
    ensures var l := PartitionLoop(env, cursor, single);
      Sweep(env, cursor, single) == SweepResult(l.exit.code, l.cursor, l.events)
  {
  }

  /** The sweep after the partition loop fell through: the SA8D pair. */
  lemma SweepAfterLoop(env: Env, cursor: nat, single: bool)
    requires env.cprim.Full() && PartitionLoop(env, cursor, single).exit.FellThrough?
    ensures var l := PartitionLoop(env, cursor, single);
      Sweep(env, cursor, single) ==
        SweepResult(if PairFails(env, Sa8d8x8, Sa8d16x16) then -1 else 0, l.cursor,
                    l.events + PairEvents(env, Sa8d8x8, Sa8d16x16))
  {
  }

  /** The partition loop, started at `start`, has reached partition `p`
      having printed `done`: what is left of it is the loop from `p`. */
  predicate LoopSoFar(env: Env, start: nat, p: nat, single: bool, done: seq<Event>)
    requires env.cprim.Full()
  {
    var whole, rest := PartitionLoop(env, start, single), PartitionLoop(env, p, single);
    whole.exit == rest.exit && whole.cursor == rest.cursor && whole.events == done + rest.events
  }

  lemma LoopSoFarStart(env: Env, start: nat, single: bool)
    requires env.cprim.Full()
    ensures LoopSoFar(env, start, start, single, [])
  {
    ConcatUnit(PartitionLoop(env, start, single).events);
  }

  /** A turn that goes on: the pair's events join what was printed. */
  lemma LoopSoFarNext(env: Env, start: nat, p: nat, single: bool, done: seq<Event>)
    requires env.cprim.Full() && p < NUM_PARTITIONS && LoopSoFar(env, start, p, single, done)
    requires !PairFails(env, Satd(p), Sad(p)) && !single
    ensures LoopSoFar(env, start, p + 1, single, done + PairEvents(env, Satd(p), Sad(p)))
  {
    LoopTurnNext(env, p, single);
    ConcatAssoc(done, PairEvents(env, Satd(p), Sad(p)), PartitionLoop(env, p + 1, single).events);
  }

  /** A turn that returns: the sweep's result. */
  lemma LoopSoFarExit(env: Env, start: nat, p: nat, single: bool, done: seq<Event>)
    requires env.cprim.Full() && p < NUM_PARTITIONS && LoopSoFar(env, start, p, single, done)
    requires PairFails(env, Satd(p), Sad(p)) || single
    ensures Sweep(env, start, single) ==
      SweepResult(if PairFails(env, Satd(p), Sad(p)) then -1 else 0, p, done + PairEvents(env, Satd(p), Sad(p)))
  {
    LoopTurnExit(env, p, single);
    SweepReturned(env, start, single);
  }

  /** The loop has fallen through: the SA8D pair finishes the sweep. */
  lemma LoopSoFarEnd(env: Env, start: nat, p: nat, single: bool, done: seq<Event>)
    requires env.cprim.Full() && p >= NUM_PARTITIONS && LoopSoFar(env, start, p, single, done)
    ensures Sweep(env, start, single) ==
      SweepResult(if PairFails(env, Sa8d8x8, Sa8d16x16) then -1 else 0, p,
                  done + PairEvents(env, Sa8d8x8, Sa8d16x16))
  {
    ConcatUnit(done);
    SweepAfterLoop(env, start, single);
  }

  // ---------------------------------------------------------------------
  // The sweep as a fail-fast walk over a list of slots

  /** SATD then SAD for every partition from `p` upward. */
  function PartitionSlots(p: nat): seq<Slot>
  {
    if p >= NUM_PARTITIONS then []
    else seq(2 * (NUM_PARTITIONS - p), (k: int) requires 0 <= k =>
               if k % 2 == 0 then Satd(p + k / 2) else Sad(p + k / 2))
  }

  /** The slots a sweep from `cursor` visits, in the order it visits them. */
  function SlotOrder(cursor: nat, single: bool): seq<Slot>
  {
    if cursor >= NUM_PARTITIONS then [Sa8d8x8, Sa8d16x16]
    else if single then [Satd(cursor), Sad(cursor)]
    else PartitionSlots(cursor) + [Sa8d8x8, Sa8d16x16]
  }

  datatype WalkResult = WalkResult(failed: bool, events: seq<Event>)

  /** Visit `slots` in order and stop at the first that fails. */
  function Walk(env: Env, slots: seq<Slot>): WalkResult
    requires env.cprim.Full()
  {
    if slots == [] then WalkResult(false, [])
    else if Fails(env, slots[0]) then WalkResult(true, [Failed(slots[0])])
    else
      var rest := Walk(env, slots[1..]);
      WalkResult(rest.failed, SlotEvents(env, slots[0]) + rest.events)
  }

  /** What visiting all of `slots` prints. */
  function EventsOf(env: Env, slots: seq<Slot>): seq<Event>
    requires env.cprim.Full()
  {
    if slots == [] then [] else SlotEvents(env, slots[0]) + EventsOf(env, slots[1..])
  }

  // ---------------------------------------------------------------------
  // Facts about the walk

  /** Walking `xs + ys` is walking `xs` and, unless that failed, then `ys`. */
  lemma {:induction false} WalkAppend(env: Env, xs: seq<Slot>, ys: seq<Slot>)
    requires env.cprim.Full()
    ensures Walk(env, xs + ys) ==
      (var w := Walk(env, xs);
       if w.failed then w else WalkResult(Walk(env, ys).failed, w.events + Walk(env, ys).events))
  {
    if xs == [] {
      assert xs + ys == ys;
    } else {
      assert (xs + ys)[0] == xs[0];
      assert (xs + ys)[1..] == xs[1..] + ys;
      WalkAppend(env, xs[1..], ys);
    }
  }

  /** Walking two slots. */
  lemma WalkPair(env: Env, a: Slot, b: Slot)
    requires env.cprim.Full()
    ensures Walk(env, [a, b]) ==
      if Fails(env, a) then WalkResult(true, [Failed(a)])
      else if Fails(env, b) then WalkResult(true, SlotEvents(env, a) + [Failed(b)])
      else WalkResult(false, SlotEvents(env, a) + SlotEvents(env, b))
  {
    assert [a, b][1..] == [b];
    assert [b][1..] == [];
    assert Walk(env, []) == WalkResult(false, []);
    assert Walk(env, [b]) ==
      if Fails(env, b) then WalkResult(true, [Failed(b)]) else WalkResult(false, SlotEvents(env, b));
  }

  /** The walk fails exactly when some listed slot fails. */
  lemma {:induction false} WalkFailsIff(env: Env, slots: seq<Slot>)
    requires env.cprim.Full()
    ensures Walk(env, slots).failed <==> exists k :: 0 <= k < |slots| && Fails(env, slots[k])
  {
    if slots != [] && !Fails(env, slots[0]) {
      WalkFailsIff(env, slots[1..]);
      if exists k :: 0 <= k < |slots| && Fails(env, slots[k]) {
        var k :| 0 <= k < |slots| && Fails(env, slots[k]);
        assert slots[1..][k - 1] == slots[k];
      }
    }
  }

  /** If slot `k` is the first failing one, the walk prints what the slots
      before it print and then the failure of slot `k`, and nothing else. */
  lemma {:induction false} WalkFirstFailure(env: Env, slots: seq<Slot>, k: nat)
    requires env.cprim.Full()
    requires k < |slots| && Fails(env, slots[k])
    requires forall i :: 0 <= i < k ==> !Fails(env, slots[i])
    ensures Walk(env, slots) == WalkResult(true, EventsOf(env, slots[..k]) + [Failed(slots[k])])
  {
    if k > 0 {
      assert !Fails(env, slots[0]);
      var tail := slots[1..];
      assert tail[k - 1] == slots[k];
      forall i | 0 <= i < k - 1 ensures !Fails(env, tail[i]) {
        assert tail[i] == slots[i + 1];
      }
      WalkFirstFailure(env, tail, k - 1);
      assert slots[..k][0] == slots[0];
      assert slots[..k][1..] == tail[..k - 1];
    }
  }

  /** If no listed slot fails, the walk passes and prints every slot's events. */
  lemma {:induction false} WalkAllPass(env: Env, slots: seq<Slot>)
    requires env.cprim.Full()
    requires forall i :: 0 <= i < |slots| ==> !Fails(env, slots[i])
    ensures Walk(env, slots) == WalkResult(false, EventsOf(env, slots))
  {
    if slots != [] {
      assert !Fails(env, slots[0]);
      forall i | 0 <= i < |slots| - 1 ensures !Fails(env, slots[1..][i]) {
        assert slots[1..][i] == slots[i + 1];
      }
      WalkAllPass(env, slots[1..]);
    }
  }

  /** Visiting slots reports only on listed slots that the candidate
      implements, and a failure line only for a slot that fails. */
  lemma {:induction false} EventsOfMentions(env: Env, slots: seq<Slot>)
    requires env.cprim.Full()
    ensures forall e :: e in EventsOf(env, slots) ==>
      IsSlotEvent(e) && e.slot in slots && env.cand.Entry(e.slot).Some? && (e.Failed? <==> Fails(env, e.slot))
  {
    if slots != [] {
      EventsOfMentions(env, slots[1..]);
      forall e | e in EventsOf(env, slots[1..]) ensures e.slot in slots {
        assert e.slot in slots[1..];
      }
      assert slots[0] in slots;
      assert EventsOf(env, slots) == SlotEvents(env, slots[0]) + EventsOf(env, slots[1..]);
    }
  }

  /** The walk reports only on listed slots that the candidate implements. */
  lemma {:induction false} WalkMentions(env: Env, slots: seq<Slot>)
    requires env.cprim.Full()
    ensures forall e :: e in Walk(env, slots).events ==>
      IsSlotEvent(e) && e.slot in slots && env.cand.Entry(e.slot).Some?
  {
    if slots != [] && !Fails(env, slots[0]) {
      WalkMentions(env, slots[1..]);
      forall e | e in Walk(env, slots[1..]).events ensures e.slot in slots {
        assert e.slot in slots[1..];
      }
    }
  }

  // ---------------------------------------------------------------------
  // The sweep is the walk over SlotOrder

  lemma PartitionSlotsStep(p: nat)
    requires p < NUM_PARTITIONS
    ensures PartitionSlots(p) == [Satd(p), Sad(p)] + PartitionSlots(p + 1)
  {
    var xs, ys := PartitionSlots(p), [Satd(p), Sad(p)] + PartitionSlots(p + 1);
    assert |xs| == |ys|;
    forall k | 0 <= k < |xs| ensures xs[k] == ys[k] {
      if k >= 2 {
        assert ys[k] == PartitionSlots(p + 1)[k - 2];
      }
    }
  }

  /** The partition loop, outside single-partition mode, is the walk over
      the partition slots from `p`: it falls through exactly when that walk
      passes, returns -1 otherwise, and prints the same events. */
  lemma {:induction false} LoopIsWalk(env: Env, p: nat)
    requires env.cprim.Full()
    decreases NUM_PARTITIONS - p
    ensures var l, w := PartitionLoop(env, p, false), Walk(env, PartitionSlots(p));
      (l.exit.FellThrough? <==> !w.failed) && (l.exit.Returned? ==> l.exit.code == -1) &&
      l.events == w.events
  {
    if p < NUM_PARTITIONS {
      PartitionSlotsStep(p);
      WalkAppend(env, [Satd(p), Sad(p)], PartitionSlots(p + 1));
      WalkPair(env, Satd(p), Sad(p));
      LoopIsWalk(env, p + 1);
    }
  }

  /** `check_pixelprimitives` is the fail-fast walk over `SlotOrder`: it
      returns -1 exactly when the walk meets a failing slot, 0 otherwise,
      and prints what the walk prints. */
  lemma SweepIsWalk(env: Env, cursor: nat, single: bool)
    requires env.cprim.Full()
    ensures var r, w := Sweep(env, cursor, single), Walk(env, SlotOrder(cursor, single));
      r.ret == (if w.failed then -1 else 0) && r.events == w.events
  {
    WalkPair(env, Sa8d8x8, Sa8d16x16);
    if cursor < NUM_PARTITIONS {
      if single {
        WalkPair(env, Satd(cursor), Sad(cursor));
      } else {
        LoopIsWalk(env, cursor);
        WalkAppend(env, PartitionSlots(cursor), [Sa8d8x8, Sa8d16x16]);
      }
    }
  }

  // ---------------------------------------------------------------------
  // What the sweep guarantees

  /** The visiting order: slot `i` of `SlotOrder` has rank `first + i`,
      i.e. partitions in increasing index, SATD before SAD, then SA8D 8x8
      and SA8D 16x16. From a cursor past the partitions only the two SA8D
      slots remain; in single-partition mode only the cursor's two slots. */
  lemma SlotOrderRank(cursor: nat, single: bool)
    ensures var order := SlotOrder(cursor, single);
      var first := if cursor >= NUM_PARTITIONS then 2 * NUM_PARTITIONS else 2 * cursor;
      |order| == (if cursor >= NUM_PARTITIONS || single then 2 else 2 * (NUM_PARTITIONS - cursor) + 2) &&
      forall i :: 0 <= i < |order| ==> InRange(order[i]) && Rank(order[i]) == first + i
  {
    var order := SlotOrder(cursor, single);
    if cursor < NUM_PARTITIONS && !single {
      var n := 2 * (NUM_PARTITIONS - cursor);
      forall i | 0 <= i < |order| ensures InRange(order[i]) && Rank(order[i]) == 2 * cursor + i {
        if i < n {
          assert order[i] == PartitionSlots(cursor)[i];
        }
      }
    }
  }

  /** The sweep returns 0 or -1, and 0 exactly when no slot it visits
      fails; then it prints every visited slot's events. */
  lemma SweepPassesIff(env: Env, cursor: nat, single: bool)
    requires env.cprim.Full()
    ensures var r, order := Sweep(env, cursor, single), SlotOrder(cursor, single);
      (r.ret == 0 || r.ret == -1) &&
      (r.ret == 0 <==> forall i :: 0 <= i < |order| ==> !Fails(env, order[i])) &&
      (r.ret == 0 ==> r.events == EventsOf(env, order))
  {
    var order := SlotOrder(cursor, single);
    SweepIsWalk(env, cursor, single);
    WalkFailsIff(env, order);
    if forall i :: 0 <= i < |order| ==> !Fails(env, order[i]) {
      WalkAllPass(env, order);
    }
  }

  /** Fail-fast: if slot `k` of the visiting order is the first that fails,
      the sweep returns -1, its output ends with that slot's failure line,
      and nothing is reported about any slot ordered after it. */
  lemma SweepFailFast(env: Env, cursor: nat, single: bool, k: nat)
    requires env.cprim.Full()
    requires var order := SlotOrder(cursor, single);
      k < |order| && Fails(env, order[k]) && forall i :: 0 <= i < k ==> !Fails(env, order[i])
    ensures var r, order := Sweep(env, cursor, single), SlotOrder(cursor, single);
      r.ret == -1 && r.events == EventsOf(env, order[..k]) + [Failed(order[k])] &&
      forall e :: e in r.events ==> IsSlotEvent(e) && Rank(e.slot) <= Rank(order[k])
  {
    var order := SlotOrder(cursor, single);
    var before := EventsOf(env, order[..k]);
    SweepIsWalk(env, cursor, single);
    WalkFirstFailure(env, order, k);
    assert Sweep(env, cursor, single).events == before + [Failed(order[k])];
    EarlierRanks(env, order, k, cursor, single);
  }

  /** Everything printed for the slots before position `k` is about a slot
      ranked below the one at `k`. */
  lemma EarlierRanks(env: Env, order: seq<Slot>, k: nat, cursor: nat, single: bool)
    requires env.cprim.Full() && order == SlotOrder(cursor, single) && k < |order|
    ensures forall e :: e in EventsOf(env, order[..k]) ==> IsSlotEvent(e) && Rank(e.slot) < Rank(order[k])
  {
    EventsOfMentions(env, order[..k]);
    SlotOrderRank(cursor, single);
    forall e | e in EventsOf(env, order[..k]) ensures IsSlotEvent(e) && Rank(e.slot) < Rank(order[k]) {
      var j :| 0 <= j < k && order[..k][j] == e.slot;
      assert order[j] == e.slot;
    }
  }

  /** Every report of a sweep is a pass, timing or failure line about a
      slot it visits, in its order, that the candidate implements. */
  lemma SweepReportsVisitedSlots(env: Env, cursor: nat, single: bool)
    requires env.cprim.Full()
    ensures forall e :: e in Sweep(env, cursor, single).events ==>
      IsSlotEvent(e) && e.slot in SlotOrder(cursor, single) && env.cand.Entry(e.slot).Some?
  {
    SweepIsWalk(env, cursor, single);
    WalkMentions(env, SlotOrder(cursor, single));
  }

  /** A slot the candidate does not implement is never reported, neither
      as passed nor as failed. */
  lemma SweepSkipsUnimplemented(env: Env, cursor: nat, single: bool, s: Slot)
    requires env.cprim.Full() && env.cand.Entry(s).None?
    ensures forall e :: e in Sweep(env, cursor, single).events ==> !Mentions(e, s)
  {
    SweepReportsVisitedSlots(env, cursor, single);
  }

  /** Where the partition loop leaves the cursor outside single-partition
      mode: past the last partition when it falls through, at the failing
      partition when it returns. */
  lemma {:induction false} LoopCursor(env: Env, p: nat)
    requires env.cprim.Full() && p < NUM_PARTITIONS
    decreases NUM_PARTITIONS - p
    ensures var l := PartitionLoop(env, p, false);
      p <= l.cursor <= NUM_PARTITIONS &&
      (l.exit.FellThrough? ==> l.cursor == NUM_PARTITIONS) &&
      (l.exit.Returned? ==>
         (l.exit.code == -1 && l.cursor < NUM_PARTITIONS && l.events != [] &&
          l.events[|l.events| - 1] in {Failed(Satd(l.cursor)), Failed(Sad(l.cursor))}))
  {
    if p + 1 < NUM_PARTITIONS && !Fails(env, Satd(p)) && !Fails(env, Sad(p)) {
      LoopCursor(env, p + 1);
    }
  }

  /** The cursor `curpar` after a sweep. In single-partition mode, and when
      it starts past the partitions, the sweep leaves it where it was.
      Otherwise it ends past the last partition when the sweep passes, and
      when it ends on a partition the sweep failed there. */
  lemma SweepCursor(env: Env, cursor: nat, single: bool)
    requires env.cprim.Full()
    ensures var r := Sweep(env, cursor, single);
      ((cursor >= NUM_PARTITIONS || single) ==> r.cursor == cursor) &&
      (!single && cursor < NUM_PARTITIONS ==> cursor <= r.cursor <= NUM_PARTITIONS) &&
      (!single && cursor < NUM_PARTITIONS && r.ret == 0 ==> r.cursor == NUM_PARTITIONS) &&
      (!single && r.cursor < NUM_PARTITIONS ==>
         (r.ret == -1 && r.events != [] &&
          r.events[|r.events| - 1] in {Failed(Satd(r.cursor)), Failed(Sad(r.cursor))}))
  {
    if !single && cursor < NUM_PARTITIONS {
      LoopCursor(env, cursor);
    }
  }

  /** Single-partition mode with the cursor on a partition checks that
      partition's SATD and SAD only, returns 0 exactly when neither fails,
      never reaches the SA8D slots and leaves the cursor unchanged. */
  lemma SingleMode(env: Env, cursor: nat)
    requires env.cprim.Full() && cursor < NUM_PARTITIONS
    ensures var r := Sweep(env, cursor, true);
      r.cursor == cursor &&
      (r.ret == 0 <==> !Fails(env, Satd(cursor)) && !Fails(env, Sad(cursor))) &&
      forall e :: e in r.events ==> IsSlotEvent(e) && (e.slot == Satd(cursor) || e.slot == Sad(cursor))
  {
    SweepIsWalk(env, cursor, true);
    WalkPair(env, Satd(cursor), Sad(cursor));
    WalkMentions(env, [Satd(cursor), Sad(cursor)]);
  }

  /** With the cursor past the partitions the loop body never runs, single
      mode or not, and only the SA8D slots are checked. */
  lemma PastPartitions(env: Env, cursor: nat, single: bool)
    requires env.cprim.Full() && cursor >= NUM_PARTITIONS
    ensures Sweep(env, cursor, single) == Sweep(env, cursor, false)
    ensures forall e :: e in Sweep(env, cursor, single).events ==>
      IsSlotEvent(e) && (e.slot == Sa8d8x8 || e.slot == Sa8d16x16)
  {
    SweepIsWalk(env, cursor, single);
    WalkMentions(env, SlotOrder(cursor, single));
  }

  /** The cursor persists: after a full sweep that passed, another sweep
      (with any tables) starts past the partitions and reports on the SA8D
      slots only. */
  lemma ResumeAfterFullSweep(env: Env, env2: Env, cursor: nat)
    requires env.cprim.Full() && env2.cprim.Full() && cursor < NUM_PARTITIONS
    requires Sweep(env, cursor, false).ret == 0
    ensures Sweep(env, cursor, false).cursor == NUM_PARTITIONS
    ensures forall e :: e in Sweep(env2, Sweep(env, cursor, false).cursor, false).events ==>
      IsSlotEvent(e) && (e.slot == Sa8d8x8 || e.slot == Sa8d16x16)
  {
    SweepCursor(env, cursor, false);
    PastPartitions(env2, NUM_PARTITIONS, false);
  }

  /** Sweeping the same tables and buffers again from where a passing
      sweep left the cursor passes too. */
  lemma RepeatSweepPasses(env: Env, cursor: nat, single: bool)
    requires env.cprim.Full() && Sweep(env, cursor, single).ret == 0
    ensures Sweep(env, Sweep(env, cursor, single).cursor, single).ret == 0
  {
    SweepCursor(env, cursor, single);
    if cursor < NUM_PARTITIONS && !single {
      var order := SlotOrder(cursor, single);
      SweepPassesIff(env, cursor, single);
      assert order[|order| - 2] == Sa8d8x8 && order[|order| - 1] == Sa8d16x16;
      SweepPassesIff(env, NUM_PARTITIONS, single);
    }
  }
}

// When a packet leaves the jitter buffer: over runs, in outputs counted from the packet the
// play position was set by.
module JitterDelivery {
  import opened Options
  import opened Serial
  import opened JitterModel
  import opened JitterRuns

  // ----- what disturbs -----

  predicate Opens(s: State, e: Event) {
    e.Input? && |e.packet.data| <= SLOT_SIZE && Lookup(s.slots, e.ts).None?
  }

  predicate HasRoom(c: Config, slots: seq<Slot>) {
    Count(slots) < c.maxUsedSlots && Count(slots) < SLOT_COUNT
  }

  // A packet comes and no place is free, once what lies behind `next` is dropped.
  predicate Evicts(c: Config, s: State, e: Event, next: int) {
    Opens(s, e) && !HasRoom(c, Purge(s.slots, next))
  }

  // The first output behind a reset finds more than five packets, and more than wanted.
  predicate Drops(s: State, e: Event) {
    e.Playback? && s.first && Count(s.slots) > 5 && Count(s.slots) > s.d.minDelay
  }

  function Fetches(c: Config, s: State, e: Event): Fetched
    requires e.Playback?
  {
    Output(c, s, e.len, e.offset, e.advance).fetched
  }

  // An output misses its packet, and the buffer starts to wait for packets again.
  predicate GivesUp(c: Config, s: State, e: Event)
    requires IsEvent(e) && c.step > 0
  {
    e.Playback? && Fetches(c, s, e).Missing? && Step(c, s, e).needBuffering
  }

  predicate Calm(c: Config, s: State, e: Event)
    requires IsEvent(e) && c.step > 0
  {
    !Evicts(c, s, e, s.nextTimestamp) && !Drops(s, e) && !GivesUp(c, s, e) && !Resyncs(s, e)
  }

  // An output that moves the play position: it takes the packet there, or finds nothing and
  // is asked to go on.
  predicate Passes(c: Config, s: State, e: Event) {
    e.Playback? &&
    if Fetches(c, s, e).Frame? || Fetches(c, s, e).TooBig? then e.offset == 0 else e.advance
  }

  function Passed(c: Config, s: State, run: seq<Event>): nat
    requires IsRun(run) && c.step > 0
  {
    if run == [] then 0
    else
      var n := |run| - 1;
      Passed(c, s, run[..n]) + if Passes(c, After(c, s, run[..n]), run[n]) then 1 else 0
  }

  // ----- one event -----

  function Reads(c: Config, s: State, e: Event): int
    requires e.Playback?
  {
    s.nextTimestamp + e.offset * c.step
  }

  // What an output makes of the state, but for the delay change it works off.
  function Got(c: Config, s: State, e: Event): State
    requires e.Playback?
  {
    var i := First(s.slots, Held(Reads(c, s, e)));
    if i < |s.slots| then Take(c, s, i, e.offset) else Miss(c, s, e.offset, e.advance)
  }

  lemma OutputGets(c: Config, s: State, e: Event)
    requires e.Playback? && IsEvent(e) && c.step > 0
    ensures var b, s' := Begin(c, s), Step(c, s, e);
      var i, got := First(b.slots, Held(Reads(c, b, e))), Got(c, b, e);
      && s' == got.(d := s'.d)
      && Fetches(c, s, e) == if i < |b.slots| then Fetch(b.slots[i], e.len) else if b.needBuffering then Buffering else Missing
  {
    hide Begin, First, Count, Take, Miss, Fetch;
    var got := Get(c, Begin(c, s), e.len, e.offset, e.advance);
    assert Output(c, s, e.len, e.offset, e.advance) == Stretch(got.0, got.1, e.advance);
  }

  lemma OutputIs(c: Config, s: State, e: Event)
    requires e.Playback? && !Drops(s, e) && IsEvent(e) && c.step > 0
    ensures var i, s' := First(s.slots, Held(Reads(c, s, e))), Step(c, s, e);
      && s' == Got(c, s.(first := false), e).(d := s'.d)
      && Fetches(c, s, e) == if i < |s.slots| then Fetch(s.slots[i], e.len) else if s.needBuffering then Buffering else Missing
  {
    hide First, Count, Fetches, Step, Got;
    OutputGets(c, s, e);
    assert Begin(c, s) == s.(first := false);
  }

  lemma OutputMoves(c: Config, s: State, e: Event)
    requires e.Playback? && IsEvent(e) && c.step > 0 && !Drops(s, e) && !GivesUp(c, s, e)
    ensures Step(c, s, e).nextTimestamp == s.nextTimestamp + if Passes(c, s, e) then c.step else 0
    ensures First(s.slots, Held(Reads(c, s, e))) == |s.slots| ==> Step(c, s, e).slots == s.slots
  {
    hide Step, Fetches, First, LostTooMany, Count;
    OutputIs(c, s, e);
  }

  lemma PutMoves(c: Config, s: State, e: Event)
    requires Inv(c, s) && e.Input? && c.step > 0
    requires var next := if Resyncs(s, e) then e.ts - c.step * s.d.minDelay else s.nextTimestamp;
      !Evicts(c, s, e, next)
    ensures Step(c, s, e).nextTimestamp
      == if Resyncs(s, e) then e.ts - c.step * s.d.minDelay else s.nextTimestamp
  {
    if Opens(s, e) {
      NotFull(c, Prepare(c, s, e.ts, e.now).slots);
    }
  }

  lemma NotFull(c: Config, slots: Slots)
    requires HasRoom(c, slots)
    ensures !IsFull(c, slots)
  {
    CountZero(slots);
  }

  lemma MovesBy(c: Config, s: State, e: Event)
    requires Inv(c, s) && IsEvent(e) && c.step > 0 && Calm(c, s, e)
    ensures Step(c, s, e).nextTimestamp == s.nextTimestamp + if Passes(c, s, e) then c.step else 0
  {
    match e
    case Input(_, _, _) => PutMoves(c, s, e);
    case Playback(_, _, _) => OutputMoves(c, s, e);
    case Ticked(_) =>
    case SetMin(_) =>
  }

  // A packet that is put is held.
  lemma PutHolds(c: Config, s: State, e: Event)
    requires Inv(c, s) && e.Input? && c.step > 0 && c.maxUsedSlots >= 2 && |e.packet.data| <= SLOT_SIZE
    requires var next := if Resyncs(s, e) then e.ts - c.step * s.d.minDelay else s.nextTimestamp;
      !Evicts(c, s, e, next)
    requires Opens(s, e) || !e.packet.isEC
    ensures Lookup(Step(c, s, e).slots, e.ts) == Some(e.packet)
  {
    hide Prepare, Place, First, Distinct, Small, Count, IsFull, Shrunk;
    if First(s.slots, Held(e.ts)) < |s.slots| {
      LookupSet(s.slots, First(s.slots, Held(e.ts)), e.ts, e.packet, e.ts);
    } else {
      var s1 := Prepare(c, s, e.ts, e.now);
      PrepareShrinks(c, s, e.ts, e.now);
      ShrinkKeepsInv(c, s, s1);
      ShrunkLacks(s.slots, s1.slots, e.ts);
      PreparedHasRoom(c, s, e);
      PlaceHolds(c, s1, e.ts, e.packet);
    }
  }

  lemma PreparedHasRoom(c: Config, s: State, e: Event)
    requires e.Input? && c.step > 0 && |e.packet.data| <= SLOT_SIZE && First(s.slots, Held(e.ts)) == |s.slots|
    requires var next := if Resyncs(s, e) then e.ts - c.step * s.d.minDelay else s.nextTimestamp;
      !Evicts(c, s, e, next)
    ensures HasRoom(c, Prepare(c, s, e.ts, e.now).slots)
  {
    hide First, Count;
  }

  lemma PlaceHolds(c: Config, s: State, ts: uint32, p: Packet)
    requires Inv(c, s) && First(s.slots, Held(ts)) == |s.slots| && HasRoom(c, s.slots)
    ensures Lookup(Place(c, s, ts, p).slots, ts) == Some(p)
  {
    hide Distinct, Small, Count, Lookup;
    NotFull(c, s.slots);
    LookupSet(s.slots, First(s.slots, Free), ts, p, ts);
  }

  // ----- a held packet stays -----

  lemma HeldAt(slots: seq<Slot>, t: int) returns (i: nat)
    requires Lookup(slots, t).Some?
    ensures i < |slots| && Suits(slots[i], Held(t))
  {
    i := First(slots, Held(t));
  }

  lemma IsHeld(slots: seq<Slot>, t: int, i: nat)
    requires i < |slots| && Suits(slots[i], Held(t))
    ensures Lookup(slots, t).Some?
  {
    assert First(slots, Held(t)) <= i;
  }

  // An output ahead of the play position reads at t.
  predicate Ahead(c: Config, s: State, e: Event, t: int) {
    e.Playback? && e.offset != 0 && s.nextTimestamp + e.offset * c.step == t
  }

  lemma PutKeeps(c: Config, s: State, e: Event, t: int)
    requires Inv(c, s) && e.Input? && c.step > 0 && Lookup(s.slots, t).Some? && s.nextTimestamp <= t
    requires !Evicts(c, s, e, s.nextTimestamp) && !Resyncs(s, e)
    ensures Lookup(Step(c, s, e).slots, t).Some?
  {
    var i := HeldAt(s.slots, t);
    if |e.packet.data| <= SLOT_SIZE {
      if First(s.slots, Held(e.ts)) < |s.slots| {
        IsHeld(Step(c, s, e).slots, t, i);
      } else {
        var s1 := Prepare(c, s, e.ts, e.now);
        assert s1.slots[i] == s.slots[i];
        NotFull(c, s1.slots);
        IsHeld(Step(c, s, e).slots, t, i);
      }
    }
  }

  lemma OutputKeeps(c: Config, s: State, e: Event, t: int)
    requires e.Playback? && IsEvent(e) && c.step > 0 && Lookup(s.slots, t).Some? && Distinct(s.slots)
    requires !Drops(s, e) && !GivesUp(c, s, e) && !Ahead(c, s, e, t)
    requires e.offset == 0 ==> s.nextTimestamp != t
    ensures Lookup(Step(c, s, e).slots, t).Some?
  {
    var i := HeldAt(s.slots, t);
    var j := First(s.slots, Held(Reads(c, s, e)));
    OutputIs(c, s, e);
    OutputMoves(c, s, e);
    hide First, Lookup, Step, Miss, GivesUp, Drops;
    if j < |s.slots| {
      assert i != j;
    }
    assert Step(c, s, e).slots[i] == s.slots[i];
    IsHeld(Step(c, s, e).slots, t, i);
  }

  // The play position, as a timestamp.
  function At(s: State): uint32
    requires 0 <= s.nextTimestamp < 0x1_0000_0000
  {
    s.nextTimestamp
  }

  lemma HeldIsWord(s: State)
    requires Lookup(s.slots, s.nextTimestamp).Some?
    ensures 0 <= s.nextTimestamp < 0x1_0000_0000
  {
    var i := HeldAt(s.slots, s.nextTimestamp);
  }

  // A packet at the play position is taken by an output there.
  lemma OutputTakes(c: Config, s: State, e: Event)
    requires e.Playback? && e.offset == 0 && !Drops(s, e) && IsEvent(e) && c.step > 0
    requires Lookup(s.slots, s.nextTimestamp).Some?
    ensures 0 <= s.nextTimestamp < 0x1_0000_0000
    ensures var p := Lookup(s.slots, s.nextTimestamp).value;
      Fetches(c, s, e) == if |p.data| <= e.len then Fetched.Frame(At(s), p) else TooBig
  {
    HeldIsWord(s);
    OutputIs(c, s, e);
    hide Fetches, Step;
  }

  // What is held at the play position makes an output there pass.
  lemma TakingPasses(c: Config, s: State, e: Event)
    requires e.Playback? && e.offset == 0 && !Drops(s, e) && IsEvent(e) && c.step > 0
    requires Lookup(s.slots, s.nextTimestamp).Some?
    ensures Passes(c, s, e)
  {
    hide Fetches, Lookup;
    OutputTakes(c, s, e);
  }

  // A packet that is not yet passed is held on.
  lemma StaysHeld(c: Config, s: State, e: Event, t: int)
    requires Inv(c, s) && IsEvent(e) && c.step > 0 && c.maxUsedSlots >= 2 && Calm(c, s, e) && !Ahead(c, s, e, t)
    requires Lookup(s.slots, t).Some? && Step(c, s, e).nextTimestamp <= t
    ensures Lookup(Step(c, s, e).slots, t)
      == if Puts(e, t) && !e.packet.isEC then Some(e.packet) else Lookup(s.slots, t)
  {
    hide Lookup, Distinct, Small, Count, Evicts, Drops, GivesUp, Passes, Ahead;
    MovesBy(c, s, e);
    StepLookup(c, s, e, t);
    match e
    case Input(_, _, _) => PutKeeps(c, s, e, t);
    case Playback(_, _, _) =>
      if e.offset == 0 && s.nextTimestamp == t { TakingPasses(c, s, e); }
      hide Step;
      OutputKeeps(c, s, e, t);
    case Ticked(_) =>
    case SetMin(_) =>
  }

  // ----- runs -----

  // A run from a reset buffer: its first event is the packet that sets the play position, and
  // nothing is evicted, dropped or reset from then on.
  ghost predicate Starts(c: Config, s: State, run: seq<Event>)
    requires c.step > 0
  {
    && IsRun(run) && run != [] && Resyncs(s, run[0])
    && !Evicts(c, s, run[0], run[0].ts - c.step * s.d.minDelay)
    && forall k :: 0 < k < |run| ==> Calm(c, After(c, s, run[..k]), run[k])
  }

  lemma StartsBefore(c: Config, s: State, run: seq<Event>, n: nat)
    requires c.step > 0 && Starts(c, s, run) && 0 < n <= |run|
    ensures Starts(c, s, run[..n])
  {
    hide Resyncs, Evicts, Calm, After;
    assert forall k :: 0 <= k <= n ==> run[..n][..k] == run[..k];
  }

  lemma {:induction false} InvAlong(c: Config, s: State, run: seq<Event>)
    requires Inv(c, s) && IsRun(run) && c.step > 0 && c.maxUsedSlots >= 2
    ensures Inv(c, After(c, s, run))
  {
    hide Inv, Step;
    if run != [] {
      InvAlong(c, s, run[..|run| - 1]);
      StepKeepsInv(c, After(c, s, run[..|run| - 1]), run[|run| - 1]);
    }
  }

  // The play position lies wanted-delay steps before the first packet, and one step further
  // for every output that passed.
  lemma {:induction false} PlayPosition(c: Config, s: State, run: seq<Event>)
    requires c.step > 0 && c.maxUsedSlots >= 2 && Inv(c, s) && Starts(c, s, run)
    ensures After(c, s, run).nextTimestamp == run[0].ts + c.step * (Passed(c, s, run) - s.d.minDelay)
    decreases |run|
  {
    hide Inv, Step, Evicts, Passes, Calm, Resyncs;
    var n := |run| - 1;
    var e, at := run[n], After(c, s, run[..n]);
    if n == 0 {
      assert run[..0] == [];
      FirstPasses(c, s, e);
      PutMoves(c, s, e);
    } else {
      StartsBefore(c, s, run, n);
      PlayPosition(c, s, run[..n]);
      InvAlong(c, s, run[..n]);
      MovesBy(c, at, e);
      OneMoreStep(c.step, Passed(c, s, run[..n]) - s.d.minDelay);
    }
  }

  lemma FirstPasses(c: Config, s: State, e: Event)
    requires Resyncs(s, e)
    ensures e.Input? && !Passes(c, s, e)
  {
  }

  lemma OneMoreStep(step: int, k: int)
    ensures step * (k + 1) == step * k + step
  {
  }

  lemma {:induction false} PassedGrows(c: Config, s: State, run: seq<Event>, n: nat)
    requires IsRun(run) && c.step > 0 && n <= |run|
    ensures Passed(c, s, run[..n]) <= Passed(c, s, run)
    decreases |run|
  {
    hide Passes;
    assert run[..|run|] == run;
    if n < |run| {
      PassedGrows(c, s, run[..|run| - 1], n);
      assert run[..|run| - 1][..n] == run[..n];
    }
  }

  // At every earlier time the play position is no further.
  lemma PositionGrows(c: Config, s: State, run: seq<Event>, n: nat)
    requires c.step > 0 && c.maxUsedSlots >= 2 && Inv(c, s) && Starts(c, s, run) && 0 < n <= |run|
    ensures After(c, s, run[..n]).nextTimestamp <= After(c, s, run).nextTimestamp
  {
    hide Inv, Starts, Passes, After;
    assert IsRun(run) && run[..n][0] == run[0] by { StartsBefore(c, s, run, |run|); Nonempty(c, s, run); }
    StartsBefore(c, s, run, n);
    PassedGrows(c, s, run, n);
    PlayPosition(c, s, run[..n]);
    PlayPosition(c, s, run);
    Scales(c.step, Passed(c, s, run[..n]) - s.d.minDelay, Passed(c, s, run) - s.d.minDelay);
  }

  lemma Nonempty(c: Config, s: State, run: seq<Event>)
    requires c.step > 0 && Starts(c, s, run)
    ensures IsRun(run) && run != [] && run[0].Input?
  {
    hide After, Calm;
  }

  lemma Scales(step: nat, a: int, b: int)
    requires a <= b
    ensures step * a <= step * b
  {
  }

  // Who puts a packet for t in the j-th event.
  predicate PutAt(c: Config, s: State, run: seq<Event>, j: nat, t: int)
    requires IsRun(run) && c.step > 0
  {
    j < |run| && Puts(run[j], t) && (Opens(After(c, s, run[..j]), run[j]) || !run[j].packet.isEC)
  }

  ghost predicate NoneAhead(c: Config, s: State, run: seq<Event>, j: nat, t: int)
    requires IsRun(run) && c.step > 0
  {
    forall k :: j < k < |run| ==> !Ahead(c, After(c, s, run[..k]), run[k], t)
  }

  // Until it is passed, a packet is held.
  lemma {:induction false} HeldUntilPassed(c: Config, s: State, run: seq<Event>, j: nat, t: int)
    requires c.step > 0 && c.maxUsedSlots >= 2 && Inv(c, s) && Starts(c, s, run)
    requires PutAt(c, s, run, j, t) && NoneAhead(c, s, run, j, t)
    requires After(c, s, run).nextTimestamp <= t
    ensures Lookup(After(c, s, run).slots, t) == Some(Payload(run, j, t))
    decreases |run|
  {
    hide Inv, Step, Evicts, Passes, Calm, Resyncs, Lookup, Opens, Ahead;
    var n := |run| - 1;
    InvAlong(c, s, run[..n]);
    if j == n {
      if n == 0 { assert run[..0] == []; }
      PutNow(c, s, run, t);
    } else {
      StartsBefore(c, s, run, n);
      PositionGrows(c, s, run, n);
      PutBefore(c, s, run, j, t);
      HeldUntilPassed(c, s, run[..n], j, t);
      StaysHeld(c, After(c, s, run[..n]), run[n], t);
    }
  }

  lemma PutBefore(c: Config, s: State, run: seq<Event>, j: nat, t: int)
    requires c.step > 0 && IsRun(run) && j < |run| - 1 && PutAt(c, s, run, j, t) && NoneAhead(c, s, run, j, t)
    ensures PutAt(c, s, run[..|run| - 1], j, t) && NoneAhead(c, s, run[..|run| - 1], j, t)
  {
    hide After, Opens, Ahead;
    assert forall k :: 0 <= k < |run| ==> run[..|run| - 1][..k] == run[..k];
  }

  lemma PutNow(c: Config, s: State, run: seq<Event>, t: int)
    requires c.step > 0 && c.maxUsedSlots >= 2 && Starts(c, s, run) && PutAt(c, s, run, |run| - 1, t)
    requires Inv(c, After(c, s, run[..|run| - 1]))
    ensures Lookup(After(c, s, run).slots, t) == Some(run[|run| - 1].packet)
  {
    hide Step, Evicts, Lookup, Opens, Resyncs, GivesUp, Drops, Inv;
    var n := |run| - 1;
    if n == 0 { assert run[..0] == []; }
    PutHolds(c, After(c, s, run[..n]), run[n]);
  }

  // Counted from 0 in outputs that pass, output number n plays the timestamp n less the wanted
  // delay steps behind the first packet; if a packet for it was put by then, that output hands
  // it out, the last primary one.
  lemma PacketLeavesInItsTurn(c: Config, s: State, run: seq<Event>, j: nat, k: int, len: nat, advance: bool)
    requires c.step > 0 && c.maxUsedSlots >= 2 && Inv(c, s) && Starts(c, s, run)
    requires PutAt(c, s, run, j, run[0].ts + k * c.step) && NoneAhead(c, s, run, j, run[0].ts + k * c.step)
    requires Passed(c, s, run) == s.d.minDelay + k
    requires !Drops(After(c, s, run), Playback(len, 0, advance))
    requires |Payload(run, j, run[0].ts + k * c.step).data| <= len
    ensures JitterRuns.Frame(c, After(c, s, run), Playback(len, 0, advance))
      == Some(Fetched.Frame(run[j].ts, Payload(run, j, run[j].ts)))
  {
    hide Inv, Starts, Passed, Lookup, Payload, Drops, Fetches, After;
    Nonempty(c, s, run);
    var t := run[0].ts + k * c.step;
    PlayPosition(c, s, run);
    assert c.step * k == k * c.step;
    HeldUntilPassed(c, s, run, j, t);
    OutputTakes(c, After(c, s, run), Playback(len, 0, advance));
    FrameOf(c, After(c, s, run), Playback(len, 0, advance));
  }

  lemma FrameOf(c: Config, s: State, e: Event)
    requires e.Playback? && e.offset == 0
    ensures Fetches(c, s, e).Frame? ==> JitterRuns.Frame(c, s, e) == Some(Fetches(c, s, e))
  {
    hide Output;
  }

  // ----- plain playing: every output asks for the packet at the play position, and goes on -----

  predicate Plain(run: seq<Event>) {
    forall e :: e in run && e.Playback? ==> e.offset == 0 && e.advance
  }

  function Outputs(run: seq<Event>): nat {
    if run == [] then 0 else Outputs(run[..|run| - 1]) + if run[|run| - 1].Playback? then 1 else 0
  }

  lemma {:induction false} EveryOutputPasses(c: Config, s: State, run: seq<Event>)
    requires IsRun(run) && c.step > 0 && Plain(run)
    ensures Passed(c, s, run) == Outputs(run)
  {
    hide Fetches, After;
    if run != [] {
      EveryOutputPasses(c, s, run[..|run| - 1]);
    }
  }

  lemma NothingAhead(c: Config, s: State, run: seq<Event>, j: nat, t: int)
    requires IsRun(run) && c.step > 0 && Plain(run)
    ensures NoneAhead(c, s, run, j, t)
  {
    hide After;
  }

  // A packet put before its turn leaves k outputs behind the first one.
  lemma PacketPlays(c: Config, s: State, run: seq<Event>, j: nat, k: int, len: nat)
    requires c.step > 0 && c.maxUsedSlots >= 2 && Inv(c, s) && Starts(c, s, run) && Plain(run)
    requires PutAt(c, s, run, j, run[0].ts + k * c.step)
    requires Outputs(run) == s.d.minDelay + k && !Drops(After(c, s, run), Playback(len, 0, true))
    requires |Payload(run, j, run[j].ts).data| <= len
    ensures JitterRuns.Frame(c, After(c, s, run), Playback(len, 0, true))
      == Some(Fetched.Frame(run[j].ts, Payload(run, j, run[j].ts)))
  {
    hide Inv, Payload, Drops, Fetches, After, Plain, Outputs, Passed, NoneAhead, Calm, Opens;
    EveryOutputPasses(c, s, run);
    NothingAhead(c, s, run, j, run[0].ts + k * c.step);
    PacketLeavesInItsTurn(c, s, run, j, k, len, true);
  }

  // The packet that meets a reset buffer leaves with output number minDelay, counted from 0.
  lemma FirstPacketPlays(c: Config, s: State, run: seq<Event>, len: nat)
    requires c.step > 0 && c.maxUsedSlots >= 2 && Inv(c, s) && Starts(c, s, run) && Plain(run)
    requires Outputs(run) == s.d.minDelay && !Drops(After(c, s, run), Playback(len, 0, true))
    requires |Payload(run, 0, run[0].ts).data| <= len
    ensures JitterRuns.Frame(c, After(c, s, run), Playback(len, 0, true))
      == Some(Fetched.Frame(run[0].ts, Payload(run, 0, run[0].ts)))
  {
    hide Inv, Payload, Drops, Fetches, Plain, Outputs, Passed, NoneAhead, Calm;
    FirstOpens(c, s, run);
    PacketPlays(c, s, run, 0, 0, len);
  }

  lemma FirstOpens(c: Config, s: State, run: seq<Event>)
    requires c.step > 0 && Starts(c, s, run)
    ensures PutAt(c, s, run, 0, run[0].ts)
  {
    hide Calm;
    assert run[..0] == [];
  }

  // ----- the first output -----

  lemma {:induction false} DropsTo(c: Config, s: State, delay: nat)
    ensures DropDownTo(c, s, delay).nextTimestamp
      == s.nextTimestamp + c.step * if delay > s.d.minDelay then delay - s.d.minDelay else 0
    decreases delay
  {
    hide First;
    if delay > s.d.minDelay {
      DropsTo(c, Drop(c, s), delay - 1);
      OneMoreStep(c.step, delay - 1 - s.d.minDelay);
    }
  }

  // If it finds more than five packets, and more than wanted, it skips a step for each of those
  // it finds too many; what it hands out then is for the play position reached.
  lemma FirstOutputSkips(c: Config, s: State, e: Event)
    requires e.Playback? && e.offset == 0 && IsEvent(e) && c.step > 0
    requires JitterRuns.Frame(c, s, e).Some?
    ensures JitterRuns.Frame(c, s, e).value.timestamp
      == s.nextTimestamp + c.step * if Drops(s, e) then Count(s.slots) - s.d.minDelay else 0
  {
    DropsTo(c, s.(first := false), Count(s.slots));
    var b := Begin(c, s);
    assert b.nextTimestamp == s.nextTimestamp + c.step * if Drops(s, e) then Count(s.slots) - s.d.minDelay else 0;
    hide Begin, Drops, Fetches, Step, Count, Take, Miss;
    OutputGets(c, s, e);
    assert JitterRuns.Frame(c, s, e).value == Fetches(c, s, e) by { FrameOf(c, s, e); FrameHas(c, s, e); }
  }

  lemma FrameHas(c: Config, s: State, e: Event)
    requires e.Playback? && e.offset == 0 && JitterRuns.Frame(c, s, e).Some?
    ensures Fetches(c, s, e).Frame?
  {
    hide Output;
  }
}

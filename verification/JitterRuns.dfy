// Whole runs of the jitter buffer: what its slots hold, in which order frames leave it, and
// how playback time is conserved.
module JitterRuns {
  import opened Options
  import opened Serial
  import opened HistoricBuffer
  import opened JitterModel

  datatype Event =
    | Input(ts: uint32, packet: Packet, now: real)
    | Playback(len: nat, offset: int, advance: bool)
    | Ticked(stddev: real)
    | SetMin(count: nat)

  predicate IsEvent(e: Event) {
    e.Ticked? ==> e.stddev >= 0.0
  }

  predicate IsRun(run: seq<Event>) {
    forall e :: e in run ==> IsEvent(e)
  }

  function Step(c: Config, s: State, e: Event): State
    requires IsEvent(e) && c.step > 0
  {
    match e
    case Input(ts, p, now) => Put(c, s, ts, p, now)
    case Playback(len, offset, advance) => Output(c, s, len, offset, advance).state
    case Ticked(stddev) => Tick(c, s, stddev)
    case SetMin(count) => SetMinPacketCount(s, count)
  }

  function After(c: Config, s: State, run: seq<Event>): State
    requires IsRun(run) && c.step > 0
  {
    if run == [] then s else Step(c, After(c, s, run[..|run| - 1]), run[|run| - 1])
  }

  // ----- what the slots hold -----

  ghost predicate Distinct(slots: seq<Slot>) {
    forall i, j :: 0 <= i < j < |slots| && slots[i].packet.Some? && slots[j].packet.Some? ==>
      slots[i].timestamp != slots[j].timestamp
  }

  ghost predicate Small(slots: seq<Slot>) {
    forall i :: 0 <= i < |slots| && slots[i].packet.Some? ==> |slots[i].packet.value.data| <= SLOT_SIZE
  }

  ghost predicate Inv(c: Config, s: State) {
    && Distinct(s.slots) && Small(s.slots)
    && Count(s.slots) <= c.maxUsedSlots
  }

  // The slots of b are some of those of a, the others emptied.
  ghost predicate Shrunk(a: seq<Slot>, b: seq<Slot>) {
    && |a| == |b|
    && forall k :: 0 <= k < |a| ==> b[k] == a[k] || b[k] == a[k].(packet := None)
  }

  lemma {:induction false} ShrunkCount(a: seq<Slot>, b: seq<Slot>)
    requires Shrunk(a, b)
    ensures Count(b) <= Count(a)
  {
    if a != [] {
      ShrunkCount(a[..|a| - 1], b[..|b| - 1]);
    }
  }

  lemma {:induction false} CountSet(a: seq<Slot>, i: nat, x: Slot)
    requires i < |a|
    ensures Count(a[i := x]) == Count(a) + (if x.packet.Some? then 1 else 0) - (if a[i].packet.Some? then 1 else 0)
  {
    var b := a[i := x];
    if i < |a| - 1 {
      CountSet(a[..|a| - 1], i, x);
      assert b[..|a| - 1] == a[..|a| - 1][i := x];
    } else {
      assert b[..|a| - 1] == a[..|a| - 1];
    }
  }

  lemma {:induction false} CountZero(a: seq<Slot>)
    ensures Count(a) == 0 <==> forall k :: 0 <= k < |a| ==> a[k].packet.None?
    ensures Count(a) == |a| <==> forall k :: 0 <= k < |a| ==> a[k].packet.Some?
  {
    if a != [] {
      CountZero(a[..|a| - 1]);
      assert forall k :: 0 <= k < |a| ==> a[k] == if k < |a| - 1 then a[..|a| - 1][k] else a[|a| - 1];
    }
  }

  // At most one of the distinct timestamps is 0xFFFFFFFF.
  lemma {:induction false} TopHeldOnce(a: seq<Slot>, n: nat)
    requires Distinct(a) && n <= |a|
    requires forall k :: 0 <= k < n && a[k].packet.Some? ==> a[k].timestamp == 0xFFFF_FFFF
    ensures Count(a[..n]) <= 1
    ensures Count(a[..n]) == 1 ==> exists k :: 0 <= k < n && a[k].packet.Some?
  {
    if n > 0 {
      assert a[..n][..n - 1] == a[..n - 1];
      TopHeldOnce(a, n - 1);
    }
  }

  ghost predicate IsSmallestHeld(slots: seq<Slot>, v: nat) {
    && v < |slots| && slots[v].packet.Some?
    && forall k :: 0 <= k < |slots| && slots[k].packet.Some? ==> slots[v].timestamp <= slots[k].timestamp
  }

  // Eviction finds a slot with the smallest timestamp that is held.
  lemma EvictionFindsVictim(c: Config, slots: seq<Slot>)
    requires |slots| == SLOT_COUNT && Distinct(slots) && c.maxUsedSlots >= 2 && IsFull(c, slots)
    ensures IsSmallestHeld(slots, Victim(slots, |slots|))
  {
    CountZero(slots);
    assert Count(slots) >= 2;
    assert slots[..|slots|] == slots;
    if Victim(slots, |slots|) == |slots| {
      TopHeldOnce(slots, |slots|);
    }
  }

  // With fewer than two slots to use this fails: a packet with the greatest timestamp fills
  // the buffer and is not picked.
  lemma EvictionNeedsTwoSlots(c: Config)
    ensures (forall slots: Slots :: Distinct(slots) && IsFull(c, slots) ==> Victim(slots, |slots|) < |slots|)
      <==> c.maxUsedSlots >= 2
  {
    if c.maxUsedSlots >= 2 {
      forall slots: Slots | Distinct(slots) && IsFull(c, slots) ensures Victim(slots, |slots|) < |slots| {
        EvictionFindsVictim(c, slots);
      }
    } else {
      var empty: Slots := seq(SLOT_COUNT, _ => Slot(0, None));
      var one: Slots := empty[0 := Slot(0xFFFF_FFFF, Some(Packet([], false)))];
      CountZero(empty);
      CountSet(empty, 0, one[0]);
      assert Distinct(one) && IsFull(c, one) && Victim(one, |one|) == |one|;
    }
  }

  lemma PlaceKeepsInv(c: Config, s: State, ts: uint32, p: Packet)
    requires Inv(c, s) && c.maxUsedSlots >= 2 && |p.data| <= SLOT_SIZE
    requires First(s.slots, Held(ts)) == |s.slots|
    ensures Inv(c, Place(c, s, ts, p))
  {
    var full := IsFull(c, s.slots);
    if full { EvictionFindsVictim(c, s.slots); }
    var i := if full then Victim(s.slots, |s.slots|) else First(s.slots, Free);
    CountSet(s.slots, i, Slot(ts, Some(p)));
    assert forall k :: 0 <= k < |s.slots| ==> !Suits(s.slots[k], Held(ts));
  }

  lemma ShrinkKeepsInv(c: Config, s: State, s': State)
    requires Inv(c, s) && Shrunk(s.slots, s'.slots)
    ensures Inv(c, s')
  {
    ShrunkCount(s.slots, s'.slots);
  }

  lemma PrepareShrinks(c: Config, s: State, ts: uint32, now: real)
    ensures Shrunk(s.slots, Prepare(c, s, ts, now).slots)
  {
  }

  lemma {:induction false} DropShrinks(c: Config, s: State, delay: nat)
    ensures Shrunk(s.slots, DropDownTo(c, s, delay).slots)
    decreases delay
  {
    if delay > s.d.minDelay {
      DropShrinks(c, Drop(c, s), delay - 1);
    }
  }

  lemma OutputShrinks(c: Config, s: State, len: nat, offset: int, advance: bool)
    ensures Shrunk(s.slots, Output(c, s, len, offset, advance).state.slots)
  {
    DropShrinks(c, s.(first := false), Count(s.slots));
    GetShrinks(c, Begin(c, s), len, offset, advance);
    hide Get;
  }

  lemma GetShrinks(c: Config, s: State, len: nat, offset: int, advance: bool)
    ensures Shrunk(s.slots, Get(c, s, len, offset, advance).0.slots)
  {
  }

  lemma ReplaceKeepsInv(c: Config, s: State, ts: uint32, p: Packet)
    requires Inv(c, s) && |p.data| <= SLOT_SIZE && First(s.slots, Held(ts)) < |s.slots|
    ensures Inv(c, s.(slots := s.slots[First(s.slots, Held(ts)) := Slot(ts, Some(p))]))
  {
    var i := First(s.slots, Held(ts));
    CountSet(s.slots, i, Slot(ts, Some(p)));
    hide Count, First;
  }

  // What is not held is not held in fewer slots either.
  lemma ShrunkLacks(a: seq<Slot>, b: seq<Slot>, ts: uint32)
    requires Shrunk(a, b) && First(a, Held(ts)) == |a|
    ensures First(b, Held(ts)) == |b|
  {
    assert forall k :: 0 <= k < |a| ==> !Suits(a[k], Held(ts));
    hide First;
  }

  lemma PutKeepsInv(c: Config, s: State, ts: uint32, p: Packet, now: real)
    requires Inv(c, s) && c.maxUsedSlots >= 2
    ensures Inv(c, Put(c, s, ts, p, now))
  {
    hide Prepare, Place, First, Inv, Shrunk;
    if |p.data| <= SLOT_SIZE {
      if First(s.slots, Held(ts)) < |s.slots| {
        ReplaceKeepsInv(c, s, ts, p);
      } else {
        var s1 := Prepare(c, s, ts, now);
        PrepareShrinks(c, s, ts, now);
        ShrinkKeepsInv(c, s, s1);
        ShrunkLacks(s.slots, s1.slots, ts);
        PlaceKeepsInv(c, s1, ts, p);
      }
    }
  }

  lemma StepKeepsInv(c: Config, s: State, e: Event)
    requires Inv(c, s) && IsEvent(e) && c.step > 0 && c.maxUsedSlots >= 2
    ensures Inv(c, Step(c, s, e))
  {
    match e
    case Input(ts, p, now) => PutKeepsInv(c, s, ts, p, now);
    case Playback(len, offset, advance) =>
      OutputShrinks(c, s, len, offset, advance);
      ShrinkKeepsInv(c, s, Step(c, s, e));
    case Ticked(stddev) =>
      assert Step(c, s, e).slots == s.slots;
    case SetMin(count) =>
  }

  // From any delay configured at start, every run keeps the slots distinct and few.
  lemma {:induction false} RunKeepsInv(c: Config, minMinDelay: nat, run: seq<Event>)
    requires IsRun(run) && c.step > 0 && c.maxUsedSlots >= 2
    ensures Inv(c, After(c, New(minMinDelay), run))
  {
    if run == [] {
      CountZero(New(minMinDelay).slots);
    } else {
      RunKeepsInv(c, minMinDelay, run[..|run| - 1]);
      StepKeepsInv(c, After(c, New(minMinDelay), run[..|run| - 1]), run[|run| - 1]);
    }
  }

  // ----- the order of frames -----

  predicate Resyncs(s: State, e: Event) {
    && e.Input? && |e.packet.data| <= SLOT_SIZE && s.wasReset
    && First(s.slots, Held(e.ts)) == |s.slots|
  }

  // The frame an event takes from the current play position.
  function Frame(c: Config, s: State, e: Event): Option<Fetched> {
    if e.Playback? && e.offset == 0 then
      var f := Output(c, s, e.len, 0, e.advance).fetched;
      if f.Frame? then Some(f) else None
    else None
  }

  ghost predicate NoResync(c: Config, s: State, run: seq<Event>)
    requires IsRun(run) && c.step > 0
  {
    forall k :: 0 <= k < |run| ==> !Resyncs(After(c, s, run[..k]), run[k])
  }

  ghost predicate AllEmpty(slots: seq<Slot>) {
    forall k :: 0 <= k < |slots| ==> slots[k].packet.None?
  }

  predicate OnGrid(t: int, base: int, step: nat)
    requires step > 0
  {
    (t - base) % step == 0
  }

  // Until the next resync the play position is on the progression of base and at least
  // low, or nothing is left to play.
  ghost predicate OnTrack(c: Config, s: State, base: int, low: int)
    requires c.step > 0
  {
    || (s.nextTimestamp >= low && OnGrid(s.nextTimestamp, base, c.step))
    || (s.wasReset && AllEmpty(s.slots))
  }

  // A frame leaves at the play position, which then lies behind it.
  ghost predicate LeavesInOrder(c: Config, f: Fetched, s': State, base: int, low: int)
    requires c.step > 0
  {
    && f.Frame? && f.timestamp >= low && OnGrid(f.timestamp, base, c.step)
    && OnTrack(c, s', base, f.timestamp + c.step)
  }

  lemma NextOnGrid(t: int, base: int, step: nat)
    requires step > 0
    ensures OnGrid(t + step, base, step) == OnGrid(t, base, step)
  {
    var q, r := (t - base) / step, (t - base) % step;
    assert t + step - base == (q + 1) * step + r;
    ModIs(t + step - base, q + 1, r, step);
  }

  lemma ModIs(x: int, q: int, r: int, m: nat)
    requires m > 0 && x == q * m + r && 0 <= r < m
    ensures x % m == r
  {
    var d := x / m - q;
    assert x == (d + q) * m + x % m;
    SmallMultiple(d, m, r - x % m);
  }

  lemma SmallMultiple(d: int, m: nat, p: int)
    requires d * m == p && 0 - m < p < m
    ensures d == 0
  {
  }

  lemma {:induction false} DropOnTrack(c: Config, s: State, delay: nat, base: int, low: int)
    requires c.step > 0 && OnTrack(c, s, base, low)
    ensures OnTrack(c, DropDownTo(c, s, delay), base, low)
    decreases delay
  {
    if delay > s.d.minDelay {
      NextOnGrid(s.nextTimestamp, base, c.step);
      DropOnTrack(c, Drop(c, s), delay - 1, base, low);
    }
  }

  lemma GetOnTrack(c: Config, s: State, len: nat, offset: int, advance: bool, base: int, low: int)
    requires c.step > 0 && OnTrack(c, s, base, low)
    ensures var r := Get(c, s, len, offset, advance);
      OnTrack(c, r.0, base, low) && (offset == 0 && r.1.Frame? ==> LeavesInOrder(c, r.1, r.0, base, low))
  {
    NextOnGrid(s.nextTimestamp, base, c.step);
  }

  lemma BeginOnTrack(c: Config, s: State, base: int, low: int)
    requires c.step > 0 && OnTrack(c, s, base, low)
    ensures OnTrack(c, Begin(c, s), base, low)
  {
    DropOnTrack(c, s.(first := false), Count(s.slots), base, low);
  }

  lemma OutputOnTrack(c: Config, s: State, len: nat, offset: int, advance: bool, base: int, low: int)
    requires c.step > 0 && OnTrack(c, s, base, low)
    ensures var r := Output(c, s, len, offset, advance);
      && OnTrack(c, r.state, base, low)
      && (offset == 0 && r.fetched.Frame? ==> LeavesInOrder(c, r.fetched, r.state, base, low))
  {
    BeginOnTrack(c, s, base, low);
    GetOnTrack(c, Begin(c, s), len, offset, advance, base, low);
    hide Get, Begin, OnGrid;
    var got := Get(c, Begin(c, s), len, offset, advance);
    assert Output(c, s, len, offset, advance) == Stretch(got.0, got.1, advance);
    assert Stretch(got.0, got.1, advance).fetched == got.1;
    assert Stretch(got.0, got.1, advance).state.slots == got.0.slots;
  }

  lemma PutOnTrack(c: Config, s: State, e: Event, base: int, low: int)
    requires c.step > 0 && e.Input? && OnTrack(c, s, base, low) && !Resyncs(s, e)
    ensures OnTrack(c, Put(c, s, e.ts, e.packet, e.now), base, low)
  {
    if |e.packet.data| <= SLOT_SIZE && First(s.slots, Held(e.ts)) == |s.slots| {
      var s1 := Prepare(c, s, e.ts, e.now);
      NextOnGrid(s1.nextTimestamp, base, c.step);
    }
  }

  lemma StepOnTrack(c: Config, s: State, e: Event, base: int, low: int)
    requires c.step > 0 && IsEvent(e) && OnTrack(c, s, base, low) && !Resyncs(s, e)
    ensures OnTrack(c, Step(c, s, e), base, low)
    ensures Frame(c, s, e).Some? ==> LeavesInOrder(c, Frame(c, s, e).value, Step(c, s, e), base, low)
  {
    match e
    case Input(_, _, _) => PutOnTrack(c, s, e, base, low);
    case Playback(len, offset, advance) => OutputOnTrack(c, s, len, offset, advance, base, low);
    case Ticked(_) =>
    case SetMin(_) =>
  }

  lemma {:induction false} StaysOnTrack(c: Config, s: State, run: seq<Event>, i: nat, j: nat, base: int, low: int)
    requires IsRun(run) && c.step > 0 && NoResync(c, s, run) && i <= j <= |run|
    requires OnTrack(c, After(c, s, run[..i]), base, low)
    ensures OnTrack(c, After(c, s, run[..j]), base, low)
    decreases j
  {
    hide OnGrid, OnTrack, Resyncs, LeavesInOrder, Frame, Step;
    if i < j {
      StaysOnTrack(c, s, run, i, j - 1, base, low);
      AfterOneMore(c, s, run, j - 1);
      StepOnTrack(c, After(c, s, run[..j - 1]), run[j - 1], base, low);
    }
  }

  lemma AfterOneMore(c: Config, s: State, run: seq<Event>, k: nat)
    requires IsRun(run) && c.step > 0 && k < |run|
    ensures After(c, s, run[..k + 1]) == Step(c, After(c, s, run[..k]), run[k])
  {
    assert run[..k + 1][..k] == run[..k];
  }

  // Between two resyncs, of two frames that leave at the play position the later one has
  // the greater timestamp, a whole number of steps away.
  lemma FramesLeaveInOrder(c: Config, s: State, run: seq<Event>, i: nat, j: nat)
    requires IsRun(run) && c.step > 0 && NoResync(c, s, run) && i < j < |run|
    requires Frame(c, After(c, s, run[..i]), run[i]).Some?
    requires Frame(c, After(c, s, run[..j]), run[j]).Some?
    ensures var t := Frame(c, After(c, s, run[..i]), run[i]).value.timestamp;
      var u := Frame(c, After(c, s, run[..j]), run[j]).value.timestamp;
      t < u && OnGrid(u, t, c.step)
  {
    var si, sj, base := After(c, s, run[..i]), After(c, s, run[..j]), s.nextTimestamp;
    var t, u := Frame(c, si, run[i]).value.timestamp, Frame(c, sj, run[j]).value.timestamp;
    assert OnTrack(c, After(c, s, run[..0]), base, base);
    hide OnGrid, Step, Resyncs;
    StaysOnTrack(c, s, run, 0, i, base, base);
    StepOnTrack(c, si, run[i], base, base);
    AfterOneMore(c, s, run, i);
    StaysOnTrack(c, s, run, i + 1, j, base, t + c.step);
    StepOnTrack(c, sj, run[j], base, t + c.step);
    Difference(t, u, base, c.step);
  }

  lemma Difference(t: int, u: int, base: int, m: nat)
    requires m > 0 && OnGrid(t, base, m) && OnGrid(u, base, m)
    ensures OnGrid(u, t, m)
  {
    var a, b := (t - base) / m, (u - base) / m;
    assert u - t == (b - a) * m;
    ModIs(u - t, b - a, 0, m);
  }

  // ----- what a frame carries -----

  function Lookup(slots: seq<Slot>, t: int): Option<Packet> {
    var i := First(slots, Held(t));
    if i < |slots| then slots[i].packet else None
  }

  predicate Puts(e: Event, t: int) {
    e.Input? && e.ts == t && |e.packet.data| <= SLOT_SIZE
  }

  // The last primary packet for t since the one at k, or that one.
  function Payload(run: seq<Event>, k: nat, t: int): Packet
    requires k < |run| && run[k].Input?
  {
    var e := run[|run| - 1];
    if |run| == k + 1 then e.packet
    else if Puts(e, t) && !e.packet.isEC then e.packet
    else Payload(run[..|run| - 1], k, t)
  }

  // A slot was opened for t at k and is held since.
  ghost predicate OpenSince(c: Config, s: State, run: seq<Event>, k: nat, t: int)
    requires IsRun(run) && c.step > 0
  {
    && k < |run| && Puts(run[k], t)
    && Lookup(After(c, s, run[..k]).slots, t).None?
    && forall j :: k < j <= |run| ==> Lookup(After(c, s, run[..j]).slots, t).Some?
  }

  lemma LookupIs(slots: seq<Slot>, i: nat)
    requires Distinct(slots) && i < |slots| && slots[i].packet.Some?
    ensures Lookup(slots, slots[i].timestamp) == slots[i].packet
  {
    assert Suits(slots[i], Held(slots[i].timestamp));
  }

  lemma LookupShrunk(a: seq<Slot>, b: seq<Slot>, t: int)
    requires Distinct(a) && Shrunk(a, b)
    ensures Lookup(b, t).None? || Lookup(b, t) == Lookup(a, t)
  {
    var i := First(b, Held(t));
    if i < |b| {
      LookupIs(a, i);
    }
  }

  lemma LookupSet(a: seq<Slot>, i: nat, u: uint32, p: Packet, t: int)
    requires Distinct(a) && i < |a| && (First(a, Held(u)) == |a| || First(a, Held(u)) == i)
    ensures Lookup(a[i := Slot(u, Some(p))], u) == Some(p)
    ensures t != u ==> Lookup(a[i := Slot(u, Some(p))], t).None? || Lookup(a[i := Slot(u, Some(p))], t) == Lookup(a, t)
  {
    var b := a[i := Slot(u, Some(p))];
    assert forall k :: 0 <= k < |a| && k != i ==> !Suits(a[k], Held(u));
    LookupIs(b, i);
    var j := First(b, Held(t));
    if t != u && j < |b| {
      LookupIs(a, j);
    }
  }

  // What one event makes of the packet held for t.
  lemma StepLookup(c: Config, s: State, e: Event, t: int)
    requires Inv(c, s) && IsEvent(e) && c.step > 0 && c.maxUsedSlots >= 2
    ensures var was, got := Lookup(s.slots, t), Lookup(Step(c, s, e).slots, t);
      got.Some? ==>
        if Puts(e, t) && (was.None? || !e.packet.isEC) then got == Some(e.packet) else got == was
  {
    match e
    case Input(ts, p, now) => PutLookup(c, s, ts, p, now, t);
    case Playback(len, offset, advance) =>
      OutputShrinks(c, s, len, offset, advance);
      LookupShrunk(s.slots, Output(c, s, len, offset, advance).state.slots, t);
    case Ticked(stddev) =>
      assert Tick(c, s, stddev).slots == s.slots;
    case SetMin(count) =>
  }

  lemma PutLookup(c: Config, s: State, ts: uint32, p: Packet, now: real, t: int)
    requires Inv(c, s) && c.maxUsedSlots >= 2
    ensures var was, got := Lookup(s.slots, t), Lookup(Put(c, s, ts, p, now).slots, t);
      got.Some? ==>
        if ts == t && |p.data| <= SLOT_SIZE && (was.None? || !p.isEC) then got == Some(p) else got == was
  {
    hide Prepare, Place, First, Shrunk, Distinct, Small, Count;
    if |p.data| <= SLOT_SIZE {
      var i := First(s.slots, Held(ts));
      if i < |s.slots| {
        LookupSet(s.slots, i, ts, p, t);
      } else {
        var s1 := Prepare(c, s, ts, now);
        PrepareShrinks(c, s, ts, now);
        ShrinkKeepsInv(c, s, s1);
        ShrunkLacks(s.slots, s1.slots, ts);
        LookupShrunk(s.slots, s1.slots, t);
        PlaceLookup(c, s1, ts, p, t);
      }
    }
  }

  lemma PlaceLookup(c: Config, s: State, ts: uint32, p: Packet, t: int)
    requires Inv(c, s) && c.maxUsedSlots >= 2 && First(s.slots, Held(ts)) == |s.slots|
    ensures var was, got := Lookup(s.slots, t), Lookup(Place(c, s, ts, p).slots, t);
      got.Some? ==> if ts == t then got == Some(p) else got == was
  {
    var full := IsFull(c, s.slots);
    if full { EvictionFindsVictim(c, s.slots); }
    LookupSet(s.slots, if full then Victim(s.slots, |s.slots|) else First(s.slots, Free), ts, p, t);
  }

  // A held packet is the last primary one put since its slot was opened, or the copy that
  // opened it if there was none.
  lemma {:induction false} HeldIsLatest(c: Config, minMinDelay: nat, run: seq<Event>, t: int) returns (k: nat)
    requires IsRun(run) && c.step > 0 && c.maxUsedSlots >= 2
    requires Lookup(After(c, New(minMinDelay), run).slots, t).Some?
    ensures OpenSince(c, New(minMinDelay), run, k, t)
    ensures Lookup(After(c, New(minMinDelay), run).slots, t) == Some(Payload(run, k, t))
    decreases |run|
  {
    hide Step, Lookup, Inv, New, Puts;
    NothingHeld(minMinDelay, t);
    var s0, n := New(minMinDelay), |run| - 1;
    if run != [] {
      var front, e := run[..n], run[n];
      var s := After(c, s0, front);
      RunKeepsInv(c, minMinDelay, front);
      StepLookup(c, s, e, t);
      assert run[..|run|] == run;
      assert forall j :: 0 <= j <= n ==> front[..j] == run[..j];
      if Lookup(s.slots, t).None? {
        k := n;
        OpensLast(c, s0, run, t);
      } else {
        k := HeldIsLatest(c, minMinDelay, front, t);
        OpenForOneMore(c, s0, run, k, t);
      }
    }
  }

  lemma NothingHeld(minMinDelay: nat, t: int)
    ensures Lookup(New(minMinDelay).slots, t).None?
  {
  }

  // The last event opened the slot.
  lemma OpensLast(c: Config, s: State, run: seq<Event>, t: int)
    requires IsRun(run) && c.step > 0 && |run| > 0 && Puts(run[|run| - 1], t)
    requires Lookup(After(c, s, run[..|run| - 1]).slots, t).None? && Lookup(After(c, s, run).slots, t).Some?
    ensures OpenSince(c, s, run, |run| - 1, t)
  {
    hide Lookup, Step;
    assert run[..|run|] == run;
  }

  lemma OpenForOneMore(c: Config, s: State, run: seq<Event>, k: nat, t: int)
    requires IsRun(run) && c.step > 0 && |run| > 0 && OpenSince(c, s, run[..|run| - 1], k, t)
    requires Lookup(After(c, s, run).slots, t).Some?
    ensures OpenSince(c, s, run, k, t)
  {
    hide Lookup, Step;
    var n := |run| - 1;
    assert run[..|run|] == run;
    assert forall j :: 0 <= j <= n ==> run[..n][..j] == run[..j];
  }

  lemma FrameIsHeld(c: Config, s: State, len: nat, offset: int, advance: bool)
    requires Distinct(s.slots) && Output(c, s, len, offset, advance).fetched.Frame?
    ensures var f := Output(c, s, len, offset, advance).fetched; Lookup(s.slots, f.timestamp) == Some(f.packet)
  {
    DropShrinks(c, s.(first := false), Count(s.slots));
    var b := Begin(c, s);
    assert Shrunk(s.slots, b.slots);
    var i := First(b.slots, Held(b.nextTimestamp + offset * c.step));
    assert i < |b.slots|;
    LookupIs(s.slots, i);
  }

  // What any output of a run hands out.
  lemma FrameIsLatest(c: Config, minMinDelay: nat, run: seq<Event>, len: nat, offset: int, advance: bool)
    returns (k: nat)
    requires IsRun(run) && c.step > 0 && c.maxUsedSlots >= 2
    requires Output(c, After(c, New(minMinDelay), run), len, offset, advance).fetched.Frame?
    ensures var f := Output(c, After(c, New(minMinDelay), run), len, offset, advance).fetched;
      OpenSince(c, New(minMinDelay), run, k, f.timestamp) && f.packet == Payload(run, k, f.timestamp)
  {
    var s := After(c, New(minMinDelay), run);
    RunKeepsInv(c, minMinDelay, run);
    FrameIsHeld(c, s, len, offset, advance);
    hide Output;
    k := HeldIsLatest(c, minMinDelay, run, Output(c, s, len, offset, advance).fetched.timestamp);
  }

  // A buffer of a whole slot takes every packet.
  lemma WholeSlotBufferFits(c: Config, s: State, len: nat, offset: int, advance: bool)
    requires Inv(c, s) && len >= SLOT_SIZE
    ensures !Output(c, s, len, offset, advance).fetched.TooBig?
  {
    DropShrinks(c, s.(first := false), Count(s.slots));
    assert Shrunk(s.slots, Begin(c, s).slots);
  }
}

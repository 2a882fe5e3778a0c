// What the jitter buffer does to its state, as functions. The pool and the memory are left
// to the class; here a slot holds its packet.
module JitterModel {
  import opened Bytes
  import opened Options
  import opened Serial
  import opened HistoricBuffer

  const SLOT_COUNT := 64
  const SLOT_SIZE := 1024
  const HISTORY := 64

  datatype Packet = Packet(data: seq<byte>, isEC: bool)

  // A slot that was emptied keeps its timestamp.
  datatype Slot = Slot(timestamp: uint32, packet: Option<Packet>)

  datatype Config = Config(step: nat, maxMinDelay: nat, maxUsedSlots: nat, lossesToReset: nat, resyncThreshold: real)

  type Slots = s: seq<Slot> | |s| == SLOT_COUNT witness seq(SLOT_COUNT, _ => Slot(0, None))

  type History = h: seq<real> | |h| == HISTORY witness Repeat(0.0, HISTORY)

  const NO_HISTORY: History := Repeat(0.0, HISTORY)

  // How many packets the buffer wants to hold, and what it does to get there.
  datatype Delay = Delay(
    minDelay: nat, minMinDelay: nat, outstandingDelayChange: int,
    dontIncMinDelay: nat, dontDecMinDelay: nat, dontChangeDelay: nat)

  datatype Counters = Counters(
    lostCount: nat, lostSinceReset: nat, gotSinceReset: nat, latePacketCount: nat, lostPackets: int)

  datatype Measured = Measured(
    expectNextAtTime: real, delayHistory: History, lateHistory: History, deviationHistory: History)

  datatype State = State(
    slots: Slots, nextTimestamp: int, wasReset: bool, needBuffering: bool, first: bool,
    d: Delay, n: Counters, m: Measured)

  // ----- searches over the slots -----

  datatype Want = Held(t: int) | Labelled(t: int) | Free

  predicate Suits(s: Slot, w: Want) {
    match w
    case Held(t) => s.packet.Some? && s.timestamp == t
    case Labelled(t) => s.timestamp == t
    case Free => s.packet.None?
  }

  // The first slot that suits, or the number of slots.
  function First(slots: seq<Slot>, w: Want): (i: nat)
    ensures i <= |slots| && forall k :: 0 <= k < i ==> !Suits(slots[k], w)
    ensures i < |slots| ==> Suits(slots[i], w)
  {
    if slots == [] || Suits(slots[0], w) then 0 else 1 + First(slots[1..], w)
  }

  // GetCurrentDelay
  function Count(slots: seq<Slot>): (n: nat)
    ensures n <= |slots|
  {
    if slots == [] then 0
    else Count(slots[..|slots| - 1]) + if slots[|slots| - 1].packet.Some? then 1 else 0
  }

  // The slot to evict among the first n: the smallest timestamp below 0xFFFFFFFF.
  function Victim(slots: seq<Slot>, n: nat): (v: nat)
    requires n <= |slots|
    ensures v < n || v == |slots|
    ensures v < n ==> slots[v].packet.Some? && slots[v].timestamp < 0xFFFF_FFFF
    ensures forall k :: 0 <= k < n && slots[k].packet.Some? && slots[k].timestamp < 0xFFFF_FFFF ==>
      v < n && slots[v].timestamp <= slots[k].timestamp
  {
    if n == 0 then |slots|
    else
      var v := Victim(slots, n - 1);
      var best := if v < |slots| then slots[v].timestamp else 0xFFFF_FFFF;
      if slots[n - 1].packet.Some? && slots[n - 1].timestamp < best then n - 1 else v
  }

  function Emptied(slots: seq<Slot>, i: nat): (r: seq<Slot>)
    requires i < |slots|
    ensures |r| == |slots|
  {
    slots[i := slots[i].(packet := None)]
  }

  function PurgeOne(x: Slot, next: int): Slot {
    if x.packet.Some? && x.timestamp < next - 1 then x.(packet := None) else x
  }

  function Purge(slots: seq<Slot>, next: int): (r: seq<Slot>)
    ensures |r| == |slots| && forall k :: 0 <= k < |r| ==> r[k] == PurgeOne(slots[k], next)
  {
    seq(|slots|, k requires 0 <= k < |slots| => PurgeOne(slots[k], next))
  }

  function AllEmptied(slots: seq<Slot>): (r: seq<Slot>)
    ensures |r| == |slots| && forall k :: 0 <= k < |r| ==> r[k] == slots[k].(packet := None)
  {
    seq(|slots|, k requires 0 <= k < |slots| => slots[k].(packet := None))
  }

  // ----- the operations -----

  function Advance(c: Config, s: State): State {
    s.(nextTimestamp := s.nextTimestamp + c.step)
  }

  function Reset(s: State): State {
    s.(slots := AllEmptied(s.slots), wasReset := true, needBuffering := true,
       d := s.d.(outstandingDelayChange := 0, dontChangeDelay := 0),
       n := s.n.(lostSinceReset := 0, gotSinceReset := 0),
       m := Measured(0.0, NO_HISTORY, NO_HISTORY, NO_HISTORY))
  }

  // A new packet moves the play position so that minDelay outputs come before it.
  function Resync(c: Config, s: State, ts: uint32): State {
    s.(wasReset := false, first := true, nextTimestamp := ts - c.step * s.d.minDelay,
       d := s.d.(outstandingDelayChange := 0))
  }

  function Observe(c: Config, m: Measured, now: real): Measured {
    var step := c.step as real / 1000.0;
    if m.expectNextAtTime != 0.0 then
      m.(deviationHistory := Push(m.deviationHistory, m.expectNextAtTime - now),
         expectNextAtTime := m.expectNextAtTime + step)
    else m.(expectNextAtTime := now + step)
  }

  function CountArrival(c: Config, s: State, ts: uint32): State {
    var s := s.(n := s.n.(gotSinceReset := s.n.gotSinceReset + 1));
    if s.wasReset then Resync(c, s, ts) else s
  }

  // What comes before the placing of a packet whose timestamp no slot holds.
  function Prepare(c: Config, s: State, ts: uint32, now: real): State {
    var s := CountArrival(c, s, ts);
    var s := s.(slots := Purge(s.slots, s.nextTimestamp), m := Observe(c, s.m, now));
    if ts < s.nextTimestamp then
      s.(n := s.n.(latePacketCount := s.n.latePacketCount + 1, lostPackets := s.n.lostPackets - 1))
    else s
  }

  predicate IsFull(c: Config, slots: seq<Slot>) {
    First(slots, Free) == |slots| || Count(slots) >= c.maxUsedSlots
  }

  function Place(c: Config, s: State, ts: uint32, p: Packet): State {
    if IsFull(c, s.slots) then
      var v := Victim(s.slots, |s.slots|);
      if v < |s.slots| then Advance(c, s).(slots := s.slots[v := Slot(ts, Some(p))]) else s
    else s.(slots := s.slots[First(s.slots, Free) := Slot(ts, Some(p))])
  }

  // PutInternal; a copy sent for error correction does not overwrite.
  function Put(c: Config, s: State, ts: uint32, p: Packet, now: real): State {
    var i := First(s.slots, Held(ts));
    if |p.data| > SLOT_SIZE then s
    else if i < |s.slots| then
      if p.isEC then s else s.(slots := s.slots[i := Slot(ts, Some(p))])
    else Place(c, Prepare(c, s, ts, now), ts, p)
  }

  function Drop(c: Config, s: State): State {
    var i := First(s.slots, Labelled(s.nextTimestamp));
    Advance(c, if i < |s.slots| then s.(slots := Emptied(s.slots, i)) else s)
  }

  function DropDownTo(c: Config, s: State, delay: nat): State
    decreases delay
  {
    if delay <= s.d.minDelay then s else DropDownTo(c, Drop(c, s), delay - 1)
  }

  function Begin(c: Config, s: State): State {
    if s.first && Count(s.slots) > 5 then DropDownTo(c, s.(first := false), Count(s.slots))
    else s.(first := false)
  }

  datatype Fetched = Frame(timestamp: uint32, packet: Packet) | TooBig | Missing | Buffering

  predicate LostTooMany(c: Config, d: Delay, n: Counters) {
    || n.lostCount >= c.lossesToReset
    || (n.gotSinceReset > d.minDelay * 25 && n.lostSinceReset > n.gotSinceReset / 2)
  }

  function GiveUp(s: State): State {
    var delay := Count(s.slots);
    var back := if delay < s.d.minDelay then s.d.minDelay - delay else 0;
    Reset(s.(nextTimestamp := s.nextTimestamp - back, n := s.n.(lostCount := 0),
             d := s.d.(dontIncMinDelay := 16, dontDecMinDelay := s.d.dontDecMinDelay + 128)))
  }

  function CountLoss(n: Counters, offset: int): Counters {
    var n := n.(lostCount := n.lostCount + 1);
    if offset == 0 then n.(lostPackets := n.lostPackets + 1, lostSinceReset := n.lostSinceReset + 1) else n
  }

  function Miss(c: Config, s: State, offset: int, advance: bool): State {
    var s := if advance then Advance(c, s) else s;
    if s.needBuffering then s
    else
      var s := s.(n := CountLoss(s.n, offset));
      if LostTooMany(c, s.d, s.n) then GiveUp(s) else s
  }

  function Take(c: Config, s: State, i: nat, offset: int): State
    requires i < |s.slots|
  {
    var s := s.(slots := Emptied(s.slots, i), n := s.n.(lostCount := 0), needBuffering := false);
    if offset == 0 then Advance(c, s) else s
  }

  function Fetch(x: Slot, len: nat): Fetched
    requires x.packet.Some?
  {
    if len < |x.packet.value.data| then TooBig else Frame(x.timestamp, x.packet.value)
  }

  // GetInternal into a buffer of len bytes.
  function Get(c: Config, s: State, len: nat, offset: int, advance: bool): (State, Fetched) {
    var i := First(s.slots, Held(s.nextTimestamp + offset * c.step));
    if i < |s.slots| then (Take(c, s, i, offset), Fetch(s.slots[i], len))
    else (Miss(c, s, offset, advance), if s.needBuffering then Buffering else Missing)
  }

  datatype Played = Played(state: State, fetched: Fetched, duration: int)

  function Stretch(s: State, fetched: Fetched, advance: bool): Played {
    var d := s.d.outstandingDelayChange;
    if d < 0 then Played(s.(d := s.d.(outstandingDelayChange := d + 20)), fetched, 40)
    else if d > 0 then Played(s.(d := s.d.(outstandingDelayChange := d - 20)), fetched, 80)
    else Played(s, fetched, if advance && Count(s.slots) == 0 then 80 else 60)
  }

  // HandleOutput
  function Output(c: Config, s: State, len: nat, offset: int, advance: bool): Played {
    var got := Get(c, Begin(c, s), len, offset, advance);
    Stretch(got.0, got.1, advance)
  }

  // ----- Tick -----

  predicate AllZero(h: seq<real>) {
    forall x :: x in h ==> x == 0.0
  }

  function SquaredDeviations(h: seq<real>, mean: real): real {
    if h == [] then 0.0
    else SquaredDeviations(h[..|h| - 1], mean) + (h[|h| - 1] - mean) * (h[|h| - 1] - mean)
  }

  function Variance(h: History): real {
    SquaredDeviations(h, Sum(h) / HISTORY as real) / HISTORY as real
  }

  predicate IsRoot(r: real, x: real) {
    r >= 0.0 && r * r == x
  }

  function Ceil(x: real): int {
    -(-x).Floor
  }

  // The delay in packets that the measured deviation asks for, within bounds.
  function Target(c: Config, d: Delay, stddev: real): (t: nat)
    requires c.step > 0 && stddev >= 0.0
    ensures t <= c.maxMinDelay && (t >= d.minMinDelay || t == c.maxMinDelay)
  {
    var t := Ceil(stddev * 2.0 * 1000.0 / c.step as real);
    var t := if t < d.minMinDelay then d.minMinDelay else t;
    if t > c.maxMinDelay then c.maxMinDelay else t
  }

  function Note(c: Config, s: State): State {
    var late := Push(s.m.lateHistory, s.n.latePacketCount as real);
    var quiet := AllZero(late) && s.d.dontDecMinDelay > 0;
    s.(n := s.n.(latePacketCount := 0),
       wasReset := s.wasReset || Sum(late[..16]) / 16.0 >= c.resyncThreshold,
       d := if quiet then s.d.(dontDecMinDelay := s.d.dontDecMinDelay - 1) else s.d,
       m := s.m.(lateHistory := late, delayHistory := Push(s.m.delayHistory, Count(s.slots) as real)))
  }

  function Adapt(d: Delay, target: nat): Delay {
    if target > d.minDelay then
      if d.dontIncMinDelay == 0 then
        d.(minDelay := d.minDelay + 1, outstandingDelayChange := d.outstandingDelayChange + 60,
           dontChangeDelay := d.dontChangeDelay + 32, dontIncMinDelay := 25, dontDecMinDelay := 100)
      else d.(dontDecMinDelay := 100)
    else if target < d.minDelay && d.dontDecMinDelay == 0 then
      d.(minDelay := d.minDelay - 1, outstandingDelayChange := d.outstandingDelayChange - 60,
         dontChangeDelay := d.dontChangeDelay + 32, dontDecMinDelay := 25)
    else d
  }

  // The change asked for because the mean delay is off the wanted one.
  function Correction(d: Delay, delays: History): int {
    var mean, wanted := Sum(delays[..32]) / 32.0, d.minDelay as real;
    if d.dontChangeDelay != 0 then 0
    else if mean > wanted + 0.5 then if mean > wanted + 2.0 then -60 else -20
    else if mean < wanted - 0.3 then 20
    else 0
  }

  function Correct(d: Delay, delays: History): Delay {
    var change := Correction(d, delays);
    var pause := if change != 0 then d.dontChangeDelay + 10 else d.dontChangeDelay;
    d.(outstandingDelayChange := d.outstandingDelayChange + change,
       dontChangeDelay := if pause > 0 then pause - 1 else 0)
  }

  // The delay part after the first half of Tick.
  function Adapted(c: Config, s: State, stddev: real): Delay
    requires c.step > 0 && stddev >= 0.0
  {
    Adapt(Note(c, s).d, Target(c, s.d, stddev))
  }

  function Tick(c: Config, s: State, stddev: real): State
    requires c.step > 0 && stddev >= 0.0
  {
    var noted := Note(c, s);
    noted.(d := Correct(Adapted(c, s, stddev), noted.m.delayHistory))
  }

  function SetMinPacketCount(s: State, count: nat): State {
    s.(d := s.d.(minDelay := count, minMinDelay := count))
  }

  function New(minMinDelay: nat): State {
    State(seq(SLOT_COUNT, _ => Slot(0, None)), 0, true, true, true,
          Delay(6, minMinDelay, 0, 0, 0, 0), Counters(0, 0, 0, 0, 0),
          Measured(0.0, NO_HISTORY, NO_HISTORY, NO_HISTORY))
  }
}

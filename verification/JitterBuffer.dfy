// The jitter buffer, which updates its fields, its slots and its measurements in place.
module JitterBuffer {
  import opened Bytes
  import opened Options
  import opened Serial
  import opened HistoricBuffer
  import opened JitterModel
  import opened JitterRuns
  import opened JitterSlots
  import opened JitterMeasurements
  import opened JitterPlaybackTime

  lemma NewIs(c: Config, minMinDelay: nat, s: State)
    requires s == State(s.slots, 0, true, true, true, Delay(6, minMinDelay, 0, 0, 0, 0), Counters(0, 0, 0, 0, 0),
      Measured(0.0, NO_HISTORY, NO_HISTORY, NO_HISTORY))
    requires forall i :: 0 <= i < SLOT_COUNT ==> s.slots[i] == Slot(0, None)
    ensures s == New(minMinDelay) && Inv(c, s) && NoneNegative(s.m.lateHistory)
  {
    assert s.slots == New(minMinDelay).slots;
    CountZero(s.slots);
  }

  lemma PrepareKeepsInv(c: Config, s: State, ts: uint32, now: real)
    requires Inv(c, s)
    ensures Inv(c, JitterModel.Prepare(c, s, ts, now))
  {
    PrepareShrinks(c, s, ts, now);
    ShrinkKeepsInv(c, s, JitterModel.Prepare(c, s, ts, now));
  }

  lemma PutKeepsLates(c: Config, s: State, ts: uint32, p: Packet, now: real)
    ensures Put(c, s, ts, p, now).m.lateHistory == s.m.lateHistory
    ensures JitterModel.Prepare(c, s, ts, now).m.lateHistory == s.m.lateHistory
  {
  }

  // What HandleOutput leaves in the buffer and returns; nothing fitting leaves the flag as it was.
  ghost predicate IsOutput(f: Fetched, before: seq<byte>, after: seq<byte>, found: bool, size: nat, isEC: bool) {
    match f
    case Frame(_, p) =>
      found && |p.data| <= |before| && after == p.data + before[|p.data|..] && size == |p.data| && isEC == p.isEC
    case TooBig => found && after == before && size == |before|
    case _ => !found && after == before && size == 0
  }

  lemma GetKeepsLates(c: Config, s: State, len: nat, offset: int, advance: bool)
    requires NoneNegative(s.m.lateHistory)
    ensures NoneNegative(Get(c, s, len, offset, advance).0.m.lateHistory)
  {
    hide First, Count;
  }

  lemma OutputKeeps(c: Config, s: State, len: nat, offset: int, advance: bool)
    requires Inv(c, s) && NoneNegative(s.m.lateHistory) && c.step > 0 && c.maxUsedSlots >= 2
    ensures var s' := Output(c, s, len, offset, advance).state; Inv(c, s') && NoneNegative(s'.m.lateHistory)
  {
    StepKeepsInv(c, s, Playback(len, offset, advance));
    DropKeepsRest(c, s.(first := false), Count(s.slots));
    GetKeepsLates(c, Begin(c, s), len, offset, advance);
    hide Inv, NoneNegative, Get;
  }

  lemma TickKeepsInv(c: Config, s: State, stddev: real)
    requires Inv(c, s) && NoneNegative(s.m.lateHistory) && c.step > 0 && stddev >= 0.0
    ensures var s' := JitterModel.Tick(c, s, stddev); Inv(c, s') && NoneNegative(s'.m.lateHistory)
  {
    PushKeepsNoneNegative(s.m.lateHistory, s.n.latePacketCount as real);
    var s' := JitterModel.Tick(c, s, stddev);
    assert s'.slots == s.slots && s'.m.lateHistory == Push(s.m.lateHistory, s.n.latePacketCount as real);
  }

  // The second half of Tick depends on the state only as the first half left it.
  lemma TickFromNote(c: Config, s: State, stddev: real)
    requires c.step > 0 && stddev >= 0.0
    ensures var noted := Note(c, s);
      JitterModel.Tick(c, s, stddev)
      == noted.(d := Correct(Adapt(noted.d, Target(c, noted.d, stddev)), noted.m.delayHistory))
  {
    assert Target(c, Note(c, s).d, stddev) == Target(c, s.d, stddev);
  }

  class Buffer {
    const config: Config
    const table: SlotTable
    const measured: Measurements
    var nextTimestamp: int
    var wasReset: bool
    var needBuffering: bool
    var first: bool
    var d: Delay
    var n: Counters

    ghost predicate Ready()
      reads this, table, table.Repr, measured, measured.Repr
    {
      && table in table.Repr && measured in measured.Repr
      && this !in table.Repr && this !in measured.Repr && table.Repr !! measured.Repr
      && table.Valid() && measured.Valid()
    }

    ghost function Value(): State
      requires Ready()
      reads this, table.Repr, measured.Repr
    {
      State(table.Contents(), nextTimestamp, wasReset, needBuffering, first, d, n, measured.Value())
    }

    // With fewer than two slots to use, eviction could fail.
    ghost predicate Valid()
      reads this, table, table.Repr, measured, measured.Repr
    {
      && config.step > 0 && config.maxUsedSlots >= 2
      && Ready() && Inv(config, Value()) && NoneNegative(measured.Value().lateHistory)
    }

    constructor (config: Config, minMinDelay: nat)
      requires config.step > 0 && config.maxUsedSlots >= 2
      ensures Valid() && Value() == New(minMinDelay) && this.config == config
    {
      hide Inv, New, SlotTable.Contents, SlotTable.Valid, Measurements.Valid, Measurements.Value, First, Count, Victim,
        NoneNegative, Repeat;
      var slots := new SlotTable();
      var measurements := new Measurements();
      this.config, table, measured := config, slots, measurements;
      nextTimestamp, wasReset, needBuffering, first := 0, true, true, true;
      d, n := Delay(6, minMinDelay, 0, 0, 0, 0), Counters(0, 0, 0, 0, 0);
      new;
      assert table.Repr !! measured.Repr;
      assert Ready();
      NewIs(config, minMinDelay, Value());
    }

    method Reset()
      requires Ready()
      modifies this, table.Repr, measured.Repr
      ensures Ready() && Value() == JitterModel.Reset(old(Value()))
    {
      hide SlotTable.Contents, SlotTable.Valid, Measurements.Valid, Measurements.Value, First, Count, Victim;
      wasReset, needBuffering := true, true;
      table.FreeAll();
      measured.Reset();
      n := n.(lostSinceReset := 0, gotSinceReset := 0);
      d := d.(outstandingDelayChange := 0, dontChangeDelay := 0);
    }

    method Advance()
      requires Ready()
      modifies `nextTimestamp
      ensures Ready() && Value() == JitterModel.Advance(config, old(Value()))
    {
      nextTimestamp := nextTimestamp + config.step;
    }

    // A packet after a reset is where playing starts anew.
    method CountArrival(ts: uint32)
      requires Ready()
      modifies this
      ensures Ready() && Value() == JitterModel.CountArrival(config, old(Value()), ts)
    {
      hide SlotTable.Contents, SlotTable.Valid, Measurements.Valid, Measurements.Value, First, Count;
      n := n.(gotSinceReset := n.gotSinceReset + 1);
      if wasReset {
        wasReset := false;
        d := d.(outstandingDelayChange := 0);
        nextTimestamp := ts - config.step * d.minDelay;
        first := true;
      }
    }

    // The part of PutInternal between the search for the timestamp and that for a place.
    method Prepare(ts: uint32, now: real)
      requires Ready()
      modifies this, table.Repr, measured.Repr
      ensures Ready() && Value() == JitterModel.Prepare(config, old(Value()), ts, now)
    {
      hide SlotTable.Contents, SlotTable.Valid, Measurements.Valid, Measurements.Value, First, Count, Victim, Purge, Observe,
        JitterModel.CountArrival;
      CountArrival(ts);
      table.FreeBefore(nextTimestamp);
      measured.Arrived(config, now);
      if ts < nextTimestamp {
        n := n.(latePacketCount := n.latePacketCount + 1, lostPackets := n.lostPackets - 1);
      }
    }

    method Place(ts: uint32, p: Packet)
      requires Valid() && |p.data| <= SLOT_SIZE
      modifies this, table.Repr, measured.Repr
      ensures Ready() && Value() == JitterModel.Place(config, old(Value()), ts, p)
    {
      hide SlotTable.Contents, SlotTable.Valid, Measurements.Valid, Measurements.Value, First, Count, Victim;
      var i := table.Find(Free);
      var delay := table.HowMany();
      if i == SLOT_COUNT || delay >= config.maxUsedSlots {
        EvictionFindsVictim(config, table.Contents());
        i := table.FindVictim();
        Advance();
        table.Free(i);
      }
      hide Inv;
      table.Fill(i, ts, p);
    }

    method PutInternal(ts: uint32, p: Packet, now: real)
      requires Valid()
      modifies this, table.Repr, measured.Repr
      ensures Valid() && Value() == Put(config, old(Value()), ts, p, now)
    {
      hide SlotTable.Contents, SlotTable.Valid, Measurements.Valid, Measurements.Value, First, Count, Victim, Inv,
        JitterModel.Prepare, JitterModel.Place;
      PutKeepsInv(config, Value(), ts, p, now);
      PutKeepsLates(config, Value(), ts, p, now);
      if |p.data| > SLOT_SIZE {
        return;
      }
      var i := table.Find(Held(ts));
      if i < SLOT_COUNT {
        if !p.isEC {
          table.Overwrite(i, p);
        }
        return;
      }
      PrepareKeepsInv(config, Value(), ts, now);
      Prepare(ts, now);
      Place(ts, p);
    }

    // The first output drops what is too much for the delay wanted.
    method BeginOutput()
      requires Ready()
      modifies this, table.Repr, measured.Repr
      ensures Ready() && Value() == Begin(config, old(Value()))
    {
      hide SlotTable.Contents, SlotTable.Valid, Measurements.Valid, Measurements.Value, First, Count;
      if !first {
        return;
      }
      first := false;
      var delay := table.HowMany();
      if delay > 5 {
        ghost var goal := DropDownTo(config, Value(), delay);
        while delay > d.minDelay
          invariant delay >= 0 && Ready() && DropDownTo(config, Value(), delay) == goal
        {
          DropOne();
          delay := delay - 1;
        }
      }
    }

    method DropOne()
      requires Ready()
      modifies this, table.Repr, measured.Repr
      ensures Ready() && Value() == Drop(config, old(Value()))
    {
      hide SlotTable.Contents, SlotTable.Valid, Measurements.Valid, Measurements.Value, First;
      var i := table.Find(Labelled(nextTimestamp));
      if i < SLOT_COUNT {
        table.Free(i);
      }
      Advance();
    }

    // Too many packets were lost.
    method GiveUp()
      requires Ready()
      modifies this, table.Repr, measured.Repr
      ensures Ready() && Value() == JitterModel.GiveUp(old(Value()))
    {
      hide SlotTable.Contents, SlotTable.Valid, Measurements.Valid, Measurements.Value, Count;
      d := d.(dontIncMinDelay := 16, dontDecMinDelay := d.dontDecMinDelay + 128);
      var delay := table.HowMany();
      if delay < d.minDelay {
        nextTimestamp := nextTimestamp - (d.minDelay - delay);
      }
      n := n.(lostCount := 0);
      Reset();
    }

    method Lose(offset: int, advance: bool)
      requires Ready()
      modifies this, table.Repr, measured.Repr
      ensures Ready() && Value() == Miss(config, old(Value()), offset, advance)
    {
      hide SlotTable.Contents, SlotTable.Valid, Measurements.Valid, Measurements.Value, Count, JitterModel.GiveUp;
      if advance {
        Advance();
      }
      if !needBuffering {
        n := CountLoss(n, offset);
        if LostTooMany(config, d, n) {
          GiveUp();
        }
      }
    }

    method GetInternal(buffer: array<byte>, offset: int, advance: bool)
      returns (found: bool, size: nat, isEC: bool, ghost fetched: Fetched)
      requires Ready() && buffer !in table.Repr && buffer !in measured.Repr
      modifies this, table.Repr, measured.Repr, buffer
      ensures Ready() && (Value(), fetched) == Get(config, old(Value()), buffer.Length, offset, advance)
      ensures IsOutput(fetched, old(buffer[..]), buffer[..], found, size, isEC)
    {
      hide SlotTable.Contents, SlotTable.Valid, Measurements.Valid, Measurements.Value, First;
      var i := table.Find(Held(nextTimestamp + offset * config.step));
      found := i < SLOT_COUNT;
      if found {
        size, isEC, fetched := Deliver(i, buffer, offset);
      } else {
        size, isEC, fetched := 0, false, if needBuffering then Buffering else Missing;
        Lose(offset, advance);
      }
    }

    // The slot at the play position is done with.
    method Release(i: nat, offset: int)
      requires Ready() && i < SLOT_COUNT && table.Contents()[i].packet.Some?
      modifies this, table.Repr
      ensures Ready() && Value() == Take(config, old(Value()), i, offset)
    {
      hide SlotTable.Contents, SlotTable.Valid, Measurements.Valid, Measurements.Value;
      table.Free(i);
      if offset == 0 {
        Advance();
      }
      n := n.(lostCount := 0);
      needBuffering := false;
    }

    method Deliver(i: nat, buffer: array<byte>, offset: int) returns (size: nat, isEC: bool, ghost fetched: Fetched)
      requires Ready() && buffer !in table.Repr && buffer !in measured.Repr && i < SLOT_COUNT && table.Contents()[i].packet.Some?
      modifies this, table.Repr, buffer
      ensures Ready() && Value() == Take(config, old(Value()), i, offset)
      ensures fetched == Fetch(old(table.Contents())[i], buffer.Length)
      ensures IsOutput(fetched, old(buffer[..]), buffer[..], true, size, isEC)
    {
      hide SlotTable.Contents, SlotTable.Valid, Measurements.Valid, Measurements.Value, Take;
      fetched := Fetch(table.Contents()[i], buffer.Length);
      var fits;
      fits, size, isEC := table.CopyOut(i, buffer);
      if !fits {
        size := buffer.Length;
      }
      assert IsOutput(fetched, old(buffer[..]), buffer[..], true, size, isEC);
      Release(i, offset);
    }

    method HandleOutput(buffer: array<byte>, offset: int, advance: bool)
      returns (size: nat, duration: int, isEC: bool, ghost fetched: Fetched)
      requires Valid() && buffer !in table.Repr && buffer !in measured.Repr
      modifies this, table.Repr, measured.Repr, buffer
      ensures Valid()
      ensures Played(Value(), fetched, duration) == Output(config, old(Value()), buffer.Length, offset, advance)
      ensures IsOutput(fetched, old(buffer[..]), buffer[..], fetched.Frame? || fetched.TooBig?, size, isEC)
    {
      hide SlotTable.Contents, SlotTable.Valid, Measurements.Valid, Measurements.Value, Begin, Get, Count, Inv;
      OutputKeeps(config, Value(), buffer.Length, offset, advance);
      BeginOutput();
      var found;
      found, size, isEC, fetched := GetInternal(buffer, offset, advance);
      if d.outstandingDelayChange != 0 {
        if d.outstandingDelayChange < 0 {
          duration := 40;
          d := d.(outstandingDelayChange := d.outstandingDelayChange + 20);
        } else {
          duration := 80;
          d := d.(outstandingDelayChange := d.outstandingDelayChange - 20);
        }
      } else {
        var delay := table.HowMany();
        duration := if advance && delay == 0 then 80 else 60;
      }
    }

    // The root of the spread is a parameter.
    method Tick(stddev: real)
      requires Valid() && IsRoot(stddev, Variance(measured.Value().deviationHistory))
      modifies this, table.Repr, measured.Repr
      ensures Valid() && Value() == JitterModel.Tick(config, old(Value()), stddev)
    {
      TickKeepsInv(config, Value(), stddev);
      hide Inv, NoneNegative, JitterModel.Tick, SlotTable.Contents, Measurements.Value;
      var average32 := TakeNote();
      Settle(old(Value()), stddev, average32);
    }

    // The second half of Tick, which leaves only the delay to change.
    method Settle(ghost s: State, stddev: real, avgDelay: real)
      requires Ready() && config.step > 0 && stddev >= 0.0 && Value() == Note(config, s)
      requires avgDelay == Sum(measured.Value().delayHistory[..32]) / 32.0
      modifies `d
      ensures Ready() && Value() == JitterModel.Tick(config, s, stddev)
    {
      hide SlotTable.Contents, SlotTable.Valid, Measurements.Valid, Measurements.Value, Sum, Target, Note, Adapt,
        Correct, JitterModel.Tick;
      TickFromNote(config, s, stddev);
      AdaptTo(Target(config, d, stddev));
      CorrectFor(avgDelay);
    }

    method TakeNote() returns (average32: real)
      requires Ready() && NoneNegative(measured.Value().lateHistory)
      modifies this, table.Repr, measured.Repr
      ensures Ready() && Value() == Note(config, old(Value()))
      ensures average32 == Sum(measured.Value().delayHistory[..32]) / 32.0
    {
      hide SlotTable.Contents, SlotTable.Valid, Measurements.Valid, Measurements.Value, Count, Sum, AllZero, Push,
        NoneNegative;
      var average16, none := measured.AddLate(n.latePacketCount);
      n := n.(latePacketCount := 0);
      if average16 >= config.resyncThreshold {
        wasReset := true;
      }
      if none && d.dontDecMinDelay > 0 {
        d := d.(dontDecMinDelay := d.dontDecMinDelay - 1);
      }
      var delay := table.HowMany();
      average32 := measured.AddDelay(delay);
    }

    method AdaptTo(target: nat)
      modifies `d
      ensures d == Adapt(old(d), target)
    {
      if target != d.minDelay {
        var diff := target - d.minDelay;
        if diff > 0 {
          d := d.(dontDecMinDelay := 100);
        }
        diff := if diff < -1 then -1 else if diff > 1 then 1 else diff;
        if (diff > 0 && d.dontIncMinDelay == 0) || (diff < 0 && d.dontDecMinDelay == 0) {
          d := d.(minDelay := d.minDelay + diff,
                  outstandingDelayChange := d.outstandingDelayChange + diff * 60,
                  dontChangeDelay := d.dontChangeDelay + 32);
          if diff < 0 {
            d := d.(dontDecMinDelay := d.dontDecMinDelay + 25);
          }
          if diff > 0 {
            d := d.(dontIncMinDelay := 25);
          }
        }
      }
    }

    method CorrectFor(avgDelay: real)
      requires measured.Valid() && avgDelay == Sum(measured.Value().delayHistory[..32]) / 32.0
      modifies `d
      ensures d == Correct(old(d), measured.Value().delayHistory)
    {
      var wanted := d.minDelay as real;
      if d.dontChangeDelay == 0 {
        if avgDelay > wanted + 0.5 {
          d := d.(outstandingDelayChange := d.outstandingDelayChange - (if avgDelay > wanted + 2.0 then 60 else 20),
                  dontChangeDelay := d.dontChangeDelay + 10);
        } else if avgDelay < wanted - 0.3 {
          d := d.(outstandingDelayChange := d.outstandingDelayChange + 20,
                  dontChangeDelay := d.dontChangeDelay + 10);
        }
      }
      if d.dontChangeDelay > 0 {
        d := d.(dontChangeDelay := d.dontChangeDelay - 1);
      }
    }

    method SetMinPacketCount(count: nat)
      requires Valid()
      modifies `d
      ensures Valid() && Value() == JitterModel.SetMinPacketCount(old(Value()), count)
    {
      hide SlotTable.Contents, SlotTable.Valid, Measurements.Valid, Measurements.Value, Distinct, Small, Count, NoneNegative;
      d := d.(minDelay := count, minMinDelay := count);
    }
  }
}

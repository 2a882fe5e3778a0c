// The table of packets in flight of CongestionControl.
module CongestionControl {
  import opened HistoricBuffer
  import opened Numbers
  import opened Serial

  const SLOTS := 100
  const RTT_HISTORY := 100

  // A send time of 0 marks a free slot.
  datatype Slot = Slot(number: uint32, size: nat, sendTime: real)

  type History = h: seq<real> | |h| == RTT_HISTORY witness Repeat(0.0, RTT_HISTORY)

  type Table = t: seq<Slot> | |t| == SLOTS witness seq(SLOTS, _ => Slot(0, 0, 0.0))

  datatype State = State(
    slots: Table, inflightDataSize: int, lossCount: nat, lastSentSeq: uint32, tmpRtt: real, tmpRttCount: nat,
    rttHistory: History)

  function Start(): State {
    State(seq(SLOTS, _ => Slot(0, 0, 0.0)), 0, 0, 0, 0.0, 0, Repeat(0.0, RTT_HISTORY))
  }

  predicate IsLive(x: Slot) { x.sendTime > 0.0 }

  function Live(slots: seq<Slot>): nat {
    if slots == [] then 0 else Live(slots[..|slots| - 1]) + Bit(IsLive(slots[|slots| - 1]))
  }

  function Sizes(slots: seq<Slot>): nat {
    if slots == [] then 0
    else Sizes(slots[..|slots| - 1]) + if IsLive(slots[|slots| - 1]) then slots[|slots| - 1].size else 0
  }

  // The live slot of a number.
  function Find(slots: seq<Slot>, number: uint32): (i: nat)
    ensures i <= |slots| && forall k :: 0 <= k < i ==> !(slots[k].number == number && IsLive(slots[k]))
    ensures i < |slots| ==> slots[i].number == number && IsLive(slots[i])
  {
    if slots == [] || (slots[0].number == number && IsLive(slots[0])) then 0 else 1 + Find(slots[1..], number)
  }

  // The slot for a new packet, if it is among the first n: a free one, or one sent first.
  function Choose(slots: seq<Slot>, n: nat): (i: nat)
    requires 0 < n <= |slots|
    ensures i < n
    ensures slots[i].sendTime == 0.0 || forall k :: 0 <= k < n ==> slots[k].sendTime != 0.0
    ensures slots[i].sendTime == 0.0 || forall k :: 0 <= k < n ==> slots[i].sendTime <= slots[k].sendTime
  {
    if n == 1 then 0
    else
      var i := Choose(slots, n - 1);
      if slots[i].sendTime == 0.0 then i
      else if slots[n - 1].sendTime == 0.0 || slots[i].sendTime > slots[n - 1].sendTime then n - 1
      else i
  }

  function Sent(s: State, number: uint32, size: nat, now: real): State {
    if !SeqGt(number, s.lastSentSeq) then s
    else
      var i := Choose(s.slots, SLOTS);
      var s := s.(lastSentSeq := number);
      var s := if IsLive(s.slots[i]) then
                 s.(inflightDataSize := s.inflightDataSize - s.slots[i].size, lossCount := s.lossCount + 1)
               else s;
      s.(slots := s.slots[i := Slot(number, size, now)], inflightDataSize := s.inflightDataSize + size)
  }

  function Acknowledged(s: State, number: uint32, now: real): State {
    var i := Find(s.slots, number);
    if i == SLOTS then s
    else
      s.(slots := s.slots[i := s.slots[i].(sendTime := 0.0)], inflightDataSize := s.inflightDataSize - s.slots[i].size,
         tmpRtt := s.tmpRtt + (now - s.slots[i].sendTime), tmpRttCount := s.tmpRttCount + 1)
  }

  predicate IsStale(x: Slot, now: real) {
    x.sendTime != 0.0 && now - x.sendTime > 2.0
  }

  // The first n slots lose what was sent more than two seconds ago.
  function Expired(s: State, n: nat, now: real): State
    requires n <= SLOTS
  {
    if n == 0 then s
    else
      var s := Expired(s, n - 1, now);
      var x := s.slots[n - 1];
      if IsStale(x, now) then
        s.(slots := s.slots[n - 1 := x.(sendTime := 0.0)], inflightDataSize := s.inflightDataSize - x.size,
           lossCount := s.lossCount + 1)
      else s
  }

  // The mean of the round trip times since the last tick goes into their history.
  function Averaged(s: State): State {
    if s.tmpRttCount > 0 then
      s.(rttHistory := Push(s.rttHistory, s.tmpRtt / s.tmpRttCount as real), tmpRtt := 0.0, tmpRttCount := 0)
    else s
  }

  function Ticked(s: State, now: real): State {
    Expired(Averaged(s), SLOTS, now)
  }

  // ----- the books over whole runs -----

  datatype Event = Send(number: uint32, size: nat) | Ack(number: uint32) | Tick

  datatype Timed = Timed(event: Event, now: real)

  function Next(s: State, e: Event, now: real): State {
    match e
    case Send(number, size) => Sent(s, number, size, now)
    case Ack(number) => Acknowledged(s, number, now)
    case Tick => Ticked(s, now)
  }

  function After(run: seq<Timed>): State {
    if run == [] then Start() else Next(After(run[..|run| - 1]), run[|run| - 1].event, run[|run| - 1].now)
  }

  // Sends that were accepted, and acks that found their packet.
  function Accepted(run: seq<Timed>): nat {
    if run == [] then 0
    else
      var front, e := run[..|run| - 1], run[|run| - 1].event;
      Accepted(front) + Bit(e.Send? && SeqGt(e.number, After(front).lastSentSeq))
  }

  function Matched(run: seq<Timed>): nat {
    if run == [] then 0
    else
      var front, e := run[..|run| - 1], run[|run| - 1].event;
      Matched(front) + Bit(e.Ack? && Find(After(front).slots, e.number) < SLOTS)
  }

  ghost predicate Inv(s: State) {
    && (forall k :: 0 <= k < SLOTS ==> s.slots[k].sendTime >= 0.0)
    && s.inflightDataSize == Sizes(s.slots)
  }

  lemma {:induction false} Put(slots: seq<Slot>, i: nat, x: Slot)
    requires i < |slots|
    ensures Live(slots[i := x]) == Live(slots) - Bit(IsLive(slots[i])) + Bit(IsLive(x))
    ensures Sizes(slots[i := x])
      == Sizes(slots) - (if IsLive(slots[i]) then slots[i].size else 0) + if IsLive(x) then x.size else 0
    ensures IsLive(slots[i]) ==> Live(slots) > 0 && slots[i].size <= Sizes(slots)
  {
    hide IsLive;
    var n, put := |slots| - 1, slots[i := x];
    if i < n {
      Put(slots[..n], i, x);
      assert put[..n] == slots[..n][i := x];
    } else {
      assert put[..n] == slots[..n];
    }
  }

  lemma {:induction false} ExpiredBalances(s: State, n: nat, now: real)
    requires n <= SLOTS && Inv(s)
    ensures var s' := Expired(s, n, now);
      && Inv(s') && s' == s.(slots := s'.slots, inflightDataSize := s'.inflightDataSize, lossCount := s'.lossCount)
      && s'.lossCount + Live(s'.slots) == s.lossCount + Live(s.slots)
      && (forall k :: 0 <= k < SLOTS ==>
            s'.slots[k] == if k < n && IsStale(s.slots[k], now) then s.slots[k].(sendTime := 0.0) else s.slots[k])
  {
    if n > 0 {
      ExpiredBalances(s, n - 1, now);
      var before := Expired(s, n - 1, now);
      Put(before.slots, n - 1, before.slots[n - 1].(sendTime := 0.0));
      hide Live, Sizes;
    }
  }

  lemma StepBalances(s: State, e: Event, now: real)
    requires Inv(s) && now > 0.0
    ensures var s' := Next(s, e, now);
      && Inv(s')
      && s'.lossCount + Live(s'.slots) + Bit(e.Ack? && Find(s.slots, e.number) < SLOTS)
         == s.lossCount + Live(s.slots) + Bit(e.Send? && SeqGt(e.number, s.lastSentSeq))
  {
    hide Live, Sizes;
    match e
    case Send(number, size) => Put(s.slots, Choose(s.slots, SLOTS), Slot(number, size, now));
    case Ack(number) =>
      var i := Find(s.slots, number);
      if i < SLOTS { Put(s.slots, i, s.slots[i].(sendTime := 0.0)); }
    case Tick =>
      ExpiredBalances(Averaged(s), SLOTS, now);
  }

  // In every run the bytes in flight are those of the live slots, and each packet accepted
  // was acknowledged, counted as lost, or is still in the table.
  lemma {:induction false} BooksBalance(run: seq<Timed>)
    requires forall k :: 0 <= k < |run| ==> run[k].now > 0.0
    ensures var s := After(run);
      && s.inflightDataSize == Sizes(s.slots)
      && Inv(s)
      && Accepted(run) == Matched(run) + s.lossCount + Live(s.slots)
  {
    if run == [] {
      NoneLive(Start().slots);
    } else {
      var n := |run| - 1;
      BooksBalance(run[..n]);
      StepBalances(After(run[..n]), run[n].event, run[n].now);
      hide Next, Live, Sizes, Inv;
    }
  }

  lemma {:induction false} NoneLive(slots: seq<Slot>)
    requires forall k :: 0 <= k < |slots| ==> !IsLive(slots[k])
    ensures Live(slots) == 0 && Sizes(slots) == 0
  {
    if slots != [] { NoneLive(slots[..|slots| - 1]); }
  }

  // A packet leaves the table unacknowledged only when it is old or the table is full, and
  // then none was sent before it.
  lemma EvictsOldest(s: State, number: uint32, size: nat, now: real)
    requires Inv(s) && SeqGt(number, s.lastSentSeq) && now > 0.0
    ensures var i := Choose(s.slots, SLOTS);
      && Sent(s, number, size, now).slots == s.slots[i := Slot(number, size, now)]
      && (IsLive(s.slots[i]) <==> forall k :: 0 <= k < SLOTS ==> IsLive(s.slots[k]))
      && (IsLive(s.slots[i]) ==> forall k :: 0 <= k < SLOTS ==> s.slots[i].sendTime <= s.slots[k].sendTime)
  {
  }

  // A tick loses just what was sent more than two seconds before it, and leaves the rest alone.
  lemma TickLosesExactly(s: State, now: real)
    requires Inv(s) && now > 0.0
    ensures var s' := Ticked(s, now);
      && (forall k :: 0 <= k < SLOTS ==>
            s'.slots[k] == if IsLive(s.slots[k]) && now > s.slots[k].sendTime + 2.0
                           then s.slots[k].(sendTime := 0.0) else s.slots[k])
      && s'.lossCount - s.lossCount == Live(s.slots) - Live(s'.slots)
  {
    ExpiredBalances(Averaged(s), SLOTS, now);
    hide Live, Sizes, Expired;
  }

  // What is in the table was sent in the run, at the time that is noted.
  lemma {:induction false} LiveWasSent(run: seq<Timed>, k: nat) returns (j: nat)
    requires (forall i :: 0 <= i < |run| ==> run[i].now > 0.0) && k < SLOTS && IsLive(After(run).slots[k])
    ensures var x := After(run).slots[k];
      && j < |run| && run[j] == Timed(Send(x.number, x.size), x.sendTime)
      && SeqGt(x.number, After(run[..j]).lastSentSeq)
    decreases |run|
  {
    hide Live, Sizes, SeqGt, Choose, Find;
    var n := |run| - 1;
    var front, e, now := run[..n], run[n].event, run[n].now;
    var s, x := After(front), After(run).slots[k];
    BooksBalance(front);
    if e.Send? && x != s.slots[k] {
      j := n;
    } else {
      if e.Tick? { TickLosesExactly(s, now); }
      assert x == s.slots[k];
      j := LiveWasSent(front, k);
      assert run[..j] == front[..j];
    }
  }

  // The round trip times measured since the last tick: from a packet's sending to its ack.
  function Measured(run: seq<Timed>): seq<real> {
    if run == [] then []
    else
      var front, last := run[..|run| - 1], run[|run| - 1];
      match last.event
      case Tick => []
      case Send(_, _) => Measured(front)
      case Ack(number) =>
        var i := Find(After(front).slots, number);
        if i < SLOTS then Measured(front) + [last.now - After(front).slots[i].sendTime] else Measured(front)
  }

  lemma {:induction false} MeasuredIsSummed(run: seq<Timed>)
    requires forall i :: 0 <= i < |run| ==> run[i].now > 0.0
    ensures After(run).tmpRtt == Sum(Measured(run)) && After(run).tmpRttCount == |Measured(run)|
  {
    hide Live, Sizes, SeqGt, Choose, Find, Expired;
    if run != [] {
      var n := |run| - 1;
      var front, e, now := run[..n], run[n].event, run[n].now;
      MeasuredIsSummed(front);
      match e
      case Tick =>
        BooksBalance(front);
        ExpiredBalances(Averaged(After(front)), SLOTS, now);
      case Send(_, _) =>
      case Ack(number) =>
        var i := Find(After(front).slots, number);
        if i < SLOTS { assert Measured(run)[..|Measured(front)|] == Measured(front); }
    }
  }

  // A tick enters the mean of what was measured since the last one, if anything was.
  lemma TickEntersMean(run: seq<Timed>, now: real)
    requires (forall i :: 0 <= i < |run| ==> run[i].now > 0.0) && now > 0.0
    ensures var m, s, s' := Measured(run), After(run), Ticked(After(run), now);
      s'.rttHistory == if m == [] then s.rttHistory else Push(s.rttHistory, Sum(m) / |m| as real)
  {
    hide Live, Sizes, Expired, Measured, After, Sum;
    MeasuredIsSummed(run);
    BooksBalance(run);
    ExpiredBalances(Averaged(After(run)), SLOTS, now);
  }

  // ----- the table, which is updated in place -----

  class CongestionControl {
    const inflightPackets: array<Slot>
    var inflightDataSize: int
    var lossCount: nat
    var lastSentSeq: uint32
    var tmpRtt: real
    var tmpRttCount: nat
    const rttHistory: Ring

    ghost predicate Valid()
      reads this, inflightPackets, rttHistory, rttHistory.data
    {
      inflightPackets.Length == SLOTS && rttHistory.Valid() && rttHistory.data.Length == RTT_HISTORY && Inv(Value())
    }

    ghost function Value(): State
      requires inflightPackets.Length == SLOTS && rttHistory.Valid() && rttHistory.data.Length == RTT_HISTORY
      reads this, inflightPackets, rttHistory, rttHistory.data
    {
      State(inflightPackets[..], inflightDataSize, lossCount, lastSentSeq, tmpRtt, tmpRttCount, rttHistory.Recent())
    }

    constructor ()
      ensures Valid() && Value() == Start() && fresh(inflightPackets) && fresh(rttHistory) && fresh(rttHistory.data)
    {
      inflightPackets := new Slot[SLOTS](_ => Slot(0, 0, 0.0));
      rttHistory := new Ring(RTT_HISTORY);
      inflightDataSize, lossCount, lastSentSeq, tmpRtt, tmpRttCount := 0, 0, 0, 0.0, 0;
      new;
      assert inflightPackets[..] == Start().slots;
      NoneLive(Start().slots);
    }

    method PacketSent(number: uint32, size: nat, now: real)
      requires Valid() && now > 0.0
      modifies this, inflightPackets
      ensures Valid() && Value() == Sent(old(Value()), number, size, now)
    {
      StepBalances(Value(), Send(number, size), now);
      hide Sizes, Inv;
      if !SeqGt(number, lastSentSeq) || number == lastSentSeq {
        return;
      }
      lastSentSeq := number;
      var slot := ChooseSlot();
      if inflightPackets[slot].sendTime > 0.0 {
        inflightDataSize := inflightDataSize - inflightPackets[slot].size;
        lossCount := lossCount + 1;
      }
      inflightPackets[slot] := Slot(number, size, now);
      inflightDataSize := inflightDataSize + size;
    }

    method ChooseSlot() returns (slot: nat)
      requires inflightPackets.Length == SLOTS
      ensures slot == Choose(inflightPackets[..], SLOTS)
    {
      slot := 0;
      var i := 1;
      while i < inflightPackets.Length && inflightPackets[slot].sendTime != 0.0
        invariant 1 <= i <= inflightPackets.Length && slot == Choose(inflightPackets[..], i)
      {
        if inflightPackets[i].sendTime == 0.0 || inflightPackets[slot].sendTime > inflightPackets[i].sendTime {
          slot := i;
        }
        i := i + 1;
      }
      FreeIsFinal(inflightPackets[..], i, SLOTS);
    }

    method PacketAcknowledged(number: uint32, now: real)
      requires Valid() && now > 0.0
      modifies this, inflightPackets
      ensures Valid() && Value() == Acknowledged(old(Value()), number, now)
    {
      StepBalances(Value(), Ack(number), now);
      var i := 0;
      while i < inflightPackets.Length && !(inflightPackets[i].number == number && inflightPackets[i].sendTime > 0.0)
        invariant i <= inflightPackets.Length
        invariant forall k :: 0 <= k < i ==> !(inflightPackets[k].number == number && IsLive(inflightPackets[k]))
      {
        i := i + 1;
      }
      FindIs(inflightPackets[..], number, i);
      hide Sizes, Inv, Find;
      if i < inflightPackets.Length {
        tmpRtt := tmpRtt + (now - inflightPackets[i].sendTime);
        tmpRttCount := tmpRttCount + 1;
        inflightPackets[i] := inflightPackets[i].(sendTime := 0.0);
        inflightDataSize := inflightDataSize - inflightPackets[i].size;
      }
    }

    method Tick(now: real)
      requires Valid() && now > 0.0
      modifies this, inflightPackets, rttHistory, rttHistory.data
      ensures Valid() && Value() == Ticked(old(Value()), now)
    {
      hide Sizes, Live, Inv, Push, Repeat, Expired;
      StepBalances(Value(), Event.Tick, now);
      if tmpRttCount > 0 {
        rttHistory.Add(tmpRtt / tmpRttCount as real);
        tmpRtt, tmpRttCount := 0.0, 0;
      }
      LoseOld(now);
    }

    // The second half of Tick.
    method LoseOld(now: real)
      requires inflightPackets.Length == SLOTS && rttHistory.Valid() && rttHistory.data.Length == RTT_HISTORY
      modifies `inflightDataSize, `lossCount, inflightPackets
      ensures Value() == Expired(old(Value()), SLOTS, now)
    {
      hide Sizes, Live, Inv, Push, Repeat, Reverse, Turned;
      ghost var start := Value();
      for i := 0 to inflightPackets.Length
        invariant Value() == Expired(start, i, now)
      {
        if inflightPackets[i].sendTime != 0.0 && now - inflightPackets[i].sendTime > 2.0 {
          inflightPackets[i] := inflightPackets[i].(sendTime := 0.0);
          inflightDataSize := inflightDataSize - inflightPackets[i].size;
          lossCount := lossCount + 1;
        }
      }
    }
  }

  lemma {:induction false} FreeIsFinal(slots: seq<Slot>, i: nat, n: nat)
    requires 1 <= i <= n <= |slots| && (i == n || slots[Choose(slots, i)].sendTime == 0.0)
    ensures Choose(slots, n) == Choose(slots, i)
  {
    if i < n { FreeIsFinal(slots, i, n - 1); }
  }

  lemma FindIs(slots: seq<Slot>, number: uint32, i: nat)
    requires i <= |slots| && forall k :: 0 <= k < i ==> !(slots[k].number == number && IsLive(slots[k]))
    requires i < |slots| ==> slots[i].number == number && IsLive(slots[i])
    ensures Find(slots, number) == i
  {
  }
}

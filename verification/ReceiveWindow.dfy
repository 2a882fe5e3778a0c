// The 32-slot receive window of VoIPController, and the mask that reports it to the peer.
module ReceiveWindow {
  import opened Numbers
  import opened Serial

  const SLOTS := 32

  // times[k] is when the packet with number last - k arrived; 0.0 is an empty slot.
  datatype Window = Window(last: uint32, times: seq<real>)

  datatype Verdict = Accepted | Duplicate | TooLate

  predicate IsWindow(w: Window) {
    |w.times| == SLOTS && forall k :: 0 <= k < SLOTS ==> w.times[k] >= 0.0
  }

  function Empty(n: nat): (s: seq<real>)
    ensures |s| == n && forall k :: 0 <= k < n ==> s[k] == 0.0
  {
    seq(n, _ => 0.0)
  }

  const INITIAL := Window(0, Empty(SLOTS))

  function Judge(w: Window, pseq: uint32): Verdict
    requires IsWindow(w)
  {
    if SeqGt(pseq, w.last) then Accepted
    else if Minus(w.last, pseq) >= SLOTS then TooLate
    else if w.times[Minus(w.last, pseq)] != 0.0 then Duplicate
    else Accepted
  }

  function Receive(w: Window, pseq: uint32, now: real): (w': Window)
    requires IsWindow(w) && now > 0.0
    ensures IsWindow(w')
  {
    if SeqGt(pseq, w.last) then
      var diff := Minus(pseq, w.last);
      if diff > 31 then Window(pseq, Empty(SLOTS))
      else Window(pseq, [now] + Empty(diff - 1) + w.times[..SLOTS - diff])
    else if Judge(w, pseq).Accepted? then w.(times := w.times[Minus(w.last, pseq) := now])
    else w
  }

  class Receiver {
    var lastRemoteSeq: uint32
    const recvPacketTimes: array<real>

    ghost predicate Valid()
      reads this, recvPacketTimes
    {
      IsWindow(Contents())
    }

    ghost function Contents(): Window
      reads this, recvPacketTimes
    {
      Window(lastRemoteSeq, recvPacketTimes[..])
    }

    constructor ()
      ensures Valid() && Contents() == INITIAL && fresh(recvPacketTimes)
    {
      lastRemoteSeq := 0;
      recvPacketTimes := new real[SLOTS](_ => 0.0);
      new;
      assert recvPacketTimes[..] == Empty(SLOTS);
    }

    // The first steps of ProcessIncomingPacket with the number of a packet.
    method ReceiveSeq(pseq: uint32, now: real) returns (verdict: Verdict)
      requires Valid() && now > 0.0
      modifies this, recvPacketTimes
      ensures Valid() && verdict == Judge(old(Contents()), pseq)
      ensures Contents() == Receive(old(Contents()), pseq, now)
    {
      if SeqGt(pseq, lastRemoteSeq) {
        var diff := Minus(pseq, lastRemoteSeq);
        if diff > 31 {
          forall k | 0 <= k < recvPacketTimes.Length { recvPacketTimes[k] := 0.0; }
          assert recvPacketTimes[..] == Empty(SLOTS);
        } else {
          ShiftIn(diff, now);
        }
        lastRemoteSeq := pseq;
        verdict := Accepted;
      } else if Minus(lastRemoteSeq, pseq) < SLOTS {
        var k := Minus(lastRemoteSeq, pseq);
        if recvPacketTimes[k] != 0.0 {
          return Duplicate;
        }
        recvPacketTimes[k] := now;
        verdict := Accepted;
      } else {
        verdict := TooLate;
      }
    }

    method ShiftIn(diff: nat, now: real)
      requires Valid() && 1 <= diff <= 31 && now > 0.0
      modifies recvPacketTimes
      ensures recvPacketTimes[..] == [now] + Empty(diff - 1) + old(recvPacketTimes[..])[..SLOTS - diff]
    {
      ghost var was := recvPacketTimes[..];
      forall k | diff <= k < recvPacketTimes.Length { recvPacketTimes[k] := recvPacketTimes[k - diff]; }
      if diff > 1 {
        forall k | 0 <= k < diff { recvPacketTimes[k] := 0.0; }
      }
      recvPacketTimes[0] := now;
      Shifted(was, diff, now, recvPacketTimes[..]);
    }

    // The mask of WritePacketHeader.
    method WriteAcks() returns (acks: uint32)
      requires Valid()
      ensures acks == Mask(Contents().times)
    {
      acks := 0;
      for i := 0 to SLOTS
        invariant acks == if i == SLOTS then MaskOf(recvPacketTimes[..], i) else 2 * MaskOf(recvPacketTimes[..], i)
      {
        MaskOfBound(recvPacketTimes[..], i);
        MaskOfBound(recvPacketTimes[..], i + 1);
        if recvPacketTimes[i] > 0.0 {
          acks := acks + 1;  // acks |= 1, with bit 0 clear
        }
        if i < 31 {
          acks := 2 * acks;  // acks <<= 1, with bit 31 clear
        }
      }
    }
  }

  lemma Shifted(was: seq<real>, diff: nat, now: real, times: seq<real>)
    requires |was| == |times| == SLOTS && 1 <= diff <= 31 && times[0] == now
    requires forall k :: 1 <= k < diff ==> times[k] == 0.0
    requires forall k :: diff <= k < SLOTS ==> times[k] == was[k - diff]
    ensures times == [now] + Empty(diff - 1) + was[..SLOTS - diff]
  {
  }

  // ----- whole runs -----

  // Packet number n (a count with no bound, of which the wire carries 32 bits) arrives.
  datatype Delivery = Delivery(n: nat, now: real)

  // highest: the greatest number accepted; jumped: the numbers that moved the window by
  // more than 31 places; accepted: every number accepted, with repetitions.
  datatype State = State(w: Window, ghost highest: nat, ghost jumped: set<nat>, ghost accepted: multiset<nat>)

  ghost predicate IsRun(ds: seq<Delivery>)
    decreases |ds|, 0
  {
    ds == [] || (
      var prev, d := ds[..|ds| - 1], ds[|ds| - 1];
      && IsRun(prev) && d.now > 0.0
      // an early or late packet is less than half the number space away
      && -HALF < d.n - After(prev).highest < HALF)
  }

  ghost function After(ds: seq<Delivery>): (s: State)
    requires IsRun(ds)
    ensures IsWindow(s.w)
    decreases |ds|, 1
  {
    if ds == [] then State(INITIAL, 0, {}, multiset{})
    else Next(After(ds[..|ds| - 1]), ds[|ds| - 1])
  }

  ghost function Next(s: State, d: Delivery): (s': State)
    requires IsWindow(s.w) && d.now > 0.0
    ensures IsWindow(s'.w)
  {
    var w' := Receive(s.w, Wire(d.n), d.now);
    if Judge(s.w, Wire(d.n)) != Accepted then s.(w := w')
    else State(w',
      if d.n > s.highest then d.n else s.highest,
      if d.n > s.highest + 31 then s.jumped + {d.n} else s.jumped,
      s.accepted + multiset{d.n})
  }

  // What the window knows of packet n.
  ghost predicate SlotAgrees(s: State, n: nat)
    requires IsWindow(s.w)
  {
    && s.accepted[n] <= (if n in s.jumped then 2 else 1)
    && (n > s.highest ==> s.accepted[n] == 0 && n !in s.jumped)
    && (s.highest - 31 <= n <= s.highest ==>
          if s.w.times[s.highest - n] != 0.0 then s.accepted[n] >= 1
          else s.accepted[n] == if n in s.jumped then 1 else 0)
  }

  ghost predicate Inv(s: State) {
    IsWindow(s.w) && s.w.last == Wire(s.highest) && forall n: nat :: SlotAgrees(s, n)
  }

  lemma NextKeepsInv(s: State, d: Delivery)
    requires Inv(s) && d.now > 0.0 && -HALF < d.n - s.highest < HALF
    ensures Inv(Next(s, d))
  {
    var s' := Next(s, d);
    SeqGtOrdersNeighbours(d.n, s.highest);
    SeqGtOrdersNeighbours(s.highest, d.n);
    forall n: nat ensures SlotAgrees(s', n) {
      assert SlotAgrees(s, n);
    }
  }

  lemma {:induction false} RunKeepsInv(ds: seq<Delivery>)
    requires IsRun(ds)
    ensures Inv(After(ds))
    decreases |ds|
  {
    if ds != [] {
      RunKeepsInv(ds[..|ds| - 1]);
      NextKeepsInv(After(ds[..|ds| - 1]), ds[|ds| - 1]);
    }
  }

  // In any run, of any length, a number is accepted at most once, or at most twice if it
  // moved the window by more than 31.
  lemma AcceptedAtMostOnce(ds: seq<Delivery>, n: nat)
    requires IsRun(ds)
    ensures After(ds).accepted[n] <= if n in After(ds).jumped then 2 else 1
  {
    RunKeepsInv(ds);
    assert SlotAgrees(After(ds), n);
  }

  // A delivery is accepted exactly when it is less than 32 behind the highest number
  // and is new, or repeats a number that jumped and whose slot is still empty.
  lemma AcceptedExactly(ds: seq<Delivery>, d: Delivery)
    requires IsRun(ds + [d])
    ensures IsRun(ds)
    ensures var s := After(ds);
      Judge(s.w, Wire(d.n)) == Accepted
      <==> d.n > s.highest - 32
           && (s.accepted[d.n] == 0
               || (d.n in s.jumped && d.n <= s.highest && s.w.times[s.highest - d.n] == 0.0))
  {
    hide Next, Receive, Judge, Inv;
    var all := ds + [d];
    assert all[..|all| - 1] == ds && all[|all| - 1] == d;
    RunKeepsInv(ds);
    JudgedExactly(After(ds), d);
  }

  lemma JudgedExactly(s: State, d: Delivery)
    requires Inv(s) && d.now > 0.0 && -HALF < d.n - s.highest < HALF
    ensures Judge(s.w, Wire(d.n)) == Accepted
      <==> d.n > s.highest - 32
           && (s.accepted[d.n] == 0
               || (d.n in s.jumped && d.n <= s.highest && s.w.times[s.highest - d.n] == 0.0))
  {
    SeqGtOrdersNeighbours(d.n, s.highest);
    SeqGtOrdersNeighbours(s.highest, d.n);
    assert SlotAgrees(s, d.n);
  }

  // The exception is real: 40 jumps over the window, its slot stays empty, and it is
  // accepted again when it is repeated.
  lemma JumpIsAcceptedTwice()
    ensures var ds := [Delivery(40, 1.0), Delivery(40, 2.0)];
      IsRun(ds) && After(ds).accepted[40] == 2
  {
    var d, e := Delivery(40, 1.0), Delivery(40, 2.0);
    RunExtends([], d);
    assert [] + [d] == [d] && [d] + [e] == [d, e];
    assert After([d]).w == Window(40, Empty(SLOTS));
    RunExtends([d], e);
  }

  lemma RunExtends(ds: seq<Delivery>, d: Delivery)
    requires IsRun(ds) && d.now > 0.0 && -HALF < d.n - After(ds).highest < HALF
    ensures IsRun(ds + [d]) && After(ds + [d]) == Next(After(ds), d)
  {
    hide Next;
    var all := ds + [d];
    assert all[..|all| - 1] == ds && all[|all| - 1] == d;
  }

  // ----- the mask -----

  // The first k slots, the latest of them in bit 0.
  function MaskOf(times: seq<real>, k: nat): nat
    requires k <= |times|
  {
    if k == 0 then 0 else 2 * MaskOf(times, k - 1) + Bit(times[k - 1] > 0.0)
  }

  lemma {:induction false} MaskOfBound(times: seq<real>, k: nat)
    requires k <= |times|
    ensures MaskOf(times, k) < Pow2(k)
    ensures k <= 32 ==> Pow2(k) <= MODULUS && Pow2(32) == MODULUS && (k < 32 ==> 2 * Pow2(k) <= MODULUS)
  {
    if k > 0 {
      MaskOfBound(times, k - 1);
    }
    Pow2Values(k);
  }

  lemma {:induction false} Pow2Values(k: nat)
    ensures Pow2(32) == MODULUS && (k <= 32 ==> Pow2(k) <= MODULUS) && (k < 32 ==> 2 * Pow2(k) <= MODULUS)
    decreases 32 - k
  {
    assert Pow2(8) == 256;
    assert Pow2(16) == 0x1_0000;
    assert Pow2(24) == 0x100_0000;
    if k < 32 {
      Pow2Values(k + 1);
    }
  }

  function Mask(times: seq<real>): uint32
    requires |times| == SLOTS
  {
    MaskOfBound(times, SLOTS);
    MaskOf(times, SLOTS)
  }

  // (acks >> k) & 1
  predicate HasBit(acks: uint32, k: nat) {
    acks / Pow2(k) % 2 == 1
  }

  lemma {:induction false} MaskOfBit(times: seq<real>, k: nat, i: nat)
    requires i < k <= |times|
    ensures MaskOf(times, k) / Pow2(k - 1 - i) % 2 == Bit(times[i] > 0.0)
  {
    if i == k - 1 {
      assert Pow2(0) == 1;
    } else {
      MaskOfBit(times, k - 1, i);
      assert Pow2(k - 1 - i) == 2 * Pow2(k - 2 - i);
      HalveTwice(MaskOf(times, k), MaskOf(times, k - 1), Bit(times[k - 1] > 0.0), Pow2(k - 2 - i));
    }
  }

  lemma HalveTwice(m: nat, half: nat, b: int, p: nat)
    requires m == 2 * half + b && 0 <= b <= 1 && p > 0
    ensures m / (2 * p) == half / p
  {
    var q, r := half / p, half % p;
    assert half == q * p + r;
    assert m == q * (2 * p) + (2 * r + b);
    DivUnique(m, 2 * p, q, 2 * r + b);
  }

  // What the peer reads from the mask: bit 31 - i stands for number ackId - (i + 1).
  predicate ReadsAs(ackId: uint32, acks: uint32, i: int, n: uint32) {
    0 <= i < 31 && HasBit(acks, 31 - i) && n == Minus(ackId, i + 1)
  }

  ghost predicate Reported(ackId: uint32, acks: uint32, n: uint32) {
    exists i :: ReadsAs(ackId, acks, i, n)
  }

  lemma MaskHasBit(times: seq<real>, i: nat)
    requires |times| == SLOTS && i < SLOTS
    ensures HasBit(Mask(times), 31 - i) <==> times[i] > 0.0
  {
    MaskOfBit(times, SLOTS, i);
    hide MaskOf, Pow2;
  }

  lemma MinusTwice(last: uint32, i: nat)
    requires i < 31
    ensures Minus(Minus(last, i), 1) == Minus(last, i + 1)
  {
  }

  lemma ReadsSlot(w: Window, i: nat, n: uint32)
    requires IsWindow(w) && i < 31
    ensures ReadsAs(w.last, Mask(w.times), i, n) <==> w.times[i] != 0.0 && n == Minus(Minus(w.last, i), 1)
  {
    MaskHasBit(w.times, i);
    MinusTwice(w.last, i);
    hide Mask, HasBit, Minus;
  }

  predicate SlotReports(w: Window, i: int, n: uint32)
    requires IsWindow(w)
  {
    0 <= i < 31 && w.times[i] != 0.0 && n == Minus(Minus(w.last, i), 1)
  }

  // The numbers read are those of the filled slots 0 to 30, each moved down by one.
  lemma ReportedNumbers(w: Window, n: uint32)
    requires IsWindow(w)
    ensures Reported(w.last, Mask(w.times), n) <==> exists i :: SlotReports(w, i, n)
  {
    forall i | 0 <= i < 31 ensures ReadsAs(w.last, Mask(w.times), i, n) <==> SlotReports(w, i, n) {
      ReadsSlot(w, i, n);
    }
    hide Mask, HasBit;
  }

  // So the mask is no proof of arrival: after packet 5 alone, packet 4 is reported.
  lemma ReportIsUnsound()
    ensures var ds := [Delivery(5, 1.0)];
      IsRun(ds) && After(ds).accepted[4] == 0 && Reported(After(ds).w.last, Mask(After(ds).w.times), 4)
  {
    var d := Delivery(5, 1.0);
    RunExtends([], d);
    assert [] + [d] == [d];
    var w := After([d]).w;
    assert w == Receive(INITIAL, 5, 1.0);
    ReportedNumbers(w, 4);
    assert SlotReports(w, 0, 4);
  }

  lemma ReportIsTrueAt(s: State, n: nat)
    requires Inv(s) && s.highest - 31 <= n < s.highest
    ensures IsWindow(s.w)
    ensures var at := s.highest - n;
      (Reported(s.w.last, Mask(s.w.times), Wire(n)) ==> s.accepted[n] >= 1)
      <==> s.w.times[at - 1] == 0.0 || s.w.times[at] != 0.0 || n in s.jumped
  {
    ReportAgrees(s, n);
    assert IsWindow(s.w) && s.w.last == Wire(s.highest);
    hide Inv, Mask, Reported, SlotReports, Wire;
    ReportedNumbers(s.w, Wire(n));
    ReportedAt(s, n);
  }

  // A report of an earlier number is true just if its bit is clear, or the slot of the
  // number itself is filled too, or the number jumped.
  lemma ReportIsTrueExactly(ds: seq<Delivery>, n: nat)
    requires IsRun(ds) && After(ds).highest - 31 <= n < After(ds).highest
    ensures IsWindow(After(ds).w)
    ensures var s := After(ds);
      var at := s.highest - n;
      (Reported(s.w.last, Mask(s.w.times), Wire(n)) ==> s.accepted[n] >= 1)
      <==> s.w.times[at - 1] == 0.0 || s.w.times[at] != 0.0 || n in s.jumped
  {
    hide Inv, Mask, Reported, After, IsRun;
    RunKeepsInv(ds);
    ReportIsTrueAt(After(ds), n);
  }

  lemma ReportAgrees(s: State, n: nat)
    requires Inv(s) && s.highest - 31 <= n < s.highest
    ensures s.accepted[n] >= 1 <==> s.w.times[s.highest - n] != 0.0 || n in s.jumped
  {
    assert SlotAgrees(s, n);
  }

  lemma ModShift(a: int, d: nat)
    requires d <= SLOTS
    ensures (a % MODULUS - d) % MODULUS == (a - d) % MODULUS
  {
    assert a - d == a / MODULUS * MODULUS + (a % MODULUS - d);
  }

  lemma WireBack(h: nat, i: nat)
    requires i < 31
    ensures Minus(Minus(Wire(h), i), 1) == (h - i - 1) % MODULUS
  {
    ModShift(h, i);
    ModShift(h - i, 1);
  }

  lemma WireApart(a: int, n: nat)
    requires -MODULUS < a - n < MODULUS
    ensures a % MODULUS == Wire(n) <==> a == n
  {
  }

  // Among numbers less than 32 behind the highest, just one slot reports n.
  lemma ReportedAt(s: State, n: nat)
    requires IsWindow(s.w) && s.w.last == Wire(s.highest) && s.highest - 31 <= n < s.highest
    ensures (exists i :: SlotReports(s.w, i, Wire(n))) <==> s.w.times[s.highest - n - 1] != 0.0
  {
    forall i | 0 <= i < 31 ensures Wire(n) == Minus(Minus(s.w.last, i), 1) <==> i == s.highest - n - 1 {
      WireBack(s.highest, i);
      WireApart(s.highest - i - 1, n);
      hide Minus, Wire;
    }
    assert s.w.times[s.highest - n - 1] != 0.0 ==> SlotReports(s.w, s.highest - n - 1, Wire(n));
  }

  datatype RecentPacket = RecentPacket(number: uint32, ackTime: real)

  // The loops of ProcessIncomingPacket over the packets sent of late.
  method MarkAcked(ackId: uint32, acks: uint32, recent: seq<RecentPacket>, now: real) returns (r: seq<RecentPacket>)
    requires now != 0.0
    ensures |r| == |recent|
    ensures forall p :: 0 <= p < |recent| ==>
      r[p] == if recent[p].ackTime == 0.0 && Reported(ackId, acks, recent[p].number)
              then recent[p].(ackTime := now) else recent[p]
  {
    r := recent;
    for i := 0 to 31
      invariant |r| == |recent|
      invariant forall p :: 0 <= p < |recent| ==> r[p] == Marked(recent[p], ackId, acks, i, now)
    {
      for p := 0 to |r|
        invariant |r| == |recent|
        invariant forall q :: 0 <= q < |recent| ==>
          r[q] == Marked(recent[q], ackId, acks, if q < p then i + 1 else i, now)
      {
        if r[p].ackTime != 0.0 {
          continue;
        }
        if ReadsAs(ackId, acks, i, r[p].number) {
          r := r[p := r[p].(ackTime := now)];
        }
      }
    }
  }

  // A packet once the first k bits have been looked at.
  ghost function Marked(p: RecentPacket, ackId: uint32, acks: uint32, k: nat, now: real): RecentPacket {
    if p.ackTime == 0.0 && exists i :: i < k && ReadsAs(ackId, acks, i, p.number)
    then p.(ackTime := now) else p
  }
}

// What the counters of the jitter buffer count, and when it gives up.
module JitterLosses {
  import opened HistoricBuffer
  import opened Serial
  import opened JitterModel
  import opened JitterRuns
  import opened JitterDelivery
  import JitterPlaybackTime

  // Outputs in a row that found nothing, those lost and packets got since the last giving up,
  // what was lost in all without what came late after all, and late packets since the last tick.
  datatype Tally = Tally(row: nat, lost: nat, got: nat, net: int, late: nat)

  predicate Late(s: State, e: Event) {
    Opens(s, e) && !s.wasReset && e.ts < s.nextTimestamp
  }

  function TallyOne(c: Config, s: State, e: Event, t: Tally): Tally
    requires IsEvent(e) && c.step > 0
  {
    match e
    case Input(_, _, _) =>
      if !Opens(s, e) then t
      else if Late(s, e) then t.(got := t.got + 1, late := t.late + 1, net := t.net - 1)
      else t.(got := t.got + 1)
    case Playback(_, offset, _) =>
      var one := if offset == 0 then 1 else 0;
      if Fetches(c, s, e).Buffering? then t
      else if !Fetches(c, s, e).Missing? then t.(row := 0)
      else if GivesUp(c, s, e) then Tally(0, 0, 0, t.net + one, t.late)
      else t.(row := t.row + 1, lost := t.lost + one, net := t.net + one)
    case Ticked(_) => t.(late := 0)
    case SetMin(_) => t
  }

  function TallyOf(c: Config, s: State, run: seq<Event>): Tally
    requires IsRun(run) && c.step > 0
  {
    if run == [] then Tally(0, 0, 0, 0, 0)
    else
      var n := |run| - 1;
      TallyOne(c, After(c, s, run[..n]), run[n], TallyOf(c, s, run[..n]))
  }

  predicate Tallies(s: State, t: Tally) {
    s.n == Counters(t.row, t.lost, t.got, t.late, t.net)
  }

  lemma BeginKeepsRest(c: Config, s: State)
    ensures var b := Begin(c, s); b.n == s.n && b.d == s.d && b.m == s.m && b.needBuffering == s.needBuffering
  {
    JitterPlaybackTime.DropKeepsRest(c, s.(first := false), Count(s.slots));
  }

  // An output that finds nothing gives up if too many were lost in a row, or more than half of
  // many packets got.
  predicate TooManyLost(c: Config, d: Delay, t: Tally, offset: int) {
    || t.row + 1 >= c.lossesToReset
    || (t.got > 25 * d.minDelay && t.lost + (if offset == 0 then 1 else 0) > t.got / 2)
  }

  lemma OutputTallies(c: Config, s: State, e: Event, t: Tally)
    requires e.Playback? && IsEvent(e) && c.step > 0 && Tallies(s, t)
    ensures Tallies(Step(c, s, e), TallyOne(c, s, e, t))
    ensures Fetches(c, s, e).Missing? ==> (GivesUp(c, s, e) <==> TooManyLost(c, s.d, t, e.offset))
    ensures GivesUp(c, s, e) ==> AllEmpty(Step(c, s, e).slots) && Step(c, s, e).wasReset
  {
    hide Begin, First, Count, Fetches, Step, LostTooMany, TooManyLost, Take, Miss, AllEmpty;
    BeginKeepsRest(c, s);
    OutputGets(c, s, e);
    var b := Begin(c, s);
    if First(b.slots, Held(Reads(c, b, e))) == |b.slots| {
      MissTallies(c, b, e.offset, e.advance, t);
      LostIs(c, b, t, e.offset);
    } else {
      TakeTallies(c, b, First(b.slots, Held(Reads(c, b, e))), e.offset);
    }
  }

  lemma TakeTallies(c: Config, s: State, i: nat, offset: int)
    requires i < |s.slots|
    ensures Take(c, s, i, offset).n == s.n.(lostCount := 0)
  {
  }

  lemma MissTallies(c: Config, s: State, offset: int, advance: bool, t: Tally)
    requires Tallies(s, t)
    ensures var s' := Miss(c, s, offset, advance);
      if s.needBuffering then s'.n == s.n && s'.needBuffering
      else if LostTooMany(c, s.d, CountLoss(s.n, offset)) then
        s'.n == CountLoss(s.n, offset).(lostCount := 0, lostSinceReset := 0, gotSinceReset := 0)
        && s'.needBuffering && s'.wasReset && AllEmpty(s'.slots)
      else s'.n == CountLoss(s.n, offset) && !s'.needBuffering
  {
    hide Count, LostTooMany, CountLoss;
  }

  lemma LostIs(c: Config, s: State, t: Tally, offset: int)
    requires Tallies(s, t)
    ensures LostTooMany(c, s.d, CountLoss(s.n, offset)) <==> TooManyLost(c, s.d, t, offset)
  {
  }

  lemma PutTallies(c: Config, s: State, e: Event, t: Tally)
    requires e.Input? && IsEvent(e) && c.step > 0 && Tallies(s, t)
    ensures Tallies(Step(c, s, e), TallyOne(c, s, e, t))
  {
    if Opens(s, e) {
      PrepareCounts(c, s, e);
      PlaceKeepsCounts(c, Prepare(c, s, e.ts, e.now), e.ts, e.packet);
      hide Prepare, Place;
    }
  }

  lemma PrepareCounts(c: Config, s: State, e: Event)
    requires e.Input? && Opens(s, e)
    ensures var late := if Late(s, e) then 1 else 0;
      Prepare(c, s, e.ts, e.now).n == s.n.(gotSinceReset := s.n.gotSinceReset + 1,
        latePacketCount := s.n.latePacketCount + late, lostPackets := s.n.lostPackets - late)
  {
    hide First;
  }

  lemma PlaceKeepsCounts(c: Config, s: State, ts: uint32, p: Packet)
    ensures Place(c, s, ts, p).n == s.n
  {
    hide First, Victim, Count;
  }

  lemma StepTallies(c: Config, s: State, e: Event, t: Tally)
    requires IsEvent(e) && c.step > 0 && Tallies(s, t)
    ensures Tallies(Step(c, s, e), TallyOne(c, s, e, t))
  {
    hide Put, Output, Opens, Late;
    match e
    case Input(_, _, _) => PutTallies(c, s, e, t);
    case Playback(_, _, _) => OutputTallies(c, s, e, t);
    case Ticked(_) =>
    case SetMin(_) =>
  }

  // The counters of a buffer count what its run shows.
  lemma {:induction false} CountersTally(c: Config, minMinDelay: nat, run: seq<Event>)
    requires IsRun(run) && c.step > 0
    ensures Tallies(After(c, New(minMinDelay), run), TallyOf(c, New(minMinDelay), run))
  {
    hide Step, TallyOne;
    if run != [] {
      var n := |run| - 1;
      CountersTally(c, minMinDelay, run[..n]);
      StepTallies(c, After(c, New(minMinDelay), run[..n]), run[n], TallyOf(c, New(minMinDelay), run[..n]));
    }
  }

  // Whether an output that finds nothing gives up is told by the run before it, and giving up
  // leaves nothing behind.
  lemma GivesUpExactly(c: Config, minMinDelay: nat, run: seq<Event>, e: Event)
    requires IsRun(run) && c.step > 0 && e.Playback? && IsEvent(e)
    requires Fetches(c, After(c, New(minMinDelay), run), e).Missing?
    ensures var s := After(c, New(minMinDelay), run);
      && (GivesUp(c, s, e) <==> TooManyLost(c, s.d, TallyOf(c, New(minMinDelay), run), e.offset))
      && (GivesUp(c, s, e) ==> AllEmpty(Step(c, s, e).slots) && Step(c, s, e).wasReset)
  {
    hide Step, Fetches, GivesUp, TooManyLost, AllEmpty, New, After;
    CountersTally(c, minMinDelay, run);
    OutputTallies(c, After(c, New(minMinDelay), run), e, TallyOf(c, New(minMinDelay), run));
  }

  // How many packets were late at each tick since the last giving up, the latest first.
  function LateAtTicks(c: Config, s: State, run: seq<Event>): seq<real>
    requires IsRun(run) && c.step > 0
  {
    if run == [] then []
    else
      var n := |run| - 1;
      var before, at := LateAtTicks(c, s, run[..n]), After(c, s, run[..n]);
      if run[n].Ticked? then [TallyOf(c, s, run[..n]).late as real] + before
      else if GivesUp(c, at, run[n]) then []
      else before
  }

  predicate Recalls(h: History, late: seq<real>) {
    forall k :: 0 <= k < HISTORY ==> h[k] == if k < |late| then late[k] else 0.0
  }

  lemma StepRecalls(c: Config, s: State, e: Event, late: seq<real>)
    requires IsEvent(e) && c.step > 0 && Recalls(s.m.lateHistory, late)
    ensures Recalls(Step(c, s, e).m.lateHistory,
      if e.Ticked? then [s.n.latePacketCount as real] + late else if GivesUp(c, s, e) then [] else late)
  {
    hide Put, Output, Tick, GivesUp, Recalls;
    match e
    case Input(_, _, _) =>
      PutKeepsHistory(c, s, e);
      assert !GivesUp(c, s, e) by { NoOutputNoGiveUp(c, s, e); }
    case Playback(_, _, _) =>
      OutputHistory(c, s, e);
      NothingRecalled();
    case Ticked(stddev) => TickPushes(c, s, stddev, late);
    case SetMin(_) => NoOutputNoGiveUp(c, s, e);
  }

  lemma NoOutputNoGiveUp(c: Config, s: State, e: Event)
    requires IsEvent(e) && c.step > 0 && !e.Playback?
    ensures !GivesUp(c, s, e)
  {
  }

  lemma PutKeepsHistory(c: Config, s: State, e: Event)
    requires e.Input?
    ensures Put(c, s, e.ts, e.packet, e.now).m.lateHistory == s.m.lateHistory
  {
    hide First, Victim, Count;
  }

  lemma OutputHistory(c: Config, s: State, e: Event)
    requires e.Playback? && IsEvent(e) && c.step > 0
    ensures Step(c, s, e).m.lateHistory == if GivesUp(c, s, e) then NO_HISTORY else s.m.lateHistory
  {
    hide Begin, First, Count, Step, Fetches, Take, Miss;
    BeginKeepsRest(c, s);
    OutputGets(c, s, e);
    var b := Begin(c, s);
    var i := First(b.slots, Held(Reads(c, b, e)));
    if i < |b.slots| { TakeKeepsHistory(c, b, i, e.offset); } else { MissHistory(c, b, e.offset, e.advance); }
  }

  lemma TakeKeepsHistory(c: Config, s: State, i: nat, offset: int)
    requires i < |s.slots|
    ensures Take(c, s, i, offset).m == s.m
  {
  }

  lemma MissHistory(c: Config, s: State, offset: int, advance: bool)
    ensures var s' := Miss(c, s, offset, advance);
      s'.m.lateHistory == if !s.needBuffering && s'.needBuffering then NO_HISTORY else s.m.lateHistory
  {
    hide Count, LostTooMany, CountLoss;
  }

  lemma TickPushes(c: Config, s: State, stddev: real, late: seq<real>)
    requires c.step > 0 && stddev >= 0.0 && Recalls(s.m.lateHistory, late)
    ensures Recalls(Tick(c, s, stddev).m.lateHistory, [s.n.latePacketCount as real] + late)
  {
    assert Tick(c, s, stddev).m.lateHistory == Push(s.m.lateHistory, s.n.latePacketCount as real) by {
      hide Sum, AllZero, Count, Adapted, Correct;
    }
    hide Tick;
  }

  lemma {:induction false} LateHistoryRecalls(c: Config, minMinDelay: nat, run: seq<Event>)
    requires IsRun(run) && c.step > 0
    ensures Recalls(After(c, New(minMinDelay), run).m.lateHistory, LateAtTicks(c, New(minMinDelay), run))
  {
    hide Step, Recalls, GivesUp, Tallies;
    if run == [] {
      NothingRecalled();
    } else {
      var n := |run| - 1;
      LateHistoryRecalls(c, minMinDelay, run[..n]);
      CountersTally(c, minMinDelay, run[..n]);
      StepRecalls(c, After(c, New(minMinDelay), run[..n]), run[n], LateAtTicks(c, New(minMinDelay), run[..n]));
      LateIs(After(c, New(minMinDelay), run[..n]), TallyOf(c, New(minMinDelay), run[..n]));
    }
  }

  lemma NothingRecalled()
    ensures Recalls(NO_HISTORY, [])
  {
  }

  lemma LateIs(s: State, t: Tally)
    requires Tallies(s, t)
    ensures s.n.latePacketCount == t.late
  {
  }

  function Total(late: seq<real>, n: nat): real {
    if n == 0 then 0.0 else Total(late, n - 1) + if n <= |late| then late[n - 1] else 0.0
  }

  lemma {:induction false} TotalIs(h: History, late: seq<real>, n: nat)
    requires Recalls(h, late) && n <= HISTORY
    ensures Sum(h[..n]) == Total(late, n)
  {
    if n > 0 {
      TotalIs(h, late, n - 1);
      assert h[..n][..n - 1] == h[..n - 1];
    }
  }

  // A tick asks for a resync just if the last sixteen ticks, with this one, found so many late
  // packets on average as the threshold says.
  lemma TickResyncsExactly(c: Config, minMinDelay: nat, run: seq<Event>)
    requires IsRun(run) && c.step > 0 && run != [] && run[|run| - 1].Ticked?
    ensures After(c, New(minMinDelay), run).wasReset <==>
      || After(c, New(minMinDelay), run[..|run| - 1]).wasReset
      || Total(LateAtTicks(c, New(minMinDelay), run), 16) / 16.0 >= c.resyncThreshold
  {
    hide Total, Recalls, LateAtTicks, Sum, New, Step, Tick;
    var n := |run| - 1;
    LateHistoryRecalls(c, minMinDelay, run);
    TotalIs(After(c, New(minMinDelay), run).m.lateHistory, LateAtTicks(c, New(minMinDelay), run), 16);
    TickResyncs(c, After(c, New(minMinDelay), run[..n]), run[n]);
  }

  lemma TickResyncs(c: Config, s: State, e: Event)
    requires IsEvent(e) && c.step > 0 && e.Ticked?
    ensures var s' := Step(c, s, e);
      s'.wasReset <==> s.wasReset || Sum(s'.m.lateHistory[..16]) / 16.0 >= c.resyncThreshold
  {
    hide Sum, AllZero, Count, Adapted, Correct;
  }

  // ----- when packets are expected -----

  // When the packets came that got a place since the last giving up.
  function Arrivals(c: Config, s: State, run: seq<Event>): seq<real>
    requires IsRun(run) && c.step > 0
  {
    if run == [] then []
    else
      var n := |run| - 1;
      var before, at := Arrivals(c, s, run[..n]), After(c, s, run[..n]);
      if Opens(at, run[n]) then before + [run[n].now]
      else if GivesUp(c, at, run[n]) then []
      else before
  }

  // A packet is expected a step behind the one before, counted from the first.
  function Expected(c: Config, first: real, n: nat): real {
    first + n as real * (c.step as real / 1000.0)
  }

  // How early each packet behind the first one was, the latest first.
  function Earliness(c: Config, times: seq<real>): seq<real> {
    if |times| <= 1 then []
    else
      var n := |times| - 1;
      [Expected(c, times[0], n) - times[n]] + Earliness(c, times[..n])
  }

  predicate Measures(c: Config, m: Measured, times: seq<real>) {
    && Recalls(m.deviationHistory, Earliness(c, times))
    && m.expectNextAtTime == (if times == [] then 0.0 else Expected(c, times[0], |times|))
  }

  predicate AreTimes(run: seq<Event>) {
    forall e :: e in run && e.Input? ==> e.now >= 0.0
  }

  lemma ObserveMeasures(c: Config, m: Measured, times: seq<real>, now: real)
    requires c.step > 0 && Measures(c, m, times) && now >= 0.0 && forall x :: x in times ==> x >= 0.0
    ensures Measures(c, Observe(c, m, now), times + [now])
  {
    hide Expected, Recalls;
    var more := times + [now];
    assert more[..|times|] == times;
    if times == [] {
      ExpectedNext(c, now, 0);
      assert Earliness(c, more) == [];
    } else {
      assert times[0] in times;
      ExpectedNext(c, times[0], |times|);
      assert Earliness(c, more) == [Expected(c, times[0], |times|) - now] + Earliness(c, times);
      RecallsMore(m.deviationHistory, Earliness(c, times), Expected(c, times[0], |times|) - now);
    }
  }

  lemma RecallsMore(h: History, late: seq<real>, x: real)
    requires Recalls(h, late)
    ensures Recalls(Push(h, x), [x] + late)
  {
  }

  lemma ExpectedNext(c: Config, first: real, n: nat)
    requires c.step > 0
    ensures Expected(c, first, 0) == first
    ensures Expected(c, first, n + 1) == Expected(c, first, n) + c.step as real / 1000.0
    ensures n > 0 ==> Expected(c, first, n) > first
  {
    var step := c.step as real / 1000.0;
    assert (n + 1) as real * step == n as real * step + step;
    if n > 0 { assert n as real * step > 0.0; }
  }

  lemma PutObserves(c: Config, s: State, e: Event)
    requires e.Input?
    ensures Put(c, s, e.ts, e.packet, e.now).m == if Opens(s, e) then Observe(c, s.m, e.now) else s.m
  {
    hide First, Victim, Count, Observe;
  }

  lemma OutputForgets(c: Config, s: State, e: Event)
    requires e.Playback? && IsEvent(e) && c.step > 0
    ensures Step(c, s, e).m == if GivesUp(c, s, e) then Measured(0.0, NO_HISTORY, NO_HISTORY, NO_HISTORY) else s.m
  {
    hide Begin, First, Count, Step, Fetches, Take, Miss;
    BeginKeepsRest(c, s);
    OutputGets(c, s, e);
    var b := Begin(c, s);
    var i := First(b.slots, Held(Reads(c, b, e)));
    if i < |b.slots| { TakeKeepsHistory(c, b, i, e.offset); } else { MissForgets(c, b, e.offset, e.advance); }
  }

  lemma MissForgets(c: Config, s: State, offset: int, advance: bool)
    ensures var s' := Miss(c, s, offset, advance);
      s'.m == if !s.needBuffering && s'.needBuffering then Measured(0.0, NO_HISTORY, NO_HISTORY, NO_HISTORY) else s.m
  {
    hide Count, LostTooMany, CountLoss;
  }

  lemma TickKeepsArrivals(c: Config, s: State, stddev: real)
    requires c.step > 0 && stddev >= 0.0
    ensures var m := Tick(c, s, stddev).m;
      m.deviationHistory == s.m.deviationHistory && m.expectNextAtTime == s.m.expectNextAtTime
  {
    hide Sum, AllZero, Count, Adapted, Correct;
  }

  // The deviations are how much earlier the packets came than a steady stream from the first
  // one on would have them.
  lemma {:induction false} DeviationsAreMeasured(c: Config, minMinDelay: nat, run: seq<Event>)
    requires IsRun(run) && c.step > 0 && AreTimes(run)
    ensures Measures(c, After(c, New(minMinDelay), run).m, Arrivals(c, New(minMinDelay), run))
    ensures forall x :: x in Arrivals(c, New(minMinDelay), run) ==> x >= 0.0
  {
    hide Step, Measures, GivesUp, Opens, Observe, Recalls;
    if run == [] {
      NothingMeasured(c);
    } else {
      var n := |run| - 1;
      var s, e := After(c, New(minMinDelay), run[..n]), run[n];
      DeviationsAreMeasured(c, minMinDelay, run[..n]);
      assert e in run;
      if !e.Input? { OutputOpensNothing(s, e); }
      StepMeasures(c, s, e, Arrivals(c, New(minMinDelay), run[..n]));
    }
  }

  lemma NothingMeasured(c: Config)
    ensures Measures(c, Measured(0.0, NO_HISTORY, NO_HISTORY, NO_HISTORY), [])
  {
    NothingRecalled();
  }

  lemma StepMeasures(c: Config, s: State, e: Event, times: seq<real>)
    requires IsEvent(e) && c.step > 0 && Measures(c, s.m, times) && (e.Input? ==> e.now >= 0.0)
    requires forall x :: x in times ==> x >= 0.0
    ensures Measures(c, Step(c, s, e).m,
      if Opens(s, e) then times + [e.now] else if GivesUp(c, s, e) then [] else times)
  {
    hide Put, Output, Tick, GivesUp, Opens, Observe, Recalls, Earliness;
    match e
    case Input(_, _, now) =>
      PutObserves(c, s, e);
      NoOutputNoGiveUp(c, s, e);
      ObserveMeasures(c, s.m, times, now);
    case Playback(_, _, _) =>
      OutputForgets(c, s, e);
      NothingMeasured(c);
      OutputOpensNothing(s, e);
    case Ticked(stddev) =>
      TickKeepsArrivals(c, s, stddev);
      NoOutputNoGiveUp(c, s, e);
      OutputOpensNothing(s, e);
    case SetMin(_) =>
      NoOutputNoGiveUp(c, s, e);
      OutputOpensNothing(s, e);
  }

  lemma OutputOpensNothing(s: State, e: Event)
    requires !e.Input?
    ensures !Opens(s, e)
  {
  }
}

// Playback time over whole runs: where every stretched or shortened output comes from.
module JitterPlaybackTime {
  import opened HistoricBuffer
  import opened JitterModel
  import opened JitterRuns

  // How much longer than 60 the output of an event plays.
  function Extra(c: Config, s: State, e: Event): int {
    if e.Playback? then Output(c, s, e.len, e.offset, e.advance).duration - 60 else 0
  }

  // What Tick asks for: 60 for each packet the wanted delay moves by, and its correction.
  function Asked(c: Config, s: State, e: Event): int
    requires IsEvent(e) && c.step > 0
  {
    if e.Ticked? then
      var d := Adapted(c, s, e.stddev);
      60 * (d.minDelay - s.d.minDelay) + Correction(d, Note(c, s).m.delayHistory)
    else 0
  }

  // An output that finds nothing, once too often, resets the buffer.
  predicate GivesUp(c: Config, s: State, e: Event) {
    e.Playback? &&
    var b := Begin(c, s);
    && First(b.slots, Held(b.nextTimestamp + e.offset * c.step)) == |b.slots|
    && !b.needBuffering && LostTooMany(c, b.d, CountLoss(b.n, e.offset))
  }

  function Discarded(c: Config, s: State, e: Event): int {
    if Resyncs(s, e) || GivesUp(c, s, e) then s.d.outstandingDelayChange else 0
  }

  // The output plays longer because nothing is left after it and no change is outstanding.
  predicate RanEmpty(c: Config, s: State, e: Event) {
    e.Playback? && e.advance &&
    var got := Get(c, Begin(c, s), e.len, e.offset, e.advance).0;
    got.d.outstandingDelayChange == 0 && Count(got.slots) == 0
  }

  datatype Ledger = Ledger(extra: int, asked: int, discarded: int, ranEmpty: nat)

  function Account(c: Config, s: State, run: seq<Event>): Ledger
    requires IsRun(run) && c.step > 0
  {
    if run == [] then Ledger(0, 0, 0, 0)
    else
      var front, e := run[..|run| - 1], run[|run| - 1];
      var at, l := After(c, s, front), Account(c, s, front);
      Ledger(l.extra + Extra(c, at, e), l.asked + Asked(c, at, e), l.discarded + Discarded(c, at, e),
             l.ranEmpty + if RanEmpty(c, at, e) then 1 else 0)
  }

  lemma {:induction false} DropKeepsRest(c: Config, s: State, delay: nat)
    ensures var s' := DropDownTo(c, s, delay); s' == s.(slots := s'.slots, nextTimestamp := s'.nextTimestamp)
    decreases delay
  {
    if delay > s.d.minDelay { DropKeepsRest(c, Drop(c, s), delay - 1); }
  }

  lemma BeginKeepsDelay(c: Config, s: State)
    ensures Begin(c, s).d == s.d
  {
    DropKeepsRest(c, s.(first := false), Count(s.slots));
  }

  lemma GetDelay(c: Config, s: State, e: Event)
    requires e.Playback?
    ensures Get(c, Begin(c, s), e.len, e.offset, e.advance).0.d ==
      if GivesUp(c, s, e) then
        s.d.(outstandingDelayChange := 0, dontChangeDelay := 0,
             dontIncMinDelay := 16, dontDecMinDelay := s.d.dontDecMinDelay + 128)
      else s.d
  {
    BeginKeepsDelay(c, s);
    var b := Begin(c, s);
    hide Begin, First;
    var i := First(b.slots, Held(b.nextTimestamp + e.offset * c.step));
    if i < |b.slots| {
      assert Get(c, b, e.len, e.offset, e.advance).0 == Take(c, b, i, e.offset);
    } else {
      assert Get(c, b, e.len, e.offset, e.advance).0 == Miss(c, b, e.offset, e.advance);
    }
  }

  // The balance of one event.
  lemma StepBalances(c: Config, s: State, e: Event)
    requires IsEvent(e) && c.step > 0
    ensures Extra(c, s, e) == Asked(c, s, e) - Discarded(c, s, e)
      - (Step(c, s, e).d.outstandingDelayChange - s.d.outstandingDelayChange)
      + 20 * if RanEmpty(c, s, e) then 1 else 0
  {
    match e
    case Input(ts, p, now) => PutDelay(c, s, e);
    case Playback(len, offset, advance) =>
      GetDelay(c, s, e);
      hide Get, Begin, GivesUp;
      var got := Get(c, Begin(c, s), len, offset, advance);
      assert Output(c, s, len, offset, advance) == Stretch(got.0, got.1, advance);
    case Ticked(stddev) =>
      var d := Adapted(c, s, stddev);
      assert d.outstandingDelayChange - s.d.outstandingDelayChange == 60 * (d.minDelay - s.d.minDelay);
    case SetMin(count) =>
  }

  lemma PutDelay(c: Config, s: State, e: Event)
    requires e.Input?
    ensures Put(c, s, e.ts, e.packet, e.now).d ==
      if Resyncs(s, e) then s.d.(outstandingDelayChange := 0) else s.d
  {
  }

  // Over any run of a new buffer, the time played beyond 60 an output is what Tick asked
  // for, less what resets threw away and what is still outstanding, and 20 for each output
  // that was stretched because the buffer ran empty.
  lemma {:induction false} PlaybackTimeIsConserved(c: Config, minMinDelay: nat, run: seq<Event>)
    requires IsRun(run) && c.step > 0
    ensures var l := Account(c, New(minMinDelay), run);
      l.extra == l.asked - l.discarded - After(c, New(minMinDelay), run).d.outstandingDelayChange + 20 * l.ranEmpty
  {
    if run != [] {
      var front, e := run[..|run| - 1], run[|run| - 1];
      PlaybackTimeIsConserved(c, minMinDelay, front);
      StepBalances(c, After(c, New(minMinDelay), front), e);
      hide Extra, Asked, Discarded, RanEmpty, Step;
    }
  }

  // ----- what the delay may be -----

  predicate InBounds(c: Config, d: Delay) {
    d.minMinDelay <= d.minDelay <= c.maxMinDelay
  }

  // What one step of a run does to the delay: it moves by whole twenties, and the wanted
  // delay goes up only while dontIncMinDelay is 0, which it then is no more.
  ghost predicate Moves(c: Config, d: Delay, d': Delay) {
    && (d.outstandingDelayChange % 20 == 0 ==> d'.outstandingDelayChange % 20 == 0)
    && (InBounds(c, d) ==> InBounds(c, d'))
    && (d.dontIncMinDelay > 0 ==> d'.dontIncMinDelay > 0 && d'.minDelay <= d.minDelay)
    && (d'.minDelay > d.minDelay ==> d'.minDelay == d.minDelay + 1 && d'.dontIncMinDelay > 0)
  }

  lemma TickMoves(c: Config, s: State, stddev: real)
    requires c.step > 0 && stddev >= 0.0
    ensures Moves(c, s.d, Tick(c, s, stddev).d)
  {
    var noted := Note(c, s);
    assert noted.d == s.d.(dontDecMinDelay := noted.d.dontDecMinDelay);
    var delays, t := noted.m.delayHistory, Target(c, s.d, stddev);
    hide Note, Target;
    var d := Adapt(noted.d, t);
    var change := Correction(d, delays);
    hide Correction;
    assert d.outstandingDelayChange - s.d.outstandingDelayChange in {-60, 0, 60};
    assert change in {-60, -20, 0, 20};
  }

  // Giving up and playing at another pace.
  lemma PlayedMoves(c: Config, d: Delay, got: Delay, gaveUp: bool, change: int)
    requires change % 20 == 0
    requires got == if gaveUp then d.(outstandingDelayChange := 0, dontChangeDelay := 0,
                                      dontIncMinDelay := 16, dontDecMinDelay := d.dontDecMinDelay + 128) else d
    ensures Moves(c, d, got.(outstandingDelayChange := got.outstandingDelayChange + change))
  {
  }

  lemma OutputMoves(c: Config, s: State, e: Event)
    requires e.Playback?
    ensures var d := Output(c, s, e.len, e.offset, e.advance).state.d;
      Moves(c, s.d, d) && d.minDelay == s.d.minDelay
  {
    GetDelay(c, s, e);
    hide Get, Begin, GivesUp, Moves;
    var got := Get(c, Begin(c, s), e.len, e.offset, e.advance);
    var x := got.0.d.outstandingDelayChange;
    PlayedMoves(c, s.d, got.0.d, GivesUp(c, s, e), if x < 0 then 20 else if x > 0 then -20 else 0);
  }

  lemma StepMoves(c: Config, s: State, e: Event)
    requires IsEvent(e) && c.step > 0
    ensures !e.SetMin? ==> Moves(c, s.d, Step(c, s, e).d)
    ensures e.Input? || e.Playback? ==> Step(c, s, e).d.minDelay == s.d.minDelay
    ensures e.SetMin? ==> Step(c, s, e).d == s.d.(minDelay := e.count, minMinDelay := e.count)
  {
    match e
    case Input(ts, p, now) => PutDelay(c, s, e);
    case Playback(len, offset, advance) => OutputMoves(c, s, e);
    case Ticked(stddev) => TickMoves(c, s, stddev);
    case SetMin(count) =>
  }

  // In every run the outstanding change stays a multiple of 20, whatever the bounds are and
  // whatever minimum is set.
  lemma {:induction false} OutstandingIsMultiple(c: Config, s: State, run: seq<Event>)
    requires IsRun(run) && c.step > 0 && s.d.outstandingDelayChange % 20 == 0
    ensures After(c, s, run).d.outstandingDelayChange % 20 == 0
  {
    if run != [] {
      OutstandingIsMultiple(c, s, run[..|run| - 1]);
      StepMoves(c, After(c, s, run[..|run| - 1]), run[|run| - 1]);
      hide Step, InBounds;
    }
  }

  predicate SetsAtMost(max: nat, run: seq<Event>) {
    forall e :: e in run && e.SetMin? ==> e.count <= max
  }

  // The wanted delay stays in its bounds once inside, if no minimum above them is set.
  lemma {:induction false} DelayStaysInBounds(c: Config, s: State, run: seq<Event>)
    requires IsRun(run) && c.step > 0 && InBounds(c, s.d) && SetsAtMost(c.maxMinDelay, run)
    ensures InBounds(c, After(c, s, run).d)
  {
    if run != [] {
      DelayStaysInBounds(c, s, run[..|run| - 1]);
      StepMoves(c, After(c, s, run[..|run| - 1]), run[|run| - 1]);
      hide Step;
    }
  }

  // How often Tick raised the wanted delay.
  function Rises(c: Config, s: State, run: seq<Event>): nat
    requires IsRun(run) && c.step > 0
  {
    if run == [] then 0
    else
      var front, e := run[..|run| - 1], run[|run| - 1];
      var at := After(c, s, front);
      Rises(c, s, front) + if e.Ticked? && Step(c, at, e).d.minDelay > at.d.minDelay then 1 else 0
  }

  // As dontIncMinDelay is never counted down, this happens at most once in the life of a
  // buffer, and never after the buffer gave up.
  lemma {:induction false} TickRaisesOnce(c: Config, s: State, run: seq<Event>)
    requires IsRun(run) && c.step > 0
    ensures Rises(c, s, run) <= 1
    ensures s.d.dontIncMinDelay > 0 ==> Rises(c, s, run) == 0
    ensures s.d.dontIncMinDelay > 0 || Rises(c, s, run) > 0 ==> After(c, s, run).d.dontIncMinDelay > 0
  {
    if run != [] {
      TickRaisesOnce(c, s, run[..|run| - 1]);
      StepMoves(c, After(c, s, run[..|run| - 1]), run[|run| - 1]);
      hide Step, InBounds;
    }
  }

  lemma {:induction false} DelayRisesByTick(c: Config, s: State, run: seq<Event>)
    requires IsRun(run) && c.step > 0 && forall e :: e in run ==> !e.SetMin?
    ensures After(c, s, run).d.minDelay <= s.d.minDelay + Rises(c, s, run)
  {
    if run != [] {
      var front, e := run[..|run| - 1], run[|run| - 1];
      DelayRisesByTick(c, s, front);
      StepMoves(c, After(c, s, front), e);
      hide Step, InBounds;
    }
  }

  // ----- which way Tick steers -----

  lemma CeilAbove(x: real, m: int)
    ensures Ceil(x) > m <==> x > m as real
  {
  }

  // Whether the deviation of arrivals, taken twice and in milliseconds, spans more than n packets.
  predicate Spans(c: Config, stddev: real, n: int)
    requires c.step > 0
  {
    2000.0 * stddev / c.step as real > n as real
  }

  lemma TargetAbove(c: Config, d: Delay, stddev: real, m: int)
    requires c.step > 0 && stddev >= 0.0
    ensures Target(c, d, stddev) > m <==> c.maxMinDelay > m && (d.minMinDelay > m || Spans(c, stddev, m))
  {
    var x := stddev * 2.0 * 1000.0;
    assert x == 2000.0 * stddev;
    CeilAbove(x / c.step as real, m);
    hide Ceil;
  }

  // No tick found late packets lately, this one included.
  predicate Quiet(s: State) {
    AllZero(Push(s.m.lateHistory, s.n.latePacketCount as real))
  }

  // The wanted delay goes up by one just if it is below the maximum, arrivals deviate by more
  // than it or the minimum is above it, and it was not raised before; it goes down by one just
  // if arrivals deviate by less and so is the minimum, or the maximum is below it, and the time
  // to wait for that is over.
  lemma DelayMovesExactly(c: Config, s: State, stddev: real)
    requires c.step > 0 && stddev >= 0.0
    ensures var m, m' := s.d.minDelay, Tick(c, s, stddev).d.minDelay;
      && (m' == m + 1 <==> c.maxMinDelay > m && (s.d.minMinDelay > m || Spans(c, stddev, m)) && s.d.dontIncMinDelay == 0)
      && (m' == m - 1 <==>
           (c.maxMinDelay < m || (s.d.minMinDelay < m && !Spans(c, stddev, m - 1)))
           && (s.d.dontDecMinDelay == 0 || (s.d.dontDecMinDelay == 1 && Quiet(s))))
      && m - 1 <= m' <= m + 1
  {
    var t := Target(c, s.d, stddev);
    TargetAbove(c, s.d, stddev, s.d.minDelay);
    TargetAbove(c, s.d, stddev, s.d.minDelay - 1);
    TickDelay(c, s, stddev);
    hide Target, Spans, Tick, AllZero;
  }

  lemma TickDelay(c: Config, s: State, stddev: real)
    requires c.step > 0 && stddev >= 0.0
    ensures Tick(c, s, stddev).d.minDelay == Adapt(Note(c, s).d, Target(c, s.d, stddev)).minDelay
    ensures Note(c, s).d
      == if Quiet(s) && s.d.dontDecMinDelay > 0 then s.d.(dontDecMinDelay := s.d.dontDecMinDelay - 1) else s.d
  {
    hide Target, AllZero, Adapt, Sum;
  }

  // What Tick asks for beyond that brings the packets held nearer to the wanted delay: with
  // more held on average it asks to play faster, with fewer to play slower, and it asks once.
  lemma TickSteersBack(c: Config, s: State, stddev: real)
    requires c.step > 0 && stddev >= 0.0
    ensures var d, s' := Adapted(c, s, stddev), Tick(c, s, stddev);
      var change, mean, wanted := s'.d.outstandingDelayChange - d.outstandingDelayChange,
        Sum(s'.m.delayHistory[..32]) / 32.0, d.minDelay as real;
      && (change < 0 <==> d.dontChangeDelay == 0 && mean - wanted > 0.5)
      && (change > 0 <==> d.dontChangeDelay == 0 && wanted - mean > 0.3)
      && (change != 0 ==> s'.d.dontChangeDelay == 9)
  {
    hide Adapted, Note;
  }
}

// What the jitter buffer measures: how late packets come, and how many it held and missed.
module JitterMeasurements {
  import opened HistoricBuffer
  import opened JitterModel

  predicate NoneNegative(h: seq<real>) {
    forall x :: x in h ==> x >= 0.0
  }

  lemma PushKeepsNoneNegative(h: seq<real>, x: real)
    requires h != [] && NoneNegative(h) && x >= 0.0
    ensures NoneNegative(Push(h, x))
  {
    forall y | y in Push(h, x) ensures y >= 0.0 {
      if y != x {
        assert y in h[..|h| - 1] && y in h;
      }
    }
  }

  lemma MaxIsZero(h: seq<real>, max: real)
    requires h != [] && NoneNegative(h)
    requires IsMax(max, h) <==> exists x :: x in h && -1.0 <= x
    ensures max == 0.0 <==> AllZero(h)
  {
    assert h[0] in h && -1.0 <= h[0];
    assert IsMax(max, h) && max in h && h[0] <= max;
  }

  class Measurements {
    ghost const Repr: set<object>
    const delayHistory: Ring
    const lateHistory: Ring
    const deviationHistory: Ring
    var expectNextAtTime: real

    ghost predicate Valid()
      reads this, Repr
      ensures Valid() ==> this in Repr
    {
      && Repr == {this, delayHistory, lateHistory, deviationHistory,
                  delayHistory.data, lateHistory.data, deviationHistory.data}
      && delayHistory.Valid() && lateHistory.Valid() && deviationHistory.Valid()
      && delayHistory.data.Length == lateHistory.data.Length == deviationHistory.data.Length == HISTORY
      && delayHistory != lateHistory && delayHistory != deviationHistory && lateHistory != deviationHistory
      && delayHistory.data != lateHistory.data && delayHistory.data != deviationHistory.data
      && lateHistory.data != deviationHistory.data
    }

    ghost function Value(): Measured
      requires Valid()
      reads Repr
    {
      Measured(expectNextAtTime, delayHistory.Recent(), lateHistory.Recent(), deviationHistory.Recent())
    }

    constructor ()
      ensures Valid() && fresh(Repr) && Value() == Measured(0.0, NO_HISTORY, NO_HISTORY, NO_HISTORY)
    {
      var delays := new Ring(HISTORY);
      var lates := new Ring(HISTORY);
      var deviations := new Ring(HISTORY);
      delayHistory, lateHistory, deviationHistory, expectNextAtTime := delays, lates, deviations, 0.0;
      Repr := {this, delays, lates, deviations, delays.data, lates.data, deviations.data};
      new;
      hide Reverse, Turned;
    }

    method Reset()
      requires Valid()
      modifies Repr
      ensures Valid() && Value() == Measured(0.0, NO_HISTORY, NO_HISTORY, NO_HISTORY)
    {
      hide Reverse, Turned;
      delayHistory.Reset();
      lateHistory.Reset();
      expectNextAtTime := 0.0;
      deviationHistory.Reset();
    }

    // A packet came at this time.
    method Arrived(c: Config, now: real)
      requires Valid()
      modifies Repr
      ensures Valid() && Value() == Observe(c, old(Value()), now)
    {
      hide Reverse, Turned;
      if expectNextAtTime != 0.0 {
        deviationHistory.Add(expectNextAtTime - now);
        expectNextAtTime := expectNextAtTime + c.step as real / 1000.0;
      } else {
        expectNextAtTime := now + c.step as real / 1000.0;
      }
    }

    method NoneLate() returns (none: bool)
      requires Valid() && NoneNegative(Value().lateHistory)
      ensures none == AllZero(Value().lateHistory)
    {
      hide Reverse, Turned, AllZero, IsMax, NoneNegative;
      var max := lateHistory.Max(-1.0);
      MaxIsZero(lateHistory.Recent(), max);
      none := max == 0.0;
    }

    method AddLate(late: nat) returns (average16: real, none: bool)
      requires Valid() && NoneNegative(Value().lateHistory)
      modifies Repr
      ensures Valid() && Value() == old(Value()).(lateHistory := Push(old(Value()).lateHistory, late as real))
      ensures NoneNegative(Value().lateHistory)
      ensures average16 == Sum(Value().lateHistory[..16]) / 16.0 && none == AllZero(Value().lateHistory)
    {
      hide Reverse, Turned, NoneNegative, AllZero, Sum, Push;
      PushKeepsNoneNegative(Value().lateHistory, late as real);
      lateHistory.Add(late as real);
      none := NoneLate();
      average16 := lateHistory.AverageOf(16);
    }

    method AddDelay(delay: nat) returns (average32: real)
      requires Valid()
      modifies Repr
      ensures Valid() && Value() == old(Value()).(delayHistory := Push(old(Value()).delayHistory, delay as real))
      ensures average32 == Sum(Value().delayHistory[..32]) / 32.0
    {
      hide Reverse, Turned;
      delayHistory.Add(delay as real);
      average32 := delayHistory.AverageOf(32);
    }

    // The mean of the squared deviations, whose root Tick takes.
    method SpreadOfDeviations() returns (variance: real)
      requires Valid()
      ensures variance == Variance(Value().deviationHistory)
    {
      hide Reverse, Turned;
      var h := deviationHistory;
      var mean := h.Average();
      variance := 0.0;
      for i := 0 to HISTORY
        invariant variance == SquaredDeviations(h.Recent()[..i], mean)
      {
        var x := h.At(i);
        assert h.Recent()[..i + 1][..i] == h.Recent()[..i];
        variance := variance + (x - mean) * (x - mean);
      }
      assert h.Recent()[..HISTORY] == h.Recent();
      variance := variance / HISTORY as real;
    }
  }
}

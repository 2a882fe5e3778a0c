// HistoricBuffer: the last values of a measurement, kept in a ring.
module HistoricBuffer {
  function Sum(s: seq<real>): real {
    if s == [] then 0.0 else Sum(s[..|s| - 1]) + s[|s| - 1]
  }

  predicate IsMax(m: real, s: seq<real>) {
    m in s && forall x :: x in s ==> x <= m
  }

  function Repeat(x: real, n: nat): (s: seq<real>)
    ensures |s| == n && forall k :: 0 <= k < n ==> s[k] == x
  {
    seq(n, _ => x)
  }

  // The history, most recent value first, after one more measurement.
  function Push(h: seq<real>, x: real): (h': seq<real>)
    requires h != []
    ensures |h'| == |h|
  {
    [x] + h[..|h| - 1]
  }

  function Reverse(s: seq<real>): (r: seq<real>)
    ensures |r| == |s| && forall k :: 0 <= k < |s| ==> r[k] == s[|s| - 1 - k]
  {
    seq(|s|, k requires 0 <= k < |s| => s[|s| - 1 - k])
  }

  lemma {:induction false} SumConcat(a: seq<real>, b: seq<real>)
    ensures Sum(a + b) == Sum(a) + Sum(b)
  {
    if b == [] {
      assert a + b == a;
    } else {
      assert (a + b)[..|a + b| - 1] == a + b[..|b| - 1];
      SumConcat(a, b[..|b| - 1]);
    }
  }

  lemma {:induction false} SumReverse(s: seq<real>)
    ensures Sum(Reverse(s)) == Sum(s)
  {
    if s == [] {
    } else {
      var front := s[..|s| - 1];
      assert Reverse(s) == [s[|s| - 1]] + Reverse(front);
      SumConcat([s[|s| - 1]], Reverse(front));
      assert [s[|s| - 1]][..0] == [];
      SumReverse(front);
    }
  }

  // The entries of a ring from an offset on, oldest first.
  function Turned(ring: seq<real>, at: nat): (s: seq<real>)
    requires at <= |ring|
    ensures |s| == |ring|
  {
    ring[at..] + ring[..at]
  }

  lemma RingStep(before: seq<real>, at: nat, x: real)
    requires at < |before|
    ensures (at + 1) % |before| == if at + 1 == |before| then 0 else at + 1
    ensures Reverse(Turned(before[at := x], (at + 1) % |before|)) == Push(Reverse(Turned(before, at)), x)
  {
    var rest, next := before[at + 1..] + before[..at], (at + 1) % |before|;
    assert next == if at + 1 == |before| then 0 else at + 1;
    assert Turned(before, at) == [before[at]] + rest by {
      assert before[at..] == [before[at]] + before[at + 1..];
    }
    TurnedNext(before, at, x, next);
    ReverseEnds(rest, x, before[at]);
  }

  lemma TurnedNext(before: seq<real>, at: nat, x: real, next: nat)
    requires at < |before| && next == if at + 1 == |before| then 0 else at + 1
    ensures Turned(before[at := x], next) == before[at + 1..] + before[..at] + [x]
  {
    var after := before[at := x];
    var front := before[..at] + [x];
    assert after[..at + 1] == front;
    assert after[at + 1..] == before[at + 1..];
    if next == 0 {
      assert before[at + 1..] == [];
      assert Turned(after, 0) == front;
    }
  }

  lemma ReverseEnds(rest: seq<real>, x: real, y: real)
    ensures Reverse(rest + [x]) == Push(Reverse([y] + rest), x)
  {
    var p := Push(Reverse([y] + rest), x);
    forall k | 0 <= k < |rest| + 1 ensures Reverse(rest + [x])[k] == p[k] {
      if k > 0 {
        assert p[k] == Reverse([y] + rest)[k - 1];
      }
    }
  }

  lemma SumTurned(ring: seq<real>, at: nat)
    requires at <= |ring|
    ensures Sum(Reverse(Turned(ring, at))) == Sum(ring)
  {
    hide Sum, Reverse;
    var front, back := ring[..at], ring[at..];
    assert ring == front + back && Turned(ring, at) == back + front;
    hide Turned;
    SumReverse(Turned(ring, at));
    SumConcat(front, back);
    SumConcat(back, front);
  }

  lemma InRing(ring: seq<real>, at: nat)
    requires at <= |ring|
    ensures forall k :: 0 <= k < |ring| ==> ring[k] in Reverse(Turned(ring, at))
    ensures forall x :: x in Reverse(Turned(ring, at)) ==> x in ring
  {
    var t := Turned(ring, at);
    forall x | x in Reverse(t) ensures x in ring {
      assert x in t;
    }
    forall k | 0 <= k < |ring| ensures ring[k] in Reverse(t) {
      var j := if k >= at then k - at else |ring| - at + k;
      assert t[j] == ring[k] && Reverse(t)[|t| - 1 - j] == t[j];
    }
  }

  lemma MaxOfTurned(ring: seq<real>, at: nat, lowest: real, max: real)
    requires at <= |ring| && max >= lowest && (max in ring || max == lowest)
    requires forall k :: 0 <= k < |ring| ==> ring[k] <= max
    ensures var h := Reverse(Turned(ring, at));
      && (forall x :: x in h ==> x <= max)
      && (IsMax(max, h) <==> exists x :: x in h && lowest <= x)
      && (!IsMax(max, h) ==> max == lowest)
  {
    InRing(ring, at);
    hide Reverse, Turned;
    if max in ring {
      assert max in Reverse(Turned(ring, at));
    }
  }

  class Ring {
    const data: array<real>
    var offset: nat

    ghost predicate Valid()
      reads this
    {
      data.Length > 0 && offset < data.Length
    }

    // Most recent value first.
    ghost function Recent(): (h: seq<real>)
      requires Valid()
      reads this, data
      ensures |h| == data.Length
    {
      Reverse(Turned(data[..], offset))
    }

    constructor (size: nat)
      requires size > 0
      ensures Valid() && data.Length == size && Recent() == Repeat(0.0, size) && fresh(data)
    {
      data := new real[size](_ => 0.0);
      offset := 0;
      new;
      assert data[..] == Repeat(0.0, size);
    }

    method Add(x: real)
      requires Valid()
      modifies this, data
      ensures Valid() && Recent() == Push(old(Recent()), x)
    {
      ghost var before, at := data[..], offset;
      data[offset] := x;
      offset := (offset + 1) % data.Length;
      RingStep(before, at, x);
      assert data[..] == before[at := x];
    }

    // operator[]: entry 0 is the most recent.
    method At(i: nat) returns (x: real)
      requires Valid() && i < data.Length
      ensures x == Recent()[i]
    {
      var k := offset - i - 1;
      if k < 0 {
        k := data.Length + k;
      }
      x := data[k];
    }

    method Average() returns (avg: real)
      requires Valid()
      ensures avg == Sum(Recent()) / data.Length as real
    {
      avg := 0.0;
      for i := 0 to data.Length
        invariant avg == Sum(data[..i])
      {
        assert data[..i + 1][..i] == data[..i];
        avg := avg + data[i];
      }
      SumTurned(data[..], offset);
      assert data[..data.Length] == data[..];
      avg := avg / data.Length as real;
    }

    method AverageOf(firstN: nat) returns (avg: real)
      requires Valid() && 0 < firstN <= data.Length
      ensures avg == Sum(Recent()[..firstN]) / firstN as real
    {
      avg := 0.0;
      for i := 0 to firstN
        invariant avg == Sum(Recent()[..i])
      {
        assert Recent()[..i + 1][..i] == Recent()[..i];
        var x := At(i);
        avg := avg + x;
      }
      avg := avg / firstN as real;
    }

    // The starting value is that of the element type. For integers it is below every value,
    // for doubles it is positive; the result is a maximum just if some value is not below it.
    method Max(lowest: real) returns (max: real)
      requires Valid()
      ensures max >= lowest && forall x :: x in Recent() ==> x <= max
      ensures IsMax(max, Recent()) <==> exists x :: x in Recent() && lowest <= x
      ensures !IsMax(max, Recent()) ==> max == lowest
    {
      hide Reverse, Turned, IsMax;
      max := lowest;
      for i := 0 to data.Length
        invariant max >= lowest && (max in data[..i] || max == lowest)
        invariant forall k :: 0 <= k < i ==> data[k] <= max
      {
        if data[i] > max {
          max := data[i];
        }
        assert data[..i + 1] == data[..i] + [data[i]];
      }
      assert data[..data.Length] == data[..];
      MaxOfTurned(data[..], offset, lowest, max);
    }

    method Reset()
      requires Valid()
      modifies this, data
      ensures Valid() && Recent() == Repeat(0.0, data.Length)
    {
      forall k | 0 <= k < data.Length { data[k] := 0.0; }
      offset := 0;
      assert data[..] == Repeat(0.0, data.Length);
    }
  }
}

// A pool of equally sized buffers whose free ones are tracked in the bits of one number.
module BufferPool {
  import opened Bytes
  import opened Numbers

  // ----- bits of a number -----

  predicate HasBit(m: nat, i: nat) {
    if i == 0 then m % 2 == 1 else HasBit(m / 2, i - 1)
  }

  function WithBit(m: nat, i: nat, on: bool): nat {
    if i == 0 then m / 2 * 2 + (if on then 1 else 0) else m % 2 + 2 * WithBit(m / 2, i - 1, on)
  }

  lemma {:induction false} BitOfWithBit(m: nat, i: nat, on: bool, k: nat)
    ensures HasBit(WithBit(m, i, on), k) == if k == i then on else HasBit(m, k)
  {
    if i > 0 && k > 0 {
      BitOfWithBit(m / 2, i - 1, on, k - 1);
    }
  }

  lemma {:induction false} NoBits(i: nat)
    ensures !HasBit(0, i)
  {
    if i > 0 { NoBits(i - 1); }
  }

  // Bits below n leave a number below 2^n, so 64 buffers fit the 64-bit field.
  lemma {:induction false} WithBitFits(m: nat, i: nat, on: bool, n: nat)
    requires i < n && m < Pow2(n)
    ensures WithBit(m, i, on) < Pow2(n)
  {
    if i > 0 {
      WithBitFits(m / 2, i - 1, on, n - 1);
    }
  }

  // ----- the pool -----

  class Pool {
    const size: nat
    const buffers: seq<array<byte>>
    var usedBuffers: nat

    ghost predicate Valid()
      reads this
    {
      && |buffers| <= 64
      && usedBuffers < Pow2(64)
      && (forall i :: 0 <= i < |buffers| ==> buffers[i].Length == size)
      && (forall i, j :: 0 <= i < j < |buffers| ==> buffers[i] != buffers[j])
    }

    ghost function Used(): set<array<byte>>
      reads this
    {
      set i | 0 <= i < |buffers| && HasBit(usedBuffers, i) :: buffers[i]
    }

    constructor (size: nat, count: nat)
      requires count <= 64
      ensures Valid() && Used() == {} && |buffers| == count && this.size == size
      ensures forall i :: 0 <= i < count ==> fresh(buffers[i])
    {
      var made: seq<array<byte>> := [];
      for n := 0 to count
        invariant |made| == n
        invariant forall i :: 0 <= i < n ==> made[i].Length == size && fresh(made[i])
        invariant forall i, j :: 0 <= i < j < n ==> made[i] != made[j]
      {
        var b := new byte[size](_ => 0);
        made := made + [b];
      }
      this.size, buffers, usedBuffers := size, made, 0;
      new;
      forall i: nat ensures !HasBit(0, i) { NoBits(i); }
    }

    method Get() returns (buffer: array?<byte>)
      requires Valid()
      modifies `usedBuffers
      ensures Valid()
      ensures buffer == null ==> Used() == old(Used()) == set b | b in buffers
      ensures buffer != null ==> buffer in buffers && buffer !in old(Used()) && Used() == old(Used()) + {buffer}
    {
      for i := 0 to |buffers|
        invariant usedBuffers == old(usedBuffers)
        invariant forall k :: 0 <= k < i ==> HasBit(usedBuffers, k)
      {
        if !HasBit(usedBuffers, i) {
          forall k: nat ensures HasBit(WithBit(usedBuffers, i, true), k) == (k == i || HasBit(usedBuffers, k)) {
            BitOfWithBit(usedBuffers, i, true, k);
          }
          WithBitFits(usedBuffers, i, true, 64);
          usedBuffers := WithBit(usedBuffers, i, true);
          return buffers[i];
        }
      }
      return null;
    }

    // A pointer that is not from the pool makes the source abort.
    method Reuse(buffer: array<byte>)
      requires Valid() && buffer in buffers
      modifies `usedBuffers
      ensures Valid() && Used() == old(Used()) - {buffer}
    {
      var i := 0;
      while buffers[i] != buffer
        invariant i < |buffers| && buffer in buffers[i..]
        decreases |buffers| - i
      {
        i := i + 1;
      }
      forall k: nat ensures HasBit(WithBit(usedBuffers, i, false), k) == (k != i && HasBit(usedBuffers, k)) {
        BitOfWithBit(usedBuffers, i, false, k);
      }
      WithBitFits(usedBuffers, i, false, 64);
      usedBuffers := WithBit(usedBuffers, i, false);
    }
  }
}

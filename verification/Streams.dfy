// Little-endian streams over byte buffers that grow (when writing) or end (when reading).
module Streams {
  import opened Bytes
  import opened Options

  // ----- little-endian numbers -----

  function Pow256(n: nat): (p: nat)
    ensures p > 0
  {
    if n == 0 then 1 else 256 * Pow256(n - 1)
  }

  function LE(n: nat, v: nat): (s: seq<byte>)
    ensures |s| == n
  {
    if n == 0 then [] else [v % 256] + LE(n - 1, v / 256)
  }

  function FromLE(s: seq<byte>): nat {
    if s == [] then 0 else s[0] + 256 * FromLE(s[1..])
  }

  lemma {:induction false} FromLEOfLE(n: nat, v: nat)
    requires v < Pow256(n)
    ensures FromLE(LE(n, v)) == v
  {
    if n > 0 {
      FromLEOfLE(n - 1, v / 256);
      assert LE(n, v)[1..] == LE(n - 1, v / 256);
    }
  }

  lemma {:induction false} LEOfFromLE(s: seq<byte>)
    ensures FromLE(s) < Pow256(|s|) && LE(|s|, FromLE(s)) == s
  {
    if s != [] {
      LEOfFromLE(s[1..]);
      assert (s[0] + 256 * FromLE(s[1..])) / 256 == FromLE(s[1..]);
    }
  }

  // Byte k counts the 256 to the k: the lowest comes first.
  lemma {:induction false} LEByteIs(n: nat, v: nat, k: nat)
    requires k < n
    ensures LE(n, v)[k] == v / Pow256(k) % 256
  {
    if k > 0 {
      LEByteIs(n - 1, v / 256, k - 1);
      DivTwice(v, Pow256(k - 1));
    }
  }

  lemma DivTwice(v: nat, p: nat)
    requires p > 0
    ensures v / 256 / p == v / (256 * p)
  {
    var q, r := v / 256 / p, v / 256 % p;
    assert v == 256 * (q * p + r) + v % 256;
    assert v == q * (256 * p) + (256 * r + v % 256) && 256 * r + v % 256 < 256 * p;
    DivIs(v, 256 * p, q, 256 * r + v % 256);
  }

  lemma DivIs(v: nat, m: nat, q: nat, r: nat)
    requires m > 0 && v == q * m + r && r < m
    ensures v / m == q
  {
    var d := v / m - q;
    assert d * m == r - v % m;
    NoMultiple(d, m, r - v % m);
  }

  lemma NoMultiple(d: int, m: nat, x: int)
    requires d * m == x && 0 - m < x < m
    ensures d == 0
  {
  }

  // ----- reading from the front of what is left -----

  datatype Taken<+T> = Taken(value: T, rest: seq<byte>)

  function Take(s: seq<byte>, n: nat): (r: Option<Taken<seq<byte>>>)
    ensures r.Some? <==> n <= |s|
    ensures r.Some? ==> r.value.value + r.value.rest == s && |r.value.value| == n
  {
    if n <= |s| then Some(Taken(s[..n], s[n..])) else None
  }

  function TakeInt(s: seq<byte>, n: nat): Option<Taken<nat>> {
    match Take(s, n)
    case Some(t) => Some(Taken(FromLE(t.value), t.rest))
    case None => None
  }

  // A length of the TL format: one byte, or 254 and three bytes.
  function TakeTlLength(s: seq<byte>): Option<Taken<nat>> {
    match TakeInt(s, 1)
    case Some(t) => if t.value < 254 then Some(t) else TakeInt(t.rest, 3)
    case None => None
  }

  function TlLength(n: nat): (s: seq<byte>)
    ensures |s| <= 4
  {
    if n <= 253 then [n] else [254] + LE(3, n)
  }

  lemma TakeOf(a: seq<byte>, b: seq<byte>)
    ensures Take(a + b, |a|) == Some(Taken(a, b))
  {
    assert (a + b)[..|a|] == a && (a + b)[|a|..] == b;
  }

  lemma TakeIntOf(n: nat, v: nat, tail: seq<byte>)
    requires v < Pow256(n)
    ensures TakeInt(LE(n, v) + tail, n) == Some(Taken(v, tail))
  {
    TakeOf(LE(n, v), tail);
    FromLEOfLE(n, v);
  }

  lemma TakeByteOf(b: byte, tail: seq<byte>)
    ensures TakeInt([b] + tail, 1) == Some(Taken(b, tail))
  {
    TakeOf([b], tail);
    assert [b][1..] == [] && FromLE([]) == 0 && FromLE([b]) == b;
  }

  lemma TakeIs(s: seq<byte>, v: seq<byte>, rest: seq<byte>)
    ensures Take(s, |v|) == Some(Taken(v, rest)) <==> s == v + rest
  {
    if s == v + rest {
      TakeOf(v, rest);
    }
  }

  lemma TakeIntIs(s: seq<byte>, n: nat, v: nat, rest: seq<byte>)
    ensures TakeInt(s, n) == Some(Taken(v, rest)) <==> s == LE(n, v) + rest && v < Pow256(n)
  {
    if s == LE(n, v) + rest && v < Pow256(n) {
      TakeIntOf(n, v, rest);
    }
    if n <= |s| {
      LEOfFromLE(s[..n]);
    }
  }

  lemma TakeByteIs(s: seq<byte>, v: nat, rest: seq<byte>)
    ensures TakeInt(s, 1) == Some(Taken(v, rest)) <==> v < 256 && s == [v] + rest
  {
    if v < 256 && s == [v] + rest {
      TakeByteOf(v, rest);
    }
    if s != [] {
      TakeByteOf(s[0], s[1..]);
      assert s == [s[0]] + s[1..];
    }
  }

  lemma Powers()
    ensures Pow256(1) == 0x100 && Pow256(2) == 0x1_0000 && Pow256(3) == 0x100_0000 && Pow256(4) == 0x1_0000_0000
  {
  }

  lemma TakeTlLengthOf(n: nat, tail: seq<byte>)
    requires n < 0x100_0000
    ensures TakeTlLength(TlLength(n) + tail) == Some(Taken(n, tail))
  {
    Powers();
    if n <= 253 {
      TakeByteOf(n, tail);
    } else {
      assert TlLength(n) + tail == [254] + (LE(3, n) + tail);
      TakeByteOf(254, LE(3, n) + tail);
      TakeIntOf(3, n, tail);
    }
  }

  // ----- the output stream -----

  class BufferOutputStream {
    var buffer: array<byte>
    var offset: nat
    const bufferProvided: bool

    ghost predicate Valid()
      reads this
    {
      offset <= buffer.Length
    }

    ghost function Contents(): seq<byte>
      requires Valid()
      reads this, buffer
    {
      buffer[..offset]
    }

    constructor (size: nat)
      ensures Valid() && Contents() == [] && !bufferProvided && fresh(buffer) && buffer.Length == size
    {
      buffer, offset, bufferProvided := new byte[size](_ => 0), 0, false;
    }

    constructor Over(given: array<byte>)
      ensures Valid() && Contents() == [] && bufferProvided && buffer == given
    {
      buffer, offset, bufferProvided := given, 0, true;
    }

    // A buffer that was given cannot grow; the source throws then.
    method ExpandBufferIfNeeded(need: nat) returns (ok: bool)
      requires Valid()
      modifies `buffer
      ensures Valid() && Contents() == old(Contents()) && (buffer == old(buffer) || fresh(buffer))
      ensures ok == (!bufferProvided || offset + need <= old(buffer.Length))
      ensures ok ==> offset + need <= buffer.Length
    {
      ok := true;
      if offset + need > buffer.Length {
        if bufferProvided {
          return false;
        }
        var grown := new byte[buffer.Length + if need < 1024 then 1024 else need](_ => 0);
        forall k | 0 <= k < buffer.Length { grown[k] := buffer[k]; }
        assert grown[..offset] == buffer[..offset];
        buffer := grown;
      }
    }

    method WriteBytes(bytes: seq<byte>) returns (ok: bool)
      requires Valid()
      modifies this, buffer
      ensures Valid() && (buffer == old(buffer) || fresh(buffer))
      ensures ok == (!bufferProvided || old(offset) + |bytes| <= old(buffer.Length))
      ensures Contents() == if ok then old(Contents()) + bytes else old(Contents())
    {
      ok := ExpandBufferIfNeeded(|bytes|);
      if ok {
        forall k | 0 <= k < |bytes| { buffer[offset + k] := bytes[k]; }
        offset := offset + |bytes|;
        assert buffer[..offset] == old(Contents()) + bytes;
      }
    }

    // WriteByte, WriteInt16, WriteInt32 and WriteInt64, for n of 1, 2, 4 and 8.
    method WriteInt(n: nat, v: nat) returns (ok: bool)
      requires Valid()
      modifies this, buffer
      ensures Valid() && (buffer == old(buffer) || fresh(buffer))
      ensures ok == (!bufferProvided || old(offset) + n <= old(buffer.Length))
      ensures Contents() == if ok then old(Contents()) + LE(n, v) else old(Contents())
    {
      ok := ExpandBufferIfNeeded(n);
      if ok {
        ghost var before, at := Contents(), offset;
        var rest := v;
        for k := 0 to n
          invariant Valid() && at + n <= buffer.Length && (buffer == old(buffer) || fresh(buffer))
          invariant offset == at + k && Contents() + LE(n - k, rest) == before + LE(n, v)
        {
          ghost var c := Contents();
          assert c + ([rest % 256] + LE(n - k - 1, rest / 256)) == (c + [rest % 256]) + LE(n - k - 1, rest / 256);
          buffer[offset] := rest % 256;
          rest := rest / 256;
          offset := offset + 1;
          assert Contents() == c + [buffer[offset - 1]];
        }
        assert LE(0, rest) == [] && Contents() + [] == Contents();
      }
    }

    method WriteTlLength(n: nat) returns (ok: bool)
      requires Valid() && !bufferProvided
      modifies this, buffer
      ensures Valid() && (buffer == old(buffer) || fresh(buffer))
      ensures ok && Contents() == old(Contents()) + TlLength(n)
    {
      if n <= 253 {
        ok := WriteBytes([n]);
      } else {
        var _ := WriteBytes([254]);
        ok := WriteInt(3, n);
        assert old(Contents()) + [254] + LE(3, n) == old(Contents()) + ([254] + LE(3, n));
      }
    }
  }

  // ----- the input stream; what does not fit throws in the source -----

  class BufferInputStream {
    const buffer: seq<byte>
    var offset: nat

    ghost predicate Valid()
      reads this
    {
      offset <= |buffer|
    }

    ghost function Rest(): seq<byte>
      requires Valid()
      reads this
    {
      buffer[offset..]
    }

    constructor (buffer: seq<byte>)
      ensures Valid() && Rest() == buffer && this.buffer == buffer
    {
      this.buffer, offset := buffer, 0;
    }

    method Skip(n: nat) returns (ok: bool)
      requires Valid()
      modifies this
      ensures Valid() && ok == (n <= |old(Rest())|) && Rest() == if ok then old(Rest())[n..] else old(Rest())
    {
      ok := n <= |buffer| - offset;
      if ok {
        offset := offset + n;
      }
    }

    method ReadBytes(n: nat) returns (bytes: Option<seq<byte>>)
      requires Valid()
      modifies this
      ensures Valid()
      ensures match Take(old(Rest()), n)
              case Some(t) => bytes == Some(t.value) && Rest() == t.rest
              case None => bytes == None && Rest() == old(Rest())
    {
      if n > |buffer| - offset {
        return None;
      }
      assert Rest()[..n] == buffer[offset..offset + n];
      bytes := Some(buffer[offset..offset + n]);
      offset := offset + n;
    }

    method ReadInt(n: nat) returns (v: Option<nat>)
      requires Valid()
      modifies this
      ensures Valid()
      ensures match TakeInt(old(Rest()), n)
              case Some(t) => v == Some(t.value) && Rest() == t.rest
              case None => v == None && Rest() == old(Rest())
    {
      if n > |buffer| - offset {
        return None;
      }
      var sum: nat, k := 0, n;
      while k > 0
        invariant 0 <= k <= n && sum == FromLE(buffer[offset + k..offset + n])
      {
        k := k - 1;
        assert buffer[offset + k..offset + n][1..] == buffer[offset + k + 1..offset + n];
        sum := buffer[offset + k] + 256 * sum;
      }
      assert Rest()[..n] == buffer[offset..offset + n];
      v := Some(sum);
      offset := offset + n;
    }

    method ReadTlLength() returns (v: Option<nat>)
      requires Valid()
      modifies this
      ensures Valid()
      ensures match TakeTlLength(old(Rest()))
              case Some(t) => v == Some(t.value) && Rest() == t.rest
              case None => v == None
    {
      v := ReadInt(1);
      if v.Some? && v.value >= 254 {
        v := ReadInt(3);
      }
    }
  }
}

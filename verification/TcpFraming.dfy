// Packets over the obfuscated TCP socket: a length in words, the packet, and a keystream
// over all of it.
module TcpFraming {
  import opened Bytes
  import opened Numbers
  import opened Options
  import opened Streams

  // The cipher in counter mode changes the byte at each place of the stream on its own, and
  // doing it twice gives the byte back.
  type Mask = (nat, byte) -> byte

  ghost predicate IsMask(m: Mask) {
    forall at, b :: m(at, m(at, b)) == b
  }

  function Masked(m: Mask, at: nat, s: seq<byte>): (r: seq<byte>)
    ensures |r| == |s| && forall k :: 0 <= k < |s| ==> r[k] == m(at + k, s[k])
  {
    seq(|s|, k requires 0 <= k < |s| => m(at + k, s[k]))
  }

  function Words(n: nat): seq<byte> {
    if n / 4 < 0x7F then [n / 4] else [0x7F] + LE(3, n / 4)
  }

  function Framed(packet: seq<byte>): seq<byte> {
    Words(|packet|) + packet
  }

  datatype Got = Got(packet: seq<byte>, rest: seq<byte>) | CutOff | TooBig

  // Reading one packet, of at most `room` bytes, from an unmasked stream.
  function Read(s: seq<byte>, room: nat): Got {
    match ReadWords(s)
    case None => CutOff
    case Some(t) => ReadRest(t.rest, t.value, room)
  }

  function ReadRest(s: seq<byte>, words: nat, room: nat): Got {
    if words * 4 > room then TooBig
    else
      match Take(s, words * 4)
      case None => CutOff
      case Some(p) => Got(p.value, p.rest)
  }

  // What is read if only n bytes of a long length come at once: the others are what the
  // memory held, and the keystream moves on by three.
  function CutWords(m: Mask, at: nat, s: seq<byte>, n: nat, junk: seq<byte>): nat
    requires n < |s| && n <= |junk|
  {
    FromLE(Masked(m, at + 1, s[1..1 + n] + junk[n..]))
  }

  function ReadCut(m: Mask, at: nat, s: seq<byte>, n: nat, junk: seq<byte>, room: nat): Got
    requires n < |s| && n <= |junk|
  {
    ReadRest(Masked(m, at + 4, s[1 + n..]), CutWords(m, at, s, n, junk), room)
  }

  function ReadWords(s: seq<byte>): Option<Taken<nat>> {
    match TakeInt(s, 1)
    case None => None
    case Some(t) => if t.value < 0x7F then Some(t) else TakeInt(t.rest, 3)
  }

  lemma {:induction false} LEIgnoresHigh(n: nat, v: nat)
    ensures LE(n, v) == LE(n, v % Pow256(n))
  {
    if n > 0 {
      var p := Pow256(n - 1);
      LEIgnoresHigh(n - 1, v / 256);
      LEIgnoresHigh(n - 1, v % (256 * p) / 256);
      ModDiv(v, p);
    }
  }

  lemma ModDiv(v: nat, p: nat)
    requires p > 0
    ensures v % (256 * p) % 256 == v % 256 && v % (256 * p) / 256 == v / 256 % p
  {
    var q := v / (256 * p);
    var r := v % (256 * p);
    assert v == 256 * (p * q) + r;
    assert v / 256 == p * q + r / 256 && v % 256 == r % 256;
    assert r / 256 < p;
    DivUnique(v / 256, p, q, r / 256);
  }

  // The words that are read are those that were written, but for what three bytes lose.
  lemma WordsRead(n: nat, tail: seq<byte>)
    ensures ReadWords(Words(n) + tail) == Some(Taken(n / 4 % 0x100_0000, tail))
  {
    Powers();
    hide LE, FromLE, ReadWords;
    var w := n / 4;
    if w < 0x7F {
      ShortWords(w, tail);
    } else {
      LEIgnoresHigh(3, w);
      var b := LE(3, w % 0x100_0000);
      FromLEOfLE(3, w % 0x100_0000);
      assert Words(n) == [0x7F] + b;
      assert [0x7F] + b + tail == [0x7F] + (b + tail);
      LongWords(0x7F, b + tail);
      assert (b + tail)[..3] == b && (b + tail)[3..] == tail;
    }
  }

  // The length counts words: in one byte below 127, else behind the mark 127 in three bytes, the
  // lowest first.
  lemma WordsAre(n: nat)
    ensures var w := n / 4;
      Words(n) == if n < 508 then [w] else [127, w % 256, w / 256 % 256, w / 65536 % 256]
  {
    if n >= 508 {
      LEByteIs(3, n / 4, 0);
      LEByteIs(3, n / 4, 1);
      LEByteIs(3, n / 4, 2);
      Powers();
      hide LE;
      assert Words(n) == [127] + LE(3, n / 4);
    }
  }

  // And so it is read, with any first byte from 127 on for a mark.
  lemma WordsReadExactly(s: seq<byte>, w: nat, rest: seq<byte>)
    ensures ReadWords(s) == Some(Taken(w, rest)) <==>
      || (w < 127 && s == [w] + rest)
      || (w < 0x100_0000 && exists b: byte :: b >= 127 && s == [b] + (LE(3, w) + rest))
  {
    Powers();
    hide TakeInt, LE;
    if w < 127 { TakeByteIs(s, w, rest); }
    if b: byte :| b >= 127 && s == [b] + (LE(3, w) + rest) {
      TakeByteIs(s, b, LE(3, w) + rest);
      TakeIntIs(LE(3, w) + rest, 3, w, rest);
    }
    if ReadWords(s) == Some(Taken(w, rest)) {
      var t := TakeInt(s, 1).value;
      TakeByteIs(s, t.value, t.rest);
      TakeIntIs(t.rest, 3, w, rest);
    }
  }

  // A packet comes out as it went in, with nothing left over or taken from the next, just
  // if its length is a multiple of 4 and below 2^26.
  lemma PacketSurvives(packet: seq<byte>, tail: seq<byte>, room: nat)
    requires room >= |packet|
    ensures Read(Framed(packet) + tail, room) == Got(packet, tail)
      <==> |packet| % 4 == 0 && |packet| < 0x400_0000
  {
    var n := |packet|;
    assert Framed(packet) + tail == Words(n) + (packet + tail);
    hide ReadWords, Words;
    WordsRead(n, packet + tail);
    TakeOf(packet, tail);
  }

  // ----- whole connections -----

  function Wire(packets: seq<seq<byte>>): seq<byte> {
    if packets == [] then [] else Framed(packets[0]) + Wire(packets[1..])
  }

  // Reading packet after packet until the stream ends or a packet does not fit.
  function ReadAll(s: seq<byte>, room: nat): seq<seq<byte>>
    decreases |s|
  {
    match Read(s, room)
    case Got(p, rest) => if |rest| < |s| then [p] + ReadAll(rest, room) else [p]
    case _ => []
  }

  lemma {:induction false} ReadAllUndoesWire(packets: seq<seq<byte>>, room: nat)
    requires forall p :: p in packets ==> |p| % 4 == 0 && |p| < 0x400_0000 && |p| <= room
    ensures ReadAll(Wire(packets), room) == packets
  {
    if packets != [] {
      PacketSurvives(packets[0], Wire(packets[1..]), room);
      hide Read, Words;
      WordsNotEmpty(|packets[0]|);
      ReadAllUndoesWire(packets[1..], room);
    }
  }

  function NotEmpty(packets: seq<seq<byte>>): seq<seq<byte>> {
    if packets == [] then []
    else
      var front, p := NotEmpty(packets[..|packets| - 1]), packets[|packets| - 1];
      if p == [] then front else front + [p]
  }

  // The stream holds the next packet and what comes behind it.
  lemma WireStep(packets: seq<seq<byte>>, k: nat, room: nat)
    requires k <= |packets| && Wire(packets[k..]) != []
    requires forall p :: p in packets ==> |p| % 4 == 0 && |p| < 0x400_0000 && |p| <= room
    ensures k < |packets| && Read(Wire(packets[k..]), room) == Got(packets[k], Wire(packets[k + 1..]))
  {
    hide Read;
    assert packets[k] in packets && packets[k..][1..] == packets[k + 1..];
    PacketSurvives(packets[k], Wire(packets[k + 1..]), room);
  }

  lemma WireStarts(packets: seq<seq<byte>>)
    requires packets != []
    ensures Wire(packets) != [] && Wire(packets)[0] == if |packets[0]| / 4 < 0x7F then |packets[0]| / 4 else 0x7F
  {
  }

  lemma WireEnds(packets: seq<seq<byte>>, k: nat)
    requires k <= |packets| && Wire(packets[k..]) == []
    ensures k == |packets|
  {
    if k < |packets| {
      WordsNotEmpty(|packets[k]|);
    }
  }

  lemma WordsNotEmpty(n: nat)
    ensures |Words(n)| > 0
  {
  }

  lemma PieceTaken(all: seq<byte>, offset: nat, len: nat)
    requires offset + len <= |all|
    ensures all[..offset] + all[offset..][..len] == all[..offset + len]
    ensures all[offset..][len..] == all[offset + len..]
  {
  }

  lemma MaskedTwice(m: Mask, at: nat, s: seq<byte>)
    requires IsMask(m)
    ensures Masked(m, at, Masked(m, at, s)) == s
  {
  }

  lemma MaskedSplit(m: Mask, at: nat, a: seq<byte>, b: seq<byte>)
    ensures Masked(m, at, a + b) == Masked(m, at, a) + Masked(m, at + |a|, b)
  {
  }

  lemma FirstMasked(m: Mask, at: nat, s: seq<byte>)
    requires s != []
    ensures Masked(m, at, s) == [m(at, s[0])] + Masked(m, at + 1, s[1..])
  {
  }

  lemma NoWords(s: seq<byte>)
    requires s == []
    ensures ReadWords(s) == None
  {
  }

  lemma ShortWords(b: byte, rest: seq<byte>)
    requires b < 0x7F
    ensures ReadWords([b] + rest) == Some(Taken(b, rest))
  {
    TakeByteOf(b, rest);
  }

  lemma LongWords(b: byte, rest: seq<byte>)
    requires b >= 0x7F
    ensures ReadWords([b] + rest) == if |rest| < 3 then None else Some(Taken(FromLE(rest[..3]), rest[3..]))
  {
    TakeByteOf(b, rest);
  }

  lemma MaskedCut(m: Mask, at: nat, s: seq<byte>, n: nat)
    requires n <= |s|
    ensures Masked(m, at, s)[..n] == Masked(m, at, s[..n]) && Masked(m, at, s)[n..] == Masked(m, at + n, s[n..])
  {
  }

  // A long length of which n bytes are there: with all three, what the memory held does not
  // matter.
  lemma LongLength(m: Mask, at: nat, s: seq<byte>, junk: seq<byte>, n: nat)
    requires n <= 3 == |junk| && n < |s| && m(at, s[0]) >= 0x7F
    ensures s[1..][n..] == s[1 + n..]
    ensures FromLE(Masked(m, at + 1, s[1..][..n] + junk[n..])) == CutWords(m, at, s, n, junk)
    ensures |s| < 4 ==> ReadWords(Masked(m, at, s)) == None
    ensures n == 3 ==>
      ReadWords(Masked(m, at, s)) == Some(Taken(CutWords(m, at, s, n, junk), Masked(m, at + 4, s[1 + n..])))
  {
    hide Masked, FromLE, ReadWords;
    assert s[1..][..n] == s[1..1 + n];
    FirstMasked(m, at, s);
    LongWords(m(at, s[0]), Masked(m, at + 1, s[1..]));
    if n == 3 {
      assert s[1..4] + junk[3..] == s[1..4] == s[1..][..3];
      MaskedCut(m, at + 1, s[1..], 3);
    }
  }

  lemma RestOf(s: seq<byte>, room: nat)
    ensures match Read(s, room)
      case Got(p, rest) => ReadWords(s).Some? && |p| == ReadWords(s).value.value * 4
      case _ => true
  {
    hide ReadWords;
  }

  // With a cut length, a packet that is not empty never comes out right: the place to read on
  // differs by a number of bytes that is no multiple of 4.
  lemma CutIsWrong(m: Mask, at: nat, s: seq<byte>, n: nat, junk: seq<byte>, room: nat)
    requires 0 < n < 3 && n < |s| && n <= |junk| && Masked(m, at, s)[0] >= 0x7F
    ensures Read(Masked(m, at, s), room).Got? ==> ReadCut(m, at, s, n, junk, room) != Read(Masked(m, at, s), room)
  {
    LongPacket(Masked(m, at, s), room);
    hide Read, Masked, CutWords;
  }

  lemma SmallLength()
    ensures LE(3, 127) == [127, 0, 0]
  {
    assert LE(0, 0) == [];
    assert LE(1, 0) == [0] + LE(0, 0) == [0];
    assert LE(2, 0) == [0] + LE(1, 0) == [0, 0];
    assert LE(3, 127) == [127] + LE(2, 0);
  }

  // 508 bytes with a length of which one byte comes at once: what is received are two bytes of
  // the length and all but two of the packet.
  lemma CutLengthMisleads()
    ensures var p: seq<byte> := seq(508, _ => 1);
      var asIs: Mask := (at, b) => b;
      ReadCut(asIs, 0, Masked(asIs, 0, Framed(p)), 1, [0, 0, 0], 1500) == Got([0, 0] + p[..506], p[506..])
  {
    var p: seq<byte> := seq(508, _ => 1);
    var asIs: Mask := (at, b) => b;
    SmallLength();
    var s := Framed(p);
    assert s == [0x7F, 127, 0, 0] + p;
    assert Masked(asIs, 0, s) == s;
    assert s[1..2] + [0, 0, 0][1..] == [127, 0, 0] == Masked(asIs, 1, [127, 0, 0]);
    FromLEOfLE(3, 127) by { Powers(); }
    assert Masked(asIs, 4, s[2..]) == s[2..] == ([0, 0] + p[..506]) + p[506..];
    TakeOf([0, 0] + p[..506], p[506..]);
  }

  // A packet with a long length, and its length, are a multiple of 4 bytes.
  lemma LongPacket(s: seq<byte>, room: nat)
    ensures s != [] && s[0] >= 0x7F && Read(s, room).Got? ==>
      |s| >= 4 && |Read(s, room).rest| <= |s| - 4 && (|s| - |Read(s, room).rest|) % 4 == 0
      && |Read(s, room).packet| % 4 == 0
  {
    hide ReadWords, FromLE, LE;
    if s != [] && s[0] >= 0x7F {
      assert s == [s[0]] + s[1..];
      LongWords(s[0], s[1..]);
    }
  }

  // ----- the two ends, which move along the keystream -----

  class Sender {
    const mask: Mask
    var sent: nat

    constructor (mask: Mask)
      ensures this.mask == mask && sent == 0
    {
      this.mask, sent := mask, 0;
    }

    method Send(packet: seq<byte>) returns (bytes: seq<byte>)
      modifies this
      ensures bytes == Masked(mask, old(sent), Framed(packet)) && sent == old(sent) + |bytes|
    {
      var os := new BufferOutputStream(|packet| + 4);
      var len := |packet| / 4;
      if len < 0x7F {
        var _ := os.WriteBytes([len]);
      } else {
        var _ := os.WriteBytes([0x7F]);
        var _ := os.WriteInt(3, len);
      }
      assert os.Contents() == Words(|packet|);
      var _ := os.WriteBytes(packet);
      bytes := Masked(mask, sent, os.buffer[..os.offset]);
      sent := sent + |bytes|;
    }
  }

  // The socket below: it gives what has come, in pieces of any size.
  class Pipe {
    var incoming: seq<byte>
    const piece: nat -> nat
    var calls: nat

    constructor (incoming: seq<byte>, piece: nat -> nat)
      ensures this.incoming == incoming && this.piece == piece
    {
      this.incoming, this.piece, calls := incoming, piece, 0;
    }

    // How many of `left` bytes a call gives that asks for at most `max`.
    function Gives(call: nat, max: nat, left: nat): (n: nat)
      ensures n <= max && n <= left && (n == 0 <==> max == 0 || left == 0)
    {
      var n := if max < left then max else left;
      if 0 < piece(call) < n then piece(call) else n
    }

    // How many calls it takes to get `want` bytes that have come, from this call on.
    function Takes(call: nat, want: nat): nat
      decreases want
    {
      if want == 0 then 0 else 1 + Takes(call + 1, want - Gives(call, want, want))
    }

    lemma GivesAll(call: nat, max: nat, left: nat)
      requires left >= max
      ensures Gives(call, max, left) == Gives(call, max, max)
    {
    }

    lemma TakesNothing(call: nat)
      ensures Takes(call, 0) == 0
    {
    }

    lemma TakesStep(call: nat, want: nat, left: nat)
      requires 0 < want <= left
      ensures Takes(call, want) == 1 + Takes(call + 1, want - Gives(call, want, left))
    {
      GivesAll(call, want, left);
    }

    // Some packet has a long length, of which the socket gives only a part at once.
    predicate Cut(packets: seq<seq<byte>>, call: nat)
      decreases |packets|
    {
      packets != []
      && if |packets[0]| / 4 < 0x7F then Cut(packets[1..], call + 1 + Takes(call + 1, |packets[0]|))
         else 0 < piece(call + 1) < 3 || Cut(packets[1..], call + 2 + Takes(call + 2, |packets[0]|))
    }

    // Nothing is cut if the lengths are short, or the pieces are not.
    lemma {:induction false} NothingCut(packets: seq<seq<byte>>, call: nat)
      requires (forall p :: p in packets ==> |p| / 4 < 0x7F) || (forall k :: piece(k) == 0 || piece(k) >= 3)
      ensures !Cut(packets, call)
      decreases |packets|
    {
      hide Takes;
      if packets != [] {
        var p := packets[0];
        NothingCut(packets[1..], call + 1 + Takes(call + 1, |p|));
        NothingCut(packets[1..], call + 2 + Takes(call + 2, |p|));
      }
    }

    method Receive(max: nat) returns (bytes: seq<byte>)
      modifies this
      ensures bytes + incoming == old(incoming) && calls == old(calls) + 1
      ensures |bytes| == Gives(old(calls), max, |old(incoming)|)
    {
      var n := Gives(calls, max, |incoming|);
      calls := calls + 1;
      bytes, incoming := incoming[..n], incoming[n..];
    }

    // The same into a buffer, from an offset on.
    method ReceiveInto(data: array<byte>, offset: nat, max: nat) returns (len: nat)
      requires offset + max <= data.Length
      modifies this, data
      ensures len == Gives(old(calls), max, |old(incoming)|) && calls == old(calls) + 1
      ensures data[..offset + len] == old(data[..offset]) + old(incoming)[..len] && incoming == old(incoming)[len..]
    {
      hide Gives;
      var bytes := Receive(max);
      len := |bytes|;
      forall k | 0 <= k < len { data[offset + k] := bytes[k]; }
    }
  }

  // The packet is at the front of the buffer, and the rest still to be read.
  ghost predicate IsGot(g: Got, length: nat, data: array<byte>, ahead: seq<byte>)
    reads data
  {
    length <= data.Length
    && match g
       case Got(p, rest) => data[..length] == p && ahead == rest
       case _ => length == 0
  }

  class Receiver {
    const mask: Mask
    const pipe: Pipe
    var received: nat

    constructor (mask: Mask, pipe: Pipe)
      ensures this.mask == mask && this.pipe == pipe && received == 0
    {
      this.mask, this.pipe, received := mask, pipe, 0;
    }

    // What is still to be read, without the mask.
    ghost function Ahead(): seq<byte>
      reads this, pipe
    {
      Masked(mask, received, pipe.incoming)
    }

    // The next packet has a long length, of which the socket gives only a part at once.
    ghost predicate CutsLength()
      reads this, pipe
    {
      && Ahead() != [] && Ahead()[0] >= 0x7F
      && 0 < pipe.Gives(pipe.calls + 1, 3, |pipe.incoming| - 1) < 3
    }

    // How many calls there were once the next packet is read.
    ghost function Behind(room: nat): nat
      requires Read(Ahead(), room).Got?
      reads this, pipe
    {
      var call := pipe.calls + if Ahead() != [] && Ahead()[0] < 0x7F then 1 else 2;
      call + pipe.Takes(call, |Read(Ahead(), room).packet|)
    }

    // How many bytes of a long length come at once.
    ghost function LengthBytes(): nat
      requires pipe.incoming != []
      reads this, pipe
    {
      pipe.Gives(pipe.calls + 1, 3, |pipe.incoming| - 1)
    }

    // The three bytes of a long length. What is missing of them stays what the memory held.
    method ReceiveLong(junk: seq<byte>) returns (words: Option<nat>)
      requires |junk| == 3
      modifies this, pipe
      ensures var n := pipe.Gives(old(pipe.calls), 3, |old(pipe.incoming)|);
        && pipe.incoming == old(pipe.incoming)[n..] && pipe.calls == old(pipe.calls) + 1
        && (n == 0 ==> words == None && received == old(received))
        && (n > 0 ==> words == Some(FromLE(Masked(mask, old(received), old(pipe.incoming)[..n] + junk[n..]))))
        && (n > 0 ==> received == old(received) + 3)
    {
      hide FromLE, Masked;
      ghost var all := pipe.incoming;
      var more := pipe.Receive(3);
      assert more == all[..|more|] && pipe.incoming == all[|more|..];
      if more == [] { return None; }
      words := Some(FromLE(Masked(mask, received, more + junk[|more|..])));
      received := received + 3;
    }

    // The length in words.
    method ReceiveWords(junk: seq<byte>) returns (words: Option<nat>)
      requires |junk| == 3
      modifies this, pipe
      ensures !old(CutsLength()) ==>
        match ReadWords(old(Ahead()))
        case Some(t) => words == Some(t.value) && Ahead() == t.rest
        case None => words == None && pipe.incoming == []
      ensures old(CutsLength()) ==> var n := old(LengthBytes());
        && words == Some(CutWords(mask, old(received), old(pipe.incoming), n, junk))
        && pipe.incoming == old(pipe.incoming)[1 + n..] && received == old(received) + 4
      ensures old(pipe.incoming) != [] ==> |pipe.incoming| < |old(pipe.incoming)|
      ensures old(Ahead()) != [] ==> pipe.calls == old(pipe.calls) + if old(Ahead()[0]) < 0x7F then 1 else 2
    {
      hide ReadWords, Masked, FromLE, Pipe.Gives, CutWords;
      ghost var all, at := pipe.incoming, received;
      var first := pipe.Receive(1);
      if first == [] {
        NoWords(Masked(mask, at, all));
        return None;
      }
      assert all[0] == first[0] && all[1..] == pipe.incoming;
      FirstMasked(mask, at, all);
      var len1 := mask(received, first[0]);
      received := received + 1;
      if len1 < 0x7F {
        ShortWords(len1, Ahead());
        return Some(len1);
      }
      LongLength(mask, at, all, junk, pipe.Gives(pipe.calls, 3, |pipe.incoming|));
      words := ReceiveLong(junk);
    }

    // The packet behind its length.
    method ReceiveRest(data: array<byte>, words: nat) returns (length: nat)
      modifies this, pipe, data
      ensures IsGot(ReadRest(old(Ahead()), words, data.Length), length, data, Ahead())
      ensures ReadRest(old(Ahead()), words, data.Length).Got? ==>
        pipe.calls == old(pipe.calls) + pipe.Takes(old(pipe.calls), words * 4)
      ensures |pipe.incoming| <= |old(pipe.incoming)|
    {
      hide Masked;
      var packetLen := words * 4;
      if packetLen > data.Length { return 0; }
      ghost var all, at := pipe.incoming, received;
      var whole := ReceivePayload(data, packetLen);
      if !whole { return 0; }
      MaskedSplit(mask, at, all[..packetLen], all[packetLen..]);
      assert all == all[..packetLen] + all[packetLen..];
      UnmaskInPlace(data, packetLen);
      TakeOf(Masked(mask, at, all[..packetLen]), Ahead());
      length := packetLen;
    }

    // The packet ends up in the buffer; a length of 0 means that nothing was received. The
    // packet comes out right, with reading set to go on behind it, just if no length is cut.
    method Receive(data: array<byte>, junk: seq<byte>) returns (length: nat)
      requires |junk| == 3
      modifies this, pipe, data
      ensures var g := if old(CutsLength())
          then ReadCut(mask, old(received), old(pipe.incoming), old(LengthBytes()), junk, data.Length)
          else Read(old(Ahead()), data.Length);
        IsGot(g, length, data, Ahead())
      ensures match Read(old(Ahead()), data.Length)
              case Got(p, rest) =>
                var right := length == |p| && data[..length] == p && Ahead() == rest;
                (!old(CutsLength()) ==> right) && (right && p != [] ==> !old(CutsLength()))
              case _ => !old(CutsLength()) ==> length == 0
      ensures length <= data.Length && (old(pipe.incoming) != [] ==> |pipe.incoming| < |old(pipe.incoming)|)
      ensures !old(CutsLength()) && Read(old(Ahead()), data.Length).Got? ==>
        pipe.calls == old(Behind(data.Length))
    {
      hide ReadWords, ReadRest, Masked, CutWords;
      if CutsLength() {
        CutIsWrong(mask, received, pipe.incoming, LengthBytes(), junk, data.Length);
      }
      if Ahead() == [] {
        NoWords(Ahead());
      }
      RestOf(Ahead(), data.Length);
      var words := ReceiveWords(junk);
      length := 0;
      if words.Some? {
        length := ReceiveRest(data, words.value);
      }
    }

    // The loop of the receiving thread over one connection, which skips empty packets: it
    // hands on all packets that were sent, however the socket cuts them into pieces, if it
    // cuts no length.
    method ReceiveAll(data: array<byte>, junk: nat -> seq<byte>, ghost packets: seq<seq<byte>>) returns (got: seq<seq<byte>>)
      requires Ahead() == Wire(packets) && forall k :: |junk(k)| == 3
      requires forall p :: p in packets ==> |p| % 4 == 0 && |p| < 0x400_0000 && |p| <= data.Length
      modifies this, pipe, data
      ensures pipe.incoming == [] && (!pipe.Cut(packets, old(pipe.calls)) ==> got == NotEmpty(packets))
    {
      hide Framed, Masked, Read, Wire;
      got := [];
      ghost var whole, done, start := !pipe.Cut(packets, pipe.calls), 0, pipe.calls;
      assert packets[0..] == packets;
      while pipe.incoming != []
        invariant whole == !pipe.Cut(packets, start)
        invariant whole ==> done <= |packets| && got == NotEmpty(packets[..done]) && Ahead() == Wire(packets[done..])
        invariant whole ==> !pipe.Cut(packets[done..], pipe.calls)
        decreases |pipe.incoming|
      {
        if whole {
          WireStep(packets, done, data.Length);
          NextIsWhole(packets[done..], data.Length);
        }
        var length := Receive(data, junk(pipe.calls));
        if length > 0 {
          got := got + [data[..length]];
        }
        done := done + 1;
        assert whole ==> packets[..done] == packets[..done - 1] + [packets[done - 1]];
      }
      if whole {
        WireEnds(packets, done);
        assert packets[..|packets|] == packets;
      }
    }

    // What no cut means for the next packet.
    lemma NextIsWhole(packets: seq<seq<byte>>, room: nat)
      requires packets != [] && Ahead() == Wire(packets) && !pipe.Cut(packets, pipe.calls)
      requires Read(Ahead(), room) == Got(packets[0], Wire(packets[1..]))
      ensures !CutsLength() && !pipe.Cut(packets[1..], Behind(room))
    {
      hide Read, Masked, Wire;
      WireStarts(packets);
      LongPacket(Ahead(), room);
    }

    method ReceivePayload(data: array<byte>, packetLen: nat) returns (whole: bool)
      requires packetLen <= data.Length
      modifies pipe, data
      ensures whole == (packetLen <= |old(pipe.incoming)|) && (!whole ==> pipe.incoming == [])
      ensures whole ==> data[..packetLen] == old(pipe.incoming)[..packetLen] && pipe.incoming == old(pipe.incoming)[packetLen..]
      ensures whole ==> pipe.calls == old(pipe.calls) + pipe.Takes(old(pipe.calls), packetLen)
    {
      hide Pipe.Takes, Pipe.Gives;
      var offset := 0;
      ghost var all := pipe.incoming;
      while offset < packetLen
        invariant offset <= packetLen && offset <= |all|
        invariant data[..offset] == all[..offset] && pipe.incoming == all[offset..]
        invariant packetLen <= |all| ==> pipe.calls + pipe.Takes(pipe.calls, packetLen - offset)
                                         == old(pipe.calls) + pipe.Takes(old(pipe.calls), packetLen)
        decreases packetLen - offset
      {
        if packetLen <= |all| {
          pipe.TakesStep(pipe.calls, packetLen - offset, |pipe.incoming|);
        }
        var len := pipe.ReceiveInto(data, offset, packetLen - offset);
        if len == 0 { return false; }
        PieceTaken(all, offset, len);
        offset := offset + len;
      }
      pipe.TakesNothing(pipe.calls);
      whole := true;
    }

    method UnmaskInPlace(data: array<byte>, n: nat)
      requires n <= data.Length
      modifies `received, data
      ensures data[..n] == Masked(mask, old(received), old(data[..n])) && received == old(received) + n
    {
      forall k | 0 <= k < n { data[k] := mask(received + k, data[k]); }
      received := received + n;
    }
  }

  // The bytes of one Send after another.
  function SentAll(m: Mask, at: nat, packets: seq<seq<byte>>): seq<byte>
    decreases |packets|
  {
    if packets == [] then []
    else Masked(m, at, Framed(packets[0])) + SentAll(m, at + |Framed(packets[0])|, packets[1..])
  }

  lemma {:induction false} SentIsMaskedWire(m: Mask, at: nat, packets: seq<seq<byte>>)
    ensures SentAll(m, at, packets) == Masked(m, at, Wire(packets))
    decreases |packets|
  {
    hide Framed, Masked;
    if packets != [] {
      SentIsMaskedWire(m, at + |Framed(packets[0])|, packets[1..]);
      MaskedSplit(m, at, Framed(packets[0]), Wire(packets[1..]));
    }
  }

  // A receiver with the sender's keystream reads the packets that were sent, all of them
  // and in their order.
  lemma ReceiverGetsPackets(m: Mask, at: nat, packets: seq<seq<byte>>, room: nat)
    requires IsMask(m)
    requires forall p :: p in packets ==> |p| % 4 == 0 && |p| < 0x400_0000 && |p| <= room
    ensures ReadAll(Masked(m, at, SentAll(m, at, packets)), room) == packets
  {
    SentIsMaskedWire(m, at, packets);
    MaskedTwice(m, at, Wire(packets));
    ReadAllUndoesWire(packets, room);
  }
}

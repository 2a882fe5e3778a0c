// Packets written to and read from streams, as the controller does it.
module PacketStreams {
  import opened Bytes
  import opened Options
  import opened Serial
  import opened Streams
  import opened Extras
  import opened PacketLayout
  import opened PacketEnvelope
  import opened PacketAccepted

  // ----- writing -----

  ghost predicate Grows(out: BufferOutputStream)
    reads out
  {
    out.Valid() && !out.bufferProvided
  }

  method WriteExtras(out: BufferOutputStream, es: seq<Content>)
    requires Grows(out) && ExtrasFit(es)
    modifies out, out.buffer
    ensures Grows(out) && (out.buffer == old(out.buffer) || fresh(out.buffer))
    ensures out.Contents() == old(out.Contents()) + ExtrasBytes(es)
  {
    hide EachExtra;
    if es == [] {
      var _ := out.WriteBytes([0]);
      return;
    }
    var count: byte := |es| % 256;
    var _ := out.WriteBytes([1]);
    var _ := out.WriteBytes([count]);
    WriteEach(out, es);
    Assoc(old(out.Contents()), [1], [count]);
    Assoc(old(out.Contents()), [1] + [count], EachExtra(es));
    Assoc([1], [count], EachExtra(es));
  }

  method WriteEach(out: BufferOutputStream, es: seq<Content>)
    requires Grows(out) && forall e :: e in es ==> |e.data| <= 254
    modifies out, out.buffer
    ensures Grows(out) && (out.buffer == old(out.buffer) || fresh(out.buffer))
    ensures out.Contents() == old(out.Contents()) + EachExtra(es)
  {
    hide EachExtra;
    ghost var before := out.Contents();
    assert es[0..] == es;
    for k := 0 to |es|
      invariant Grows(out) && (out.buffer == old(out.buffer) || fresh(out.buffer))
      invariant out.Contents() + EachExtra(es[k..]) == before + EachExtra(es)
    {
      ghost var c := out.Contents();
      EachUnfold(es, k);
      var x := es[k];
      WriteOne(out, x);
      Assoc(c, OneExtra(x), EachExtra(es[k + 1..]));
    }
    NoExtra(es);
    assert out.Contents() + [] == out.Contents();
  }

  function OneExtra(x: Content): seq<byte>
    requires |x.data| <= 254
  {
    [|x.data| + 1] + ([x.kind] + x.data)
  }

  lemma EachUnfold(es: seq<Content>, k: nat)
    requires k < |es| && forall e :: e in es ==> |e.data| <= 254
    ensures es[k] in es && EachExtra(es[k..]) == OneExtra(es[k]) + EachExtra(es[k + 1..])
  {
    assert es[k..][1..] == es[k + 1..];
  }

  lemma NoExtra(es: seq<Content>)
    ensures EachExtra(es[|es|..]) == []
  {
  }

  method WriteOne(out: BufferOutputStream, x: Content)
    requires Grows(out) && |x.data| <= 254
    modifies out, out.buffer
    ensures Grows(out) && (out.buffer == old(out.buffer) || fresh(out.buffer))
    ensures out.Contents() == old(out.Contents()) + OneExtra(x)
  {
    var len: byte := |x.data| + 1;
    var _ := out.WriteBytes([len]);
    var _ := out.WriteBytes([x.kind]);
    var _ := out.WriteBytes(x.data);
    Assoc(old(out.Contents()), [len], [x.kind]);
    Assoc(old(out.Contents()), [len] + [x.kind], x.data);
    Assoc([len], [x.kind], x.data);
  }

  method WriteNumbers(out: BufferOutputStream, m: Message)
    requires Grows(out)
    modifies out, out.buffer
    ensures Grows(out) && (out.buffer == old(out.buffer) || fresh(out.buffer))
    ensures out.Contents() == old(out.Contents()) + Numbers(m)
  {
    hide LE;
    var _ := out.WriteInt(4, m.ackId);
    var _ := out.WriteInt(4, m.number);
    var _ := out.WriteInt(4, m.acks);
    ghost var c := old(out.Contents());
    Assoc(c, LE(4, m.ackId), LE(4, m.number));
    Assoc(c, LE(4, m.ackId) + LE(4, m.number), LE(4, m.acks));
  }

  method WriteOpening(out: BufferOutputStream, tlid: uint32, id: seq<byte>, filler: seq<byte>)
    requires Grows(out)
    modifies out, out.buffer
    ensures Grows(out) && (out.buffer == old(out.buffer) || fresh(out.buffer))
    ensures out.Contents() == old(out.Contents()) + Opening(tlid, id, filler)
  {
    var _ := out.WriteInt(4, tlid);
    var _ := out.WriteBytes(id);
    var _ := out.WriteBytes([7]);
    var _ := out.WriteBytes(filler);
    ghost var c := old(out.Contents());
    Assoc(c, LE(4, tlid), id);
    Assoc(c, LE(4, tlid) + id, [7]);
    Assoc(c, LE(4, tlid) + id + [7], filler);
  }

  method WriteShort(out: BufferOutputStream, m: Message)
    requires Grows(out) && ExtrasFit(m.extras)
    modifies out, out.buffer
    ensures Grows(out) && (out.buffer == old(out.buffer) || fresh(out.buffer))
    ensures out.Contents() == old(out.Contents()) + ([m.kind] + Numbers(m) + ExtrasBytes(m.extras))
  {
    hide Numbers, ExtrasBytes;
    var _ := out.WriteBytes([m.kind]);
    WriteNumbers(out, m);
    WriteExtras(out, m.extras);
    ghost var c := old(out.Contents());
    assert c + [m.kind] + Numbers(m) + ExtrasBytes(m.extras) == c + ([m.kind] + Numbers(m) + ExtrasBytes(m.extras));
  }

  method WriteDecrypted(out: BufferOutputStream, m: Message, f: Format, id: seq<byte>, filler: seq<byte>)
    requires Grows(out) && ExtrasFit(m.extras) && !IsShort(f) && f.waiting
    modifies out, out.buffer
    ensures Grows(out) && (out.buffer == old(out.buffer) || fresh(out.buffer))
    ensures out.Contents() == old(out.Contents()) + HeaderBytes(m, f, id, filler)
  {
    hide Numbers, Opening, TlLength, Flags, LE;
    WriteOpening(out, DECRYPTED_AUDIO_BLOCK, id, filler);
    var _ := out.WriteInt(4, Flags(m));
    var _ := out.WriteBytes(f.callId);
    WriteNumbers(out, m);
    var _ := out.WriteInt(4, PROTOCOL_NAME);
    ghost var c, o := old(out.Contents()), Opening(DECRYPTED_AUDIO_BLOCK, id, filler);
    Assoc(c, o, LE(4, Flags(m)));
    Assoc(c, o + LE(4, Flags(m)), f.callId);
    Assoc(c, o + LE(4, Flags(m)) + f.callId, Numbers(m));
    Assoc(c, o + LE(4, Flags(m)) + f.callId + Numbers(m), LE(4, PROTOCOL_NAME));
    ghost var h := o + LE(4, Flags(m)) + f.callId + Numbers(m) + LE(4, PROTOCOL_NAME);
    if |m.payload| > 0 {
      var _ := out.WriteTlLength(|m.payload|);
      Assoc(c, h, TlLength(|m.payload|));
    } else {
      assert h + [] == h;
    }
  }

  method WriteSimple(out: BufferOutputStream, m: Message, f: Format, id: seq<byte>, filler: seq<byte>)
    requires Grows(out) && ExtrasFit(m.extras) && !IsShort(f) && !f.waiting
    modifies out, out.buffer
    ensures Grows(out) && (out.buffer == old(out.buffer) || fresh(out.buffer))
    ensures out.Contents() == old(out.Contents()) + HeaderBytes(m, f, id, filler)
  {
    hide Numbers, Opening, TlLength, ExtrasBytes, LE;
    WriteOpening(out, SIMPLE_AUDIO_BLOCK, id, filler);
    var _ := out.WriteTlLength(|m.payload| + 13);
    var _ := out.WriteBytes([m.kind]);
    WriteNumbers(out, m);
    ghost var c, o := old(out.Contents()), Opening(SIMPLE_AUDIO_BLOCK, id, filler);
    ghost var h := o + TlLength(|m.payload| + 13) + [m.kind] + Numbers(m);
    Assoc(c, o, TlLength(|m.payload| + 13));
    Assoc(c, o + TlLength(|m.payload| + 13), [m.kind]);
    Assoc(c, o + TlLength(|m.payload| + 13) + [m.kind], Numbers(m));
    if f.peerVersion >= 6 {
      WriteExtras(out, m.extras);
      Assoc(c, h, ExtrasBytes(m.extras));
    } else {
      assert h + [] == h;
    }
  }

  method WritePacketHeader(out: BufferOutputStream, m: Message, f: Format, id: seq<byte>, filler: seq<byte>)
    requires Grows(out) && ExtrasFit(m.extras)
    modifies out, out.buffer
    ensures Grows(out) && (out.buffer == old(out.buffer) || fresh(out.buffer))
    ensures out.Contents() == old(out.Contents()) + HeaderBytes(m, f, id, filler)
  {
    if IsShort(f) {
      WriteShort(out, m);
    } else if f.waiting {
      WriteDecrypted(out, m, f, id, filler);
    } else {
      WriteSimple(out, m, f, id, filler);
    }
  }

  // The packet as it is handed to SendPacket, in a buffer that starts with 1500 bytes.
  method WritePacket(m: Message, f: Format, id: seq<byte>, filler: seq<byte>) returns (data: seq<byte>)
    requires ExtrasFit(m.extras)
    ensures data == Packet(m, f, id, filler)
  {
    hide HeaderBytes;
    var p := new BufferOutputStream(MAX_PACKET);
    WritePacketHeader(p, m, f, id, filler);
    assert [] + HeaderBytes(m, f, id, filler) == HeaderBytes(m, f, id, filler);
    var _ := p.WriteBytes(m.payload);
    data := p.buffer[..p.offset];
  }

  method SealPacket(c: Crypto, k: Shared, outgoing: bool, data: seq<byte>, padding: seq<byte>) returns (packet: seq<byte>)
    requires IsCrypto(c) && IsShared(k) && Fits(k.format, data, padding)
    ensures packet == Seal(c, k, outgoing, data, padding)
  {
    hide MessageKey, CipherKey, Inner, PadLen, IsShort;
    var out := new BufferOutputStream(|data| + 128);
    if k.format.peerVersion < 9 {
      var _ := out.WriteBytes(k.format.callId);
    }
    if !IsShort(k.format) {
      var _ := out.WriteBytes(k.keyFingerprint);
    }
    ghost var tag := if k.format.peerVersion < 9 then k.format.callId else [];
    ghost var mark := if IsShort(k.format) then [] else k.keyFingerprint;
    assert tag + [] == tag;
    assert out.Contents() == tag + mark;
    var inner := PadInner(k.format, data, padding);
    UnpadInner(k.format, data, padding);
    var msgKey := MessageKey(c, k, KeyPart(outgoing), inner[SizeSize(k.format)..]);
    var key := CipherKey(c, k, KeyPart(outgoing), msgKey);
    var _ := out.WriteBytes(msgKey);
    var _ := out.WriteBytes(c.encrypt(key.0, key.1, inner));
    packet := out.buffer[..out.offset];
  }

  method PadInner(f: Format, data: seq<byte>, padding: seq<byte>) returns (bytes: seq<byte>)
    ensures bytes == Inner(f, data, padding)
  {
    hide LE;
    var inner := new BufferOutputStream(|data| + 128);
    if IsShort(f) {
      var _ := inner.WriteInt(2, |data|);
    } else {
      var _ := inner.WriteInt(4, |data|);
    }
    var _ := inner.WriteBytes(data);
    var _ := inner.WriteBytes(padding);
    assert [] + LE(LengthBytes(f), |data|) == LE(LengthBytes(f), |data|);
    bytes := inner.buffer[..inner.offset];
  }

  // ----- reading -----

  method ReadExtra(from: BufferInputStream) returns (x: Option<Content>)
    requires from.Valid()
    modifies from
    ensures from.Valid()
    ensures match TakeExtra(old(from.Rest()))
            case Some(t) => x == Some(t.value) && from.Rest() == t.rest
            case None => x == None
  {
    var n := from.ReadInt(1);
    if n.None? { return None; }
    var t := from.ReadBytes(n.value);
    if t.None? || t.value == [] { return None; }
    x := Some(Content(t.value[0], t.value[1..]));
  }

  method ReadExtras(from: BufferInputStream, count: nat) returns (es: Option<seq<Content>>)
    requires from.Valid()
    modifies from
    ensures from.Valid()
    ensures match TakeExtras(old(from.Rest()), count)
            case Some(t) => es == Some(t.value) && from.Rest() == t.rest
            case None => es == None
  {
    hide TakeExtra;
    var read: seq<Content> := [];
    ghost var all := TakeExtras(from.Rest(), count);
    PrefixedNone(all);
    for k := 0 to count
      invariant from.Valid() && all == Prefixed(read, TakeExtras(from.Rest(), count - k))
    {
      ghost var before := read;
      var x := ReadExtra(from);
      if x.None? { return None; }
      read := read + [x.value];
      PrefixedMore(before, x.value, TakeExtras(from.Rest(), count - k - 1));
    }
    assert read + [] == read;
    es := Some(read);
  }

  ghost function Prefixed(read: seq<Content>, r: Option<Taken<seq<Content>>>): Option<Taken<seq<Content>>> {
    match r
    case Some(t) => Some(Taken(read + t.value, t.rest))
    case None => None
  }

  lemma PrefixedNone(r: Option<Taken<seq<Content>>>)
    ensures Prefixed([], r) == r
  {
    if r.Some? {
      assert [] + r.value.value == r.value.value;
    }
  }

  lemma PrefixedMore(read: seq<Content>, x: Content, r: Option<Taken<seq<Content>>>)
    ensures Prefixed(read, Prefixed([x], r)) == Prefixed(read + [x], r)
  {
    if r.Some? {
      assert read + ([x] + r.value.value) == read + [x] + r.value.value;
    }
  }

  method ReadFlagged(from: BufferInputStream) returns (es: Option<seq<Content>>)
    requires from.Valid()
    modifies from
    ensures from.Valid()
    ensures match TakeFlagged(old(from.Rest()))
            case Some(t) => es == Some(t.value) && from.Rest() == t.rest
            case None => es == None
  {
    var flag := from.ReadInt(1);
    if flag.None? { return None; }
    if flag.value % 2 == 0 { return Some([]); }
    var count := from.ReadInt(1);
    if count.None? { return None; }
    es := ReadExtras(from, count.value);
  }

  method ReadNumbers(from: BufferInputStream) returns (n: Option<Triple>)
    requires from.Valid()
    modifies from
    ensures from.Valid()
    ensures match TakeNumbers(old(from.Rest()))
            case Some(t) => n == Some(t.value) && from.Rest() == t.rest
            case None => n == None
  {
    ghost var s := from.Rest();
    var ackId := from.ReadInt(4);
    var number := from.ReadInt(4);
    var acks := from.ReadInt(4);
    if ackId.None? || number.None? || acks.None? { return None; }
    assert s[..12][..4] == s[..4] && s[..12][4..8] == s[4..][..4] && s[..12][8..] == s[8..][..4];
    assert s[4..][4..] == s[8..] && s[8..][4..] == s[12..];
    LEBound(s[..4]);
    LEBound(s[4..][..4]);
    LEBound(s[8..][..4]);
    n := Some(Triple(ackId.value, number.value, acks.value));
  }

  method ReadShort(from: BufferInputStream) returns (m: Option<Message>)
    requires from.Valid()
    modifies from
    ensures from.Valid() && m == ParseShort(old(from.Rest()))
  {
    hide TakeNumbers, TakeFlagged;
    ghost var s := from.Rest();
    var kind := from.ReadInt(1);
    if kind.None? { return None; }
    LEBound(s[..1]);
    var n := ReadNumbers(from);
    if n.None? { return None; }
    var es := ReadFlagged(from);
    if es.None? { return None; }
    m := Some(Message(kind.value, n.value.ackId, n.value.number, n.value.acks, es.value, from.buffer[from.offset..]));
  }

  method ReadOpening(from: BufferInputStream) returns (ok: bool)
    requires from.Valid()
    modifies from
    ensures from.Valid()
    ensures match SkipOpening(old(from.Rest()))
            case Some(rest) => ok && from.Rest() == rest
            case None => !ok
  {
    var id := from.ReadBytes(8);
    if id.None? { return false; }
    var randLen := from.ReadTlLength();
    if randLen.None? { return false; }
    ok := from.Skip(randLen.value + Pad4(randLen.value));
  }

  method ReadSimple(from: BufferInputStream, f: Format) returns (m: Option<Message>)
    requires from.Valid()
    modifies from
    ensures from.Valid() && m == ParseSimple(old(from.Rest()), f)
  {
    hide SkipOpening, TakeNumbers, ParseShort, TakeTlLength;
    var begun := ReadOpening(from);
    if !begun { return None; }
    var innerLen := from.ReadTlLength();
    if innerLen.None? { return None; }
    if f.peerVersion >= 6 {
      m := ReadShort(from);
    } else {
      ghost var s := from.Rest();
      var kind := from.ReadInt(1);
      if kind.None? { return None; }
      LEBound(s[..1]);
      var n := ReadNumbers(from);
      if n.None? { return None; }
      m := Some(Message(kind.value, n.value.ackId, n.value.number, n.value.acks, [], from.buffer[from.offset..]));
    }
  }

  method ReadDecrypted(from: BufferInputStream, f: Format) returns (m: Option<Message>)
    requires from.Valid()
    modifies from
    ensures from.Valid() && m == ParseDecrypted(old(from.Rest()), f)
  {
    hide SkipOpening, TakeNumbers, TakeTlLength, Has;
    var begun := ReadOpening(from);
    if !begun { return None; }
    var flags := from.ReadInt(4);
    if flags.None? || !Has(flags.value, HAS_SEQ) || !Has(flags.value, HAS_RECENT_RECV) { return None; }
    if Has(flags.value, HAS_CALL_ID) {
      var id := from.ReadBytes(16);
      if id.None? || id.value != f.callId { return None; }
    }
    var n := ReadNumbers(from);
    if n.None? { return None; }
    var ended := ReadEnd(from, flags.value);
    if !ended { return None; }
    m := Some(Message(flags.value / 0x100_0000 % 256, n.value.ackId, n.value.number, n.value.acks, [],
                      from.buffer[from.offset..]));
  }

  // Protocol, extra and length, each if the flags announce it.
  method ReadEnd(from: BufferInputStream, flags: nat) returns (ok: bool)
    requires from.Valid()
    modifies from
    ensures from.Valid()
    ensures match SkipEnd(old(from.Rest()), flags)
            case None => !ok
            case Some(rest) => ok && from.Rest() == rest
  {
    hide Has, TakeTlLength;
    if Has(flags, HAS_PROTO) {
      var proto := from.ReadInt(4);
      if proto != Some(PROTOCOL_NAME) { return false; }
    }
    if Has(flags, 2) {
      var extraLen := from.ReadTlLength();
      if extraLen.None? { return false; }
      var skipped := from.Skip(extraLen.value + Pad4(extraLen.value));
      if !skipped { return false; }
    }
    if Has(flags, HAS_DATA) {
      var len := from.ReadTlLength();
      return len.Some?;
    }
    ok := true;
  }

  lemma ParsesJust(data: seq<byte>, f: Format)
    ensures |f.callId| == 16 ==> forall n :: Parse(data, f) == Some(n) <==> IsForm(data, f, n)
  {
    hide Parse, IsForm;
    forall n | |f.callId| == 16 ensures Parse(data, f) == Some(n) <==> IsForm(data, f, n) {
      ParsesExactly(data, f, n);
    }
  }

  method ReadPacket(data: seq<byte>, f: Format) returns (m: Option<Message>)
    ensures m == Parse(data, f)
    ensures |f.callId| == 16 ==> forall n :: m == Some(n) <==> IsForm(data, f, n)
  {
    hide IsForm;
    ParsesJust(data, f);
    hide ParseShort, ParseSimple, ParseDecrypted, TakeInt;
    var from := new BufferInputStream(data);
    if IsShort(f) {
      m := ReadShort(from);
      return;
    }
    var tlid := from.ReadInt(4);
    if tlid.None? { return None; }
    if tlid.value == DECRYPTED_AUDIO_BLOCK {
      m := ReadDecrypted(from, f);
    } else if tlid.value == SIMPLE_AUDIO_BLOCK {
      m := ReadSimple(from, f);
    } else {
      m := None;
    }
  }

  method OpenPacket(c: Crypto, k: Shared, outgoing: bool, packet: seq<byte>) returns (data: Option<seq<byte>>)
    requires IsCrypto(c) && IsShared(k)
    ensures data == Open(c, k, outgoing, packet)
    ensures forall d :: data == Some(d) <==> IsSealed(c, k, outgoing, packet, d)
  {
    hide OpenBody, IsSealed, SkipTag, SkipFingerprint;
    OpensJust(c, k, outgoing, packet);
    var from := new BufferInputStream(packet);
    assert packet[0..] == packet;
    var ok := PassTag(from, k);
    if !ok || |from.buffer| - from.offset < 40 { return None; }
    ok := PassFingerprint(from, k);
    if !ok { return None; }
    data := OpenedBody(c, k, outgoing, from);
  }

  method PassTag(from: BufferInputStream, k: Shared) returns (ok: bool)
    requires from.Valid()
    modifies from
    ensures from.Valid()
    ensures match SkipTag(old(from.Rest()), k)
            case None => !ok
            case Some(rest) => ok && from.Rest() == rest
  {
    ok := true;
    if k.format.peerVersion < 9 {
      var tag := from.ReadBytes(16);
      ok := tag == Some(k.format.callId);
    }
  }

  method PassFingerprint(from: BufferInputStream, k: Shared) returns (ok: bool)
    requires from.Valid()
    modifies from
    ensures from.Valid()
    ensures match SkipFingerprint(old(from.Rest()), k)
            case None => !ok
            case Some(rest) => ok && from.Rest() == rest
  {
    hide IsShort;
    ok := true;
    if !IsShort(k.format) {
      var fingerprint := from.ReadBytes(8);
      ok := fingerprint == Some(k.keyFingerprint);
    }
  }

  lemma OpensJust(c: Crypto, k: Shared, outgoing: bool, packet: seq<byte>)
    requires IsCrypto(c) && IsShared(k)
    ensures forall d :: Open(c, k, outgoing, packet) == Some(d) <==> IsSealed(c, k, outgoing, packet, d)
  {
    hide Open, IsSealed;
    forall d ensures Open(c, k, outgoing, packet) == Some(d) <==> IsSealed(c, k, outgoing, packet, d) {
      OpensExactly(c, k, outgoing, packet, d);
    }
  }

  method OpenedBody(c: Crypto, k: Shared, outgoing: bool, from: BufferInputStream) returns (data: Option<seq<byte>>)
    requires IsCrypto(c) && IsShared(k) && from.Valid()
    modifies from
    ensures data == OpenBody(c, k, outgoing, old(from.Rest()))
  {
    hide MessageKey, CipherKey, Unpad;
    var msgKey := from.ReadBytes(16);
    if msgKey.None? { return None; }
    var body := from.buffer[from.offset..];
    if |body| > MAX_PACKET || |body| % 16 != 0 { return None; }
    var key := CipherKey(c, k, KeyPart(!outgoing), msgKey.value);
    var decrypted := c.decrypt(key.0, key.1, body);
    if |decrypted| < SizeSize(k.format)
       || msgKey.value != MessageKey(c, k, KeyPart(!outgoing), decrypted[SizeSize(k.format)..]) {
      return None;
    }
    data := Unpadded(k.format, decrypted);
  }

  method Unpadded(f: Format, decrypted: seq<byte>) returns (data: Option<seq<byte>>)
    ensures data == Unpad(f, decrypted)
  {
    hide TakeInt, Take, FromLE, LengthBytes, IsShort;
    var from := new BufferInputStream(decrypted);
    var innerLen := from.ReadInt(LengthBytes(f));
    if innerLen.None? || innerLen.value > |decrypted| - SizeSize(f) { return None; }
    if |decrypted| - innerLen.value < (if IsShort(f) then 16 else 12) { return None; }
    data := from.ReadBytes(innerLen.value);
  }
}

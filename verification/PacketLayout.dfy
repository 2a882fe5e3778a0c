// The bytes of a packet: the three header layouts, and how the receiver reads them back.
module PacketLayout {
  import opened Bytes
  import N = Numbers
  import opened Options
  import opened Serial
  import opened Streams
  import opened Extras

  const DECRYPTED_AUDIO_BLOCK := 0xDBF9_48C1
  const SIMPLE_AUDIO_BLOCK := 0xCC0D_0E76
  const PROTOCOL_NAME := 0x5056_7247

  datatype Message = Message(
    kind: byte, ackId: uint32, number: uint32, acks: uint32, extras: seq<Content>, payload: seq<byte>)

  // What decides the layout: the version of the peer (0 before it is known), the layer
  // agreed on, and whether the sender is still in a state before init was acknowledged.
  datatype Format = Format(peerVersion: nat, maxLayer: nat, waiting: bool, callId: seq<byte>)

  predicate IsShort(f: Format) {
    f.peerVersion >= 8 || (f.peerVersion == 0 && f.maxLayer >= 92)
  }

  predicate CarriesExtras(f: Format) {
    IsShort(f) || (!f.waiting && f.peerVersion >= 6)
  }

  // ----- writing -----

  lemma Assoc(a: seq<byte>, b: seq<byte>, c: seq<byte>)
    ensures a + b + c == a + (b + c)
  {
  }

  function EachExtra(es: seq<Content>): seq<byte>
    requires forall e :: e in es ==> |e.data| <= 254
  {
    if es == [] then []
    else [|es[0].data| + 1] + ([es[0].kind] + es[0].data + EachExtra(es[1..]))
  }

  predicate ExtrasFit(es: seq<Content>) {
    forall e :: e in es ==> |e.data| <= 254
  }

  // The count is cut to a byte.
  function ExtrasBytes(es: seq<Content>): seq<byte>
    requires ExtrasFit(es)
  {
    if es == [] then [0] else [1] + ([|es| % 256] + EachExtra(es))
  }

  function Numbers(m: Message): seq<byte> {
    LE(4, m.ackId) + LE(4, m.number) + LE(4, m.acks)
  }

  // The first bytes of the long layouts; id and filler are random.
  function Opening(tlid: uint32, id: seq<byte>, filler: seq<byte>): seq<byte> {
    LE(4, tlid) + id + [7] + filler
  }

  const HAS_SEQ := 16
  const HAS_RECENT_RECV := 32
  const HAS_DATA := 1
  const HAS_CALL_ID := 4
  const HAS_PROTO := 8

  function Flags(m: Message): nat {
    HAS_RECENT_RECV + HAS_SEQ + HAS_CALL_ID + HAS_PROTO + (if m.payload != [] then HAS_DATA else 0) + m.kind * 0x100_0000
  }

  function HeaderBytes(m: Message, f: Format, id: seq<byte>, filler: seq<byte>): seq<byte>
    requires ExtrasFit(m.extras)
  {
    if IsShort(f) then [m.kind] + Numbers(m) + ExtrasBytes(m.extras)
    else if f.waiting then
      Opening(DECRYPTED_AUDIO_BLOCK, id, filler) + LE(4, Flags(m)) + f.callId + Numbers(m) + LE(4, PROTOCOL_NAME)
      + if m.payload != [] then TlLength(|m.payload|) else []
    else
      Opening(SIMPLE_AUDIO_BLOCK, id, filler) + TlLength(|m.payload| + 13) + [m.kind] + Numbers(m)
      + if f.peerVersion >= 6 then ExtrasBytes(m.extras) else []
  }

  function Packet(m: Message, f: Format, id: seq<byte>, filler: seq<byte>): seq<byte>
    requires ExtrasFit(m.extras)
  {
    HeaderBytes(m, f, id, filler) + m.payload
  }

  // ----- reading -----

  // An empty extra has no type; reading one throws in the source.
  function TakeExtra(s: seq<byte>): Option<Taken<Content>> {
    match TakeInt(s, 1)
    case None => None
    case Some(n) =>
      match Take(n.rest, n.value)
      case None => None
      case Some(t) => if t.value == [] then None else Some(Taken(Content(t.value[0], t.value[1..]), t.rest))
  }

  function TakeExtras(s: seq<byte>, count: nat): Option<Taken<seq<Content>>>
    decreases count
  {
    if count == 0 then Some(Taken([], s))
    else
      match TakeExtra(s)
      case None => None
      case Some(x) =>
        match TakeExtras(x.rest, count - 1)
        case None => None
        case Some(more) => Some(Taken([x.value] + more.value, more.rest))
  }

  // The extras after the flag byte.
  function TakeFlagged(s: seq<byte>): Option<Taken<seq<Content>>> {
    match TakeInt(s, 1)
    case None => None
    case Some(flag) =>
      if flag.value % 2 == 0 then Some(Taken([], flag.rest))
      else
        match TakeInt(flag.rest, 1)
        case None => None
        case Some(count) => TakeExtras(count.rest, count.value)
  }

  datatype Triple = Triple(ackId: uint32, number: uint32, acks: uint32)

  function TakeNumbers(s: seq<byte>): Option<Taken<Triple>> {
    match Take(s, 12)
    case None => None
    case Some(t) =>
      LEBound(t.value[..4]); LEBound(t.value[4..8]); LEBound(t.value[8..]);
      Some(Taken(Triple(FromLE(t.value[..4]), FromLE(t.value[4..8]), FromLE(t.value[8..])), t.rest))
  }

  lemma LEBound(s: seq<byte>)
    ensures |s| == 4 ==> FromLE(s) < MODULUS
    ensures |s| == 1 ==> FromLE(s) < 256
  {
    LEOfFromLE(s);
    Powers();
  }

  function Pad4(x: nat): nat {
    var r := 4 - (x + (if x <= 253 then 1 else 0)) % 4;
    if r == 4 then 0 else r
  }

  // A string behind its length is skipped.
  function SkipString(s: seq<byte>): Option<seq<byte>> {
    match TakeTlLength(s)
    case None => None
    case Some(n) =>
      match Take(n.rest, n.value + Pad4(n.value))
      case None => None
      case Some(t) => Some(t.rest)
  }

  // The random id and the random filler are skipped.
  function SkipOpening(s: seq<byte>): Option<seq<byte>> {
    match Take(s, 8)
    case None => None
    case Some(id) => SkipString(id.rest)
  }

  function ParseShort(s: seq<byte>): Option<Message> {
    match TakeInt(s, 1)
    case None => None
    case Some(kind) =>
      match TakeNumbers(kind.rest)
      case None => None
      case Some(n) =>
        match TakeFlagged(n.rest)
        case None => None
        case Some(es) =>
          LEBound(s[..1]);
          Some(Message(kind.value, n.value.ackId, n.value.number, n.value.acks, es.value, es.rest))
  }

  // The simple layout behind its length.
  function ParsePlain(s: seq<byte>, f: Format): Option<Message> {
    if f.peerVersion >= 6 then ParseShort(s)
    else
      match TakeInt(s, 1)
      case None => None
      case Some(kind) =>
        match TakeNumbers(kind.rest)
        case None => None
        case Some(n) =>
          LEBound(s[..1]);
          Some(Message(kind.value, n.value.ackId, n.value.number, n.value.acks, [], n.rest))
  }

  function ParseSimple(s: seq<byte>, f: Format): Option<Message> {
    match SkipOpening(s)
    case None => None
    case Some(s1) =>
      match TakeTlLength(s1)
      case None => None
      case Some(len) => ParsePlain(len.rest, f)
  }

  predicate Has(flags: nat, bit: nat)
    requires bit > 0
  {
    flags / bit % 2 == 1
  }

  // The call id, if there is one, is that of this call.
  function SkipCallId(s: seq<byte>, flags: nat, callId: seq<byte>): Option<seq<byte>> {
    if !Has(flags, HAS_CALL_ID) then Some(s)
    else
      match Take(s, 16)
      case None => None
      case Some(t) => if t.value == callId then Some(t.rest) else None
  }

  function SkipProtocol(s: seq<byte>, flags: nat): Option<seq<byte>> {
    if !Has(flags, HAS_PROTO) then Some(s)
    else
      match TakeInt(s, 4)
      case None => None
      case Some(t) => if t.value == PROTOCOL_NAME then Some(t.rest) else None
  }

  function SkipExtra(s: seq<byte>, flags: nat): Option<seq<byte>> {
    if Has(flags, 2) then SkipString(s) else Some(s)
  }

  function SkipLength(s: seq<byte>, flags: nat): Option<seq<byte>> {
    if !Has(flags, HAS_DATA) then Some(s)
    else
      match TakeTlLength(s)
      case None => None
      case Some(n) => Some(n.rest)
  }

  // What follows numbers and mask: protocol, extra and length, each if it is announced.
  function SkipEnd(s: seq<byte>, flags: nat): Option<seq<byte>> {
    match SkipProtocol(s, flags)
    case None => None
    case Some(s3) =>
      match SkipExtra(s3, flags)
      case None => None
      case Some(s4) => SkipLength(s4, flags)
  }

  // Behind the opening of the layout with flags.
  function ParseFlagged(s: seq<byte>, f: Format): Option<Message> {
    match TakeInt(s, 4)
    case None => None
    case Some(flags) =>
      if !Has(flags.value, HAS_SEQ) || !Has(flags.value, HAS_RECENT_RECV) then None
      else
        match SkipCallId(flags.rest, flags.value, f.callId)
        case None => None
        case Some(s2) =>
          match TakeNumbers(s2)
          case None => None
          case Some(n) =>
            match SkipEnd(n.rest, flags.value)
            case None => None
            case Some(s5) =>
              Some(Message(flags.value / 0x100_0000 % 256, n.value.ackId, n.value.number, n.value.acks, [], s5))
  }

  function ParseDecrypted(s: seq<byte>, f: Format): Option<Message> {
    match SkipOpening(s)
    case None => None
    case Some(s1) => ParseFlagged(s1, f)
  }

  // The receiver's reading of a decrypted packet; None where it gives up or throws.
  function Parse(s: seq<byte>, f: Format): Option<Message> {
    if IsShort(f) then ParseShort(s)
    else
      match TakeInt(s, 4)
      case None => None
      case Some(tlid) =>
        if tlid.value == DECRYPTED_AUDIO_BLOCK then ParseDecrypted(tlid.rest, f)
        else if tlid.value == SIMPLE_AUDIO_BLOCK then ParseSimple(tlid.rest, f)
        else None
  }

  // ----- reading undoes writing -----

  lemma ExtraRoundTrip(x: Content, tail: seq<byte>)
    requires |x.data| <= 254
    ensures TakeExtra([|x.data| + 1] + ([x.kind] + x.data + tail)) == Some(Taken(x, tail))
  {
    hide TakeInt, Take;
    var body := [x.kind] + x.data;
    TakeByteOf(|x.data| + 1, body + tail);
    TakeOf(body, tail);
    assert body[1..] == x.data;
  }

  lemma {:induction false} ExtrasRoundTrip(es: seq<Content>, tail: seq<byte>)
    requires forall e :: e in es ==> |e.data| <= 254
    ensures TakeExtras(EachExtra(es) + tail, |es|) == Some(Taken(es, tail))
  {
    hide TakeExtra;
    if es == [] {
      assert [] + tail == tail;
    } else {
      var x, more := es[0], EachExtra(es[1..]);
      Assoc([|x.data| + 1], [x.kind] + x.data + more, tail);
      Assoc([x.kind] + x.data, more, tail);
      ExtraRoundTrip(x, more + tail);
      ExtrasRoundTrip(es[1..], tail);
      assert [x] + es[1..] == es;
    }
  }

  lemma FlaggedRoundTrip(es: seq<Content>, tail: seq<byte>)
    requires ExtrasFit(es) && |es| <= 255
    ensures TakeFlagged(ExtrasBytes(es) + tail) == Some(Taken(es, tail))
  {
    hide TakeExtras, EachExtra, TakeInt;
    if es == [] {
      TakeByteOf(0, tail);
    } else {
      var n: byte := |es|;
      assert ExtrasBytes(es) + tail == [1] + ([n] + (EachExtra(es) + tail));
      TakeByteOf(1, [n] + (EachExtra(es) + tail));
      TakeByteOf(n, EachExtra(es) + tail);
      ExtrasRoundTrip(es, tail);
    }
  }

  lemma NumbersRoundTrip(m: Message, tail: seq<byte>)
    ensures TakeNumbers(Numbers(m) + tail) == Some(Taken(Triple(m.ackId, m.number, m.acks), tail))
  {
    Powers();
    var n := Numbers(m);
    TakeOf(n, tail);
    FromLEOfLE(4, m.ackId);
    FromLEOfLE(4, m.number);
    FromLEOfLE(4, m.acks);
    assert n[..4] == LE(4, m.ackId) && n[4..8] == LE(4, m.number) && n[8..] == LE(4, m.acks);
  }

  lemma OpeningRoundTrip(id: seq<byte>, filler: seq<byte>, tail: seq<byte>)
    requires |id| == 8 && |filler| == 7
    ensures SkipOpening(id + [7] + filler + tail) == Some(tail)
  {
    assert id + [7] + filler + tail == id + ([7] + (filler + tail));
    TakeOf(id, [7] + (filler + tail));
    TakeByteOf(7, filler + tail);
    TakeOf(filler, tail);
  }

  lemma ShortRoundTrip(m: Message)
    requires ExtrasFit(m.extras) && |m.extras| <= 255
    ensures ParseShort([m.kind] + Numbers(m) + ExtrasBytes(m.extras) + m.payload) == Some(m)
  {
    var es := ExtrasBytes(m.extras) + m.payload;
    assert [m.kind] + Numbers(m) + ExtrasBytes(m.extras) + m.payload == [m.kind] + (Numbers(m) + es);
    TakeByteOf(m.kind, Numbers(m) + es);
    NumbersRoundTrip(m, es);
    FlaggedRoundTrip(m.extras, m.payload);
  }

  // What follows the TL length in the simple layout, and what follows its opening bytes in
  // the other long one.
  function SimpleBody(m: Message, f: Format): seq<byte>
    requires ExtrasFit(m.extras)
  {
    [m.kind] + Numbers(m) + (if f.peerVersion >= 6 then ExtrasBytes(m.extras) else []) + m.payload
  }

  function DecryptedBody(m: Message, f: Format): seq<byte> {
    LE(4, Flags(m)) + (f.callId + (Numbers(m) + (LE(4, PROTOCOL_NAME)
      + ((if m.payload != [] then TlLength(|m.payload|) else []) + m.payload))))
  }

  lemma DecryptedBodyIs(o: seq<byte>, m: Message, f: Format)
    ensures o + LE(4, Flags(m)) + f.callId + Numbers(m) + LE(4, PROTOCOL_NAME)
      + (if m.payload != [] then TlLength(|m.payload|) else []) + m.payload == o + DecryptedBody(m, f)
  {
    var l := if m.payload != [] then TlLength(|m.payload|) else [];
    var flags, numbers, name := LE(4, Flags(m)), Numbers(m), LE(4, PROTOCOL_NAME);
    hide *;
    Assoc(o + flags + f.callId + numbers + name, l, m.payload);
    Assoc(o + flags + f.callId + numbers, name, l + m.payload);
    Assoc(o + flags + f.callId, numbers, name + (l + m.payload));
    Assoc(o + flags, f.callId, numbers + (name + (l + m.payload)));
    Assoc(o, flags, f.callId + (numbers + (name + (l + m.payload))));
  }

  lemma SimpleBodyIs(o: seq<byte>, m: Message, f: Format)
    requires ExtrasFit(m.extras)
    ensures o + [m.kind] + Numbers(m) + (if f.peerVersion >= 6 then ExtrasBytes(m.extras) else []) + m.payload
      == o + SimpleBody(m, f)
  {
    var es := if f.peerVersion >= 6 then ExtrasBytes(m.extras) else [];
    Assoc(o, [m.kind], Numbers(m));
    Assoc(o, [m.kind] + Numbers(m), es);
    Assoc(o, [m.kind] + Numbers(m) + es, m.payload);
  }

  lemma AfterOpening(tlid: uint32, id: seq<byte>, filler: seq<byte>, body: seq<byte>)
    ensures Opening(tlid, id, filler) + body == LE(4, tlid) + (id + [7] + filler + body)
  {
    Assoc(LE(4, tlid), id, [7]);
    Assoc(LE(4, tlid), id + [7], filler);
    Assoc(LE(4, tlid), id + [7] + filler, body);
  }

  lemma PacketIs(m: Message, f: Format, id: seq<byte>, filler: seq<byte>)
    requires ExtrasFit(m.extras) && !IsShort(f)
    ensures Packet(m, f, id, filler) ==
      if f.waiting then LE(4, DECRYPTED_AUDIO_BLOCK) + (id + [7] + filler + DecryptedBody(m, f))
      else LE(4, SIMPLE_AUDIO_BLOCK) + (id + [7] + filler + (TlLength(|m.payload| + 13) + SimpleBody(m, f)))
  {
    var tlid := if f.waiting then DECRYPTED_AUDIO_BLOCK else SIMPLE_AUDIO_BLOCK;
    var o, l := Opening(tlid, id, filler), TlLength(|m.payload| + 13);
    hide TlLength, ExtrasBytes, Numbers, LE, Flags, IsShort, Opening, DecryptedBody, SimpleBody;
    if f.waiting {
      DecryptedBodyIs(o, m, f);
      AfterOpening(tlid, id, filler, DecryptedBody(m, f));
    } else {
      SimpleBodyIs(o + l, m, f);
      Assoc(o, l, SimpleBody(m, f));
      AfterOpening(tlid, id, filler, l + SimpleBody(m, f));
    }
  }

  lemma SimpleBodyRoundTrip(m: Message, f: Format)
    requires ExtrasFit(m.extras) && (f.peerVersion >= 6 ==> |m.extras| <= 255)
    ensures f.peerVersion >= 6 ==> ParseShort(SimpleBody(m, f)) == Some(m)
    ensures f.peerVersion < 6 ==> TakeInt(SimpleBody(m, f), 1) == Some(Taken(m.kind, Numbers(m) + m.payload))
  {
    if f.peerVersion >= 6 {
      ShortRoundTrip(m);
    } else {
      assert SimpleBody(m, f) == [m.kind] + (Numbers(m) + m.payload);
      TakeByteOf(m.kind, Numbers(m) + m.payload);
    }
  }

  lemma SimpleRoundTrip(m: Message, f: Format, id: seq<byte>, filler: seq<byte>)
    requires ExtrasFit(m.extras) && |id| == 8 && |filler| == 7 && |m.payload| < 0x1_0000
    requires f.peerVersion >= 6 ==> |m.extras| <= 255
    ensures ParseSimple(id + [7] + filler + (TlLength(|m.payload| + 13) + SimpleBody(m, f)), f)
      == Some(if f.peerVersion >= 6 then m else m.(extras := []))
  {
    hide TlLength, SimpleBody, SkipOpening, ParseShort, TakeTlLength, TakeNumbers, Numbers, TakeInt;
    OpeningRoundTrip(id, filler, TlLength(|m.payload| + 13) + SimpleBody(m, f));
    TakeTlLengthOf(|m.payload| + 13, SimpleBody(m, f));
    SimpleBodyRoundTrip(m, f);
    NumbersRoundTrip(m, m.payload);
  }

  lemma FlagUnder(flags: nat, low: nat, high: nat, bit: nat)
    requires bit > 0 && flags == low + high * (2 * bit)
    ensures Has(flags, bit) == Has(low, bit)
  {
    var q, r := low / bit, low % bit;
    assert low == q * bit + r;
    assert flags == (q + high * 2) * bit + r;
    N.DivUnique(flags, bit, q + high * 2, r);
  }

  // The kind is in the topmost byte, so each flag reads as it does without the kind.
  lemma FlagsUnderKind(flags: nat, low: nat, kind: byte)
    requires flags == low + kind * 0x100_0000
    ensures forall bit :: bit in {1, 2, 4, 8, 16, 32} ==> Has(flags, bit) == Has(low, bit)
  {
    hide Has;
    FlagUnder(flags, low, kind * 0x80_0000, 1);
    FlagUnder(flags, low, kind * 0x40_0000, 2);
    FlagUnder(flags, low, kind * 0x20_0000, 4);
    FlagUnder(flags, low, kind * 0x10_0000, 8);
    FlagUnder(flags, low, kind * 0x8_0000, 16);
    FlagUnder(flags, low, kind * 0x4_0000, 32);
  }

  lemma FlagsRead(m: Message)
    ensures var flags := Flags(m);
      && flags < 0x1_0000_0000 && flags / 0x100_0000 % 256 == m.kind
      && Has(flags, HAS_SEQ) && Has(flags, HAS_RECENT_RECV) && Has(flags, HAS_CALL_ID) && Has(flags, HAS_PROTO)
      && !Has(flags, 2) && (Has(flags, HAS_DATA) <==> m.payload != [])
  {
    var low := if m.payload != [] then 61 else 60;
    FlagsUnderKind(Flags(m), low, m.kind);
    assert Has(low, HAS_SEQ) && Has(low, HAS_RECENT_RECV) && Has(low, HAS_CALL_ID) && Has(low, HAS_PROTO)
      && !Has(low, 2) && (Has(low, HAS_DATA) <==> m.payload != []);
    hide Has;
  }

  // The end of the long layout of a sender that still waits: protocol, length and payload.
  lemma DecryptedEnd(m: Message)
    requires |m.payload| < 0x1_0000
    ensures var s5 := (if m.payload != [] then TlLength(|m.payload|) else []) + m.payload;
      && SkipProtocol(LE(4, PROTOCOL_NAME) + s5, Flags(m)) == Some(s5)
      && SkipExtra(s5, Flags(m)) == Some(s5) && SkipLength(s5, Flags(m)) == Some(m.payload)
  {
    var s5 := (if m.payload != [] then TlLength(|m.payload|) else []) + m.payload;
    FlagsRead(m);
    Powers();
    hide TlLength, TakeTlLength, LE, TakeInt, Flags, Has;
    TakeIntOf(4, PROTOCOL_NAME, s5);
    if m.payload != [] {
      TakeTlLengthOf(|m.payload|, m.payload);
    } else {
      assert s5 == m.payload;
    }
  }

  lemma DecryptedRoundTrip(m: Message, f: Format, id: seq<byte>, filler: seq<byte>)
    requires |id| == 8 && |filler| == 7 && |m.payload| < 0x1_0000 && |f.callId| == 16
    ensures ParseDecrypted(id + [7] + filler + DecryptedBody(m, f), f) == Some(m.(extras := []))
  {
    var s3 := LE(4, PROTOCOL_NAME) + ((if m.payload != [] then TlLength(|m.payload|) else []) + m.payload);
    OpeningRoundTrip(id, filler, DecryptedBody(m, f));
    FlagsRead(m);
    Powers();
    hide TlLength, Numbers, SkipOpening, SkipProtocol, SkipExtra, SkipLength, TakeNumbers, LE, TakeInt, Take, Flags, Has;
    TakeIntOf(4, Flags(m), f.callId + (Numbers(m) + s3));
    TakeOf(f.callId, Numbers(m) + s3);
    NumbersRoundTrip(m, s3);
    DecryptedEnd(m);
  }

  lemma {:induction false} ExtrasCount(s: seq<byte>, count: nat)
    ensures TakeExtras(s, count).Some? ==> |TakeExtras(s, count).value.value| == count
    decreases count
  {
    hide TakeExtra;
    if count > 0 && TakeExtra(s).Some? {
      ExtrasCount(TakeExtra(s).value.rest, count - 1);
    }
  }

  lemma FlaggedFew(s: seq<byte>)
    ensures TakeFlagged(s).Some? ==> |TakeFlagged(s).value.value| <= 255
  {
    hide TakeExtras;
    if TakeInt(s, 1).Some? {
      var t := TakeInt(s, 1).value.rest;
      if TakeInt(t, 1).Some? {
        LEBound(t[..1]);
        ExtrasCount(TakeInt(t, 1).value.rest, TakeInt(t, 1).value.value);
      }
    }
  }

  // No packet is read with more extras than a byte can count.
  lemma ParsedFew(s: seq<byte>, f: Format)
    ensures Parse(s, f).Some? ==> |Parse(s, f).value.extras| <= 255
  {
    forall t: seq<byte> ensures TakeFlagged(t).Some? ==> |TakeFlagged(t).value.value| <= 255 {
      FlaggedFew(t);
    }
    hide TakeFlagged, TakeInt, Take, TakeNumbers, SkipOpening, TakeTlLength, SkipCallId, SkipProtocol, SkipExtra, SkipLength;
  }

  // In every layout, what the receiver reads is what was sent; the extras come along in the
  // layouts that carry them, just if a byte can count them.
  lemma ParseUndoesPacket(m: Message, f: Format, id: seq<byte>, filler: seq<byte>)
    requires ExtrasFit(m.extras) && |id| == 8 && |filler| == 7 && |m.payload| < 0x1_0000 && |f.callId| == 16
    ensures Parse(Packet(m, f, id, filler), f) == Some(if CarriesExtras(f) then m else m.(extras := []))
      <==> (CarriesExtras(f) ==> |m.extras| <= 255)
  {
    if CarriesExtras(f) ==> |m.extras| <= 255 {
      ParseUndoesCounted(m, f, id, filler);
    } else {
      ParsedFew(Packet(m, f, id, filler), f);
      hide Parse, Packet;
    }
  }

  lemma ParseUndoesCounted(m: Message, f: Format, id: seq<byte>, filler: seq<byte>)
    requires ExtrasFit(m.extras) && |id| == 8 && |filler| == 7 && |m.payload| < 0x1_0000 && |f.callId| == 16
    requires CarriesExtras(f) ==> |m.extras| <= 255
    ensures Parse(Packet(m, f, id, filler), f) == Some(if CarriesExtras(f) then m else m.(extras := []))
  {
    Powers();
    hide ParseShort, ParseSimple, ParseDecrypted, Numbers, ExtrasBytes, TlLength, LE, TakeInt, DecryptedBody, SimpleBody;
    if IsShort(f) {
      ShortRoundTrip(m);
    } else {
      PacketIs(m, f, id, filler);
      if f.waiting {
        TakeIntOf(4, DECRYPTED_AUDIO_BLOCK, id + [7] + filler + DecryptedBody(m, f));
        DecryptedRoundTrip(m, f, id, filler);
      } else {
        TakeIntOf(4, SIMPLE_AUDIO_BLOCK, id + [7] + filler + (TlLength(|m.payload| + 13) + SimpleBody(m, f)));
        SimpleRoundTrip(m, f, id, filler);
      }
    }
  }
}

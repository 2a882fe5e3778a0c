// The padded, hashed and encrypted envelope around a packet, between two peers without a
// relay. The hash and the cipher are parameters.
module PacketEnvelope {
  import opened Bytes
  import opened Options
  import opened Streams
  import opened PacketLayout

  const MAX_PACKET := 1500

  // A hash of 32 bytes, and a cipher on whole blocks of 16 bytes.
  datatype Crypto = Crypto(
    sha256: seq<byte> -> seq<byte>,
    encrypt: (seq<byte>, seq<byte>, seq<byte>) -> seq<byte>,
    decrypt: (seq<byte>, seq<byte>, seq<byte>) -> seq<byte>)

  ghost predicate IsCrypto(c: Crypto) {
    && (forall s :: |c.sha256(s)| == 32)
    && (forall key, iv, s :: |s| % 16 == 0 ==>
          |c.encrypt(key, iv, s)| == |s| && c.decrypt(key, iv, c.encrypt(key, iv, s)) == s)
    && (forall key, iv, s :: |c.decrypt(key, iv, s)| == |s|)
  }

  // What the two sides share.
  datatype Shared = Shared(format: Format, encryptionKey: seq<byte>, keyFingerprint: seq<byte>)

  predicate IsShared(k: Shared) {
    |k.format.callId| == 16 && |k.encryptionKey| == 256 && |k.keyFingerprint| == 8
  }

  // The caller and the callee use different parts of the key, each for what it sends.
  function KeyPart(outgoing: bool): nat {
    if outgoing then 0 else 8
  }

  function MessageKey(c: Crypto, k: Shared, x: nat, hashed: seq<byte>): (key: seq<byte>)
    requires IsCrypto(c) && IsShared(k) && x <= 8
    ensures |key| == 16
  {
    c.sha256(k.encryptionKey[88 + x..120 + x] + hashed)[8..24]
  }

  // KDF2
  function CipherKey(c: Crypto, k: Shared, x: nat, msgKey: seq<byte>): (seq<byte>, seq<byte>)
    requires IsCrypto(c) && IsShared(k) && x <= 8
  {
    var a := c.sha256(msgKey + k.encryptionKey[x..36 + x]);
    var b := c.sha256(k.encryptionKey[40 + x..76 + x] + msgKey);
    (a[..8] + b[8..24] + a[24..], b[..8] + a[8..24] + b[24..])
  }

  function SizeSize(f: Format): nat {
    if IsShort(f) then 0 else 4
  }

  function LengthBytes(f: Format): nat {
    if IsShort(f) then 2 else 4
  }

  function PadLen(n: nat): (p: nat)
    ensures 16 <= p < 32 && (n + p) % 16 == 0
  {
    var p := 16 - n % 16;
    if p < 16 then p + 16 else p
  }

  function Inner(f: Format, data: seq<byte>, padding: seq<byte>): seq<byte> {
    LE(LengthBytes(f), |data|) + data + padding
  }

  // SendPacket, its MTProto2 branch, to a peer that is not reached over a relay.
  function Seal(c: Crypto, k: Shared, outgoing: bool, data: seq<byte>, padding: seq<byte>): seq<byte>
    requires IsCrypto(c) && IsShared(k)
  {
    var inner, x := Inner(k.format, data, padding), KeyPart(outgoing);
    var msgKey := MessageKey(c, k, x, inner[SizeSize(k.format)..]);
    var key := CipherKey(c, k, x, msgKey);
    (if k.format.peerVersion < 9 then k.format.callId else [])
    + (if IsShort(k.format) then [] else k.keyFingerprint)
    + msgKey + c.encrypt(key.0, key.1, inner)
  }

  function SkipTag(s: seq<byte>, k: Shared): Option<seq<byte>> {
    if k.format.peerVersion >= 9 then Some(s)
    else
      match Take(s, 16)
      case None => None
      case Some(t) => if t.value == k.format.callId then Some(t.rest) else None
  }

  function SkipFingerprint(s: seq<byte>, k: Shared): Option<seq<byte>> {
    if IsShort(k.format) then Some(s)
    else
      match Take(s, 8)
      case None => None
      case Some(t) => if t.value == k.keyFingerprint then Some(t.rest) else None
  }

  // The inner packet of what was decrypted, if its length and its padding are right.
  function Unpad(f: Format, decrypted: seq<byte>): Option<seq<byte>> {
    match TakeInt(decrypted, LengthBytes(f))
    case None => None
    case Some(n) =>
      if n.value > |decrypted| - SizeSize(f) then None
      else if |decrypted| - n.value < (if IsShort(f) then 16 else 12) then None
      else
        match Take(n.rest, n.value)
        case None => None
        case Some(t) => Some(t.value)
  }

  // Behind tag and fingerprint: the message key, and what it decrypts and authenticates.
  function OpenBody(c: Crypto, k: Shared, outgoing: bool, s: seq<byte>): Option<seq<byte>>
    requires IsCrypto(c) && IsShared(k)
  {
    match Take(s, 16)
    case None => None
    case Some(t) =>
      var x := KeyPart(!outgoing);
      var key := CipherKey(c, k, x, t.value);
      if |t.rest| > MAX_PACKET || |t.rest| % 16 != 0 then None
      else
        var decrypted := c.decrypt(key.0, key.1, t.rest);
        if |decrypted| < SizeSize(k.format) || t.value != MessageKey(c, k, x, decrypted[SizeSize(k.format)..]) then None
        else Unpad(k.format, decrypted)
  }

  // ProcessIncomingPacket up to the decrypted inner packet; None where it gives up.
  function Open(c: Crypto, k: Shared, outgoing: bool, packet: seq<byte>): Option<seq<byte>>
    requires IsCrypto(c) && IsShared(k)
  {
    match SkipTag(packet, k)
    case None => None
    case Some(s) =>
      if |s| < 40 then None
      else
        match SkipFingerprint(s, k)
        case None => None
        case Some(s1) => OpenBody(c, k, outgoing, s1)
  }

  predicate Fits(f: Format, data: seq<byte>, padding: seq<byte>) {
    && |data| > 0
    && |padding| == PadLen(LengthBytes(f) + |data|)
    && LengthBytes(f) + |data| + |padding| <= MAX_PACKET
  }

  lemma UnpadInner(f: Format, data: seq<byte>, padding: seq<byte>)
    requires Fits(f, data, padding)
    ensures Unpad(f, Inner(f, data, padding)) == Some(data)
    ensures |Inner(f, data, padding)| % 16 == 0 && 32 <= |Inner(f, data, padding)| <= MAX_PACKET
  {
    Powers();
    var n := LengthBytes(f);
    assert Inner(f, data, padding) == LE(n, |data|) + (data + padding);
    TakeIntOf(n, |data|, data + padding);
    TakeOf(data, padding);
  }

  // What is left of a packet after the tag and the fingerprint.
  function Body(c: Crypto, k: Shared, x: nat, inner: seq<byte>): seq<byte>
    requires IsCrypto(c) && IsShared(k) && x <= 8 && |inner| >= 4
  {
    var msgKey := MessageKey(c, k, x, inner[SizeSize(k.format)..]);
    var key := CipherKey(c, k, x, msgKey);
    msgKey + c.encrypt(key.0, key.1, inner)
  }

  lemma SealIs(c: Crypto, k: Shared, outgoing: bool, data: seq<byte>, padding: seq<byte>)
    requires IsCrypto(c) && IsShared(k) && Fits(k.format, data, padding)
    ensures |Inner(k.format, data, padding)| >= 4
    ensures var s := Seal(c, k, outgoing, data, padding);
      && SkipTag(s, k).Some?
      && SkipFingerprint(SkipTag(s, k).value, k) == Some(Body(c, k, KeyPart(outgoing), Inner(k.format, data, padding)))
      && |SkipTag(s, k).value| >= |Inner(k.format, data, padding)| + 16
  {
    UnpadInner(k.format, data, padding);
    var inner := Inner(k.format, data, padding);
    hide Inner, MessageKey, CipherKey, Fits;
    var s1 := Body(c, k, KeyPart(outgoing), inner);
    var tag := if k.format.peerVersion < 9 then k.format.callId else [];
    var mark := if IsShort(k.format) then [] else k.keyFingerprint;
    assert Seal(c, k, outgoing, data, padding) == tag + (mark + s1);
    TakeOf(tag, mark + s1);
    TakeOf(mark, s1);
    assert tag == [] ==> tag + (mark + s1) == mark + s1;
    assert mark == [] ==> mark + s1 == s1;
  }

  // Every check of the receiver passes, and the packet comes out as it went in.
  lemma OpenUndoesSeal(c: Crypto, k: Shared, outgoing: bool, data: seq<byte>, padding: seq<byte>)
    requires IsCrypto(c) && IsShared(k) && Fits(k.format, data, padding)
    ensures Open(c, k, !outgoing, Seal(c, k, outgoing, data, padding)) == Some(data)
  {
    UnpadInner(k.format, data, padding);
    SealIs(c, k, outgoing, data, padding);
    var inner, x := Inner(k.format, data, padding), KeyPart(outgoing);
    hide Inner, Seal, SkipTag, SkipFingerprint, MessageKey, CipherKey, Unpad, Fits, Take;
    var msgKey := MessageKey(c, k, x, inner[SizeSize(k.format)..]);
    var key := CipherKey(c, k, x, msgKey);
    TakeOf(msgKey, c.encrypt(key.0, key.1, inner));
  }

  // ----- a whole packet on its way -----

  function SendPacket(c: Crypto, k: Shared, outgoing: bool, m: Message,
                            id: seq<byte>, filler: seq<byte>, padding: seq<byte>): seq<byte>
    requires IsCrypto(c) && IsShared(k) && ExtrasFit(m.extras)
  {
    Seal(c, k, outgoing, Packet(m, k.format, id, filler), padding)
  }

  function ReceivePacket(c: Crypto, k: Shared, outgoing: bool, packet: seq<byte>): Option<Message>
    requires IsCrypto(c) && IsShared(k)
  {
    match Open(c, k, outgoing, packet)
    case None => None
    case Some(data) => Parse(data, k.format)
  }

  lemma PacketIsLongEnough(m: Message, f: Format, id: seq<byte>, filler: seq<byte>)
    requires ExtrasFit(m.extras)
    ensures 0 < |Packet(m, f, id, filler)| && |m.payload| <= |Packet(m, f, id, filler)|
  {
    assert |Numbers(m)| == 12;
  }

  // For all three layouts: what one side sends to the other arrives with its type, numbers,
  // mask, extras and payload, whatever the random bytes are, just if a byte can count the
  // extras of a layout that carries them.
  lemma ReceiveUndoesSend(c: Crypto, k: Shared, outgoing: bool, m: Message,
                          id: seq<byte>, filler: seq<byte>, padding: seq<byte>)
    requires IsCrypto(c) && IsShared(k) && ExtrasFit(m.extras) && |id| == 8 && |filler| == 7
    requires var n := LengthBytes(k.format) + |Packet(m, k.format, id, filler)|;
      |padding| == PadLen(n) && n + |padding| <= MAX_PACKET
    ensures ReceivePacket(c, k, !outgoing, SendPacket(c, k, outgoing, m, id, filler, padding))
      == Some(if CarriesExtras(k.format) then m else m.(extras := []))
      <==> (CarriesExtras(k.format) ==> |m.extras| <= 255)
  {
    PacketIsLongEnough(m, k.format, id, filler);
    hide Packet, Open, Seal, Parse, CarriesExtras;
    OpenUndoesSeal(c, k, outgoing, Packet(m, k.format, id, filler), padding);
    ParseUndoesPacket(m, k.format, id, filler);
  }
}

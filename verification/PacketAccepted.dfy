// Which packets are accepted, of all that may arrive: the envelope and the layouts as they
// are on the wire, piece by piece.
module PacketAccepted {
  import opened Bytes
  import opened Options
  import N = Numbers
  import opened Serial
  import opened Streams
  import opened Extras
  import opened PacketLayout
  import opened PacketEnvelope

  // ----- the envelope -----

  // The bytes that the hash is over: all of a short packet, and all but the length of others.
  function Hashed(k: Shared, plain: seq<byte>): seq<byte> {
    if IsShort(k.format) then plain else plain[if |plain| < 4 then |plain| else 4..]
  }

  // The packet is the tag of the call, the fingerprint of the key, a message key and whole
  // blocks. What they decrypt to is a length, as much data, and padding, and the message key is
  // bytes 8 to 23 of its hash with bytes 88 to 119 of the key, or 96 to 127.
  ghost predicate IsSealed(c: Crypto, k: Shared, outgoing: bool, packet: seq<byte>, data: seq<byte>)
    requires IsCrypto(c) && IsShared(k)
  {
    exists msgKey, body, padding :: IsSealedAs(c, k, outgoing, packet, data, msgKey, body, padding)
  }

  ghost predicate IsSealedAs(c: Crypto, k: Shared, outgoing: bool, packet: seq<byte>, data: seq<byte>,
      msgKey: seq<byte>, body: seq<byte>, padding: seq<byte>)
    requires IsCrypto(c) && IsShared(k)
  {
    var tag := if k.format.peerVersion < 9 then k.format.callId else [];
    var mark := if IsShort(k.format) then [] else k.keyFingerprint;
    var part := if outgoing then k.encryptionKey[96..128] else k.encryptionKey[88..120];
    var key := CipherKey(c, k, if outgoing then 8 else 0, msgKey);
    var plain := c.decrypt(key.0, key.1, body);
    && packet == tag + (mark + (msgKey + body)) && |msgKey| == 16
    && |body| % 16 == 0 && |body| <= 1500 && |mark| + 16 + |body| >= 40
    && plain == LE(if IsShort(k.format) then 2 else 4, |data|) + (data + padding)
    && |plain| - |data| >= (if IsShort(k.format) then 16 else 12)
    && msgKey == c.sha256(part + Hashed(k, plain))[8..24]
  }

  // Key and vector of the cipher: bytes 8 to 23 of the one hash between the ends of the other.
  lemma CipherKeyBytes(c: Crypto, k: Shared, outgoing: bool, msgKey: seq<byte>, i: nat)
    requires IsCrypto(c) && IsShared(k) && i < 32
    ensures var e := k.encryptionKey;
      var a := c.sha256(msgKey + if outgoing then e[8..44] else e[0..36]);
      var b := c.sha256((if outgoing then e[48..84] else e[40..76]) + msgKey);
      var key := CipherKey(c, k, if outgoing then 8 else 0, msgKey);
      && |key.0| == |key.1| == 32
      && key.0[i] == (if 8 <= i < 24 then b[i] else a[i]) && key.1[i] == (if 8 <= i < 24 then a[i] else b[i])
  {
  }

  // What is decrypted gives data just if it is a length, that much data, and enough padding.
  lemma UnpadsExactly(f: Format, plain: seq<byte>, data: seq<byte>)
    requires |plain| <= 1500
    ensures Unpad(f, plain) == Some(data) <==>
      && (exists padding :: plain == LE(LengthBytes(f), |data|) + (data + padding))
      && |plain| - |data| >= (if IsShort(f) then 16 else 12)
  {
    Powers();
    hide TakeInt, Take, LE;
    var n := LengthBytes(f);
    if padding :| plain == LE(n, |data|) + (data + padding) {
      TakeIntIs(plain, n, |data|, data + padding);
      TakeIs(data + padding, data, padding);
    }
    if Unpad(f, plain) == Some(data) {
      var t := TakeInt(plain, n).value;
      TakeIntIs(plain, n, t.value, t.rest);
      assert plain == LE(n, |data|) + (data + Take(t.rest, t.value).value.rest);
    }
  }

  lemma SkipTagIs(s: seq<byte>, k: Shared, rest: seq<byte>)
    requires IsShared(k)
    ensures SkipTag(s, k) == Some(rest) <==> s == (if k.format.peerVersion < 9 then k.format.callId else []) + rest
  {
    TakeIs(s, k.format.callId, rest);
    assert [] + rest == rest;
  }

  lemma SkipFingerprintIs(s: seq<byte>, k: Shared, rest: seq<byte>)
    requires IsShared(k)
    ensures SkipFingerprint(s, k) == Some(rest) <==> s == (if IsShort(k.format) then [] else k.keyFingerprint) + rest
  {
    TakeIs(s, k.keyFingerprint, rest);
    assert [] + rest == rest;
  }

  lemma BodyOpensExactly(c: Crypto, k: Shared, outgoing: bool, msgKey: seq<byte>, body: seq<byte>, data: seq<byte>)
    requires IsCrypto(c) && IsShared(k) && |msgKey| == 16
    ensures OpenBody(c, k, outgoing, msgKey + body) == Some(data) <==>
      var part := if outgoing then k.encryptionKey[96..128] else k.encryptionKey[88..120];
      var key := CipherKey(c, k, if outgoing then 8 else 0, msgKey);
      var plain := c.decrypt(key.0, key.1, body);
      && |body| % 16 == 0 && |body| <= 1500
      && (exists padding :: plain == LE(if IsShort(k.format) then 2 else 4, |data|) + (data + padding))
      && |plain| - |data| >= (if IsShort(k.format) then 16 else 12)
      && msgKey == c.sha256(part + Hashed(k, plain))[8..24]
  {
    hide Unpad, CipherKey, Take, LE;
    TakeIs(msgKey + body, msgKey, body);
    var key := CipherKey(c, k, KeyPart(!outgoing), msgKey);
    var plain := c.decrypt(key.0, key.1, body);
    if |body| <= 1500 {
      UnpadsExactly(k.format, plain, data);
    }
    LengthOfLE(4, |data|);
  }

  lemma {:induction false} LengthOfLE(n: nat, v: nat)
    ensures |LE(n, v)| == n
  {
    if n > 0 { LengthOfLE(n - 1, v / 256); }
  }

  // Of all packets, just those that are sealed with the shared key are opened, and nothing but
  // the data that was sealed comes out.
  lemma OpensExactly(c: Crypto, k: Shared, outgoing: bool, packet: seq<byte>, data: seq<byte>)
    requires IsCrypto(c) && IsShared(k)
    ensures Open(c, k, outgoing, packet) == Some(data) <==> IsSealed(c, k, outgoing, packet, data)
  {
    hide SkipTag, SkipFingerprint, OpenBody, CipherKey, LE, IsShort, Hashed;
    if Open(c, k, outgoing, packet) == Some(data) {
      var s := SkipTag(packet, k).value;
      var s1 := SkipFingerprint(s, k).value;
      SkipTagIs(packet, k, s);
      SkipFingerprintIs(s, k, s1);
      OpenedIsLong(c, k, outgoing, s1);
      BodyOpensExactly(c, k, outgoing, s1[..16], s1[16..], data);
      assert s1 == s1[..16] + s1[16..];
      var key := CipherKey(c, k, if outgoing then 8 else 0, s1[..16]);
      var padding :| c.decrypt(key.0, key.1, s1[16..]) == LE(if IsShort(k.format) then 2 else 4, |data|) + (data + padding);
      assert IsSealedAs(c, k, outgoing, packet, data, s1[..16], s1[16..], padding);
    }
    if IsSealed(c, k, outgoing, packet, data) {
      var msgKey, body, padding :| IsSealedAs(c, k, outgoing, packet, data, msgKey, body, padding);
      SealedOpens(c, k, outgoing, packet, data, msgKey, body, padding);
    }
  }

  lemma OpenedIsLong(c: Crypto, k: Shared, outgoing: bool, s: seq<byte>)
    requires IsCrypto(c) && IsShared(k) && OpenBody(c, k, outgoing, s).Some?
    ensures |s| >= 16
  {
    hide CipherKey, Unpad, MessageKey;
  }

  lemma SealedOpens(c: Crypto, k: Shared, outgoing: bool, packet: seq<byte>, data: seq<byte>,
      msgKey: seq<byte>, body: seq<byte>, padding: seq<byte>)
    requires IsCrypto(c) && IsShared(k) && IsSealedAs(c, k, outgoing, packet, data, msgKey, body, padding)
    ensures Open(c, k, outgoing, packet) == Some(data)
  {
    hide SkipTag, SkipFingerprint, OpenBody, CipherKey, LE, Hashed;
    var mark := if IsShort(k.format) then [] else k.keyFingerprint;
    SkipTagIs(packet, k, mark + (msgKey + body));
    SkipFingerprintIs(mark + (msgKey + body), k, msgKey + body);
    BodyOpensExactly(c, k, outgoing, msgKey, body, data);
  }

  // ----- the layouts -----

  // A length of the TL format.
  predicate IsTl(l: seq<byte>, n: nat) {
    (|l| == 1 && l[0] == n < 254) || (|l| == 4 && l[0] >= 254 && l[1..] == LE(3, n) && n < 0x100_0000)
  }

  // n bytes behind their length, which are filled up so that both together are whole words.
  // A length of four bytes is not counted, being a word itself.
  ghost predicate IsTlString(s: seq<byte>) {
    exists l: seq<byte>, bytes: seq<byte>, fill: seq<byte> :: IsTlStringAs(s, l, bytes, fill)
  }

  predicate IsTlStringAs(s: seq<byte>, l: seq<byte>, bytes: seq<byte>, fill: seq<byte>) {
    && s == l + (bytes + fill) && IsTl(l, |bytes|) && |fill| < 4
    && ((if |bytes| <= 253 then 1 else 0) + |bytes| + |fill|) % 4 == 0
  }

  // Eight random bytes and a random string.
  ghost predicate IsOpening(o: seq<byte>) {
    |o| >= 8 && IsTlString(o[8..])
  }

  // A byte whose lowest bit announces extras, and if so their number, and each behind the
  // length of its kind and data.
  predicate IsFlagged(s: seq<byte>, es: seq<Content>) {
    && s != []
    && if s[0] % 2 == 0 then |s| == 1 && es == []
       else |s| >= 2 && s[1] == |es| && ExtrasFit(es) && s[2..] == EachExtra(es)
  }

  function NumbersOf(m: Message): seq<byte> {
    LE(4, m.ackId) + (LE(4, m.number) + LE(4, m.acks))
  }

  ghost predicate IsShortForm(s: seq<byte>, m: Message) {
    exists es :: IsFlagged(es, m.extras) && s == [m.kind] + (NumbersOf(m) + (es + m.payload))
  }

  ghost predicate IsSimpleForm(s: seq<byte>, f: Format, m: Message) {
    exists o, l, n, body ::
      && IsOpening(o) && IsTl(l, n) && s == o + (l + body)
      && if f.peerVersion >= 6 then IsShortForm(body, m)
         else m.extras == [] && body == [m.kind] + (NumbersOf(m) + m.payload)
  }

  // The word of flags announces what comes.
  datatype Flagged = Flagged(flags: nat, id: seq<byte>, proto: seq<byte>, extra: seq<byte>, len: seq<byte>)

  predicate Bit(flags: nat, k: nat) {
    flags / N.Pow2(k) % 2 == 1
  }

  // Bit 24 on: the type. Bits 4 and 5: the numbers and the mask. Bit 2: the id of this call.
  // Bit 3: the name of the protocol. Bit 1: a string that is skipped. Bit 0: a length.
  ghost predicate IsFlaggedForm(s: seq<byte>, f: Format, m: Message, p: Flagged) {
    && p.flags < 0x1_0000_0000 && p.flags / 0x100_0000 == m.kind && Bit(p.flags, 4) && Bit(p.flags, 5)
    && (if Bit(p.flags, 2) then p.id == f.callId && |p.id| == 16 else p.id == [])
    && (if Bit(p.flags, 3) then p.proto == LE(4, 0x5056_7247) else p.proto == [])
    && (if Bit(p.flags, 1) then IsTlString(p.extra) else p.extra == [])
    && (if Bit(p.flags, 0) then exists n :: IsTl(p.len, n) else p.len == [])
    && m.extras == []
    && s == LE(4, p.flags) + (p.id + (NumbersOf(m) + (p.proto + (p.extra + (p.len + m.payload)))))
  }

  ghost predicate IsDecryptedForm(s: seq<byte>, f: Format, m: Message) {
    exists o, p, body :: IsOpening(o) && IsFlaggedForm(body, f, m, p) && s == o + body
  }

  // What is on the wire for a message, in the layout that version and state choose.
  ghost predicate IsForm(s: seq<byte>, f: Format, m: Message) {
    if f.peerVersion >= 8 || (f.peerVersion == 0 && f.maxLayer >= 92) then IsShortForm(s, m)
    else
      || (exists rest :: s == LE(4, 0xDBF9_48C1) + rest && IsDecryptedForm(rest, f, m))
      || (exists rest :: s == LE(4, 0xCC0D_0E76) + rest && IsSimpleForm(rest, f, m))
  }

  // ----- each piece is read just if it is there -----

  lemma TakeTlIs(s: seq<byte>, n: nat, rest: seq<byte>)
    ensures TakeTlLength(s) == Some(Taken(n, rest)) <==> exists l :: IsTl(l, n) && s == l + rest
  {
    Powers();
    hide TakeInt, LE;
    if l: seq<byte> :| IsTl(l, n) && s == l + rest {
      var first := l[0] as int;
      TakeByteIs(s, first, if |l| == 1 then rest else l[1..] + rest);
      if |l| == 4 {
        TakeIntIs(l[1..] + rest, 3, n, rest);
        assert [l[0]] + (l[1..] + rest) == l + rest;
      } else {
        assert l == [l[0]];
      }
    }
    if TakeTlLength(s) == Some(Taken(n, rest)) {
      var t := TakeInt(s, 1).value;
      TakeByteIs(s, t.value, t.rest);
      if t.value < 254 {
        assert IsTl([n], n) && s == [n] + rest;
      } else {
        TakeIntIs(t.rest, 3, n, rest);
        LengthOfLE(3, n);
        var l := [t.value] + LE(3, n);
        assert l[1..] == LE(3, n) && IsTl(l, n);
        assert s == l + rest;
      }
    }
  }

  lemma TlIsOne(l: seq<byte>, n: nat, m: nat)
    requires IsTl(l, n) && IsTl(l, m)
    ensures n == m
  {
    Powers();
    if |l| == 4 {
      FromLEOfLE(3, n);
      FromLEOfLE(3, m);
    }
  }

  lemma Pad4Is(n: nat, p: nat)
    ensures p == Pad4(n) <==> p < 4 && ((if n <= 253 then 1 else 0) + n + p) % 4 == 0
  {
  }

  lemma StringIsSkipped(t: seq<byte>, l: seq<byte>, bytes: seq<byte>, fill: seq<byte>, rest: seq<byte>)
    requires IsTlStringAs(t, l, bytes, fill)
    ensures SkipString(t + rest) == Some(rest)
  {
    hide TakeTlLength, Take, IsTl, Pad4;
    assert t + rest == l + ((bytes + fill) + rest);
    TakeTlIs(t + rest, |bytes|, (bytes + fill) + rest);
    Pad4Is(|bytes|, |fill|);
    TakeIs((bytes + fill) + rest, bytes + fill, rest);
  }

  lemma SkippedIsString(s: seq<byte>, rest: seq<byte>) returns (t: seq<byte>)
    requires SkipString(s) == Some(rest)
    ensures IsTlString(t) && s == t + rest
  {
    hide TakeTlLength, IsTl, Pad4, Take, IsTlString;
    var n := TakeTlLength(s).value;
    TakeTlIs(s, n.value, n.rest);
    var l :| IsTl(l, n.value) && s == l + n.rest;
    var v := Take(n.rest, n.value + Pad4(n.value)).value.value;
    Pad4Is(n.value, Pad4(n.value));
    t := StringOf(l, v, n.value);
    Assoc(l, v, rest);
  }

  lemma StringOf(l: seq<byte>, v: seq<byte>, n: nat) returns (t: seq<byte>)
    requires IsTl(l, n) && n <= |v| < n + 4 && ((if n <= 253 then 1 else 0) + |v|) % 4 == 0
    ensures t == l + v && IsTlString(t)
  {
    hide IsTl;
    t := l + v;
    assert v == v[..n] + v[n..];
    assert IsTlStringAs(t, l, v[..n], v[n..]);
  }

  lemma SkipStringIs(s: seq<byte>, rest: seq<byte>)
    ensures SkipString(s) == Some(rest) <==> exists t :: IsTlString(t) && s == t + rest
  {
    hide SkipString, IsTlStringAs;
    if t :| IsTlString(t) && s == t + rest {
      var l: seq<byte>, bytes: seq<byte>, fill: seq<byte> :| IsTlStringAs(t, l, bytes, fill);
      StringIsSkipped(t, l, bytes, fill, rest);
    }
    if SkipString(s) == Some(rest) {
      var t := SkippedIsString(s, rest);
    }
  }

  lemma SkipOpeningIs(s: seq<byte>, rest: seq<byte>)
    ensures SkipOpening(s) == Some(rest) <==> exists o :: IsOpening(o) && s == o + rest
  {
    hide TakeTlLength, IsTlString, Pad4;
    if o :| IsOpening(o) && s == o + rest {
      assert s[8..] == o[8..] + rest;
      SkipStringIs(s[8..], rest);
    }
    if SkipOpening(s) == Some(rest) {
      SkipStringIs(s[8..], rest);
      var t :| IsTlString(t) && s[8..] == t + rest;
      var o := s[..8] + t;
      assert o[8..] == t && s == o + rest;
    }
  }

  lemma TakeNumbersIs(s: seq<byte>, m: Message, rest: seq<byte>)
    ensures TakeNumbers(s) == Some(Taken(Triple(m.ackId, m.number, m.acks), rest)) <==> s == NumbersOf(m) + rest
  {
    hide LE, FromLE;
    assert NumbersOf(m) == Numbers(m);
    if s == NumbersOf(m) + rest {
      NumbersRoundTrip(m, rest);
    }
    if TakeNumbers(s) == Some(Taken(Triple(m.ackId, m.number, m.acks), rest)) {
      var t := s[..12];
      LEOfFromLE(t[..4]);
      LEOfFromLE(t[4..8]);
      LEOfFromLE(t[8..]);
      assert t == t[..4] + (t[4..8] + t[8..]);
    }
  }

  lemma ExtraIs(s: seq<byte>, x: Content, rest: seq<byte>)
    ensures TakeExtra(s) == Some(Taken(x, rest)) <==> |x.data| <= 254 && s == [|x.data| + 1] + ([x.kind] + x.data + rest)
  {
    hide TakeInt, Take;
    if |x.data| <= 254 && s == [|x.data| + 1] + ([x.kind] + x.data + rest) {
      ExtraRoundTrip(x, rest);
    }
    if TakeExtra(s) == Some(Taken(x, rest)) {
      var n := TakeInt(s, 1).value;
      TakeByteIs(s, n.value, n.rest);
      var t := Take(n.rest, n.value).value;
      assert t.value == [x.kind] + x.data;
    }
  }

  lemma {:induction false} ExtrasAre(s: seq<byte>, es: seq<Content>, rest: seq<byte>)
    ensures TakeExtras(s, |es|) == Some(Taken(es, rest)) <==> ExtrasFit(es) && s == EachExtra(es) + rest
    decreases |es|
  {
    hide TakeExtra;
    if es == [] {
      assert [] + rest == rest;
    } else if TakeExtras(s, |es|) == Some(Taken(es, rest)) {
      var x := TakeExtra(s).value;
      ExtraIs(s, x.value, x.rest);
      var more := TakeExtras(x.rest, |es| - 1).value;
      assert ([x.value] + more.value)[1..] == more.value == es[1..];
      ExtrasAre(x.rest, es[1..], rest);
      Assoc([|x.value.data| + 1], [x.value.kind] + x.value.data + EachExtra(es[1..]), rest);
      Assoc([x.value.kind] + x.value.data, EachExtra(es[1..]), rest);
      assert forall e :: e in es ==> e == es[0] || e in es[1..];
    } else if ExtrasFit(es) && s == EachExtra(es) + rest {
      ExtrasRoundTrip(es, rest);
    }
  }

  lemma FlaggedIs(s: seq<byte>, es: seq<Content>, rest: seq<byte>)
    ensures TakeFlagged(s) == Some(Taken(es, rest)) <==> exists t :: IsFlagged(t, es) && s == t + rest
  {
    hide TakeInt, TakeExtras, EachExtra;
    if t :| IsFlagged(t, es) && s == t + rest {
      FlaggedReads(t, es, rest);
    }
    if TakeFlagged(s) == Some(Taken(es, rest)) {
      var flag := TakeInt(s, 1).value;
      TakeByteIs(s, flag.value, flag.rest);
      if flag.value % 2 == 0 {
        assert IsFlagged([flag.value], es) && s == [flag.value] + rest;
      } else {
        var count := TakeInt(flag.rest, 1).value;
        TakeByteIs(flag.rest, count.value, count.rest);
        ExtrasCount(count.rest, count.value);
        ExtrasAre(count.rest, es, rest);
        var t := [flag.value] + ([count.value] + EachExtra(es));
        assert t[2..] == EachExtra(es) && IsFlagged(t, es);
        assert s == t + rest;
      }
    }
  }

  lemma FlaggedReads(t: seq<byte>, es: seq<Content>, rest: seq<byte>)
    requires IsFlagged(t, es)
    ensures TakeFlagged(t + rest) == Some(Taken(es, rest))
  {
    hide TakeInt, TakeExtras, EachExtra;
    var flag := t[0] as int;
    if flag % 2 == 0 {
      TakeByteIs(t + rest, flag, rest);
    } else {
      var count := t[1] as int;
      assert t + rest == [t[0]] + ([t[1]] + (EachExtra(es) + rest)) by {
        assert t == [t[0]] + ([t[1]] + t[2..]);
      }
      TakeByteIs(t + rest, flag, [t[1]] + (EachExtra(es) + rest));
      TakeByteIs([t[1]] + (EachExtra(es) + rest), count, EachExtra(es) + rest);
      ExtrasAre(EachExtra(es) + rest, es, rest);
    }
  }

  // Kind and numbers, in front of anything.
  lemma HeadIs(s: seq<byte>, m: Message, rest: seq<byte>)
    ensures s == [m.kind] + (NumbersOf(m) + rest) <==>
      && TakeInt(s, 1).Some? && TakeInt(s, 1).value.value == m.kind
      && TakeNumbers(TakeInt(s, 1).value.rest) == Some(Taken(Triple(m.ackId, m.number, m.acks), rest))
  {
    hide TakeInt, TakeNumbers, NumbersOf;
    TakeByteIs(s, m.kind, NumbersOf(m) + rest);
    TakeNumbersIs(NumbersOf(m) + rest, m, rest);
    if TakeInt(s, 1).Some? {
      var t := TakeInt(s, 1).value;
      TakeByteIs(s, t.value, t.rest);
      TakeNumbersIs(t.rest, m, rest);
    }
  }

  lemma ParseShortIs(s: seq<byte>, m: Message)
    ensures ParseShort(s) == Some(m) <==> IsShortForm(s, m)
  {
    hide TakeInt, TakeNumbers, TakeFlagged, NumbersOf, IsFlagged;
    if es :| IsFlagged(es, m.extras) && s == [m.kind] + (NumbersOf(m) + (es + m.payload)) {
      HeadIs(s, m, es + m.payload);
      FlaggedIs(es + m.payload, m.extras, m.payload);
    }
    if ParseShort(s) == Some(m) {
      var n := TakeNumbers(TakeInt(s, 1).value.rest).value;
      HeadIs(s, m, n.rest);
      FlaggedIs(n.rest, m.extras, m.payload);
    }
  }

  lemma ParsePlainIs(s: seq<byte>, f: Format, m: Message)
    ensures ParsePlain(s, f) == Some(m) <==>
      if f.peerVersion >= 6 then IsShortForm(s, m)
      else m.extras == [] && s == [m.kind] + (NumbersOf(m) + m.payload)
  {
    hide TakeInt, TakeNumbers, NumbersOf, ParseShort, IsShortForm;
    ParseShortIs(s, m);
    HeadIs(s, m, m.payload);
  }

  lemma ParseSimpleIs(s: seq<byte>, f: Format, m: Message)
    ensures ParseSimple(s, f) == Some(m) <==> IsSimpleForm(s, f, m)
  {
    hide SkipOpening, TakeTlLength, ParsePlain, IsOpening, IsTl, IsShortForm, NumbersOf;
    if IsSimpleForm(s, f, m) {
      var o, l, n, body :| IsOpening(o) && IsTl(l, n) && s == o + (l + body)
        && if f.peerVersion >= 6 then IsShortForm(body, m) else m.extras == [] && body == [m.kind] + (NumbersOf(m) + m.payload);
      SkipOpeningIs(s, l + body);
      TakeTlIs(l + body, n, body);
      ParsePlainIs(body, f, m);
    }
    if ParseSimple(s, f) == Some(m) {
      var s1 := SkipOpening(s).value;
      var len := TakeTlLength(s1).value;
      SkipOpeningIs(s, s1);
      TakeTlIs(s1, len.value, len.rest);
      ParsePlainIs(len.rest, f, m);
      var o :| IsOpening(o) && s == o + s1;
      var l :| IsTl(l, len.value) && s1 == l + len.rest;
      assert s == o + (l + len.rest);
    }
  }

  lemma BitsAre(flags: nat)
    ensures Bit(flags, 0) == Has(flags, 1) && Bit(flags, 1) == Has(flags, 2) && Bit(flags, 2) == Has(flags, 4)
    ensures Bit(flags, 3) == Has(flags, 8) && Bit(flags, 4) == Has(flags, 16) && Bit(flags, 5) == Has(flags, 32)
  {
    assert N.Pow2(0) == 1 && N.Pow2(1) == 2 && N.Pow2(2) == 4;
    assert N.Pow2(3) == 8 && N.Pow2(4) == 16 && N.Pow2(5) == 32;
  }

  lemma SkipCallIdIs(s: seq<byte>, flags: nat, callId: seq<byte>, rest: seq<byte>)
    requires |callId| == 16
    ensures SkipCallId(s, flags, callId) == Some(rest) <==> s == (if Bit(flags, 2) then callId else []) + rest
  {
    BitsAre(flags);
    hide Has, Bit;
    TakeIs(s, callId, rest);
    assert [] + rest == rest;
  }

  lemma SkipProtocolIs(s: seq<byte>, flags: nat, rest: seq<byte>)
    ensures SkipProtocol(s, flags) == Some(rest) <==> s == (if Bit(flags, 3) then LE(4, 0x5056_7247) else []) + rest
  {
    BitsAre(flags);
    Powers();
    hide Has, Bit, LE, TakeInt;
    TakeIntIs(s, 4, PROTOCOL_NAME, rest);
    assert [] + rest == rest;
  }

  lemma SkipExtraIs(s: seq<byte>, flags: nat, rest: seq<byte>)
    ensures SkipExtra(s, flags) == Some(rest) <==>
      exists t: seq<byte> :: (if Bit(flags, 1) then IsTlString(t) else t == []) && s == t + rest
  {
    BitsAre(flags);
    hide Has, Bit, SkipString, IsTlString;
    SkipStringIs(s, rest);
    var none: seq<byte> := [];
    assert none + rest == rest;
  }

  lemma SkipLengthIs(s: seq<byte>, flags: nat, rest: seq<byte>)
    ensures SkipLength(s, flags) == Some(rest) <==>
      exists l: seq<byte> :: (if Bit(flags, 0) then exists n :: IsTl(l, n) else l == []) && s == l + rest
  {
    BitsAre(flags);
    hide Has, Bit, TakeTlLength, IsTl;
    if Bit(flags, 0) {
      if l: seq<byte>, n :| IsTl(l, n) && s == l + rest {
        TakeTlIs(s, n, rest);
      }
      if TakeTlLength(s).Some? {
        TakeTlIs(s, TakeTlLength(s).value.value, TakeTlLength(s).value.rest);
      }
    } else {
      var none: seq<byte> := [];
      assert none + rest == rest;
    }
  }

  ghost predicate IsEnd(s: seq<byte>, flags: nat, rest: seq<byte>, proto: seq<byte>, extra: seq<byte>, len: seq<byte>) {
    && (if Bit(flags, 3) then proto == LE(4, 0x5056_7247) else proto == [])
    && (if Bit(flags, 1) then IsTlString(extra) else extra == [])
    && (if Bit(flags, 0) then exists n :: IsTl(len, n) else len == [])
    && s == proto + (extra + (len + rest))
  }

  lemma EndReads(s: seq<byte>, flags: nat, rest: seq<byte>, proto: seq<byte>, extra: seq<byte>, len: seq<byte>)
    requires IsEnd(s, flags, rest, proto, extra, len)
    ensures SkipEnd(s, flags) == Some(rest)
  {
    hide Bit, SkipProtocol, SkipExtra, SkipLength, IsTlString, IsTl, LE;
    SkipProtocolIs(s, flags, extra + (len + rest));
    SkipExtraIs(extra + (len + rest), flags, len + rest);
    SkipLengthIs(len + rest, flags, rest);
  }

  lemma EndIs(s: seq<byte>, flags: nat, rest: seq<byte>) returns (proto: seq<byte>, extra: seq<byte>, len: seq<byte>)
    requires SkipEnd(s, flags) == Some(rest)
    ensures IsEnd(s, flags, rest, proto, extra, len)
  {
    hide Bit, SkipProtocol, SkipExtra, SkipLength, IsTlString, IsTl, LE;
    var s3 := SkipProtocol(s, flags).value;
    var s4 := SkipExtra(s3, flags).value;
    SkipProtocolIs(s, flags, s3);
    SkipExtraIs(s3, flags, s4);
    SkipLengthIs(s4, flags, rest);
    proto := if Bit(flags, 3) then LE(4, 0x5056_7247) else [];
    extra :| (if Bit(flags, 1) then IsTlString(extra) else extra == []) && s3 == extra + s4;
    len :| (if Bit(flags, 0) then exists n :: IsTl(len, n) else len == []) && s4 == len + rest;
  }

  lemma FlaggedFormReads(s: seq<byte>, f: Format, m: Message, p: Flagged)
    requires |f.callId| == 16 && IsFlaggedForm(s, f, m, p)
    ensures ParseFlagged(s, f) == Some(m)
  {
    Powers();
    BitsAre(p.flags);
    hide Bit, Has, LE, TakeInt, SkipCallId, TakeNumbers, SkipEnd, IsTlString, IsTl, NumbersOf;
    var end := p.proto + (p.extra + (p.len + m.payload));
    TakeIntIs(s, 4, p.flags, p.id + (NumbersOf(m) + end));
    SkipCallIdIs(p.id + (NumbersOf(m) + end), p.flags, f.callId, NumbersOf(m) + end);
    TakeNumbersIs(NumbersOf(m) + end, m, end);
    EndReads(end, p.flags, m.payload, p.proto, p.extra, p.len);
  }

  lemma FlaggedFormIs(s: seq<byte>, f: Format, m: Message) returns (p: Flagged)
    requires |f.callId| == 16 && ParseFlagged(s, f) == Some(m)
    ensures IsFlaggedForm(s, f, m, p)
  {
    Powers();
    hide Bit, Has, LE, TakeInt, SkipCallId, TakeNumbers, SkipEnd, IsTlString, IsTl, NumbersOf;
    var flags := TakeInt(s, 4).value;
    var s2 := SkipCallId(flags.rest, flags.value, f.callId).value;
    var n := TakeNumbers(s2).value;
    BitsAre(flags.value);
    TakeIntIs(s, 4, flags.value, flags.rest);
    SkipCallIdIs(flags.rest, flags.value, f.callId, s2);
    TakeNumbersIs(s2, m, n.rest);
    var proto, extra, len := EndIs(n.rest, flags.value, m.payload);
    p := Flagged(flags.value, if Bit(flags.value, 2) then f.callId else [], proto, extra, len);
  }

  lemma ParseDecryptedIs(s: seq<byte>, f: Format, m: Message)
    requires |f.callId| == 16
    ensures ParseDecrypted(s, f) == Some(m) <==> IsDecryptedForm(s, f, m)
  {
    hide SkipOpening, ParseFlagged, IsOpening, IsFlaggedForm;
    if IsDecryptedForm(s, f, m) {
      var o, p, body :| IsOpening(o) && IsFlaggedForm(body, f, m, p) && s == o + body;
      SkipOpeningIs(s, body);
      FlaggedFormReads(body, f, m, p);
    }
    if ParseDecrypted(s, f) == Some(m) {
      var s1 := SkipOpening(s).value;
      SkipOpeningIs(s, s1);
      var p := FlaggedFormIs(s1, f, m);
    }
  }

  // Of all bytes, just those that are a message in the layout of this state are read as one,
  // and as that message.
  lemma ParsesExactly(s: seq<byte>, f: Format, m: Message)
    requires |f.callId| == 16
    ensures Parse(s, f) == Some(m) <==> IsForm(s, f, m)
  {
    Powers();
    hide TakeInt, LE, ParseShort, ParseSimple, ParseDecrypted, IsShortForm, IsSimpleForm, IsDecryptedForm;
    ParseShortIs(s, m);
    if TakeInt(s, 4).Some? {
      var t := TakeInt(s, 4).value;
      TakeIntIs(s, 4, t.value, t.rest);
      ParseSimpleIs(t.rest, f, m);
      ParseDecryptedIs(t.rest, f, m);
    }
    forall rest ensures s == LE(4, 0xDBF9_48C1) + rest ==> TakeInt(s, 4) == Some(Taken(0xDBF9_48C1, rest)) {
      TakeIntIs(s, 4, 0xDBF9_48C1, rest);
    }
    forall rest ensures s == LE(4, 0xCC0D_0E76) + rest ==> TakeInt(s, 4) == Some(Taken(0xCC0D_0E76, rest)) {
      TakeIntIs(s, 4, 0xCC0D_0E76, rest);
    }
  }

  // A datagram gives a message just if it is sealed with the shared key and what was sealed is
  // that message in the layout of this state.
  lemma ReceivesExactly(c: Crypto, k: Shared, outgoing: bool, packet: seq<byte>, m: Message)
    requires IsCrypto(c) && IsShared(k)
    ensures ReceivePacket(c, k, outgoing, packet) == Some(m) <==>
      exists data :: IsSealed(c, k, outgoing, packet, data) && IsForm(data, k.format, m)
  {
    hide Open, Parse, IsSealed, IsForm;
    forall data
      ensures Open(c, k, outgoing, packet) == Some(data) <==> IsSealed(c, k, outgoing, packet, data)
      ensures Parse(data, k.format) == Some(m) <==> IsForm(data, k.format, m)
    {
      OpensExactly(c, k, outgoing, packet, data);
      ParsesExactly(data, k.format, m);
    }
  }
}

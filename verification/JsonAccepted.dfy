// What holds of everything the json11 parser accepts.
module JsonAccepted {
  import opened JsonValue
  import opened JsonGrammar

  ghost predicate Sound(r: Parsed<Json>, depth: nat) {
    r.Ok? ==> WellFormed(r.value) && Fits(r.value, MAX_DEPTH - depth)
  }

  // Whatever text is accepted, its value has ordered, distinct keys in every object,
  // and no node deeper than the limit.
  lemma {:induction false} ValueSound(src: Source, i: nat, depth: nat)
    requires i <= |src.text|
    ensures Sound(Value(src, i, depth), depth)
    decreases MAX_DEPTH + 1 - depth, 1, 0
  {
    hide Elements, Members, NextToken, ParseString, ParseNumber, Insert;
    var t := NextToken(src, i);
    if depth <= MAX_DEPTH && t.Ok? {
      var u := NextToken(src, t.next);
      if u.Ok? {
        if t.value == '[' {
          ElementsSound(src, u.next - 1, depth, []);
        } else if t.value == '{' {
          MembersSound(src, u.next, u.value, depth, []);
        }
      }
      NumberSound(src, t.next - 1);
    }
  }

  lemma NumberSound(src: Source, i: nat)
    requires i < |src.text|
    ensures var r := ParseNumber(src, i); r.Ok? ==> WellFormed(r.value) && (r.value.Int? || r.value.Double?)
  {
  }

  lemma {:induction false} ElementsSound(src: Source, i: nat, depth: nat, data: seq<Json>)
    requires i <= |src.text| && depth <= MAX_DEPTH
    requires forall k :: 0 <= k < |data| ==> WellFormed(data[k]) && Fits(data[k], MAX_DEPTH - depth - 1)
    ensures Sound(Elements(src, i, depth, data), depth)
    decreases MAX_DEPTH + 1 - depth, 0, |src.text| - i
  {
    hide Elements, Value, NextToken;
    ElementsUnfold(src, i, depth, data);
    ValueSound(src, i, depth + 1);
    var v := Value(src, i, depth + 1);
    if v.Ok? && NextToken(src, v.next).Ok? {
      var t := NextToken(src, v.next);
      var u := NextToken(src, t.next);
      if t.value == ',' && u.Ok? {
        ElementsSound(src, u.next - 1, depth, data + [v.value]);
      }
    }
  }

  ghost predicate FieldsSound(data: seq<Field>, depth: nat) {
    forall f :: f in data ==> WellFormed(f.value) && Fits(f.value, MAX_DEPTH - depth - 1)
  }

  lemma {:induction false} MembersSound(src: Source, i: nat, ch: char, depth: nat, data: seq<Field>)
    requires i <= |src.text| && depth <= MAX_DEPTH && Sorted(data) && FieldsSound(data, depth)
    ensures Sound(Members(src, i, ch, depth, data), depth)
    decreases MAX_DEPTH + 1 - depth, 0, |src.text| - i
  {
    hide Members, Value, NextToken, ParseString, Insert;
    MembersUnfold(src, i, ch, depth, data);
    var k := ParseString(src.text, i, -1);
    if ch == '"' && k.Ok? && NextToken(src, k.next).Ok? {
      var c := NextToken(src, k.next);
      ValueSound(src, c.next, depth + 1);
      var v := Value(src, c.next, depth + 1);
      if c.value == ':' && v.Ok? && NextToken(src, v.next).Ok? {
        var t := NextToken(src, v.next);
        var u := NextToken(src, t.next);
        var data' := Insert(data, k.value, v.value);
        assert FieldsSound(data', depth);
        FieldsSoundByIndex(data', depth);
        if t.value == ',' && u.Ok? {
          MembersSound(src, u.next, u.value, depth, data');
        }
      }
    }
  }

  lemma FieldsSoundByIndex(data: seq<Field>, depth: nat)
    requires depth <= MAX_DEPTH && Sorted(data) && FieldsSound(data, depth)
    ensures WellFormed(Obj(data)) && Fits(Obj(data), MAX_DEPTH - depth)
  {
    assert forall k :: 0 <= k < |data| ==> data[k] in data;
  }

  // The same of a whole document; JsonNesting says what it means for the text.
  lemma DocumentSound(src: Source)
    ensures Sound(Document(src), 0)
  {
    ValueSound(src, 0, 0);
  }

  // ----- escapes of code points -----

  function HexDigit4(n: nat): string
    requires n < 0x1_0000
  {
    [HexDigit(n / 16 / 16 / 16), HexDigit(n / 16 / 16 % 16), HexDigit(n / 16 % 16), HexDigit(n % 16)]
  }

  type unit = u: int | 0 <= u < 0x1_0000

  type point = p: int | 0 <= p < 0x11_0000

  function EscapeUnits(units: seq<unit>): string {
    if units == [] then "" else "\\u" + HexDigit4(units[0]) + EscapeUnits(units[1..])
  }

  // UTF-16: a lead and the trail behind it are one code point, all else is its own.
  function DecodeUtf16(units: seq<unit>): seq<point> {
    if units == [] then []
    else if |units| > 1 && IsLead(units[0]) && IsTrail(units[1]) then
      [Combine(units[0], units[1])] + DecodeUtf16(units[2..])
    else [units[0]] + DecodeUtf16(units[1..])
  }

  predicate AreScalars(pts: seq<point>) {
    forall p :: p in pts ==> !IsLead(p) && !IsTrail(p)
  }

  // Section 7 of RFC 8259: a code point beyond 16 bits becomes a surrogate pair.
  function Utf16(p: point): seq<unit> {
    if p < 0x1_0000 then [p] else [0xD800 + (p - 0x1_0000) / 0x400, 0xDC00 + (p - 0x1_0000) % 0x400]
  }

  function EncodeUtf16(pts: seq<point>): seq<unit> {
    if pts == [] then [] else Utf16(pts[0]) + EncodeUtf16(pts[1..])
  }

  lemma {:induction false} Utf16RoundTrip(pts: seq<point>)
    requires AreScalars(pts)
    ensures DecodeUtf16(EncodeUtf16(pts)) == pts
  {
    if pts != [] {
      var u, rest := Utf16(pts[0]), EncodeUtf16(pts[1..]);
      Utf16RoundTrip(pts[1..]);
      assert pts[0] in pts && (u + rest)[|u|..] == rest;
      if |u| == 2 {
        assert Combine(u[0], u[1]) == pts[0];
      }
    }
  }

  function Utf8Of(pts: seq<point>): string {
    if pts == [] then "" else EncodeUtf8(pts[0]) + Utf8Of(pts[1..])
  }

  // The code point of a UTF-8 sequence (section 3 of RFC 3629), read from its bytes.
  function DecodeUtf8(s: string): int
    requires 1 <= |s| <= 4
  {
    if |s| == 1 then s[0] as int
    else if |s| == 2 then Tail(s[0] as int - 0xC0, s[1])
    else if |s| == 3 then Tail(Tail(s[0] as int - 0xE0, s[1]), s[2])
    else Tail(Tail(Tail(s[0] as int - 0xF0, s[1]), s[2]), s[3])
  }

  function Tail(high: int, c: char): int {
    high * 0x40 + (c as int - 0x80)
  }

  // How many bytes the first byte of a sequence announces.
  function SequenceLength(c: char): nat {
    if c as int < 0xC0 then 1 else if c as int < 0xE0 then 2 else if c as int < 0xF0 then 3 else 4
  }

  // The code points of a text of UTF-8 sequences.
  function FromUtf8(s: string): seq<int> {
    if s == "" then []
    else
      var n := SequenceLength(s[0]);
      if |s| < n then [] else [DecodeUtf8(s[..n])] + FromUtf8(s[n..])
  }

  lemma Announced(p: point)
    ensures EncodeUtf8(p) != "" && SequenceLength(EncodeUtf8(p)[0]) == |EncodeUtf8(p)|
  {
  }

  lemma {:induction false} Utf8TextRoundTrip(pts: seq<point>)
    ensures FromUtf8(Utf8Of(pts)) == pts
  {
    hide EncodeUtf8, DecodeUtf8, SequenceLength;
    if pts != [] {
      var e, rest := EncodeUtf8(pts[0]), Utf8Of(pts[1..]);
      Utf8TextRoundTrip(pts[1..]);
      Utf8RoundTrip(pts[0]);
      Announced(pts[0]);
      assert (e + rest)[..|e|] == e && (e + rest)[|e|..] == rest;
    }
  }

  function Waiting(last: int): seq<unit>
    requires last < 0x1_0000
  {
    if last < 0 then [] else [last]
  }

  // Any escapes, at any place and after one whose unit still waits for its trail, are read
  // as UTF-16 and written as UTF-8.
  lemma {:induction false} EscapedUnits(s: string, i: nat, units: seq<unit>, last: int)
    requires StartsAt(s, i, EscapeUnits(units) + "\"") && -1 <= last < 0x1_0000
    ensures ParseString(s, i, last)
      == Ok(Utf8Of(DecodeUtf16(Waiting(last) + units)), i + |EscapeUnits(units)| + 1)
    decreases |units|
  {
    hide ParseString, EncodeUtf8;
    NothingPending();
    if units == [] {
      assert s[i..i + 1][0] == '"';
      StringUnfold(s, i, last);
      assert Waiting(last) + [] == Waiting(last);
      OneUnit(last);
    } else {
      UnitStep(s, i, units, last);
    }
  }

  lemma OneUnit(last: int)
    requires -1 <= last < 0x1_0000
    ensures Utf8Of(DecodeUtf16(Waiting(last))) == EncodeUtf8(last)
  {
    hide EncodeUtf8;
    NothingPending();
    assert EncodeUtf8(last) + "" == EncodeUtf8(last);
  }

  lemma {:induction false} UnitStep(s: string, i: nat, units: seq<unit>, last: int)
    requires units != [] && StartsAt(s, i, EscapeUnits(units) + "\"") && -1 <= last < 0x1_0000
    ensures ParseString(s, i, last)
      == Ok(Utf8Of(DecodeUtf16(Waiting(last) + units)), i + |EscapeUnits(units)| + 1)
    decreases |units|, 0
  {
    hide ParseString, EncodeUtf8, Utf8Of, HexDigit4;
    var u, rest := units[0], units[1..];
    UnitAt(s, i, units);
    EscapeStep(s, i, last, u);
    if IsLead(last) && IsTrail(u) {
      EscapedUnits(s, i + 6, rest, -1);
      PairDecodes(last, units);
    } else {
      EscapedUnits(s, i + 6, rest, u);
      assert Waiting(u) + rest == units;
      UnitDecodes(last, units);
    }
  }

  lemma UnitAt(s: string, i: nat, units: seq<unit>)
    requires units != [] && StartsAt(s, i, EscapeUnits(units) + "\"")
    ensures i + 6 <= |s| && s[i] == '\\' && s[i + 1] == 'u' && s[i + 2..i + 6] == HexDigit4(units[0])
    ensures StartsAt(s, i + 6, EscapeUnits(units[1..]) + "\"") && |EscapeUnits(units)| == 6 + |EscapeUnits(units[1..])|
  {
    hide HexDigit4, EscapeUnits, StartsAt;
    var h, rest := HexDigit4(units[0]), EscapeUnits(units[1..]) + "\"";
    UnitText(units);
    Assoc("\\u", h, rest);
    StartsAtSplit(s, i, "\\u", h + rest);
    StartsAtSplit(s, i + 2, h, rest);
    StartsAtChar(s, i, "\\u", 0);
    StartsAtChar(s, i, "\\u", 1);
    Occurs(s, i + 2, h);
  }

  lemma Occurs(s: string, i: nat, t: string)
    requires StartsAt(s, i, t)
    ensures i + |t| <= |s| && s[i..i + |t|] == t
  {
  }

  lemma UnitText(units: seq<unit>)
    requires units != []
    ensures |HexDigit4(units[0])| == 4
    ensures EscapeUnits(units) + "\"" == "\\u" + HexDigit4(units[0]) + (EscapeUnits(units[1..]) + "\"")
    ensures |EscapeUnits(units)| == 6 + |EscapeUnits(units[1..])|
  {
  }

  lemma PairDecodes(last: unit, units: seq<unit>)
    requires units != [] && IsLead(last) && IsTrail(units[0])
    ensures var rest := units[1..];
      Utf8Of(DecodeUtf16(Waiting(last) + units))
      == EncodeUtf8(Combine(last, units[0])) + Utf8Of(DecodeUtf16(Waiting(-1) + rest))
  {
    var all := Waiting(last) + units;
    assert all[2..] == Waiting(-1) + units[1..] && all[0] == last && all[1] == units[0];
    hide EncodeUtf8, DecodeUtf16;
    DecodeCases(all);
    Utf8OfOne(Combine(last, units[0]), DecodeUtf16(all[2..]));
  }

  lemma DecodeCases(units: seq<unit>)
    requires |units| > 1
    ensures DecodeUtf16(units) ==
      if IsLead(units[0]) && IsTrail(units[1]) then [Combine(units[0], units[1])] + DecodeUtf16(units[2..])
      else [units[0]] + DecodeUtf16(units[1..])
  {
  }

  lemma Utf8OfOne(p: point, pts: seq<point>)
    ensures Utf8Of([p] + pts) == EncodeUtf8(p) + Utf8Of(pts)
  {
    hide EncodeUtf8;
    assert ([p] + pts)[1..] == pts;
  }

  lemma UnitDecodes(last: int, units: seq<unit>)
    requires units != [] && -1 <= last < 0x1_0000 && !(IsLead(last) && IsTrail(units[0]))
    ensures Utf8Of(DecodeUtf16(Waiting(last) + units)) == EncodeUtf8(last) + Utf8Of(DecodeUtf16(units))
  {
    hide EncodeUtf8, DecodeUtf16, Utf8Of;
    NothingPending();
    var all := Waiting(last) + units;
    if last < 0 {
      assert all == units && "" + Utf8Of(DecodeUtf16(units)) == Utf8Of(DecodeUtf16(units));
    } else {
      assert all[1..] == units && all[0] == last && all[1] == units[0];
      DecodeCases(all);
      Utf8OfOne(last, DecodeUtf16(units));
    }
  }

  // Any text of code points that are not surrogates, written with escapes, is read as the
  // UTF-8 text that denotes it.
  lemma EscapedText(s: string, i: nat, pts: seq<point>)
    requires AreScalars(pts) && StartsAt(s, i, EscapeUnits(EncodeUtf16(pts)) + "\"")
    ensures var r := ParseString(s, i, -1);
      r.Ok? && r.next == i + |EscapeUnits(EncodeUtf16(pts))| + 1 && FromUtf8(r.value) == pts
  {
    hide ParseString, EscapeUnits, StartsAt;
    var units := EncodeUtf16(pts);
    EscapedUnits(s, i, units, -1);
    assert Waiting(-1) + units == units;
    Utf16RoundTrip(pts);
    Utf8TextRoundTrip(pts);
  }

  lemma NothingPending()
    ensures EncodeUtf8(-1) == ""
  {
  }

  lemma EscapeStep(s: string, i: nat, last: int, pt: nat)
    requires i + 6 <= |s| && s[i] == '\\' && s[i + 1] == 'u' && last < 0x1_0000 && pt < 0x1_0000
    requires s[i + 2..i + 6] == HexDigit4(pt)
    ensures ParseString(s, i, last) ==
      if IsLead(last) && IsTrail(pt) then Prepend(EncodeUtf8(Combine(last, pt)), ParseString(s, i + 6, -1))
      else Prepend(EncodeUtf8(last), ParseString(s, i + 6, pt))
  {
    hide ParseString, EncodeUtf8, Hex4, HasHex4, HexDigit4;
    StringUnfold(s, i, last);
    Hex4Reads(s, i + 2, pt);
  }

  lemma HexDigitReads(d: nat)
    requires d < 16
    ensures IsHex(HexDigit(d)) && HexDigitValue(HexDigit(d)) == d
  {
  }

  lemma Hex4Reads(s: string, i: nat, n: nat)
    requires n < 0x1_0000 && i + 4 <= |s| && s[i..i + 4] == HexDigit4(n)
    ensures HasHex4(s, i) && Hex4(s, i) == n
  {
    hide HexDigit, HexDigitValue, IsHex;
    var t := s[i..i + 4];
    assert s[i] == t[0] && s[i + 1] == t[1] && s[i + 2] == t[2] && s[i + 3] == t[3];
    HexDigitReads(n / 16 / 16 / 16);
    HexDigitReads(n / 16 / 16 % 16);
    HexDigitReads(n / 16 % 16);
    HexDigitReads(n % 16);
  }

  lemma Utf8RoundTrip(pt: nat)
    requires pt < 0x11_0000
    ensures 1 <= |EncodeUtf8(pt)| <= 4 && DecodeUtf8(EncodeUtf8(pt)) == pt
  {
    assert pt / 0x1000 == pt / 0x40 / 0x40;
    assert pt / 0x4_0000 == pt / 0x1000 / 0x40;
  }
}

// Printing and parsing undo each other, up to the nesting limit of the parser.
module JsonRoundTrip {
  import opened JsonValue
  import opened JsonGrammar

  // What is assumed of the conversion of numbers: the decimal form of a 32-bit int,
  // in front of a delimiter, is read exactly.
  ghost predicate ReadsIntegers(read: string -> real) {
    forall n: int, tail: string :: ReadsInt(read, n, tail)
  }

  ghost predicate ReadsInt(read: string -> real, n: int, tail: string) {
    -0x8000_0000 <= n < 0x8000_0000 && (tail == [] || IsDelimiter(tail[0]))
    ==> read(DumpInt(n) + tail) == n as real
  }

  predicate IsDelimiter(c: char) { c == ',' || c == ']' || c == '}' }

  predicate Delimited(s: string, i: nat) {
    i == |s| || (i < |s| && IsDelimiter(s[i]))
  }

  // ----- strings -----

  // One printed byte: its value is added at once, or is the pending code point.
  lemma EscapeByteStep(s: string, i: nat, c: char, last: int)
    requires StartsAt(s, i, EscapeByte(c)) && last < 0x1_0000 && !IsLead(last)
    ensures var j := i + |EscapeByte(c)|;
      && j <= |s|
      && (|| ParseString(s, i, last) == Prepend(EncodeUtf8(last) + [c], ParseString(s, j, -1))
          || (c as int <= 0x1f && ParseString(s, i, last) == Prepend(EncodeUtf8(last), ParseString(s, j, c as int))))
  {
    var e := EscapeByte(c);
    StartsAtChars(s, i, e);
    if |e| == 6 {
      assert s[i] == '\\' && s[i + 1] == 'u' && s[i + 2] == '0' && s[i + 3] == '0';
      assert s[i + 4] == HexDigit(c as int / 16) && s[i + 5] == HexDigit(c as int % 16);
      assert Hex4(s, i + 2) == c as int;
    }
  }

  function SeparatorEscape(t: string): string
    requires IsSeparator(t)
  {
    if t[2] as int == 0xa8 then "\\u2028" else "\\u2029"
  }

  lemma SeparatorStep(s: string, i: nat, t: string, last: int)
    requires IsSeparator(t) && last < 0x1_0000 && !IsLead(last)
    requires StartsAt(s, i, SeparatorEscape(t))
    ensures var pt := if t[2] as int == 0xa8 then 0x2028 else 0x2029;
      && i + 6 <= |s|
      && EncodeUtf8(pt) == t[..3]
      && ParseString(s, i, last) == Prepend(EncodeUtf8(last), ParseString(s, i + 6, pt))
  {
    var e := SeparatorEscape(t);
    StartsAtChars(s, i, e);
    assert s[i] == '\\' && s[i + 1] == 'u' && s[i + 2] == '2' && s[i + 3] == '0' && s[i + 4] == '2';
    assert s[i + 5] == if t[2] as int == 0xa8 then '8' else '9';
    assert t[..3] == [t[0], t[1], t[2]];
  }

  lemma EscapeCases(t: string)
    ensures t == [] ==> Escape(t) == []
    ensures IsSeparator(t) ==> Escape(t) == SeparatorEscape(t) + Escape(t[3..])
    ensures t != [] && !IsSeparator(t) ==> Escape(t) == EscapeByte(t[0]) + Escape(t[1..])
  {
  }

  lemma EncodeSmall(pt: int)
    requires pt < 0x80
    ensures EncodeUtf8(pt) == if pt < 0 then "" else [pt as char]
  {
  }

  // A quoted string is read back, after an escaped code point that is still pending.
  lemma {:induction false} StringRoundTrip(s: string, i: nat, t: string, last: int)
    requires StartsAt(s, i, Escape(t) + "\"") && last < 0x1_0000 && !IsLead(last)
    ensures i < |s| && ParseString(s, i, last) == Ok(EncodeUtf8(last) + t, i + |Escape(t)| + 1)
    decreases |t|
  {
    StartsAtSplit(s, i, Escape(t), "\"");
    if t == [] {
      StartsAtChar(s, i, "\"", 0);
      assert EncodeUtf8(last) + t == EncodeUtf8(last);
    } else {
      StringStep(s, i, t, last);
    }
  }

  lemma {:induction false} StringStep(s: string, i: nat, t: string, last: int)
    requires t != []
    requires StartsAt(s, i, Escape(t) + "\"") && last < 0x1_0000 && !IsLead(last)
    ensures i < |s| && ParseString(s, i, last) == Ok(EncodeUtf8(last) + t, i + |Escape(t)| + 1)
    decreases |t|, 0
  {
    hide ParseString, Escape, EscapeByte, EncodeUtf8, StartsAt;
    EscapeCases(t);
    var n := if IsSeparator(t) then 3 else 1;
    var e := if IsSeparator(t) then SeparatorEscape(t) else EscapeByte(t[0]);
    Assoc(e, Escape(t[n..]), "\"");
    assert t == t[..n] + t[n..];
    StartsAtSplit(s, i, e, Escape(t[n..]) + "\"");
    var p := EncodeUtf8(last);
    if IsSeparator(t) {
      SeparatorStep(s, i, t, last);
      StringRoundTrip(s, i + 6, t[3..], if t[2] as int == 0xa8 then 0x2028 else 0x2029);
    } else {
      EscapeByteStep(s, i, t[0], last);
      StringRoundTrip(s, i + |e|, t[1..], -1);
      EncodeSmall(-1);
      assert t[..1] == [t[0]] && "" + t[1..] == t[1..];
      Assoc(p, [t[0]], t[1..]);
      if t[0] as int <= 0x1f {
        StringRoundTrip(s, i + |e|, t[1..], t[0] as int);
        EncodeSmall(t[0] as int);
      }
    }
  }

  lemma QuoteRoundTrip(s: string, i: nat, t: string)
    requires StartsAt(s, i, Quote(t))
    ensures i < |s| && s[i] == '"' && ParseString(s, i + 1, -1) == Ok(t, i + |Quote(t)|)
  {
    hide ParseString, Escape;
    assert Quote(t) == "\"" + (Escape(t) + "\"");
    StartsAtChar(s, i, Quote(t), 0);
    StartsAtSplit(s, i, "\"", Escape(t) + "\"");
    StringRoundTrip(s, i + 1, t, -1);
    EncodeSmall(-1);
    assert "" + t == t;
  }

  // ----- integers -----

  lemma {:induction false} DigitsRoundTrip(n: nat)
    ensures |Digits(n)| > 0 && forall k :: 0 <= k < |Digits(n)| ==> IsDigit(Digits(n)[k])
    ensures DigitsValue(Digits(n)) == n
    ensures Digits(n)[0] == '0' ==> n == 0 && |Digits(n)| == 1
  {
    var d := Digits(n);
    if n >= 10 {
      DigitsRoundTrip(n / 10);
      assert d[..|d| - 1] == Digits(n / 10);
    } else {
      assert d[..0] == [] && DigitsValue(d[..0]) == 0;
    }
  }

  lemma TailIsPlain(src: Source, i: nat, j: nat, end: nat)
    requires i <= j < end <= |src.text| && j <= i + 1 && Delimited(src.text, end)
    requires forall k :: j <= k < end ==> IsDigit(src.text[k])
    ensures var m: int := DigitsValue(src.text[j..end]);
      NumberTail(src, i, j, end)
        == Ok(if end - i > 9 then Double(src.read(src.text[i..])) else Int(if i < j then -m else m), end)
  {
    assert Fraction(src.text, end) == Ok(false, end);
    assert Exponent(src.text, end) == Ok(false, end);
    hide Fraction, Exponent, DigitsValue;
  }

  lemma NumberUpTo(src: Source, i: nat, j: nat, end: nat)
    requires i <= j < end <= |src.text| && j == (if src.text[i] == '-' then i + 1 else i)
    requires Delimited(src.text, end)
    requires forall k :: j <= k < end ==> IsDigit(src.text[k])
    requires src.text[j] == '0' ==> end == j + 1
    ensures ParseNumber(src, i) == NumberTail(src, i, j, end)
  {
    hide NumberTail, SkipDigits;
    SkipDigitsTo(src.text, j + 1, end);
  }

  // Digits up to a delimiter are an int if at most nine characters were used, and are
  // otherwise left to the conversion to double.
  lemma PlainNumber(src: Source, i: nat, j: nat, end: nat)
    requires i <= j < end <= |src.text| && j == (if src.text[i] == '-' then i + 1 else i)
    requires Delimited(src.text, end)
    requires forall k :: j <= k < end ==> IsDigit(src.text[k])
    requires src.text[j] == '0' ==> end == j + 1
    ensures var m: int := DigitsValue(src.text[j..end]);
      ParseNumber(src, i)
        == Ok(if end - i > 9 then Double(src.read(src.text[i..])) else Int(if i < j then -m else m), end)
  {
    hide NumberTail, ParseNumber, SkipDigits, DigitsValue;
    NumberUpTo(src, i, j, end);
    TailIsPlain(src, i, j, end);
  }

  // Where the digits of a printed int lie.
  lemma IntLayout(s: string, i: nat, n: int)
    requires StartsAt(s, i, DumpInt(n))
    ensures var m := if n < 0 then -n else n;
      var j, end := (if n < 0 then i + 1 else i), i + |DumpInt(n)|;
      && j < end <= |s| && (s[i] == '-' <==> n < 0)
      && s[j..end] == Digits(m) && (forall k :: j <= k < end ==> IsDigit(s[k]))
      && (s[j] == '0' ==> end == j + 1)
  {
    hide Digits, DigitsValue;
    var m := if n < 0 then -n else n;
    var sign := if n < 0 then "-" else "";
    var j := i + |sign|;
    DigitsRoundTrip(m);
    if n < 0 {
      assert DumpInt(n) == "-" + Digits(m);
    } else {
      assert "" + Digits(m) == Digits(m);
    }
    StartsAtSplit(s, i, sign, Digits(m));
    StartsAtChars(s, j, Digits(m));
    StartsAtChar(s, i, DumpInt(n), 0);
    assert IsDigit(Digits(m)[0]);
  }

  lemma IntRoundTrip(src: Source, i: nat, n: int)
    requires -0x8000_0000 <= n < 0x8000_0000 && ReadsIntegers(src.read)
    requires StartsAt(src.text, i, DumpInt(n)) && Delimited(src.text, i + |DumpInt(n)|)
    ensures i < |src.text| && ReadBack(ParseNumber(src, i), Int(n), i + |DumpInt(n)|)
  {
    hide ParseNumber, Digits, DigitsValue, ReadsIntegers, DumpInt, StartsAt;
    var m := if n < 0 then -n else n;
    IntLayout(src.text, i, n);
    PlainNumber(src, i, if n < 0 then i + 1 else i, i + |DumpInt(n)|);
    DigitsRoundTrip(m);
    ReadsFrom(src, i, n);
  }

  lemma ReadsFrom(src: Source, i: nat, n: int)
    requires -0x8000_0000 <= n < 0x8000_0000 && ReadsIntegers(src.read)
    requires StartsAt(src.text, i, DumpInt(n)) && Delimited(src.text, i + |DumpInt(n)|)
    ensures src.read(src.text[i..]) == n as real
  {
    hide Digits;
    var end := i + |DumpInt(n)|;
    var tail := src.text[end..];
    assert tail == [] || (tail[0] == src.text[end] && IsDelimiter(tail[0]));
    assert ReadsInt(src.read, n, tail);
    assert src.text[i..] == src.text[i..end] + tail;
  }

  // ----- tokens -----

  predicate IsToken(c: char) { !IsSpace(c) && c != '/' }

  lemma TokenAt(src: Source, i: nat)
    requires i < |src.text| && IsToken(src.text[i])
    ensures NextToken(src, i) == Ok(src.text[i], i + 1)
  {
    assert SkipSpace(src.text, i) == i;
    assert SkipComment(src.text, i) == Ok(false, i);
  }

  lemma TokenAfterSpace(src: Source, i: nat)
    requires i + 1 < |src.text| && src.text[i] == ' '
    ensures NextToken(src, i) == NextToken(src, i + 1)
  {
    assert SkipSpace(src.text, i) == SkipSpace(src.text, i + 1);
  }

  lemma FirstCharacter(v: Json, show: real -> string)
    requires NoDoubles(v)
    ensures var d := Dump(v, show); d != "" && IsToken(d[0]) && !IsDelimiter(d[0])
    ensures v.Int? ==> Dump(v, show)[0] == '-' || IsDigit(Dump(v, show)[0])
  {
    if v.Int? {
      DigitsRoundTrip(if v.n < 0 then -v.n else v.n);
    }
  }

  // ----- the parser one step at a time -----

  lemma ValueCases(src: Source, i: nat, ch: char, depth: nat)
    requires i < |src.text| && depth <= MAX_DEPTH && NextToken(src, i) == Ok(ch, i + 1)
    ensures IsDigit(ch) || ch == '-' ==> Value(src, i, depth) == ParseNumber(src, i)
    ensures ch == 't' && StartsAt(src.text, i, "true") ==> Value(src, i, depth) == Ok(Bool(true), i + 4)
    ensures ch == 'f' && StartsAt(src.text, i, "false") ==> Value(src, i, depth) == Ok(Bool(false), i + 5)
    ensures ch == 'n' && StartsAt(src.text, i, "null") ==> Value(src, i, depth) == Ok(Null, i + 4)
    ensures ch == '"' && ParseString(src.text, i + 1, -1).Ok?
      ==> var q := ParseString(src.text, i + 1, -1); Value(src, i, depth) == Ok(Str(q.value), q.next)
  {
  }

  lemma ArrayCases(src: Source, i: nat, c: char, depth: nat)
    requires i + 1 < |src.text| && depth <= MAX_DEPTH
    requires NextToken(src, i) == Ok('[', i + 1) && NextToken(src, i + 1) == Ok(c, i + 2)
    ensures Value(src, i, depth) == if c == ']' then Ok(Arr([]), i + 2) else Elements(src, i + 1, depth, [])
  {
  }

  lemma ObjectCases(src: Source, i: nat, c: char, depth: nat)
    requires i + 1 < |src.text| && depth <= MAX_DEPTH
    requires NextToken(src, i) == Ok('{', i + 1) && NextToken(src, i + 1) == Ok(c, i + 2)
    ensures Value(src, i, depth) == if c == '}' then Ok(Obj([]), i + 2) else Members(src, i + 2, c, depth, [])
  {
  }

  lemma ValueAfterSpace(src: Source, i: nat, depth: nat)
    requires i + 1 < |src.text| && src.text[i] == ' '
    ensures Value(src, i, depth) == Value(src, i + 1, depth)
  {
    TokenAfterSpace(src, i);
  }

  predicate ReadBack(r: Parsed<Json>, v: Json, next: nat) {
    r.Ok? && r.next == next && Equal(r.value, v)
  }

  // ----- values -----

  // The text of v is read back as v, ending where it ends, exactly when no node of v is
  // too deep; otherwise the parse fails.
  lemma {:induction false} ValueRoundTrip(src: Source, i: nat, v: Json, depth: nat, show: real -> string)
    requires WellFormed(v) && NoDoubles(v) && ReadsIntegers(src.read)
    requires StartsAt(src.text, i, Dump(v, show)) && Delimited(src.text, i + |Dump(v, show)|)
    ensures i < |src.text|
    ensures var r := Value(src, i, depth);
      if Fits(v, MAX_DEPTH - depth) then ReadBack(r, v, i + |Dump(v, show)|) else r.Fail?
    decreases v, 1
  {
    hide ValueFrom, ParseString, ParseNumber, NextToken, Quote, DumpInt, DumpItems, DumpFields;
    var s, d := src.text, Dump(v, show);
    FirstCharacter(v, show);
    StartsAtChar(s, i, d, 0);
    TokenAt(src, i);
    if depth <= MAX_DEPTH {
      match v
      case Int(n) =>
        ValueCases(src, i, d[0], depth);
        IntRoundTrip(src, i, n);
      case Str(t) =>
        QuoteRoundTrip(s, i, t);
        ValueCases(src, i, '"', depth);
      case Arr(items) =>
        ArrayRoundTrip(src, i, items, depth, show);
      case Obj(fields) =>
        ObjectRoundTrip(src, i, fields, depth, show);
      case Null =>
        ValueCases(src, i, 'n', depth);
      case Bool(b) =>
        ValueCases(src, i, if b then 't' else 'f', depth);
      case Double(_) =>
    }
  }

  lemma {:induction false} ArrayRoundTrip(src: Source, i: nat, items: seq<Json>, depth: nat, show: real -> string)
    requires WellFormed(Arr(items)) && NoDoubles(Arr(items)) && ReadsIntegers(src.read) && depth <= MAX_DEPTH
    requires StartsAt(src.text, i, "[" + DumpItems(items, show) + "]")
    ensures i < |src.text|
    ensures var r := Value(src, i, depth);
      if Fits(Arr(items), MAX_DEPTH - depth) then ReadBack(r, Arr(items), i + |DumpItems(items, show)| + 2)
      else r.Fail?
    decreases items, 2
  {
    hide Value, Elements, NextToken, Dump, DumpMoreItems, StartsAt;
    var s, inner := src.text, DumpItems(items, show) + "]";
    assert "[" + DumpItems(items, show) + "]" == "[" + inner;
    StartsAtSplit(s, i, "[", inner);
    StartsAtChar(s, i, "[", 0);
    StartsAtChar(s, i + 1, inner, 0);
    TokenAt(src, i);
    if items != [] {
      FirstCharacter(items[0], show);
      ElementsRoundTrip(src, i + 1, items, depth, [], show);
    }
    TokenAt(src, i + 1);
    ArrayCases(src, i, s[i + 1], depth);
  }

  predicate AllFit(items: seq<Json>, room: int) {
    forall k :: 0 <= k < |items| ==> Fits(items[k], room)
  }

  lemma {:induction false} ElementsRoundTrip(src: Source, i: nat, items: seq<Json>, depth: nat,
      data: seq<Json>, show: real -> string)
    requires WellFormed(Arr(items)) && NoDoubles(Arr(items)) && ReadsIntegers(src.read) && depth <= MAX_DEPTH
    requires items != [] && StartsAt(src.text, i, DumpItems(items, show) + "]")
    ensures i < |src.text|
    ensures var r := Elements(src, i, depth, data);
      if AllFit(items, MAX_DEPTH - depth - 1)
      then ListReadBack(r, data, items, i + |DumpItems(items, show)| + 1)
      else r.Fail?
    decreases items, 1
  {
    hide Value, Elements, NextToken, Dump, DumpItems, DumpMoreItems, StartsAt, Equal, Fits, ListReadBack;
    var j := i + |Dump(items[0], show)|;
    ItemsSplit(src.text, i, items, show);
    ValueRoundTrip(src, i, items[0], depth + 1, show);
    var v := Value(src, i, depth + 1);
    ElementsUnfold(src, i, depth, data);
    TokenAt(src, j);
    assert AllFit(items, MAX_DEPTH - depth - 1)
      <==> Fits(items[0], MAX_DEPTH - depth - 1) && AllFit(items[1..], MAX_DEPTH - depth - 1);
    if v.Ok? {
      if |items| > 1 {
        NextElement(src, j, items[1..], show);
        ElementsRoundTrip(src, j + 2, items[1..], depth, data + [v.value], show);
        var r := Elements(src, j + 2, depth, data + [v.value]);
        if AllFit(items[1..], MAX_DEPTH - depth - 1) {
          ListReadBackStep(r, data, v.value, items, i + |DumpItems(items, show)| + 1);
        }
      } else {
        ListReadBackEnd(data + [v.value], j + 1);
        assert items[1..] == [];
        ListReadBackStep(Ok(Arr(data + [v.value]), j + 1), data, v.value, items, j + 1);
      }
    }
  }

  // The list read is `data`, and then a list equal to `items`.
  predicate ListReadBack(r: Parsed<Json>, data: seq<Json>, items: seq<Json>, next: nat) {
    && r.Ok? && r.next == next && r.value.Arr?
    && data <= r.value.items && Equal(Arr(r.value.items[|data|..]), Arr(items))
  }

  lemma ListReadBackEnd(data: seq<Json>, next: nat)
    ensures ListReadBack(Ok(Arr(data), next), data, [], next)
  {
  }

  lemma ListReadBackStep(r: Parsed<Json>, data: seq<Json>, v: Json, items: seq<Json>, next: nat)
    requires items != [] && Equal(v, items[0]) && ListReadBack(r, data + [v], items[1..], next)
    ensures ListReadBack(r, data, items, next)
  {
    var all := r.value.items;
    assert all[|data|..] == [v] + all[|data| + 1..];
    assert forall k :: 1 <= k < |items| ==> items[k] == items[1..][k - 1];
  }

  lemma ItemsSplit(s: string, i: nat, items: seq<Json>, show: real -> string)
    requires items != [] && StartsAt(s, i, DumpItems(items, show) + "]")
    ensures var j := i + |Dump(items[0], show)|;
      && j < |s| && s[j] == (if |items| > 1 then ',' else ']')
      && StartsAt(s, i, Dump(items[0], show))
      && StartsAt(s, j, DumpMoreItems(items[1..], show) + "]")
      && i + |DumpItems(items, show)|
         == if |items| > 1 then j + 2 + |DumpItems(items[1..], show)| else j
  {
    hide Dump;
    var head, more := Dump(items[0], show), DumpMoreItems(items[1..], show) + "]";
    Assoc(head, DumpMoreItems(items[1..], show), "]");
    StartsAtSplit(s, i, head, more);
    StartsAtChar(s, i + |head|, more, 0);
  }

  lemma MoreItems(items: seq<Json>, show: real -> string)
    requires items != []
    ensures DumpMoreItems(items, show) + "]" == ", " + (DumpItems(items, show) + "]")
  {
    hide Dump;
    Assoc(", ", Dump(items[0], show), DumpMoreItems(items[1..], show));
    Assoc(", ", DumpItems(items, show), "]");
  }

  // After the comma of a list comes a space, and then the first token of the next element.
  lemma NextElement(src: Source, j: nat, items: seq<Json>, show: real -> string)
    requires items != [] && NoDoubles(items[0])
    requires StartsAt(src.text, j, DumpMoreItems(items, show) + "]")
    ensures j + 2 < |src.text| && src.text[j] == ','
    ensures StartsAt(src.text, j + 2, DumpItems(items, show) + "]")
    ensures NextToken(src, j + 1).Ok? && NextToken(src, j + 1).next == j + 3
  {
    hide NextToken, Dump, DumpMoreItems;
    var s, rest := src.text, DumpItems(items, show) + "]";
    MoreItems(items, show);
    StartsAtSplit(s, j, ", ", rest);
    StartsAtChar(s, j, ", ", 0);
    StartsAtChar(s, j, ", ", 1);
    FirstCharacter(items[0], show);
    StartsAtChar(s, j + 2, rest, 0);
    TokenAfterSpace(src, j + 1);
    TokenAt(src, j + 2);
  }

  lemma {:induction false} ObjectRoundTrip(src: Source, i: nat, fields: seq<Field>, depth: nat, show: real -> string)
    requires WellFormed(Obj(fields)) && NoDoubles(Obj(fields)) && ReadsIntegers(src.read) && depth <= MAX_DEPTH
    requires StartsAt(src.text, i, "{" + DumpFields(fields, show) + "}")
    ensures i < |src.text|
    ensures var r := Value(src, i, depth);
      if Fits(Obj(fields), MAX_DEPTH - depth) then ReadBack(r, Obj(fields), i + |DumpFields(fields, show)| + 2)
      else r.Fail?
    decreases fields, 4
  {
    hide Value, Members, NextToken, Dump, DumpMoreFields, Escape, StartsAt;
    var s, inner := src.text, DumpFields(fields, show) + "}";
    assert "{" + DumpFields(fields, show) + "}" == "{" + inner;
    StartsAtSplit(s, i, "{", inner);
    StartsAtChar(s, i, "{", 0);
    StartsAtChar(s, i + 1, inner, 0);
    TokenAt(src, i);
    if fields != [] {
      assert inner[0] == '"';
      MembersRoundTrip(src, i + 1, fields, depth, [], show);
    }
    TokenAt(src, i + 1);
    ObjectCases(src, i, s[i + 1], depth);
  }

  predicate AllValuesFit(fields: seq<Field>, room: int) {
    forall k :: 0 <= k < |fields| ==> Fits(fields[k].value, room)
  }

  // A key that is behind all others is inserted at the end.
  lemma {:induction false} InsertLast(fields: seq<Field>, key: string, value: Json)
    requires Sorted(fields) && forall f :: f in fields ==> Less(f.key, key)
    ensures Insert(fields, key, value) == fields + [Field(key, value)]
  {
    hide Less;
    if fields != [] {
      assert fields[0] in fields;
      LessIsStrict(fields[0].key, key, fields[0].key);
      assert fields == [fields[0]] + fields[1..];
      InsertLast(fields[1..], key, value);
    }
  }

  lemma FirstFits(fields: seq<Field>, room: int)
    requires fields != []
    ensures AllValuesFit(fields, room) <==> Fits(fields[0].value, room) && AllValuesFit(fields[1..], room)
    ensures |fields| == 1 ==> fields[1..] == [] && AllValuesFit(fields[1..], room)
  {
    hide Fits;
    assert fields == [fields[0]] + fields[1..];
  }

  // The first of the members, and where the reading goes on behind it.
  lemma {:induction false} FirstMember(src: Source, i: nat, fields: seq<Field>, depth: nat, data: seq<Field>,
      show: real -> string) returns (v: Json)
    requires WellFormed(Obj(fields)) && NoDoubles(Obj(fields)) && ReadsIntegers(src.read) && depth <= MAX_DEPTH
    requires fields != [] && StartsAt(src.text, i, DumpFields(fields, show) + "}")
    requires Sorted(data) && forall f, g :: f in data && g in fields ==> Less(f.key, g.key)
    ensures i < |src.text|
    ensures var r, f := Members(src, i + 1, '"', depth, data), fields[0];
      var j, data' := i + |DumpField(f, show)|, data + [Field(f.key, v)];
      && (!Fits(f.value, MAX_DEPTH - depth - 1) ==> r.Fail?)
      && (Fits(f.value, MAX_DEPTH - depth - 1) ==>
        Equal(v, f.value) && Sorted(data') && j + 1 <= |src.text|
        && (|fields| > 1 ==> j + 3 <= |src.text| && r == Members(src, j + 3, '"', depth, data'))
        && (|fields| == 1 ==> r == Ok(Obj(data'), j + 1)))
    decreases fields, 2
  {
    hide Value, Members, NextToken, ParseString, Dump, DumpField, DumpFields, DumpMoreFields, Quote,
      StartsAt, Insert, Equal, Fits, Less, Sorted;
    var s, f := src.text, fields[0];
    var j, colon := i + |DumpField(f, show)|, i + |Quote(f.key)|;
    FieldsSplit(s, i, fields, show);
    MemberRoundTrip(src, i, f, depth, show);
    MembersUnfold(src, i + 1, '"', depth, data);
    TokenAt(src, j);
    var read := Value(src, colon + 1, depth + 1);
    v := Null;
    if read.Ok? {
      v := read.value;
      InsertLast(data, f.key, v);
      if |fields| > 1 {
        NextMember(src, j, fields[1..], show);
      }
    }
  }

  lemma {:induction false} MembersRoundTrip(src: Source, i: nat, fields: seq<Field>, depth: nat,
      data: seq<Field>, show: real -> string)
    requires WellFormed(Obj(fields)) && NoDoubles(Obj(fields)) && ReadsIntegers(src.read) && depth <= MAX_DEPTH
    requires fields != [] && StartsAt(src.text, i, DumpFields(fields, show) + "}")
    requires Sorted(data) && forall f, g :: f in data && g in fields ==> Less(f.key, g.key)
    ensures i < |src.text|
    ensures var r := Members(src, i + 1, '"', depth, data);
      if AllValuesFit(fields, MAX_DEPTH - depth - 1)
      then MapReadBack(r, data, fields, i + |DumpFields(fields, show)| + 1)
      else r.Fail?
    decreases fields, 3
  {
    hide Value, Members, Dump, DumpField, DumpFields, DumpMoreFields, StartsAt, Equal, Fits, Less,
      MapReadBack, AllValuesFit;
    var f := fields[0];
    var j := i + |DumpField(f, show)|;
    FirstFits(fields, MAX_DEPTH - depth - 1);
    FieldsSplit(src.text, i, fields, show);
    var v := FirstMember(src, i, fields, depth, data, show);
    if Fits(f.value, MAX_DEPTH - depth - 1) {
      var data' := data + [Field(f.key, v)];
      if |fields| > 1 {
        NextMember(src, j, fields[1..], show);
        assert forall g :: g in fields[1..] ==> g in fields;
        MembersRoundTrip(src, j + 2, fields[1..], depth, data', show);
        if AllValuesFit(fields[1..], MAX_DEPTH - depth - 1) {
          MapReadBackStep(Members(src, j + 3, '"', depth, data'), data, v, fields, i + |DumpFields(fields, show)| + 1);
        }
      } else {
        MapReadBackEnd(data', j + 1);
        MapReadBackStep(Ok(Obj(data'), j + 1), data, v, fields, j + 1);
      }
    }
  }

  predicate MapReadBack(r: Parsed<Json>, data: seq<Field>, fields: seq<Field>, next: nat) {
    && r.Ok? && r.next == next && r.value.Obj?
    && data <= r.value.fields && Equal(Obj(r.value.fields[|data|..]), Obj(fields))
  }

  lemma MapReadBackEnd(data: seq<Field>, next: nat)
    ensures MapReadBack(Ok(Obj(data), next), data, [], next)
  {
  }

  lemma MapReadBackStep(r: Parsed<Json>, data: seq<Field>, v: Json, fields: seq<Field>, next: nat)
    requires fields != [] && Equal(v, fields[0].value)
    requires MapReadBack(r, data + [Field(fields[0].key, v)], fields[1..], next)
    ensures MapReadBack(r, data, fields, next)
  {
    var all := r.value.fields;
    assert all[|data|..] == [Field(fields[0].key, v)] + all[|data| + 1..];
    assert forall k :: 1 <= k < |fields| ==> fields[k] == fields[1..][k - 1];
  }

  lemma FieldsSplit(s: string, i: nat, fields: seq<Field>, show: real -> string)
    requires fields != [] && StartsAt(s, i, DumpFields(fields, show) + "}")
    ensures var j := i + |DumpField(fields[0], show)|;
      && j < |s| && s[j] == (if |fields| > 1 then ',' else '}')
      && StartsAt(s, i, DumpField(fields[0], show))
      && StartsAt(s, j, DumpMoreFields(fields[1..], show) + "}")
      && i + |DumpFields(fields, show)|
         == if |fields| > 1 then j + 2 + |DumpFields(fields[1..], show)| else j
  {
    hide Dump, Quote, DumpField, DumpMoreFields, StartsAt;
    var head, more := DumpField(fields[0], show), DumpMoreFields(fields[1..], show) + "}";
    MoreText(fields[1..], show);
    Assoc(head, DumpMoreFields(fields[1..], show), "}");
    StartsAtSplit(s, i, head, more);
    StartsAtChar(s, i + |head|, more, 0);
  }

  lemma MoreText(fields: seq<Field>, show: real -> string)
    ensures (DumpMoreFields(fields, show) + "}")[0] == if fields != [] then ',' else '}'
    ensures |DumpMoreFields(fields, show)| == if fields != [] then 2 + |DumpFields(fields, show)| else 0
  {
    hide Dump, DumpField, DumpFields;
    if fields != [] {
      MoreFieldsText(fields, show);
      hide DumpMoreFields;
      assert |DumpMoreFields(fields, show) + "}"| == 2 + |DumpFields(fields, show)| + 1;
    }
  }

  lemma MoreFields(fields: seq<Field>, show: real -> string)
    requires fields != []
    ensures DumpMoreFields(fields, show) + "}" == ", " + (DumpFields(fields, show) + "}")
    ensures DumpFields(fields, show) != [] && DumpFields(fields, show)[0] == '"'
  {
    hide Dump, Escape, DumpMoreFields;
    assert Quote(fields[0].key)[0] == '"';
    MoreFieldsText(fields, show);
  }

  lemma MoreFieldsText(fields: seq<Field>, show: real -> string)
    requires fields != []
    ensures DumpMoreFields(fields, show) + "}" == ", " + (DumpFields(fields, show) + "}")
  {
    hide DumpField;
    Assoc(", ", DumpField(fields[0], show), DumpMoreFields(fields[1..], show));
    Assoc(", ", DumpFields(fields, show), "}");
  }

  lemma NextMember(src: Source, j: nat, fields: seq<Field>, show: real -> string)
    requires fields != [] && StartsAt(src.text, j, DumpMoreFields(fields, show) + "}")
    ensures j + 2 < |src.text| && src.text[j] == ','
    ensures StartsAt(src.text, j + 2, DumpFields(fields, show) + "}")
    ensures NextToken(src, j + 1) == Ok('"', j + 3)
  {
    hide NextToken, DumpField, DumpFields, DumpMoreFields;
    var s, rest := src.text, DumpFields(fields, show) + "}";
    MoreFields(fields, show);
    StartsAtSplit(s, j, ", ", rest);
    StartsAtChar(s, j, ", ", 0);
    StartsAtChar(s, j, ", ", 1);
    assert rest[0] == '"';
    StartsAtChar(s, j + 2, rest, 0);
    TokenAfterSpace(src, j + 1);
    TokenAt(src, j + 2);
  }

  // One member: its key, its colon and its value.
  lemma {:induction false} MemberRoundTrip(src: Source, i: nat, f: Field, depth: nat, show: real -> string)
    requires WellFormed(f.value) && NoDoubles(f.value) && ReadsIntegers(src.read) && depth <= MAX_DEPTH
    requires StartsAt(src.text, i, DumpField(f, show)) && Delimited(src.text, i + |DumpField(f, show)|)
    ensures var colon := i + |Quote(f.key)|;
      && colon < |src.text|
      && ParseString(src.text, i + 1, -1) == Ok(f.key, colon)
      && NextToken(src, colon) == Ok(':', colon + 1)
      && (if Fits(f.value, MAX_DEPTH - depth - 1)
          then ReadBack(Value(src, colon + 1, depth + 1), f.value, i + |DumpField(f, show)|)
          else Value(src, colon + 1, depth + 1).Fail?)
    decreases f, 2
  {
    hide Value, NextToken, ParseString, Quote, Dump, StartsAt, ReadBack, Fits, WellFormed, NoDoubles;
    var s, d, q := src.text, Dump(f.value, show), Quote(f.key);
    Assoc(q, ": ", d);
    assert DumpField(f, show) == q + (": " + d);
    hide DumpField;
    StartsAtSplit(s, i, q, ": " + d);
    QuoteRoundTrip(s, i, f.key);
    var colon := i + |q|;
    StartsAtSplit(s, colon, ": ", d);
    StartsAtChar(s, colon, ": ", 0);
    StartsAtChar(s, colon, ": ", 1);
    TokenAt(src, colon);
    ValueRoundTrip(src, colon + 2, f.value, depth + 1, show);
    ValueAfterSpace(src, colon + 1, depth + 1);
  }

  // Json::parse(v.dump()) is a value equal to v, with the whole text consumed, if no node
  // of v is deeper than 200; and it is an error if one is.
  lemma {:induction false} ParseUndoesDump(v: Json, strategy: Strategy, read: string -> real, show: real -> string)
    requires WellFormed(v) && NoDoubles(v) && ReadsIntegers(read)
    ensures var text := Dump(v, show);
      var r := Document(Source(text, strategy, read));
      if Fits(v, MAX_DEPTH) then ReadBack(r, v, |text|) else r.Fail?
  {
    hide Value, Dump, SkipSpace, SkipComment;
    var text := Dump(v, show);
    var src := Source(text, strategy, read);
    assert text[0..0 + |text|] == text;
    ValueRoundTrip(src, 0, v, 0, show);
    GarbageAtEnd(src);
  }

  lemma GarbageAtEnd(src: Source)
    ensures SkipGarbage(src, |src.text|) == Ok(false, |src.text|)
  {
    assert SkipSpace(src.text, |src.text|) == |src.text|;
    assert SkipComment(src.text, |src.text|) == Ok(false, |src.text|);
  }
}

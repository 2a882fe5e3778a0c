// What the json11 parser accepts, as functions of the text and an index into it.
// Section numbers are those of RFC 8259.
module JsonGrammar {
  import opened JsonValue

  const MAX_DEPTH := 200

  datatype Strategy = Standard | Comments

  datatype Error =
    | TooDeep
    | EndOfInput
    | EndAfterSlash
    | EndInComment
    | MalformedComment
    | EndInString
    | Unescaped(c: char)
    | BadUnicodeEscape
    | BadEscape(c: char)
    | LeadingZero
    | BadNumber(c: char)
    | NoFractionDigits
    | NoExponentDigits
    | ExpectedLiteral(literal: string)
    | ExpectedKey(c: char)
    | ExpectedColon(c: char)
    | ExpectedCommaInObject(c: char)
    | ExpectedCommaInList(c: char)
    | ExpectedValue(c: char)
    | Trailing(c: char)

  datatype Parsed<+T> = Ok(value: T, next: nat) | Fail(error: Error)

  // Everything a parse depends on: the text, the comment strategy, and `read`,
  // the conversion by an input stream of the text from a number's start onwards.
  datatype Source = Source(text: string, strategy: Strategy, read: string -> real)

  // std::string gives a NUL at its end.
  function At(s: string, i: nat): char {
    if i < |s| then s[i] else 0 as char
  }

  predicate IsSpace(c: char) { c == ' ' || c == '\r' || c == '\n' || c == '\t' }

  predicate IsDigit(c: char) { '0' <= c <= '9' }

  predicate IsHex(c: char) { IsDigit(c) || 'a' <= c <= 'f' || 'A' <= c <= 'F' }

  // ----- white space and comments (section 2) -----

  function SkipSpace(s: string, i: nat): (j: nat)
    requires i <= |s|
    ensures i <= j <= |s| && !IsSpace(At(s, j))
    decreases |s| - i
  {
    if IsSpace(At(s, i)) then SkipSpace(s, i + 1) else i
  }

  function SkipLine(s: string, i: nat): (j: nat)
    requires i <= |s|
    ensures i <= j <= |s|
    decreases |s| - i
  {
    if i < |s| && s[i] != '\n' then SkipLine(s, i + 1) else i
  }

  // The index behind the closing of a comment.
  function SkipBlock(s: string, i: nat): (r: Parsed<bool>)
    requires 2 <= i <= |s|
    ensures r.Ok? ==> i < r.next <= |s|
    decreases |s| - i
  {
    if i > |s| - 2 then Fail(EndInComment)
    else if s[i] == '*' && s[i + 1] == '/' then Ok(true, i + 2)
    else SkipBlock(s, i + 1)
  }

  function SkipComment(s: string, i: nat): (r: Parsed<bool>)
    requires i <= |s|
    ensures r.Ok? ==> i <= r.next <= |s| && (r.value ==> i < r.next)
  {
    if At(s, i) != '/' then Ok(false, i)
    else if i + 1 == |s| then Fail(EndAfterSlash)
    else if s[i + 1] == '/' then Ok(true, SkipLine(s, i + 2))
    else if s[i + 1] == '*' then SkipBlock(s, i + 2)
    else Fail(MalformedComment)
  }

  function SkipComments(s: string, i: nat): (r: Parsed<bool>)
    requires i <= |s|
    ensures r.Ok? ==> i <= r.next <= |s|
    decreases |s| - i
  {
    var c := SkipComment(s, i);
    if c.Fail? then c
    else
      var j := SkipSpace(s, c.next);
      if c.value then SkipComments(s, j) else Ok(false, j)
  }

  function SkipGarbage(src: Source, i: nat): (r: Parsed<bool>)
    requires i <= |src.text|
    ensures r.Ok? ==> i <= r.next <= |src.text|
  {
    var j := SkipSpace(src.text, i);
    if src.strategy.Comments? then SkipComments(src.text, j) else Ok(false, j)
  }

  function NextToken(src: Source, i: nat): (r: Parsed<char>)
    requires i <= |src.text|
    ensures r.Ok? ==> i < r.next <= |src.text| && r.value == src.text[r.next - 1]
  {
    var g := SkipGarbage(src, i);
    if g.Fail? then Fail(g.error)
    else if g.next == |src.text| then Fail(EndOfInput)
    else Ok(src.text[g.next], g.next + 1)
  }

  // ----- strings (section 7) -----

  // Section 3 of RFC 3629; nothing for a negative number.
  function EncodeUtf8(pt: int): string
    requires pt < 0x11_0000
  {
    if pt < 0 then ""
    else if pt < 0x80 then [pt as char]
    else if pt < 0x800 then [(0xC0 + pt / 0x40) as char, Continuation(pt)]
    else if pt < 0x1_0000 then
      [(0xE0 + pt / 0x1000) as char, Continuation(pt / 0x40), Continuation(pt)]
    else
      [(0xF0 + pt / 0x4_0000) as char, Continuation(pt / 0x1000), Continuation(pt / 0x40), Continuation(pt)]
  }

  function Continuation(n: nat): char {
    (0x80 + n % 0x40) as char
  }

  function HexDigitValue(c: char): (d: nat)
    requires IsHex(c)
    ensures d < 16
  {
    if IsDigit(c) then c as int - '0' as int
    else if 'a' <= c then c as int - 'a' as int + 10
    else c as int - 'A' as int + 10
  }

  predicate HasHex4(s: string, i: nat) {
    i + 4 <= |s| && IsHex(s[i]) && IsHex(s[i + 1]) && IsHex(s[i + 2]) && IsHex(s[i + 3])
  }

  function Hex4(s: string, i: nat): (n: nat)
    requires HasHex4(s, i)
    ensures n < 0x1_0000
  {
    ((HexDigitValue(s[i]) * 16 + HexDigitValue(s[i + 1])) * 16 + HexDigitValue(s[i + 2])) * 16
      + HexDigitValue(s[i + 3])
  }

  predicate IsLead(pt: int) { 0xD800 <= pt <= 0xDBFF }

  predicate IsTrail(pt: int) { 0xDC00 <= pt <= 0xDFFF }

  function Combine(lead: int, trail: int): int
    requires IsLead(lead) && IsTrail(trail)
  {
    (lead - 0xD800) * 0x400 + (trail - 0xDC00) + 0x1_0000
  }

  predicate IsSimpleEscape(c: char) {
    c == 'b' || c == 'f' || c == 'n' || c == 'r' || c == 't' || c == '"' || c == '\\' || c == '/'
  }

  function Unescape(c: char): char
    requires IsSimpleEscape(c)
  {
    match c
    case 'b' => 8 as char
    case 'f' => 12 as char
    case 'n' => '\n'
    case 'r' => '\r'
    case 't' => '\t'
    case _ => c
  }

  function Prepend(prefix: string, r: Parsed<string>): (p: Parsed<string>)
    ensures p.Ok? <==> r.Ok?
    ensures r.Ok? ==> p.next == r.next
  {
    if r.Ok? then Ok(prefix + r.value, r.next) else r
  }

  // What the rest of a string from i adds to its value; `last` is an escaped code point
  // still to be written because the next escape may complete a surrogate pair.
  function ParseString(s: string, i: nat, last: int): (r: Parsed<string>)
    requires i <= |s| && last < 0x1_0000
    ensures r.Ok? ==> i < r.next <= |s|
    decreases |s| - i
  {
    if i == |s| then Fail(EndInString)
    else if s[i] == '"' then Ok(EncodeUtf8(last), i + 1)
    else if s[i] as int <= 0x1f then Fail(Unescaped(s[i]))
    else if s[i] != '\\' then Prepend(EncodeUtf8(last) + [s[i]], ParseString(s, i + 1, -1))
    else if i + 1 == |s| then Fail(EndInString)
    else if s[i + 1] == 'u' then
      if !HasHex4(s, i + 2) then Fail(BadUnicodeEscape)
      else
        var pt := Hex4(s, i + 2);
        if IsLead(last) && IsTrail(pt)
        then Prepend(EncodeUtf8(Combine(last, pt)), ParseString(s, i + 6, -1))
        else Prepend(EncodeUtf8(last), ParseString(s, i + 6, pt))
    else if IsSimpleEscape(s[i + 1])
    then Prepend(EncodeUtf8(last) + [Unescape(s[i + 1])], ParseString(s, i + 2, -1))
    else Fail(BadEscape(s[i + 1]))
  }

  lemma StringUnfold(s: string, i: nat, last: int)
    requires i <= |s| && last < 0x1_0000
    ensures var r := ParseString(s, i, last);
      if i == |s| then r == Fail(EndInString)
      else if s[i] == '"' then r == Ok(EncodeUtf8(last), i + 1)
      else if s[i] as int <= 0x1f then r == Fail(Unescaped(s[i]))
      else if s[i] != '\\' then r == Prepend(EncodeUtf8(last) + [s[i]], ParseString(s, i + 1, -1))
      else if i + 1 == |s| then r == Fail(EndInString)
      else if s[i + 1] == 'u' then
        if !HasHex4(s, i + 2) then r == Fail(BadUnicodeEscape)
        else
          var pt := Hex4(s, i + 2);
          r == if IsLead(last) && IsTrail(pt)
               then Prepend(EncodeUtf8(Combine(last, pt)), ParseString(s, i + 6, -1))
               else Prepend(EncodeUtf8(last), ParseString(s, i + 6, pt))
      else if IsSimpleEscape(s[i + 1])
      then r == Prepend(EncodeUtf8(last) + [Unescape(s[i + 1])], ParseString(s, i + 2, -1))
      else r == Fail(BadEscape(s[i + 1]))
  {
  }

  // ----- numbers (section 6) -----

  function SkipDigits(s: string, i: nat): (j: nat)
    requires i <= |s|
    ensures i <= j <= |s| && !IsDigit(At(s, j))
    ensures forall k :: i <= k < j ==> IsDigit(s[k])
    decreases |s| - i
  {
    if IsDigit(At(s, i)) then SkipDigits(s, i + 1) else i
  }

  lemma {:induction false} SkipDigitsTo(s: string, i: nat, j: nat)
    requires i <= j <= |s| && !IsDigit(At(s, j))
    requires forall k :: i <= k < j ==> IsDigit(s[k])
    ensures SkipDigits(s, i) == j
    decreases j - i
  {
    if i < j {
      SkipDigitsTo(s, i + 1, j);
    }
  }

  function DigitsValue(t: string): nat
    requires forall k :: 0 <= k < |t| ==> IsDigit(t[k])
  {
    if t == [] then 0
    else 10 * DigitsValue(t[..|t| - 1]) + HexDigitValue(t[|t| - 1])
  }

  function Fraction(s: string, i: nat): (r: Parsed<bool>)
    requires i <= |s|
    ensures r.Ok? ==> i <= r.next <= |s|
  {
    if At(s, i) != '.' then Ok(false, i)
    else if !IsDigit(At(s, i + 1)) then Fail(NoFractionDigits)
    else Ok(true, SkipDigits(s, i + 1))
  }

  function Exponent(s: string, i: nat): (r: Parsed<bool>)
    requires i <= |s|
    ensures r.Ok? ==> i <= r.next <= |s|
  {
    if At(s, i) != 'e' && At(s, i) != 'E' then Ok(false, i)
    else
      var j := if At(s, i + 1) == '+' || At(s, i + 1) == '-' then i + 2 else i + 1;
      if !IsDigit(At(s, j)) then Fail(NoExponentDigits) else Ok(true, SkipDigits(s, j))
  }

  // A number that starts at `start`, has its digits at digits..i, and goes on from i.
  // At most nine characters of plain digits make an int, everything else a double.
  function NumberTail(src: Source, start: nat, digits: nat, i: nat): (r: Parsed<Json>)
    requires start <= digits <= i <= |src.text| && digits <= start + 1
    requires forall k :: digits <= k < i ==> IsDigit(src.text[k])
    ensures r.Ok? ==> i <= r.next <= |src.text| && WellFormed(r.value)
  {
    var s := src.text;
    if At(s, i) != '.' && At(s, i) != 'e' && At(s, i) != 'E' && i - start <= 9 then
      assert forall k :: 0 <= k < i - digits ==> s[digits..i][k] == s[digits + k];
      var n: int := DigitsValue(s[digits..i]);
      DigitsValueBound(s[digits..i]);
      Ok(Int(if start < digits then -n else n), i)
    else
      var f := Fraction(s, i);
      if f.Fail? then Fail(f.error)
      else
        var e := Exponent(s, f.next);
        if e.Fail? then Fail(e.error) else Ok(Double(src.read(s[start..])), e.next)
  }

  lemma {:induction false} DigitsValueBound(t: string)
    requires forall k :: 0 <= k < |t| ==> IsDigit(t[k])
    ensures |t| <= 9 ==> DigitsValue(t) < 0x8000_0000
    ensures |t| <= 8 ==> DigitsValue(t) < 100_000_000
    ensures |t| <= 7 ==> DigitsValue(t) < 10_000_000
    ensures |t| <= 6 ==> DigitsValue(t) < 1_000_000
    ensures |t| <= 5 ==> DigitsValue(t) < 100_000
    ensures |t| <= 4 ==> DigitsValue(t) < 10_000
    ensures |t| <= 3 ==> DigitsValue(t) < 1_000
    ensures |t| <= 2 ==> DigitsValue(t) < 100
    ensures |t| <= 1 ==> DigitsValue(t) < 10
  {
    if t != [] {
      DigitsValueBound(t[..|t| - 1]);
    }
  }

  function ParseNumber(src: Source, i: nat): (r: Parsed<Json>)
    requires i < |src.text|
    ensures r.Ok? ==> i < r.next <= |src.text| && WellFormed(r.value)
  {
    var s := src.text;
    var j := if s[i] == '-' then i + 1 else i;
    if At(s, j) == '0' then
      if IsDigit(At(s, j + 1)) then Fail(LeadingZero) else NumberTail(src, i, j, j + 1)
    else if '1' <= At(s, j) <= '9' then NumberTail(src, i, j, SkipDigits(s, j + 1))
    else Fail(BadNumber(At(s, j)))
  }

  // ----- values (sections 3 to 5) -----

  predicate StartsAt(s: string, i: nat, t: string) {
    i + |t| <= |s| && s[i..i + |t|] == t
  }

  lemma StartsAtSplit(s: string, i: nat, a: string, b: string)
    requires StartsAt(s, i, a + b)
    ensures StartsAt(s, i, a) && StartsAt(s, i + |a|, b)
  {
    var t := s[i..i + |a + b|];
    assert s[i..i + |a|] == t[..|a|] == a;
    assert s[i + |a|..i + |a| + |b|] == t[|a|..] == b;
  }

  lemma Assoc(a: string, b: string, c: string)
    ensures (a + b) + c == a + (b + c)
  {
  }

  lemma StartsAtChar(s: string, i: nat, t: string, k: nat)
    requires StartsAt(s, i, t) && k < |t|
    ensures i + |t| <= |s| && s[i + k] == t[k]
  {
    assert s[i..i + |t|][k] == t[k];
  }

  lemma StartsAtChars(s: string, i: nat, t: string)
    requires StartsAt(s, i, t)
    ensures i + |t| <= |s| && forall k :: i <= k < i + |t| ==> s[k] == t[k - i]
  {
    forall k | i <= k < i + |t| ensures s[k] == t[k - i] { StartsAtChar(s, i, t, k - i); }
  }

  function Expect(s: string, i: nat, literal: string, value: Json): (r: Parsed<Json>)
    ensures r.Ok? ==> r.next == i + |literal| <= |s|
  {
    if StartsAt(s, i, literal) then Ok(value, i + |literal|) else Fail(ExpectedLiteral(literal))
  }

  // std::map's operator[] followed by an assignment.
  function Insert(fields: seq<Field>, key: string, value: Json): (r: seq<Field>)
    requires Sorted(fields)
    ensures Sorted(r)
    ensures forall f :: f in r <==> f == Field(key, value) || (f in fields && f.key != key)
  {
    if fields == [] then [Field(key, value)]
    else if fields[0].key == key then
      KeysAreDistinct(fields);
      [Field(key, value)] + fields[1..]
    else if Less(key, fields[0].key) then
      FirstIsLeast(fields, key);
      [Field(key, value)] + fields
    else
      var rest := Insert(fields[1..], key, value);
      FirstStaysLeast(fields, key, value, rest);
      [fields[0]] + rest
  }

  lemma KeysAreDistinct(fields: seq<Field>)
    requires Sorted(fields)
    ensures forall i, j :: 0 <= i < j < |fields| ==> fields[i].key != fields[j].key
  {
    forall i, j | 0 <= i < j < |fields| ensures fields[i].key != fields[j].key {
      LessIsStrict(fields[i].key, fields[j].key, "");
    }
  }

  lemma FirstIsLeast(fields: seq<Field>, key: string)
    requires Sorted(fields) && fields != [] && Less(key, fields[0].key)
    ensures forall f :: f in fields ==> Less(key, f.key) && f.key != key
  {
    forall f | f in fields ensures Less(key, f.key) && f.key != key {
      LessIsStrict(key, fields[0].key, f.key);
      LessIsStrict(key, f.key, "");
    }
  }

  lemma FirstStaysLeast(fields: seq<Field>, key: string, value: Json, rest: seq<Field>)
    requires Sorted(fields) && fields != [] && Sorted(rest)
    requires fields[0].key != key && !Less(key, fields[0].key)
    requires forall f :: f in rest <==> f == Field(key, value) || (f in fields[1..] && f.key != key)
    ensures Sorted([fields[0]] + rest)
    ensures forall f :: f in [fields[0]] + rest <==> f == Field(key, value) || (f in fields && f.key != key)
  {
    LessIsTotal(fields[0].key, key);
    assert forall f :: f in fields <==> f == fields[0] || f in fields[1..];
    assert forall j :: 0 <= j < |rest| ==> rest[j] in rest;
  }

  function Value(src: Source, i: nat, depth: nat): (r: Parsed<Json>)
    requires i <= |src.text|
    ensures r.Ok? ==> i < r.next <= |src.text|
    decreases MAX_DEPTH + 1 - depth, 2, 0
  {
    if depth > MAX_DEPTH then Fail(TooDeep) else ValueFrom(src, NextToken(src, i), depth)
  }

  // A value whose first token is t.
  function ValueFrom(src: Source, t: Parsed<char>, depth: nat): (r: Parsed<Json>)
    requires t.Ok? ==> 0 < t.next <= |src.text| && t.value == src.text[t.next - 1]
    requires depth <= MAX_DEPTH
    ensures r.Ok? ==> t.Ok? && t.next <= r.next <= |src.text|
    decreases MAX_DEPTH + 1 - depth, 1, 0
  {
    if t.Fail? then Fail(t.error)
    else
      var ch := t.value;
      if ch == '-' || IsDigit(ch) then ParseNumber(src, t.next - 1)
      else if ch == 't' then Expect(src.text, t.next - 1, "true", Bool(true))
      else if ch == 'f' then Expect(src.text, t.next - 1, "false", Bool(false))
      else if ch == 'n' then Expect(src.text, t.next - 1, "null", Null)
      else if ch == '"' then
        var q := ParseString(src.text, t.next, -1);
        if q.Fail? then Fail(q.error) else Ok(Str(q.value), q.next)
      else if ch == '{' then
        var u := NextToken(src, t.next);
        if u.Fail? then Fail(u.error)
        else if u.value == '}' then Ok(Obj([]), u.next)
        else Members(src, u.next, u.value, depth, [])
      else if ch == '[' then
        var u := NextToken(src, t.next);
        if u.Fail? then Fail(u.error)
        else if u.value == ']' then Ok(Arr([]), u.next)
        else Elements(src, u.next - 1, depth, [])
      else Fail(ExpectedValue(ch))
  }

  // The members of an object from the token `ch` just read, after those in `data`.
  function Members(src: Source, i: nat, ch: char, depth: nat, data: seq<Field>): (r: Parsed<Json>)
    requires i <= |src.text| && depth <= MAX_DEPTH && Sorted(data)
    ensures r.Ok? ==> i < r.next <= |src.text|
    decreases MAX_DEPTH + 1 - depth, 0, |src.text| - i
  {
    if ch != '"' then Fail(ExpectedKey(ch))
    else
      var k := ParseString(src.text, i, -1);
      if k.Fail? then Fail(k.error)
      else
        var c := NextToken(src, k.next);
        if c.Fail? then Fail(c.error)
        else if c.value != ':' then Fail(ExpectedColon(c.value))
        else
          var v := Value(src, c.next, depth + 1);
          if v.Fail? then v
          else
            var t := NextToken(src, v.next);
            if t.Fail? then Fail(t.error)
            else if t.value == '}' then Ok(Obj(Insert(data, k.value, v.value)), t.next)
            else if t.value != ',' then Fail(ExpectedCommaInObject(t.value))
            else
              var u := NextToken(src, t.next);
              if u.Fail? then Fail(u.error)
              else Members(src, u.next, u.value, depth, Insert(data, k.value, v.value))
  }

  // The elements of an array from i on, after those in `data`.
  function Elements(src: Source, i: nat, depth: nat, data: seq<Json>): (r: Parsed<Json>)
    requires i <= |src.text| && depth <= MAX_DEPTH
    ensures r.Ok? ==> i < r.next <= |src.text|
    decreases MAX_DEPTH + 1 - depth, 0, |src.text| - i
  {
    var v := Value(src, i, depth + 1);
    if v.Fail? then v
    else
      var t := NextToken(src, v.next);
      if t.Fail? then Fail(t.error)
      else if t.value == ']' then Ok(Arr(data + [v.value]), t.next)
      else if t.value != ',' then Fail(ExpectedCommaInList(t.value))
      else
        var u := NextToken(src, t.next);
        if u.Fail? then Fail(u.error)
        else Elements(src, u.next - 1, depth, data + [v.value])
  }

  // What one more member or element does to a parse.
  lemma MembersUnfold(src: Source, i: nat, ch: char, depth: nat, data: seq<Field>)
    requires i <= |src.text| && depth <= MAX_DEPTH && Sorted(data)
    ensures var r := Members(src, i, ch, depth, data);
      if ch != '"' then r == Fail(ExpectedKey(ch))
      else
        var k := ParseString(src.text, i, -1);
        if k.Fail? then r == Fail(k.error)
        else
          var c := NextToken(src, k.next);
          if c.Fail? then r == Fail(c.error)
          else if c.value != ':' then r == Fail(ExpectedColon(c.value))
          else
            var v := Value(src, c.next, depth + 1);
            if v.Fail? then r == v
            else
              var t, data' := NextToken(src, v.next), Insert(data, k.value, v.value);
              if t.Fail? then r == Fail(t.error)
              else if t.value == '}' then r == Ok(Obj(data'), t.next)
              else if t.value != ',' then r == Fail(ExpectedCommaInObject(t.value))
              else
                var u := NextToken(src, t.next);
                r == if u.Fail? then Fail(u.error) else Members(src, u.next, u.value, depth, data')
  {
    hide Value, NextToken, ParseString, Insert;
  }

  lemma ElementsUnfold(src: Source, i: nat, depth: nat, data: seq<Json>)
    requires i <= |src.text| && depth <= MAX_DEPTH
    ensures var r, v := Elements(src, i, depth, data), Value(src, i, depth + 1);
      if v.Fail? then r == v
      else
        var t := NextToken(src, v.next);
        if t.Fail? then r == Fail(t.error)
        else if t.value == ']' then r == Ok(Arr(data + [v.value]), t.next)
        else if t.value != ',' then r == Fail(ExpectedCommaInList(t.value))
        else
          var u := NextToken(src, t.next);
          r == if u.Fail? then Fail(u.error) else Elements(src, u.next - 1, depth, data + [v.value])
  {
    hide Value, NextToken;
  }

  // Json::parse: one value, then nothing but white space and comments.
  function Document(src: Source): (r: Parsed<Json>)
    ensures r.Ok? ==> r.next == |src.text|
  {
    var v := Value(src, 0, 0);
    if v.Fail? then v
    else
      var g := SkipGarbage(src, v.next);
      if g.Fail? then Fail(g.error)
      else if g.next != |src.text| then Fail(Trailing(src.text[g.next]))
      else Ok(v.value, g.next)
  }
}

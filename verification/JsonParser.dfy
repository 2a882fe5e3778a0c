// The json11 parser as the program runs it: an object whose index moves over the text,
// at times backwards, and that records the first failure only.
module JsonParser {
  import opened JsonValue
  import opened JsonGrammar
  import opened JsonSyntax
  import opened JsonLanguage

  class Parser {
    const src: Source
    var i: nat
    var failed: bool
    var err: Error  // of interest once `failed`

    // The index never leaves the text, so every read of a character is within it
    // or is the terminating NUL.
    predicate InText() reads this { i <= |src.text| }

    // The state agrees with what the grammar says.
    predicate Matches<T>(r: Parsed<T>)
      reads this
    {
      (failed <==> r.Fail?) && if r.Ok? then i == r.next else err == r.error
    }

    constructor (src: Source)
      ensures this.src == src && i == 0 && !failed
    {
      this.src, i, failed, err := src, 0, false, EndOfInput;
    }

    method Fail(e: Error)
      modifies `failed, `err
      ensures failed && err == if old(failed) then old(err) else e
    {
      if !failed {
        err := e;
      }
      failed := true;
    }

    method ConsumeWhitespace()
      requires InText()
      modifies `i
      ensures InText() && i == SkipSpace(src.text, old(i))
    {
      while IsSpace(At(src.text, i))
        invariant InText() && SkipSpace(src.text, i) == SkipSpace(src.text, old(i))
        decreases |src.text| - i
      {
        i := i + 1;
      }
    }

    method ConsumeComment() returns (found: bool)
      requires InText()
      modifies this
      ensures old(i) <= i && InText() && (old(failed) ==> failed && err == old(err))
      ensures !old(failed) ==> Matches(SkipComment(src.text, old(i)))
      ensures !old(failed) && !failed ==> found == SkipComment(src.text, old(i)).value
    {
      var s := src.text;
      found := false;
      if At(s, i) == '/' {
        i := i + 1;
        if i == |s| {
          Fail(EndAfterSlash);
          return;
        }
        if s[i] == '/' {
          i := i + 1;
          label line:
          while i < |s| && s[i] != '\n'
            invariant old(i) <= i && InText() && failed == old(failed) && err == old(err)
            invariant SkipLine(s, i) == SkipLine(s, old@line(i))
          {
            i := i + 1;
          }
          found := true;
        } else if s[i] == '*' {
          i := i + 1;
          if i > |s| - 2 {
            Fail(EndInComment);
            return;
          }
          label block:
          while !(s[i] == '*' && s[i + 1] == '/')
            invariant 2 <= i <= |s| - 2 && old(i) <= i && failed == old(failed) && err == old(err)
            invariant SkipBlock(s, i) == SkipBlock(s, old@block(i))
            decreases |s| - i
          {
            i := i + 1;
            if i > |s| - 2 {
              Fail(EndInComment);
              return;
            }
          }
          i := i + 2;
          found := true;
        } else {
          Fail(MalformedComment);
        }
      }
    }

    method ConsumeGarbage()
      requires InText()
      modifies this
      ensures old(i) <= i && InText() && (old(failed) ==> failed && err == old(err))
      ensures !old(failed) ==> Matches(SkipGarbage(src, old(i)))
    {
      ConsumeWhitespace();
      if src.strategy.Comments? {
        label comments:
        var found := true;
        while found
          invariant old(i) <= i && InText() && (old(failed) ==> failed && err == old(err))
          invariant !old(failed) ==> !failed
          invariant !old(failed) && found ==> SkipComments(src.text, i) == SkipComments(src.text, old@comments(i))
          invariant !old(failed) && !found ==> Matches(SkipComments(src.text, old@comments(i)))
          invariant old(failed) ==> found
          decreases found, |src.text| - i
        {
          found := ConsumeComment();
          if failed {
            return;
          }
          ConsumeWhitespace();
        }
      }
    }

    method GetNextToken() returns (ch: char)
      requires InText()
      modifies this
      ensures old(i) <= i && InText() && (old(failed) ==> failed && err == old(err))
      ensures !old(failed) ==> Matches(NextToken(src, old(i)))
      ensures ch == if failed then 0 as char else NextToken(src, old(i)).value
    {
      ConsumeGarbage();
      if failed {
        return 0 as char;
      }
      if i == |src.text| {
        Fail(EndOfInput);
        return 0 as char;
      }
      ch := src.text[i];
      i := i + 1;
    }

    method ParseString() returns (out: string)
      requires InText() && !failed
      modifies this
      ensures InText() && Matches(JsonGrammar.ParseString(src.text, old(i), -1))
      ensures !failed ==> out == JsonGrammar.ParseString(src.text, old(i), -1).value
    {
      hide JsonGrammar.ParseString, EncodeUtf8, Prepend;
      var s := src.text;
      ghost var spec := JsonGrammar.ParseString(s, i, -1);
      out := "";
      PrependNothing(spec);
      var last: int := -1;
      while true
        invariant InText() && !failed && last < 0x1_0000
        invariant spec == Prepend(out, JsonGrammar.ParseString(s, i, last))
        decreases |s| - i
      {
        StringUnfold(s, i, last);
        PrependCases(out, JsonGrammar.ParseString(s, i, last));
        if i == |s| {
          Fail(EndInString);
          return;
        }
        var ch := s[i];
        i := i + 1;
        if ch == '"' {
          out := out + EncodeUtf8(last);
          return;
        }
        if ch as int <= 0x1f {
          Fail(Unescaped(ch));
          return;
        }
        if ch != '\\' {
          PrependTwice(out, EncodeUtf8(last) + [ch], JsonGrammar.ParseString(s, i, -1));
          out := out + (EncodeUtf8(last) + [ch]);
          last := -1;
          continue;
        }
        if i == |s| {
          Fail(EndInString);
          return;
        }
        ch := s[i];
        i := i + 1;
        if ch == 'u' {
          if !HasHex4(s, i) {
            Fail(BadUnicodeEscape);
            return;
          }
          var codepoint := Hex4(s, i);
          if IsLead(last) && IsTrail(codepoint) {
            PrependTwice(out, EncodeUtf8(Combine(last, codepoint)), JsonGrammar.ParseString(s, i + 4, -1));
            out := out + EncodeUtf8(Combine(last, codepoint));
            last := -1;
          } else {
            PrependTwice(out, EncodeUtf8(last), JsonGrammar.ParseString(s, i + 4, codepoint));
            out := out + EncodeUtf8(last);
            last := codepoint;
          }
          i := i + 4;
          continue;
        }
        if !IsSimpleEscape(ch) {
          Fail(BadEscape(ch));
          return;
        }
        PrependTwice(out, EncodeUtf8(last) + [Unescape(ch)], JsonGrammar.ParseString(s, i, -1));
        out := out + (EncodeUtf8(last) + [Unescape(ch)]);
        last := -1;
      }
    }

    method ConsumeDigits()
      requires InText()
      modifies `i
      ensures InText() && i == SkipDigits(src.text, old(i))
    {
      while IsDigit(At(src.text, i))
        invariant InText() && SkipDigits(src.text, i) == SkipDigits(src.text, old(i))
        decreases |src.text| - i
      {
        i := i + 1;
      }
    }

    method ConsumeFraction()
      requires InText() && !failed
      modifies this
      ensures InText() && Matches(Fraction(src.text, old(i)))
    {
      hide SkipDigits;
      if At(src.text, i) == '.' {
        i := i + 1;
        if IsDigit(At(src.text, i)) {
          ConsumeDigits();
        } else {
          Fail(NoFractionDigits);
        }
      }
    }

    method ConsumeExponent()
      requires InText() && !failed
      modifies this
      ensures InText() && Matches(Exponent(src.text, old(i)))
    {
      hide SkipDigits;
      if At(src.text, i) == 'e' || At(src.text, i) == 'E' {
        i := i + 1;
        if At(src.text, i) == '+' || At(src.text, i) == '-' {
          i := i + 1;
        }
        if IsDigit(At(src.text, i)) {
          ConsumeDigits();
        } else {
          Fail(NoExponentDigits);
        }
      }
    }

    method ParseNumber() returns (v: Json)
      requires i < |src.text| && !failed
      modifies this
      ensures InText() && Matches(JsonGrammar.ParseNumber(src, old(i)))
      ensures !failed ==> v == JsonGrammar.ParseNumber(src, old(i)).value
    {
      hide NumberTail, SkipDigits;
      var s, start := src.text, i;
      v := Null;
      if s[i] == '-' {
        i := i + 1;
      }
      var digits := i;
      if At(s, i) == '0' {
        i := i + 1;
        if IsDigit(At(s, i)) {
          Fail(LeadingZero);
          return;
        }
      } else if '1' <= At(s, i) <= '9' {
        i := i + 1;
        ConsumeDigits();
      } else {
        Fail(BadNumber(At(s, i)));
        return;
      }
      v := ParseNumberTail(start, digits);
    }

    method ParseNumberTail(start: nat, digits: nat) returns (v: Json)
      requires start <= digits <= i <= |src.text| && digits <= start + 1 && !failed
      requires forall k :: digits <= k < i ==> IsDigit(src.text[k])
      modifies this
      ensures InText() && Matches(NumberTail(src, start, digits, old(i)))
      ensures !failed ==> v == NumberTail(src, start, digits, old(i)).value
    {
      hide Fraction, Exponent, DigitsValue;
      var s := src.text;
      v := Null;
      if At(s, i) != '.' && At(s, i) != 'e' && At(s, i) != 'E' && i - start <= 9 {
        assert forall k :: 0 <= k < i - digits ==> s[digits..i][k] == s[digits + k];
        var n: int := DigitsValue(s[digits..i]);
        return Int(if start < digits then -n else n);
      }
      ConsumeFraction();
      if failed {
        return;
      }
      ConsumeExponent();
      if failed {
        return;
      }
      v := Double(src.read(s[start..]));
    }

    // Called with the first character of the literal already read.
    method Expect(literal: string, res: Json) returns (v: Json)
      requires 0 < i <= |src.text| && !failed
      modifies this
      ensures InText() && Matches(JsonGrammar.Expect(src.text, old(i) - 1, literal, res))
      ensures !failed ==> v == res
    {
      i := i - 1;
      if StartsAt(src.text, i, literal) {
        i := i + |literal|;
        v := res;
      } else {
        Fail(ExpectedLiteral(literal));
        v := Null;
      }
    }

    // It always returns, whatever the text.
    method ParseJson(depth: nat) returns (v: Json)
      requires InText()
      modifies this
      ensures InText() && (old(failed) ==> failed && err == old(err))
      ensures !old(failed) ==> Matches(Value(src, old(i), depth)) && (!failed ==> v == Value(src, old(i), depth).value)
      decreases MAX_DEPTH + 1 - depth, 1
    {
      hide NextToken, JsonGrammar.ParseNumber, JsonGrammar.ParseString, Members, Elements;
      v := Null;
      if depth > MAX_DEPTH {
        Fail(TooDeep);
        return;
      }
      var ch := GetNextToken();
      if failed {
        return;
      }
      assert NextToken(src, old(i)) == Ok(ch, i);
      if ch == '-' || IsDigit(ch) {
        i := i - 1;
        v := ParseNumber();
      } else if ch == 't' {
        v := Expect("true", Bool(true));
      } else if ch == 'f' {
        v := Expect("false", Bool(false));
      } else if ch == 'n' {
        v := Expect("null", Null);
      } else if ch == '"' {
        var s := ParseString();
        v := Str(s);
      } else if ch == '{' {
        v := ParseObject(depth);
      } else if ch == '[' {
        v := ParseArray(depth);
      } else {
        Fail(ExpectedValue(ch));
      }
    }

    method ParseObject(depth: nat) returns (v: Json)
      requires 0 < i <= |src.text| && !failed && depth <= MAX_DEPTH && src.text[i - 1] == '{'
      modifies this
      ensures InText() && Matches(ValueFrom(src, Ok('{', old(i)), depth))
      ensures !failed ==> v == ValueFrom(src, Ok('{', old(i)), depth).value
      decreases MAX_DEPTH + 1 - depth, 0
    {
      hide Members, Value, NextToken, Insert, JsonGrammar.ParseString;
      ghost var spec := ValueFrom(src, Ok('{', i), depth);
      v := Null;
      var data: seq<Field> := [];
      var ch := GetNextToken();
      if ch == '}' {
        return Obj(data);
      }
      while true
        invariant InText() && Sorted(data)
        invariant failed ==> ch == 0 as char && spec == Parsed.Fail(err)
        invariant !failed ==> spec == Members(src, i, ch, depth, data)
        decreases !failed, |src.text| - i
      {
        MembersUnfold(src, i, ch, depth, data);
        if ch != '"' {
          Fail(ExpectedKey(ch));
          return;
        }
        var key := ParseString();
        if failed {
          return;
        }
        ch := GetNextToken();
        if ch != ':' {
          Fail(ExpectedColon(ch));
          return;
        }
        var member := ParseJson(depth + 1);
        data := Insert(data, key, member);
        if failed {
          return;
        }
        ch := GetNextToken();
        if ch == '}' {
          break;
        }
        if ch != ',' {
          Fail(ExpectedCommaInObject(ch));
          return;
        }
        ch := GetNextToken();
      }
      v := Obj(data);
    }

    method ParseArray(depth: nat) returns (v: Json)
      requires 0 < i <= |src.text| && !failed && depth <= MAX_DEPTH && src.text[i - 1] == '['
      modifies this
      ensures InText() && Matches(ValueFrom(src, Ok('[', old(i)), depth))
      ensures !failed ==> v == ValueFrom(src, Ok('[', old(i)), depth).value
      decreases MAX_DEPTH + 1 - depth, 0
    {
      hide Elements, Value, NextToken;
      ghost var spec := ValueFrom(src, Ok('[', i), depth);
      v := Null;
      var data: seq<Json> := [];
      var ch := GetNextToken();
      if ch == ']' {
        return Arr(data);
      }
      while true
        invariant 0 < i <= |src.text|
        invariant failed ==> spec == Parsed.Fail(err)
        invariant !failed ==> spec == Elements(src, i - 1, depth, data)
        decreases !failed, |src.text| - i
      {
        ElementsUnfold(src, i - 1, depth, data);
        i := i - 1;
        var element := ParseJson(depth + 1);
        data := data + [element];
        if failed {
          return;
        }
        ch := GetNextToken();
        if ch == ']' {
          break;
        }
        if ch != ',' {
          Fail(ExpectedCommaInList(ch));
          return;
        }
        ch := GetNextToken();
      }
      v := Arr(data);
    }
  }

  lemma PrependCases(a: string, r: Parsed<string>)
    ensures Prepend(a, r) == if r.Ok? then Ok(a + r.value, r.next) else r
  {
  }

  lemma PrependNothing(r: Parsed<string>)
    ensures Prepend("", r) == r
  {
    if r.Ok? {
      assert "" + r.value == r.value;
    }
  }

  lemma PrependTwice(a: string, b: string, r: Parsed<string>)
    ensures Prepend(a, Prepend(b, r)) == Prepend(a + b, r)
  {
    if r.Ok? {
      assert a + (b + r.value) == (a + b) + r.value;
    }
  }

  // Json::parse. The result is the document that the grammar describes, or its error; just the
  // texts of trees with gaps around are accepted, as what the tree means.
  method Parse(src: Source) returns (v: Json, error: Parsed<()>)
    ensures error.Ok? <==> exists before, s, after :: IsDocument(src, before, s, after)
    ensures forall before, s, after :: IsDocument(src, before, s, after) ==> v == Meaning(src, |GapText(before)|, s)
    ensures error.Ok? <==> Document(src).Ok?
    ensures error.Ok? ==> v == Document(src).value && error.next == |src.text|
    ensures error.Fail? ==> v == Null && error.error == Document(src).error
  {
    hide Document, Value, SkipGarbage, NextToken, Meaning, Text, GapText, IsGap, IsSyntax, IsShallow;
    AcceptsExactly(src);
    ParseCases(src);
    var parser := new Parser(src);
    v := parser.ParseJson(0);
    parser.ConsumeGarbage();
    if parser.failed {
      return Null, Parsed.Fail(parser.err);
    }
    if parser.i != |src.text| {
      parser.Fail(Trailing(src.text[parser.i]));
      return Null, Parsed.Fail(parser.err);
    }
    error := Ok((), parser.i);
  }

  lemma ParseCases(src: Source)
    ensures var r, v := Document(src), Value(src, 0, 0);
      if v.Fail? then r == v
      else
        var g := SkipGarbage(src, v.next);
        r == if g.Fail? then Parsed.Fail(g.error)
             else if g.next != |src.text| then Parsed.Fail(Trailing(src.text[g.next]))
             else Ok(v.value, g.next)
  {
    hide Value, SkipGarbage;
  }

  lemma AcceptsExactly(src: Source)
    ensures Document(src).Ok? <==> exists before, s, after :: IsDocument(src, before, s, after)
    ensures forall before, s, after :: IsDocument(src, before, s, after) ==>
      Document(src).Ok? && Document(src).value == Meaning(src, |GapText(before)|, s)
  {
    hide Document, Meaning, Text, GapText, IsGap, IsSyntax, IsShallow;
    if Document(src).Ok? {
      var before, s, after := DocumentIs(src);
    }
    forall before, s, after | IsDocument(src, before, s, after)
      ensures Document(src) == Ok(Meaning(src, |GapText(before)|, s), |src.text|)
    {
      DocumentReads(src, before, s, after);
    }
  }
}

// How deep the brackets of a text are nested, and that the parser refuses what is too deep,
// also where a later member of the same key leaves no trace of it in the value.
module JsonNesting {
  import opened JsonValue
  import opened JsonGrammar

  // Behind the quote that closes a string.
  function SkipQuoted(s: string, i: nat): (j: nat)
    requires i <= |s|
    ensures i <= j <= |s|
    decreases |s| - i
  {
    if i == |s| then i
    else if s[i] == '"' then i + 1
    else if s[i] == '\\' && i + 1 < |s| then SkipQuoted(s, i + 2)
    else SkipQuoted(s, i + 1)
  }

  predicate Opens(c: char) { c == '[' || c == '{' }

  predicate Closes(c: char) { c == ']' || c == '}' }

  predicate IsComment(src: Source, i: nat, mark: char) {
    src.strategy.Comments? && i + 1 < |src.text| && src.text[i] == '/' && src.text[i + 1] == mark
  }

  // The greatest number of brackets open at the same time from i on, where `open` are open
  // at i; strings and comments do not count.
  function Nesting(src: Source, i: nat, open: int): (n: int)
    requires i <= |src.text|
    ensures n >= open
    decreases |src.text| - i
  {
    var s := src.text;
    if i == |s| then open
    else if s[i] == '"' then Nesting(src, SkipQuoted(s, i + 1), open)
    else if IsComment(src, i, '/') then Nesting(src, SkipLine(s, i + 2), open)
    else if IsComment(src, i, '*') then
      Nesting(src, if SkipBlock(s, i + 2).Ok? then SkipBlock(s, i + 2).next else |s|, open)
    else if Opens(s[i]) then Nesting(src, i + 1, open + 1)
    else if Closes(s[i]) then
      var n := Nesting(src, i + 1, open - 1);
      if n > open then n else open
    else Nesting(src, i + 1, open)
  }

  predicate Shallow(src: Source, i: nat, open: int)
    requires i <= |src.text|
  {
    Nesting(src, i, open) <= MAX_DEPTH + 1
  }

  // ----- what is read without brackets -----

  predicate IsPlain(c: char) {
    c != '"' && c != '/' && !Opens(c) && !Closes(c)
  }

  lemma {:induction false} PlainPart(src: Source, i: nat, j: nat, open: int)
    requires i <= j <= |src.text| && AllPlain(src.text, i, j)
    ensures Nesting(src, i, open) == Nesting(src, j, open)
    decreases j - i
  {
    if i < j {
      PlainPart(src, i + 1, j, open);
    }
  }

  lemma {:induction false} SpacePart(src: Source, i: nat, open: int)
    requires i <= |src.text|
    ensures Nesting(src, i, open) == Nesting(src, SkipSpace(src.text, i), open)
    decreases |src.text| - i
  {
    if i < |src.text| && IsSpace(src.text[i]) {
      SpacePart(src, i + 1, open);
    }
  }

  lemma {:induction false} CommentsPart(src: Source, i: nat, open: int)
    requires i <= |src.text| && src.strategy.Comments? && SkipComments(src.text, i).Ok?
    ensures Nesting(src, i, open) == Nesting(src, SkipComments(src.text, i).next, open)
    decreases |src.text| - i
  {
    var c := SkipComment(src.text, i);
    assert Nesting(src, i, open) == Nesting(src, c.next, open);
    SpacePart(src, c.next, open);
    if c.value {
      CommentsPart(src, SkipSpace(src.text, c.next), open);
    }
  }

  lemma GarbagePart(src: Source, i: nat, open: int)
    requires i <= |src.text| && SkipGarbage(src, i).Ok?
    ensures Nesting(src, i, open) == Nesting(src, SkipGarbage(src, i).next, open)
  {
    SpacePart(src, i, open);
    var j := SkipSpace(src.text, i);
    hide Nesting, SkipSpace, SkipComments;
    if src.strategy.Comments? {
      CommentsPart(src, j, open);
    }
  }

  lemma TokenPart(src: Source, i: nat, open: int)
    requires i <= |src.text| && NextToken(src, i).Ok?
    ensures Nesting(src, i, open) == Nesting(src, NextToken(src, i).next - 1, open)
  {
    hide Nesting, SkipGarbage;
    GarbagePart(src, i, open);
  }

  // The parser and the scan agree on where a string ends.
  lemma {:induction false} StringPart(s: string, i: nat, last: int)
    requires i <= |s| && last < 0x1_0000 && ParseString(s, i, last).Ok?
    ensures SkipQuoted(s, i) == ParseString(s, i, last).next
    decreases |s| - i
  {
    hide ParseString, EncodeUtf8, Hex4;
    StringUnfold(s, i, last);
    if s[i] != '"' {
      if s[i] != '\\' {
        StringPart(s, i + 1, -1);
      } else if s[i + 1] == 'u' {
        var pt := Hex4(s, i + 2);
        if IsLead(last) && IsTrail(pt) {
          StringPart(s, i + 6, -1);
        } else {
          StringPart(s, i + 6, pt);
        }
        HexPart(s, i + 2);
      } else {
        StringPart(s, i + 2, -1);
      }
    }
  }

  lemma HexPart(s: string, i: nat)
    requires HasHex4(s, i)
    ensures SkipQuoted(s, i) == SkipQuoted(s, i + 4)
  {
    assert SkipQuoted(s, i) == SkipQuoted(s, i + 1);
    assert SkipQuoted(s, i + 2) == SkipQuoted(s, i + 3);
  }

  predicate AllPlain(s: string, i: nat, j: nat)
    requires j <= |s|
  {
    forall k :: i <= k < j ==> IsPlain(s[k])
  }

  lemma FractionPart(s: string, i: nat)
    requires i <= |s| && Fraction(s, i).Ok?
    ensures AllPlain(s, i, Fraction(s, i).next)
  {
    hide SkipDigits;
  }

  lemma ExponentPart(s: string, i: nat)
    requires i <= |s| && Exponent(s, i).Ok?
    ensures AllPlain(s, i, Exponent(s, i).next)
  {
    hide SkipDigits;
  }

  lemma NumberTailPart(src: Source, start: nat, digits: nat, i: nat)
    requires start <= digits <= i <= |src.text| && digits <= start + 1
    requires forall k :: digits <= k < i ==> IsDigit(src.text[k])
    requires NumberTail(src, start, digits, i).Ok?
    ensures AllPlain(src.text, i, NumberTail(src, start, digits, i).next)
  {
    hide Fraction, Exponent, DigitsValue, IsPlain;
    var f := Fraction(src.text, i);
    if f.Ok? && Exponent(src.text, f.next).Ok? {
      FractionPart(src.text, i);
      ExponentPart(src.text, f.next);
    }
  }

  lemma NumberPart(src: Source, i: nat)
    requires i < |src.text| && ParseNumber(src, i).Ok?
    ensures AllPlain(src.text, i, ParseNumber(src, i).next)
  {
    hide SkipDigits, NumberTail;
    var s := src.text;
    var j := if s[i] == '-' then i + 1 else i;
    NumberTailPart(src, i, j, if At(s, j) == '0' then j + 1 else SkipDigits(s, j + 1));
  }

  lemma LiteralPart(s: string, i: nat, literal: string, value: Json)
    requires Expect(s, i, literal, value).Ok? && forall k :: 0 <= k < |literal| ==> IsPlain(literal[k])
    ensures AllPlain(s, i, i + |literal|)
  {
    var t := s[i..i + |literal|];
    assert forall k :: i <= k < i + |literal| ==> s[k] == t[k - i];
  }

  // ----- values -----

  // If the text behind an accepted value is shallow, so is the text from its start.
  lemma {:induction false} ValueShallow(src: Source, i: nat, depth: nat)
    requires i <= |src.text| && Value(src, i, depth).Ok? && Shallow(src, Value(src, i, depth).next, depth)
    ensures Shallow(src, i, depth)
    decreases MAX_DEPTH + 1 - depth, 1, 0
  {
    hide Elements, Members, NextToken, Nesting, ParseString, ParseNumber, Expect;
    var t := NextToken(src, i);
    TokenPart(src, i, depth);
    if t.value == '"' {
      QuotedShallow(src, t.next, depth);
    } else if t.value == '[' {
      ArrayShallow(src, t.next, depth);
    } else if t.value == '{' {
      ObjectShallow(src, t.next, depth);
    } else {
      PlainShallow(src, i, depth);
    }
  }

  lemma QuotedShallow(src: Source, i: nat, open: int)
    requires 0 < i <= |src.text| && src.text[i - 1] == '"' && ParseString(src.text, i, -1).Ok?
    ensures Nesting(src, i - 1, open) == Nesting(src, ParseString(src.text, i, -1).next, open)
  {
    hide ParseString, SkipQuoted;
    StringPart(src.text, i, -1);
  }

  lemma PlainShallow(src: Source, i: nat, depth: nat)
    requires i <= |src.text| && Value(src, i, depth).Ok?
    requires NextToken(src, i).value != '"' && !Opens(NextToken(src, i).value)
    ensures Nesting(src, NextToken(src, i).next - 1, depth) == Nesting(src, Value(src, i, depth).next, depth)
  {
    hide NextToken, Nesting, ParseNumber;
    var t, r := NextToken(src, i), Value(src, i, depth);
    if t.value == '-' || IsDigit(t.value) {
      NumberPart(src, t.next - 1);
    } else if t.value == 't' {
      LiteralPart(src.text, t.next - 1, "true", Bool(true));
    } else if t.value == 'f' {
      LiteralPart(src.text, t.next - 1, "false", Bool(false));
    } else {
      LiteralPart(src.text, t.next - 1, "null", Null);
    }
    PlainPart(src, t.next - 1, r.next, depth);
  }

  // A bracket at i - 1.
  lemma OpenStep(src: Source, i: nat, open: int)
    requires 0 < i <= |src.text| && Opens(src.text[i - 1])
    ensures Nesting(src, i - 1, open) == Nesting(src, i, open + 1)
  {
  }

  lemma CloseStep(src: Source, i: nat, open: int)
    requires 0 < i <= |src.text| && Closes(src.text[i - 1])
    ensures Nesting(src, i - 1, open) <= MAX_DEPTH + 1
      <==> open <= MAX_DEPTH + 1 && Nesting(src, i, open - 1) <= MAX_DEPTH + 1
  {
  }

  // A comma or a colon at i - 1.
  lemma PlainStep(src: Source, i: nat, open: int)
    requires 0 < i <= |src.text| && IsPlain(src.text[i - 1])
    ensures Nesting(src, i - 1, open) == Nesting(src, i, open)
  {
  }

  lemma {:induction false} ArrayShallow(src: Source, i: nat, depth: nat)
    requires 0 < i <= |src.text| && src.text[i - 1] == '[' && depth <= MAX_DEPTH
    requires var r := ValueFrom(src, Ok('[', i), depth); r.Ok? && Shallow(src, r.next, depth)
    ensures Shallow(src, i - 1, depth)
    decreases MAX_DEPTH + 1 - depth, 0, |src.text| - i + 1
  {
    hide Elements, NextToken, Nesting;
    var u := NextToken(src, i);
    OpenStep(src, i, depth);
    TokenPart(src, i, depth + 1);
    if u.value == ']' {
      CloseStep(src, u.next, depth + 1);
    } else {
      ElementsShallow(src, u.next - 1, depth, []);
    }
  }

  lemma {:induction false} ElementsShallow(src: Source, i: nat, depth: nat, data: seq<Json>)
    requires i <= |src.text| && depth <= MAX_DEPTH
    requires var r := Elements(src, i, depth, data); r.Ok? && Shallow(src, r.next, depth)
    ensures Shallow(src, i, depth + 1)
    decreases MAX_DEPTH + 1 - depth, 0, |src.text| - i
  {
    hide Elements, Value, NextToken, Nesting;
    ElementsUnfold(src, i, depth, data);
    var v := Value(src, i, depth + 1);
    var t := NextToken(src, v.next);
    if t.value == ']' {
      CloseStep(src, t.next, depth + 1);
    } else {
      var u := NextToken(src, t.next);
      ElementsShallow(src, u.next - 1, depth, data + [v.value]);
      TokenPart(src, t.next, depth + 1);
      PlainStep(src, t.next, depth + 1);
    }
    TokenPart(src, v.next, depth + 1);
    ValueShallow(src, i, depth + 1);
  }

  lemma {:induction false} ObjectShallow(src: Source, i: nat, depth: nat)
    requires 0 < i <= |src.text| && src.text[i - 1] == '{' && depth <= MAX_DEPTH
    requires var r := ValueFrom(src, Ok('{', i), depth); r.Ok? && Shallow(src, r.next, depth)
    ensures Shallow(src, i - 1, depth)
    decreases MAX_DEPTH + 1 - depth, 0, |src.text| - i + 1
  {
    hide Members, NextToken, Nesting;
    var u := NextToken(src, i);
    OpenStep(src, i, depth);
    TokenPart(src, i, depth + 1);
    if u.value == '}' {
      CloseStep(src, u.next, depth + 1);
    } else {
      MembersShallow(src, u.next, u.value, depth, []);
    }
  }

  // The members from the token before i on.
  lemma {:induction false} MembersShallow(src: Source, i: nat, ch: char, depth: nat, data: seq<Field>)
    requires 0 < i <= |src.text| && src.text[i - 1] == ch && depth <= MAX_DEPTH && Sorted(data)
    requires var r := Members(src, i, ch, depth, data); r.Ok? && Shallow(src, r.next, depth)
    ensures Shallow(src, i - 1, depth + 1)
    decreases MAX_DEPTH + 1 - depth, 0, |src.text| - i
  {
    hide Members, Value, NextToken, Nesting, ParseString, Insert;
    MembersUnfold(src, i, ch, depth, data);
    var k := ParseString(src.text, i, -1);
    var c := NextToken(src, k.next);
    var v := Value(src, c.next, depth + 1);
    var t := NextToken(src, v.next);
    if t.value == '}' {
      CloseStep(src, t.next, depth + 1);
    } else {
      var u := NextToken(src, t.next);
      MembersShallow(src, u.next, u.value, depth, Insert(data, k.value, v.value));
      TokenPart(src, t.next, depth + 1);
      PlainStep(src, t.next, depth + 1);
    }
    TokenPart(src, v.next, depth + 1);
    ValueShallow(src, c.next, depth + 1);
    PlainStep(src, c.next, depth + 1);
    TokenPart(src, k.next, depth + 1);
    QuotedShallow(src, i, depth + 1);
  }

  // A text that opens more than 201 brackets at a time, outside strings and comments, is an
  // error, whatever else is in it.
  lemma DeepTextFails(src: Source)
    ensures Nesting(src, 0, 0) > MAX_DEPTH + 1 ==> Document(src).Fail?
  {
    hide Value, Nesting, SkipSpace, SkipComments;
    if Document(src).Ok? {
      var v := Value(src, 0, 0);
      GarbagePart(src, v.next, 0);
      NothingLeft(src);
      ValueShallow(src, 0, 0);
    }
  }

  lemma NothingLeft(src: Source)
    ensures Nesting(src, |src.text|, 0) == 0
  {
  }
}

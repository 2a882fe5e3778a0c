// Strings and numbers: every way to write one is read, and only these are.
module JsonTokens {
  import opened JsonValue
  import opened JsonGrammar
  import opened JsonSyntax

  // ----- strings -----

  // Both cases of the hexadecimal digits, and nothing else.
  lemma HexDigitsRead(c: char)
    ensures IsHex(c) <==> c in "0123456789abcdef" || c in "0123456789ABCDEF"
    ensures forall d :: 0 <= d < 16 ==> HexDigitValue("0123456789abcdef"[d]) == d
    ensures forall d :: 0 <= d < 16 ==> HexDigitValue("0123456789ABCDEF"[d]) == d
  {
    var low, high := "0123456789abcdef", "0123456789ABCDEF";
    if IsHex(c) {
      var d := HexDigitValue(c);
      assert c == low[d] || c == high[d];
    }
    assert forall d :: 0 <= d < 16 ==> IsHex(low[d]) && HexDigitValue(low[d]) == d;
    assert forall d :: 0 <= d < 16 ==> IsHex(high[d]) && HexDigitValue(high[d]) == d;
  }

  // What pieces stand for behind an escaped unit that may still wait for its trail.
  function MeantAfter(last: int, ps: seq<Piece>): string
    requires -1 <= last < 0x1_0000 && ArePieces(ps)
  {
    if ps != [] && IsLead(last) && IsTrail(UnitOf(ps[0])) then EncodeUtf8(Combine(last, UnitOf(ps[0]))) + Meant(ps[1..])
    else EncodeUtf8(last) + Meant(ps)
  }

  lemma MeantStep(last: int, ps: seq<Piece>)
    requires -1 <= last < 0x1_0000 && ArePieces(ps) && ps != []
    ensures var u := UnitOf(ps[0]);
      MeantAfter(last, ps) ==
        if IsLead(last) && IsTrail(u) then EncodeUtf8(Combine(last, u)) + MeantAfter(-1, ps[1..])
        else if u >= 0 then EncodeUtf8(last) + MeantAfter(u, ps[1..])
        else (EncodeUtf8(last) + One(ps[0])) + MeantAfter(-1, ps[1..])
  {
    var u, rest := UnitOf(ps[0]), ps[1..];
    hide EncodeUtf8, UnitOf;
    NothingBefore();
    assert MeantAfter(-1, rest) == Meant(rest) by { assert "" + Meant(rest) == Meant(rest); }
    if !(IsLead(last) && IsTrail(u)) {
      if rest != [] && IsLead(u) && IsTrail(UnitOf(rest[0])) {
        assert rest[1..] == ps[2..];
        IsUnicode(ps[0]);
      } else {
        assert Meant(ps) == One(ps[0]) + Meant(rest);
        IsUnicode(ps[0]);
        Assoc(EncodeUtf8(last), One(ps[0]), Meant(rest));
      }
    }
  }

  lemma IsUnicode(p: Piece)
    requires IsPiece(p)
    ensures UnitOf(p) >= 0 <==> p.Unicode?
    ensures p.Unicode? ==> One(p) == EncodeUtf8(UnitOf(p))
  {
  }

  lemma NothingBefore()
    ensures EncodeUtf8(-1) == ""
  {
  }

  // One piece in front of what parses.
  lemma PieceStep(s: string, i: nat, p: Piece, last: int)
    requires IsPiece(p) && StartsAt(s, i, PieceText(p)) && -1 <= last < 0x1_0000
    ensures var j := i + |PieceText(p)|;
      && j <= |s|
      && ParseString(s, i, last) ==
           if IsLead(last) && IsTrail(UnitOf(p)) then Prepend(EncodeUtf8(Combine(last, UnitOf(p))), ParseString(s, j, -1))
           else if UnitOf(p) >= 0 then Prepend(EncodeUtf8(last), ParseString(s, j, UnitOf(p)))
           else Prepend(EncodeUtf8(last) + One(p), ParseString(s, j, -1))
  {
    StartsAtChars(s, i, PieceText(p));
    StringUnfold(s, i, last);
    hide ParseString, EncodeUtf8;
    match p
    case Raw(c) =>
    case Short(c) => assert s[i] == '\\' && s[i + 1] == c;
    case Unicode(hex) =>
      assert s[i] == '\\' && s[i + 1] == 'u';
      assert s[i + 2] == hex[0] && s[i + 3] == hex[1] && s[i + 4] == hex[2] && s[i + 5] == hex[3];
  }

  lemma {:induction false} PiecesRead(s: string, i: nat, ps: seq<Piece>, last: int)
    requires StartsAt(s, i, PiecesText(ps) + "\"") && ArePieces(ps) && -1 <= last < 0x1_0000
    ensures ParseString(s, i, last) == Ok(MeantAfter(last, ps), i + |PiecesText(ps)| + 1)
    decreases |ps|
  {
    hide ParseString, StartsAt, UnitOf, EncodeUtf8, One, PieceText;
    if ps == [] {
      assert PiecesText(ps) + "\"" == "\"";
      StartsAtChar(s, i, "\"", 0);
      StringUnfold(s, i, last);
      assert EncodeUtf8(last) + "" == EncodeUtf8(last);
    } else {
      var p, rest := ps[0], ps[1..];
      Assoc(PieceText(p), PiecesText(rest), "\"");
      StartsAtSplit(s, i, PieceText(p), PiecesText(rest) + "\"");
      PieceStep(s, i, p, last);
      MeantStep(last, ps);
      var j := i + |PieceText(p)|;
      PiecesRead(s, j, rest, -1);
      if UnitOf(p) >= 0 { PiecesRead(s, j, rest, UnitOf(p)); }
    }
  }

  // Whatever parses is made of pieces.
  lemma {:induction false} PiecesOf(s: string, i: nat, last: int) returns (ps: seq<Piece>)
    requires i <= |s| && last < 0x1_0000 && ParseString(s, i, last).Ok?
    ensures ArePieces(ps) && StartsAt(s, i, PiecesText(ps) + "\"")
    decreases |s| - i
  {
    hide ParseString, EncodeUtf8, StartsAt, PieceText;
    StringUnfold(s, i, last);
    if s[i] == '"' {
      ps := [];
      QuoteHere(s, i);
    } else {
      var p := PieceAt(s, i, last);
      var j := i + |PieceText(p)|;
      StartsAtChars(s, i, PieceText(p));
      var rest;
      if s[i] == '\\' && s[i + 1] == 'u' {
        var u := Hex4(s, i + 2);
        rest := PiecesOf(s, j, if IsLead(last) && IsTrail(u) then -1 else u);
      } else {
        rest := PiecesOf(s, j, -1);
      }
      ps := [p] + rest;
      assert ps[1..] == rest;
      StartsJoin(s, i, PieceText(p), PiecesText(rest) + "\"");
      Assoc(PieceText(p), PiecesText(rest), "\"");
    }
  }

  lemma QuoteHere(s: string, i: nat)
    requires i < |s| && s[i] == '"'
    ensures StartsAt(s, i, PiecesText([]) + "\"")
  {
    assert s[i..i + 1] == "\"";
  }

  lemma PieceAt(s: string, i: nat, last: int) returns (p: Piece)
    requires i < |s| && last < 0x1_0000 && s[i] != '"' && ParseString(s, i, last).Ok?
    ensures IsPiece(p) && StartsAt(s, i, PieceText(p))
    ensures |PieceText(p)| == if s[i] != '\\' then 1 else if s[i + 1] == 'u' then 6 else 2
    ensures s[i] == '\\' ==> i + 1 < |s| && (s[i + 1] == 'u' ==> HasHex4(s, i + 2))
  {
    hide ParseString, EncodeUtf8, IsHex, HexDigitValue, Hex4, Combine, IsLead, IsTrail;
    StringUnfold(s, i, last);
    if s[i] != '\\' {
      p := Raw(s[i]);
      assert s[i..i + 1] == [s[i]];
    } else if s[i + 1] == 'u' {
      p := Unicode(s[i + 2..i + 6]);
      assert s[i..i + 6] == "\\u" + s[i + 2..i + 6];
    } else {
      p := Short(s[i + 1]);
      assert s[i..i + 2] == "\\" + [s[i + 1]];
    }
  }

  // Just the strings of pieces are read, as what these stand for.
  lemma QuotedReads(s: string, i: nat, ps: seq<Piece>)
    requires StartsAt(s, i, PiecesText(ps) + "\"") && ArePieces(ps)
    ensures ParseString(s, i, -1) == Ok(Meant(ps), i + |PiecesText(ps)| + 1)
  {
    PiecesRead(s, i, ps, -1);
    NothingBefore();
    hide EncodeUtf8;
    assert "" + Meant(ps) == Meant(ps);
  }

  // ----- how strings are printed -----

  // A short escape where there is one, and UTF-16 escapes in lower case only for the other
  // control characters and for the two separators that JavaScript does not allow in strings.
  predicate IsPrinted(p: Piece)
    requires IsPiece(p)
  {
    match p
    case Raw(_) => true
    case Short(c) => c != '/'
    case Unicode(hex) =>
      && (forall k :: 0 <= k < 4 ==> hex[k] in "0123456789abcdef")
      && (UnitOf(p) == 0x2028 || UnitOf(p) == 0x2029
          || (UnitOf(p) < 0x20 && UnitOf(p) !in {8, 9, 10, 12, 13}))
  }

  lemma PrintedByte(c: char) returns (p: Piece)
    ensures IsPiece(p) && IsPrinted(p) && PieceText(p) == EscapeByte(c)
  {
    hide HexDigit, UnitOf, IsHex;
    var e := EscapeByte(c);
    if |e| == 1 {
      p := Raw(c);
    } else if |e| == 2 {
      p := Short(e[1]);
      assert e == "\\" + [e[1]];
    } else {
      p := HexPiece(c as int);
      assert e == "\\u" + p.hex;
    }
  }

  lemma HexPiece(n: nat) returns (p: Piece)
    requires n < 0x20 && n !in {8, 9, 10, 12, 13}
    ensures p == Unicode(['0', '0', HexDigit(n / 16), HexDigit(n % 16)]) && IsPiece(p) && IsPrinted(p)
  {
    hide HexDigit, HexDigitValue, IsHex;
    p := Unicode(['0', '0', HexDigit(n / 16), HexDigit(n % 16)]);
    LowerDigit(0);
    LowerDigit(n / 16);
    LowerDigit(n % 16);
    assert UnitOf(p) == n;
  }

  lemma LowerDigit(d: nat)
    requires d < 16
    ensures IsHex(HexDigit(d)) && HexDigitValue(HexDigit(d)) == d && HexDigit(d) in "0123456789abcdef"
    ensures HexDigit(d) as int < 0x80 && HexDigit(0) == '0'
  {
    assert HexDigit(d) == "0123456789abcdef"[d];
  }

  lemma PrintedSeparator(last: char) returns (p: Piece)
    requires last == '8' || last == '9'
    ensures IsPiece(p) && IsPrinted(p) && PieceText(p) == "\\u202" + [last]
  {
    p := Unicode(['2', '0', '2', last]);
    var low := "0123456789abcdef";
    assert low[0] == '0' && low[2] == '2' && low[8] == '8' && low[9] == '9';
    assert HexDigitValue('2') == 2 && HexDigitValue('0') == 0 && HexDigitValue(last) == if last == '8' then 8 else 9;
    hide HexDigitValue;
    assert UnitOf(p) == if last == '8' then 0x2028 else 0x2029;
    assert "\\u" + p.hex == "\\u202" + [last];
  }

  lemma EscapesFirst(t: string)
    requires t != ""
    ensures Escape(t) == if IsSeparator(t) then (if t[2] as int == 0xa8 then "\\u2028" else "\\u2029") + Escape(t[3..])
      else EscapeByte(t[0]) + Escape(t[1..])
  {
  }

  // Every string is printed with the plainest pieces.
  lemma {:induction false} PrintedPieces(t: string) returns (ps: seq<Piece>)
    ensures ArePieces(ps) && PiecesText(ps) == Escape(t) && forall k :: 0 <= k < |ps| ==> IsPrinted(ps[k])
    decreases |t|
  {
    hide Escape, IsPrinted, IsPiece, EscapeByte, IsSeparator, PieceText;
    if t == "" {
      ps := [];
      NothingEscaped();
    } else {
      EscapesFirst(t);
      var p, rest;
      if IsSeparator(t) {
        LongSeparator(t);
        p := PrintedSeparator(if t[2] as int == 0xa8 then '8' else '9');
        rest := PrintedPieces(t[3..]);
      } else {
        p := PrintedByte(t[0]);
        rest := PrintedPieces(t[1..]);
      }
      ps := [p] + rest;
      assert ps[1..] == rest;
    }
  }

  lemma NothingEscaped()
    ensures Escape("") == ""
  {
  }

  lemma LongSeparator(t: string)
    requires IsSeparator(t)
    ensures |t| >= 3
  {
  }

  lemma RawFirst(t: string)
    requires Escape(t) != "" && Escape(t)[0] as int >= 0x80
    ensures t != "" && !IsSeparator(t) && Escape(t) == [t[0]] + Escape(t[1..])
  {
    hide Escape, EscapeByte;
    if t == "" {
      NothingEscaped();
    } else {
      EscapesFirst(t);
      EscapedByteIs(t[0]);
    }
  }

  // No separator is left in what is printed.
  lemma {:induction false} NoSeparatorIsPrinted(t: string, i: nat)
    requires i <= |Escape(t)|
    ensures !IsSeparator(Escape(t)[i..])
    decreases |t|
  {
    hide Escape, EscapeByte;
    if t == "" {
      NothingEscaped();
    } else {
      EscapesFirst(t);
      EscapedByteIs(t[0]);
      var n := if IsSeparator(t) then 6 else |EscapeByte(t[0])|;
      var rest := if IsSeparator(t) then t[3..] else t[1..];
      var e := Escape(t);
      if i >= n {
        NoSeparatorIsPrinted(rest, i - n);
        assert e[i..] == Escape(rest)[i - n..];
      } else if IsSeparator(e[i..]) {
        assert e[i] as int == 0xe2 && n == 1 && i == 0;
        NotInFront(t);
      }
    }
  }

  lemma EscapedByteIs(c: char)
    ensures EscapeByte(c) != ""
    ensures EscapeByte(c) == [c] || (forall k :: 0 <= k < |EscapeByte(c)| ==> EscapeByte(c)[k] as int < 0x80)
  {
    hide HexDigit, HexDigitValue, IsHex;
    if c as int <= 0x1f {
      LowerDigit(c as int / 16);
      LowerDigit(c as int % 16);
    }
  }

  lemma NotInFront(t: string)
    ensures !IsSeparator(Escape(t))
  {
    hide Escape;
    if IsSeparator(Escape(t)) {
      RawFirst(t);
      assert Escape(t)[1] == Escape(t[1..])[0];
      RawFirst(t[1..]);
      assert Escape(t)[2] == Escape(t[1..])[1] == Escape(t[1..][1..])[0];
      RawFirst(t[1..][1..]);
    }
  }

  // ----- numbers -----

  lemma DigitsAt(s: string, i: nat, t: string)
    requires StartsAt(s, i, t) && AreDigits(t) && !IsDigit(At(s, i + |t|))
    ensures i + |t| <= |s| && IsDigit(At(s, i)) && SkipDigits(s, i) == i + |t| && SkipDigits(s, i + 1) == i + |t|
    ensures forall k :: i <= k < i + |t| ==> IsDigit(s[k])
  {
    StartsAtChars(s, i, t);
    SkipDigitsTo(s, i, i + |t|);
    SkipDigitsTo(s, i + 1, i + |t|);
  }

  lemma FractionReads(s: string, i: nat, f: string)
    requires StartsAt(s, i, f) && (f == "" || (f[0] == '.' && AreDigits(f[1..])))
    requires !IsDigit(At(s, i + |f|)) && (f == "" ==> At(s, i) != '.')
    ensures i <= |s| && Fraction(s, i) == Ok(f != "", i + |f|)
  {
    StartsAtChars(s, i, f);
    if f != "" {
      assert f == "." + f[1..];
      StartsAtSplit(s, i, ".", f[1..]);
      DigitsAt(s, i + 1, f[1..]);
    }
  }

  lemma ExponentReads(s: string, i: nat, e: string)
    requires StartsAt(s, i, e)
    requires e == "" || (e[0] in {'e', 'E'}
      && (AreDigits(e[1..]) || (|e| > 1 && e[1] in {'+', '-'} && AreDigits(e[2..]))))
    requires !IsDigit(At(s, i + |e|)) && (e == "" ==> At(s, i) != 'e' && At(s, i) != 'E')
    ensures i <= |s| && Exponent(s, i) == Ok(e != "", i + |e|)
  {
    StartsAtChars(s, i, e);
    if e != "" {
      var k := if |e| > 1 && e[1] in {'+', '-'} then 2 else 1;
      assert e == e[..k] + e[k..];
      StartsAtSplit(s, i, e[..k], e[k..]);
      DigitsAt(s, i + k, e[k..]);
    }
  }

  // Where the parts of a number lie.
  lemma NumeralParts(s: string, i: nat, n: Numeral)
    requires StartsAt(s, i, NumeralText(n))
    ensures var j := if n.minus then i + 1 else i;
      var k := j + |n.whole|;
      && StartsAt(s, i, if n.minus then "-" else "") && StartsAt(s, j, n.whole)
      && StartsAt(s, k, n.fraction) && StartsAt(s, k + |n.fraction|, n.exponent)
      && |NumeralText(n)| == k - i + |n.fraction| + |n.exponent|
  {
    hide StartsAt;
    var minus := if n.minus then "-" else "";
    var j, k := i + |minus|, i + |minus| + |n.whole|;
    StartsAtSplit(s, i, minus, n.whole + (n.fraction + n.exponent));
    StartsAtSplit(s, j, n.whole, n.fraction + n.exponent);
    StartsAtSplit(s, k, n.fraction, n.exponent);
  }

  lemma NumeralReads(src: Source, i: nat, n: Numeral)
    requires IsNumeral(n) && StartsAt(src.text, i, NumeralText(n)) && EndsNumeral(At(src.text, i + |NumeralText(n)|))
    ensures i < |src.text|
    ensures ParseNumber(src, i) == Ok(NumeralValue(n, src.read(src.text[i..])), i + |NumeralText(n)|)
  {
    hide StartsAt, Fraction, Exponent, SkipDigits, ParseNumber, NumberTail, NumeralText, NumeralValue, AreDigits, EndsNumeral;
    var j := if n.minus then i + 1 else i;
    var k := j + |n.whole|;
    NumeralParts(src.text, i, n);
    AfterWhole(src.text, k, n);
    DigitsAt(src.text, j, n.whole);
    WholeAt(src.text, j, n.whole);
    MinusAt(src.text, i, n);
    TailReads(src, i, j, k, n);
    StartsWhole(src, i, n, j, k);
  }

  lemma MinusAt(s: string, i: nat, n: Numeral)
    requires IsNumeral(n) && StartsAt(s, i, if n.minus then "-" else "")
    requires StartsAt(s, if n.minus then i + 1 else i, n.whole)
    ensures i < |s| && (s[i] == '-' <==> n.minus)
    ensures var j := if n.minus then i + 1 else i; j < |s| && s[j] == n.whole[0]
  {
    StartsAtChars(s, i, if n.minus then "-" else "");
    StartsAtChars(s, if n.minus then i + 1 else i, n.whole);
  }

  lemma WholeAt(s: string, j: nat, t: string)
    requires StartsAt(s, j, t)
    ensures j + |t| <= |s| && s[j..j + |t|] == t
  {
  }

  // What comes behind the whole part.
  lemma AfterWhole(s: string, k: nat, n: Numeral)
    requires IsNumeral(n) && StartsAt(s, k, n.fraction) && StartsAt(s, k + |n.fraction|, n.exponent)
    requires EndsNumeral(At(s, k + |n.fraction| + |n.exponent|))
    ensures !IsDigit(At(s, k)) && (n.fraction == "" ==> At(s, k) != '.')
    ensures !IsDigit(At(s, k + |n.fraction|))
    ensures n.exponent == "" ==> At(s, k + |n.fraction|) != 'e' && At(s, k + |n.fraction|) != 'E'
    ensures At(s, k) == '.' || At(s, k) == 'e' || At(s, k) == 'E' <==> n.fraction != "" || n.exponent != ""
    ensures Fraction(s, k) == Ok(n.fraction != "", k + |n.fraction|)
    ensures var j := k + |n.fraction|; j <= |s| && Exponent(s, j) == Ok(n.exponent != "", j + |n.exponent|)
  {
    hide Fraction, Exponent, StartsAt, IsDigit;
    var j := k + |n.fraction|;
    PartAt(s, k, n.fraction);
    PartAt(s, j, n.exponent);
    LettersAreNoDigits(n);
    FractionReads(s, k, n.fraction);
    ExponentReads(s, j, n.exponent);
  }

  lemma PartAt(s: string, i: nat, t: string)
    requires StartsAt(s, i, t)
    ensures t != "" ==> At(s, i) == t[0]
  {
    StartsAtChars(s, i, t);
  }

  lemma LettersAreNoDigits(n: Numeral)
    ensures !IsDigit('.') && !IsDigit('e') && !IsDigit('E')
    ensures IsNumeral(n) && n.exponent != "" ==> n.exponent[0] == 'e' || n.exponent[0] == 'E'
  {
  }

  lemma TailReads(src: Source, i: nat, j: nat, k: nat, n: Numeral)
    requires IsNumeral(n) && i <= j < k <= |src.text| && j == (if n.minus then i + 1 else i)
    requires src.text[j..k] == n.whole && forall x :: j <= x < k ==> IsDigit(src.text[x])
    requires At(src.text, k) == '.' || At(src.text, k) == 'e' || At(src.text, k) == 'E' <==> n.fraction != "" || n.exponent != ""
    requires Fraction(src.text, k) == Ok(n.fraction != "", k + |n.fraction|)
    requires var m := k + |n.fraction|; m <= |src.text| && Exponent(src.text, m) == Ok(n.exponent != "", m + |n.exponent|)
    ensures NumberTail(src, i, j, k)
      == Ok(NumeralValue(n, src.read(src.text[i..])), k + |n.fraction| + |n.exponent|)
  {
    hide Fraction, Exponent, DigitsValue;
  }

  lemma StartsWhole(src: Source, i: nat, n: Numeral, j: nat, k: nat)
    requires IsNumeral(n) && i <= j < k <= |src.text| && j == (if n.minus then i + 1 else i) && (src.text[i] == '-' <==> n.minus)
    requires src.text[j] == n.whole[0] && k == j + |n.whole| && forall x :: j <= x < k ==> IsDigit(src.text[x])
    requires !IsDigit(At(src.text, k)) && SkipDigits(src.text, j + 1) == k
    ensures ParseNumber(src, i) == NumberTail(src, i, j, k)
  {
    hide NumberTail, SkipDigits;
  }

  lemma FractionAt(s: string, i: nat) returns (f: string)
    requires i <= |s| && Fraction(s, i).Ok?
    ensures StartsAt(s, i, f) && Fraction(s, i).next == i + |f| && (f == "" || (f[0] == '.' && AreDigits(f[1..])))
    ensures f == "" <==> At(s, i) != '.'
  {
    f := s[i..Fraction(s, i).next];
  }

  lemma ExponentAt(s: string, i: nat) returns (e: string)
    requires i <= |s| && Exponent(s, i).Ok?
    ensures StartsAt(s, i, e) && Exponent(s, i).next == i + |e|
    ensures e == "" || (e[0] in {'e', 'E'}
      && (AreDigits(e[1..]) || (|e| > 1 && e[1] in {'+', '-'} && AreDigits(e[2..]))))
    ensures e == "" <==> At(s, i) != 'e' && At(s, i) != 'E'
  {
    e := s[i..Exponent(s, i).next];
  }

  // Whatever is read as a number is one.
  lemma NumeralOf(src: Source, i: nat) returns (n: Numeral)
    requires i < |src.text| && ParseNumber(src, i).Ok?
    ensures IsNumeral(n) && StartsAt(src.text, i, NumeralText(n))
    ensures ParseNumber(src, i) == Ok(NumeralValue(n, src.read(src.text[i..])), i + |NumeralText(n)|)
  {
    hide Fraction, Exponent, NumberTail, StartsAt, AreDigits, ParseNumber, NumeralText, NumeralValue;
    var s := src.text;
    var minus := s[i] == '-';
    var j := if minus then i + 1 else i;
    var k := WholeOf(src, i, j);
    var f, e := TailOf(src, i, j, k);
    n := Numeral(minus, s[j..k], f, e);
    Slice(s, j, k);
    NumeralStarts(s, i, n);
    TailReads(src, i, j, k, n);
  }

  lemma NumeralStarts(s: string, i: nat, n: Numeral)
    requires i < |s| && (s[i] == '-' <==> n.minus)
    requires var j := if n.minus then i + 1 else i;
      var k := j + |n.whole|;
      StartsAt(s, j, n.whole) && StartsAt(s, k, n.fraction) && StartsAt(s, k + |n.fraction|, n.exponent)
    ensures StartsAt(s, i, NumeralText(n))
    ensures |NumeralText(n)| == (if n.minus then 1 else 0) + |n.whole| + |n.fraction| + |n.exponent|
  {
    var minus := if n.minus then "-" else "";
    assert StartsAt(s, i, minus) by {
      assert s[i..i + |minus|] == minus;
    }
    hide StartsAt;
    var j := i + |minus|;
    StartsJoin(s, j + |n.whole|, n.fraction, n.exponent);
    StartsJoin(s, j, n.whole, n.fraction + n.exponent);
    StartsJoin(s, i, minus, n.whole + (n.fraction + n.exponent));
  }

  lemma Slice(s: string, i: nat, j: nat)
    requires i <= j <= |s|
    ensures StartsAt(s, i, s[i..j])
  {
  }

  lemma WholeOf(src: Source, i: nat, j: nat) returns (k: nat)
    requires i < |src.text| && ParseNumber(src, i).Ok? && j == (if src.text[i] == '-' then i + 1 else i)
    ensures j < k <= |src.text| && AreDigits(src.text[j..k]) && (src.text[j] == '0' ==> k == j + 1)
    ensures forall x :: j <= x < k ==> IsDigit(src.text[x])
    ensures ParseNumber(src, i) == NumberTail(src, i, j, k)
  {
    hide NumberTail;
    k := if At(src.text, j) == '0' then j + 1 else SkipDigits(src.text, j + 1);
  }

  lemma TailOf(src: Source, i: nat, j: nat, k: nat) returns (f: string, e: string)
    requires i <= j < k <= |src.text| && j <= i + 1 && NumberTailOk(src, i, j, k)
    ensures StartsAt(src.text, k, f) && (f == "" || (f[0] == '.' && AreDigits(f[1..])))
    ensures StartsAt(src.text, k + |f|, e)
    ensures e == "" || (e[0] in {'e', 'E'}
      && (AreDigits(e[1..]) || (|e| > 1 && e[1] in {'+', '-'} && AreDigits(e[2..]))))
    ensures At(src.text, k) == '.' || At(src.text, k) == 'e' || At(src.text, k) == 'E' <==> f != "" || e != ""
    ensures Fraction(src.text, k) == Ok(f != "", k + |f|)
    ensures var m := k + |f|; m <= |src.text| && Exponent(src.text, m) == Ok(e != "", m + |e|)
  {
    hide NumberTail, Fraction, Exponent, AreDigits, StartsAt;
    TailIsOk(src, i, j, k);
    f := FractionAt(src.text, k);
    e := ExponentAt(src.text, k + |f|);
    FractionIs(src.text, k);
    ExponentIs(src.text, k + |f|);
  }

  lemma TailIsOk(src: Source, i: nat, j: nat, k: nat)
    requires i <= j < k <= |src.text| && j <= i + 1 && NumberTailOk(src, i, j, k)
    ensures Fraction(src.text, k).Ok? && Exponent(src.text, Fraction(src.text, k).next).Ok?
  {
    hide SkipDigits, DigitsValue;
  }

  lemma FractionIs(s: string, i: nat)
    requires i <= |s| && Fraction(s, i).Ok?
    ensures Fraction(s, i).value == (At(s, i) == '.')
  {
    hide SkipDigits;
  }

  lemma ExponentIs(s: string, i: nat)
    requires i <= |s| && Exponent(s, i).Ok?
    ensures Exponent(s, i).value == (At(s, i) == 'e' || At(s, i) == 'E')
  {
    hide SkipDigits;
  }

  predicate NumberTailOk(src: Source, i: nat, j: nat, k: nat)
    requires i <= j < k <= |src.text| && j <= i + 1
  {
    (forall x :: j <= x < k ==> IsDigit(src.text[x])) && NumberTail(src, i, j, k).Ok?
  }
}

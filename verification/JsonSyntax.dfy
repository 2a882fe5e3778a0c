// The texts of JSON as RFC 8259 has them, told from the side of the writer: a tree with all
// that its author may choose, its text, and the value it stands for.
module JsonSyntax {
  import opened JsonValue
  import opened JsonGrammar

  // ----- what may stand between tokens (section 2) -----

  datatype Blank = Blank(c: char) | Line(body: string) | Block(body: string)

  type Gap = seq<Blank>

  function BlankText(b: Blank): string {
    match b
    case Blank(c) => [c]
    case Line(body) => "//" + body
    case Block(body) => "/*" + body + "*/"
  }

  function GapText(g: Gap): string {
    if g == [] then "" else BlankText(g[0]) + GapText(g[1..])
  }

  // The four characters of white space, and comments if the parser knows them: to the end of
  // the line, or up to the first closing mark.
  predicate IsBlank(b: Blank, strategy: Strategy) {
    match b
    case Blank(c) => c in {' ', '\t', '\n', '\r'}
    case Line(body) => strategy.Comments? && '\n' !in body
    case Block(body) => strategy.Comments? && ClosesAt(body + "*/", |body|)
  }

  predicate ClosesAt(s: string, n: nat) {
    forall k :: 0 <= k < n && k + 1 < |s| ==> !(s[k] == '*' && s[k + 1] == '/')
  }

  // A comment to the end of the line has one behind it, but for the last of a text.
  predicate IsGap(g: Gap, strategy: Strategy, last: bool) {
    g == [] || (
      && IsBlank(g[0], strategy)
      && (g[0].Line? ==> if |g| > 1 then g[1] == Blank('\n') else last)
      && IsGap(g[1..], strategy, last))
  }

  // ----- strings (section 7) -----

  datatype Piece = Raw(c: char) | Short(c: char) | Unicode(hex: string)

  function PieceText(p: Piece): string {
    match p
    case Raw(c) => [c]
    case Short(c) => "\\" + [c]
    case Unicode(hex) => "\\u" + hex
  }

  function PiecesText(ps: seq<Piece>): string {
    if ps == [] then "" else PieceText(ps[0]) + PiecesText(ps[1..])
  }

  predicate IsPiece(p: Piece) {
    match p
    case Raw(c) => c as int > 0x1f && c != '"' && c != '\\'
    case Short(c) => c in {'"', '\\', '/', 'b', 'f', 'n', 'r', 't'}
    case Unicode(hex) => |hex| == 4 && forall k :: 0 <= k < 4 ==> IsHex(hex[k])
  }

  predicate ArePieces(ps: seq<Piece>) {
    forall k :: 0 <= k < |ps| ==> IsPiece(ps[k])
  }

  function UnitOf(p: Piece): (u: int)
    requires IsPiece(p)
    ensures -1 <= u < 0x1_0000
  {
    if !p.Unicode? then -1
    else
      0x1000 * HexDigitValue(p.hex[0]) + 0x100 * HexDigitValue(p.hex[1]) + 0x10 * HexDigitValue(p.hex[2])
      + HexDigitValue(p.hex[3])
  }

  // What one piece stands for, alone.
  function One(p: Piece): string
    requires IsPiece(p)
  {
    match p
    case Raw(c) => [c]
    case Short(c) =>
      if c == 'b' then [8 as char] else if c == 'f' then [12 as char] else if c == 'n' then [10 as char]
      else if c == 'r' then [13 as char] else if c == 't' then [9 as char] else [c]
    case Unicode(_) => EncodeUtf8(UnitOf(p))
  }

  // A lead with the trail behind it is one code point, and all else is its own.
  function Meant(ps: seq<Piece>): string
    requires ArePieces(ps)
    decreases |ps|
  {
    if ps == [] then ""
    else if |ps| > 1 && IsLead(UnitOf(ps[0])) && IsTrail(UnitOf(ps[1])) then
      EncodeUtf8(Combine(UnitOf(ps[0]), UnitOf(ps[1]))) + Meant(ps[2..])
    else One(ps[0]) + Meant(ps[1..])
  }

  // ----- numbers (section 6) -----

  predicate AreDigits(t: string) {
    t != "" && forall k :: 0 <= k < |t| ==> '0' <= t[k] <= '9'
  }

  // Minus, whole part, fraction with its point, exponent with its letter and sign.
  datatype Numeral = Numeral(minus: bool, whole: string, fraction: string, exponent: string)

  predicate IsNumeral(n: Numeral) {
    && AreDigits(n.whole) && (n.whole[0] == '0' ==> |n.whole| == 1)
    && (n.fraction == "" || (n.fraction[0] == '.' && AreDigits(n.fraction[1..])))
    && (n.exponent == ""
        || (n.exponent[0] in {'e', 'E'}
            && (AreDigits(n.exponent[1..])
                || (|n.exponent| > 1 && n.exponent[1] in {'+', '-'} && AreDigits(n.exponent[2..])))))
  }

  function NumeralText(n: Numeral): string {
    (if n.minus then "-" else "") + (n.whole + (n.fraction + n.exponent))
  }

  // Nine characters at most, without fraction and exponent, are an int; all else is what the
  // conversion reads from the text.
  function NumeralValue(n: Numeral, read: real): Json
    requires IsNumeral(n)
  {
    if n.fraction == "" && n.exponent == "" && |NumeralText(n)| <= 9 then
      var d: int := DigitsValue(n.whole);
      Int(if n.minus then -d else d)
    else Double(read)
  }

  // What may follow a number.
  predicate EndsNumeral(c: char) {
    !IsDigit(c) && c != '.' && c != 'e' && c != 'E'
  }

  // ----- values (sections 3 to 5) -----

  datatype Syntax =
    | Literal(text: string)
    | Number(n: Numeral)
    | Quoted(ps: seq<Piece>)
    | Array(elements: seq<Element>, inside: Gap)
    | Object(members: seq<Member>, inside: Gap)

  datatype Element = Element(before: Gap, v: Syntax, after: Gap)

  datatype Member = Member(before: Gap, key: seq<Piece>, colon: Gap, value: Gap, v: Syntax, after: Gap)

  function Text(s: Syntax): string
    decreases s, 0
  {
    match s
    case Literal(t) => t
    case Number(n) => NumeralText(n)
    case Quoted(ps) => "\"" + (PiecesText(ps) + "\"")
    case Array(es, g) => "[" + (if es == [] then GapText(g) + "]" else GapText(es[0].before) + ElementsText(es))
    case Object(ms, g) => "{" + (if ms == [] then GapText(g) + "}" else GapText(ms[0].before) + MembersText(ms))
  }

  // The elements from the first value on, with the closing bracket.
  function ElementsText(es: seq<Element>): string
    requires es != []
    decreases es, 0
  {
    Text(es[0].v) + (GapText(es[0].after)
      + if |es| == 1 then "]" else "," + (GapText(es[1].before) + ElementsText(es[1..])))
  }

  // The members from the first key on, with the closing bracket.
  function MembersText(ms: seq<Member>): string
    requires ms != []
    decreases ms, 0
  {
    "\"" + (PiecesText(ms[0].key) + ("\"" + (GapText(ms[0].colon) + (":" + (GapText(ms[0].value)
      + (Text(ms[0].v) + (GapText(ms[0].after)
         + if |ms| == 1 then "}" else "," + (GapText(ms[1].before) + MembersText(ms[1..])))))))))
  }

  predicate IsSyntax(s: Syntax, strategy: Strategy)
    decreases s
  {
    match s
    case Literal(t) => t in {"null", "true", "false"}
    case Number(n) => IsNumeral(n)
    case Quoted(ps) => ArePieces(ps)
    case Array(es, g) =>
      IsGap(g, strategy, false)
      && forall k :: 0 <= k < |es| ==>
           IsGap(es[k].before, strategy, false) && IsSyntax(es[k].v, strategy) && IsGap(es[k].after, strategy, false)
    case Object(ms, g) =>
      IsGap(g, strategy, false)
      && forall k :: 0 <= k < |ms| ==>
           && IsGap(ms[k].before, strategy, false) && ArePieces(ms[k].key) && IsGap(ms[k].colon, strategy, false)
           && IsGap(ms[k].value, strategy, false) && IsSyntax(ms[k].v, strategy) && IsGap(ms[k].after, strategy, false)
  }

  // No node lies more than `room` levels below.
  predicate IsShallow(s: Syntax, room: int)
    decreases s
  {
    && room >= 0
    && match s
       case Array(es, _) => forall k :: 0 <= k < |es| ==> IsShallow(es[k].v, room - 1)
       case Object(ms, _) => forall k :: 0 <= k < |ms| ==> IsShallow(ms[k].v, room - 1)
       case _ => true
  }

  // The value of a tree whose text is at i. Of members of one name the last one counts.
  function Meaning(src: Source, i: nat, s: Syntax): Json
    requires IsSyntax(s, src.strategy)
    decreases s, 0
  {
    match s
    case Literal(t) => if t == "null" then Null else Bool(t == "true")
    case Number(n) => NumeralValue(n, src.read(if i <= |src.text| then src.text[i..] else ""))
    case Quoted(ps) => Str(Meant(ps))
    case Array(es, _) => Arr(if es == [] then [] else ElementsMeaning(src, i + 1 + |GapText(es[0].before)|, es))
    case Object(ms, _) => Obj(if ms == [] then [] else MembersMeaning(src, i + 1 + |GapText(ms[0].before)|, ms, []))
  }

  function ElementsMeaning(src: Source, i: nat, es: seq<Element>): seq<Json>
    requires es != [] && forall k :: 0 <= k < |es| ==> IsSyntax(es[k].v, src.strategy)
    decreases es, 0
  {
    [Meaning(src, i, es[0].v)]
    + if |es| == 1 then []
      else ElementsMeaning(src, i + |Text(es[0].v)| + |GapText(es[0].after)| + 1 + |GapText(es[1].before)|, es[1..])
  }

  function ValueAt(i: nat, m: Member): nat {
    i + 1 + |PiecesText(m.key)| + 1 + |GapText(m.colon)| + 1 + |GapText(m.value)|
  }

  function MembersMeaning(src: Source, i: nat, ms: seq<Member>, data: seq<Field>): (r: seq<Field>)
    requires ms != [] && Sorted(data)
    requires forall k :: 0 <= k < |ms| ==> ArePieces(ms[k].key) && IsSyntax(ms[k].v, src.strategy)
    ensures Sorted(r)
    decreases ms, 0
  {
    var at := ValueAt(i, ms[0]);
    var data' := Insert(data, Meant(ms[0].key), Meaning(src, at, ms[0].v));
    if |ms| == 1 then data'
    else MembersMeaning(src, at + |Text(ms[0].v)| + |GapText(ms[0].after)| + 1 + |GapText(ms[1].before)|, ms[1..], data')
  }

  // ----- gaps are skipped, and what is skipped is a gap -----

  // Neither white space nor, where comments are known, the start of one.
  predicate EndsGap(src: Source, i: nat) {
    !IsSpace(At(src.text, i)) && (src.strategy.Comments? ==> At(src.text, i) != '/')
  }

  lemma SkipBlank(src: Source, i: nat)
    requires i < |src.text| && IsSpace(src.text[i])
    ensures SkipGarbage(src, i) == SkipGarbage(src, i + 1)
  {
  }

  lemma SkipOneComment(src: Source, i: nat, next: nat)
    requires i < |src.text| && src.strategy.Comments? && src.text[i] == '/'
    requires i < next <= |src.text| && SkipComment(src.text, i) == Ok(true, next)
    ensures SkipGarbage(src, i) == SkipGarbage(src, next)
  {
  }

  lemma SkipNothing(src: Source, i: nat)
    requires i <= |src.text| && EndsGap(src, i)
    ensures SkipGarbage(src, i) == Ok(false, i)
  {
    assert SkipSpace(src.text, i) == i;
    assert src.strategy.Comments? ==> SkipComment(src.text, i) == Ok(false, i);
  }

  lemma {:induction false} LineEndsAt(s: string, i: nat, j: nat)
    requires i <= j <= |s| && '\n' !in s[i..j] && (j == |s| || s[j] == '\n')
    ensures SkipLine(s, i) == j
    decreases j - i
  {
    if i < j {
      assert s[i] == s[i..j][0];
      assert s[i + 1..j] == s[i..j][1..];
      LineEndsAt(s, i + 1, j);
    }
  }

  lemma {:induction false} BlockEndsAt(s: string, i: nat, j: nat)
    requires 2 <= i <= j && j + 2 <= |s| && s[j] == '*' && s[j + 1] == '/'
    requires forall k :: i <= k < j ==> !(s[k] == '*' && s[k + 1] == '/')
    ensures SkipBlock(s, i) == Ok(true, j + 2)
    decreases j - i
  {
    if i < j {
      BlockEndsAt(s, i + 1, j);
    }
  }

  // The first piece of a gap is skipped.
  lemma BlankSkips(src: Source, i: nat, b: Blank, rest: string)
    requires IsBlank(b, src.strategy) && StartsAt(src.text, i, BlankText(b) + rest)
    requires b.Line? ==> i + |BlankText(b)| == |src.text| || (rest != "" && rest[0] == '\n')
    ensures var j := i + |BlankText(b)|; j <= |src.text| && SkipGarbage(src, i) == SkipGarbage(src, j)
  {
    var s, j := src.text, i + |BlankText(b)|;
    StartsAtSplit(s, i, BlankText(b), rest);
    StartsAtChars(s, i, BlankText(b));
    hide SkipGarbage, SkipSpace, StartsAt;
    match b
    case Blank(c) => SkipBlank(src, i);
    case Line(body) =>
      assert s[i] == '/' && s[i + 1] == '/';
      assert s[i + 2..j] == body by { assert StartsAt(s, i, "//" + body); TextAt(s, i, "//", body); }
      if rest != "" { StartsAtChar(s, j, rest, 0); }
      LineEndsAt(s, i + 2, j);
      SkipOneComment(src, i, j);
    case Block(body) =>
      BlockSkips(s, i, body);
      SkipOneComment(src, i, j);
  }

  lemma TextAt(s: string, i: nat, a: string, b: string)
    requires StartsAt(s, i, a + b)
    ensures i + |a| + |b| <= |s| && s[i + |a|..i + |a| + |b|] == b
  {
    StartsAtSplit(s, i, a, b);
  }

  lemma BlockSkips(s: string, i: nat, body: string)
    requires StartsAt(s, i, "/*" + body + "*/") && ClosesAt(body + "*/", |body|)
    ensures i < |s| && s[i] == '/' && SkipComment(s, i) == Ok(true, i + |body| + 4)
  {
    var t := "/*" + body + "*/";
    StartsAtChars(s, i, t);
    var j := i + 2 + |body|;
    assert s[i] == t[0] && s[i + 1] == t[1] && s[j] == t[2 + |body|] && s[j + 1] == t[3 + |body|];
    forall k | i + 2 <= k < j ensures !(s[k] == '*' && s[k + 1] == '/') {
      var b := body + "*/";
      assert s[k] == t[k - i] == b[k - i - 2] && s[k + 1] == t[k + 1 - i] == b[k - i - 1];
    }
    BlockEndsAt(s, i + 2, j);
  }

  lemma GapCons(b: Blank, g: Gap, strategy: Strategy, last: bool)
    requires IsBlank(b, strategy) && IsGap(g, strategy, last)
    requires b.Line? ==> if g != [] then g[0] == Blank('\n') else last
    ensures IsGap([b] + g, strategy, last)
  {
    hide IsBlank;
    assert ([b] + g)[1..] == g;
  }

  lemma {:induction false} GapSkips(src: Source, i: nat, g: Gap)
    requires StartsAt(src.text, i, GapText(g)) && IsGap(g, src.strategy, i + |GapText(g)| == |src.text|)
    ensures var j := i + |GapText(g)|; j <= |src.text| && SkipGarbage(src, i) == SkipGarbage(src, j)
    decreases |g|
  {
    hide SkipGarbage, IsBlank, BlankText, StartsAt;
    StartsAtChars(src.text, i, GapText(g));
    if g != [] {
      var b, rest := g[0], g[1..];
      var j := i + |BlankText(b)|;
      assert GapText(g) == BlankText(b) + GapText(rest) && (rest == [] ==> GapText(rest) == "");
      StartsAtSplit(src.text, i, BlankText(b), GapText(rest));
      if b.Line? && rest != [] {
        NewlineFirst(rest);
      }
      BlankSkips(src, i, b, GapText(rest));
      GapSkips(src, j, rest);
    }
  }

  lemma NewlineFirst(g: Gap)
    requires g != [] && g[0] == Blank('\n')
    ensures GapText(g) != "" && GapText(g)[0] == '\n'
  {
  }

  // ----- what is skipped is a gap -----

  lemma {:induction false} LineStops(s: string, i: nat)
    requires i <= |s|
    ensures var j := SkipLine(s, i); '\n' !in s[i..j] && (j == |s| || s[j] == '\n')
    decreases |s| - i
  {
    if i < |s| && s[i] != '\n' {
      LineStops(s, i + 1);
      var j := SkipLine(s, i + 1);
      assert s[i..j] == [s[i]] + s[i + 1..j];
    }
  }

  lemma {:induction false} BlockStops(s: string, i: nat)
    requires 2 <= i <= |s| && SkipBlock(s, i).Ok?
    ensures var j := SkipBlock(s, i).next - 2;
      && i <= j && j + 2 <= |s| && s[j] == '*' && s[j + 1] == '/' && SkipBlock(s, i).value
      && forall k :: i <= k < j ==> !(s[k] == '*' && s[k + 1] == '/')
    decreases |s| - i
  {
    if !(s[i] == '*' && s[i + 1] == '/') {
      BlockStops(s, i + 1);
    }
  }

  // What the first step of skipping skips, if it skips anything.
  lemma SkippedFirst(src: Source, i: nat) returns (b: Blank)
    requires i <= |src.text| && SkipGarbage(src, i).Ok? && !EndsGap(src, i)
    ensures IsBlank(b, src.strategy) && StartsAt(src.text, i, BlankText(b)) && BlankText(b) != ""
    ensures var j := i + |BlankText(b)|;
      && SkipGarbage(src, i) == SkipGarbage(src, j)
      && (b.Line? ==> j == |src.text| || src.text[j] == '\n')
  {
    hide SkipGarbage, SkipComment, IsBlank, StartsAt;
    if IsSpace(At(src.text, i)) {
      b := BlankAt(src.text, i, src.strategy);
      SkipBlank(src, i);
    } else {
      SkipsComment(src, i);
      b := CommentAt(src.text, i);
      SkipOneComment(src, i, i + |BlankText(b)|);
    }
  }

  lemma BlankAt(s: string, i: nat, strategy: Strategy) returns (b: Blank)
    requires i < |s| && IsSpace(s[i])
    ensures b == Blank(s[i]) && IsBlank(b, strategy) && StartsAt(s, i, BlankText(b)) && |BlankText(b)| == 1
  {
    b := Blank(s[i]);
  }

  lemma SkipsComment(src: Source, i: nat)
    requires i < |src.text| && src.strategy.Comments? && src.text[i] == '/' && SkipGarbage(src, i).Ok?
    ensures SkipComment(src.text, i).Ok?
  {
    assert SkipSpace(src.text, i) == i;
  }

  lemma CommentAt(s: string, i: nat) returns (b: Blank)
    requires i < |s| && s[i] == '/' && SkipComment(s, i).Ok?
    ensures IsBlank(b, Comments) && StartsAt(s, i, BlankText(b)) && |BlankText(b)| > 1
    ensures var j := i + |BlankText(b)|;
      && j <= |s| && SkipComment(s, i) == Ok(true, j)
      && (b.Line? ==> j == |s| || s[j] == '\n')
  {
    hide SkipLine, SkipBlock, IsBlank, StartsAt;
    if s[i + 1] == '/' {
      b := LineAt(s, i);
    } else {
      b := BlockAt(s, i);
      BlockStops(s, i + 2);
    }
  }

  lemma LineAt(s: string, i: nat) returns (b: Blank)
    requires i + 1 < |s| && s[i] == '/' && s[i + 1] == '/'
    ensures b.Line? && IsBlank(b, Comments) && StartsAt(s, i, BlankText(b))
    ensures i + |BlankText(b)| == SkipLine(s, i + 2)
    ensures SkipLine(s, i + 2) == |s| || s[SkipLine(s, i + 2)] == '\n'
  {
    var j := SkipLine(s, i + 2);
    LineStops(s, i + 2);
    b := Line(s[i + 2..j]);
    assert s[i..j] == "//" + s[i + 2..j];
  }

  lemma BlockAt(s: string, i: nat) returns (b: Blank)
    requires i + 1 < |s| && s[i] == '/' && s[i + 1] == '*' && SkipBlock(s, i + 2).Ok?
    ensures b.Block? && IsBlank(b, Comments) && StartsAt(s, i, BlankText(b))
    ensures i + |BlankText(b)| == SkipBlock(s, i + 2).next
  {
    var j := SkipBlock(s, i + 2).next - 2;
    BlockStops(s, i + 2);
    var body := s[i + 2..j];
    b := Block(body);
    assert s[i..j + 2] == "/*" + body + "*/";
    forall k | 0 <= k < |body| && k + 1 < |body + "*/"|
      ensures !((body + "*/")[k] == '*' && (body + "*/")[k + 1] == '/')
    {
      assert (body + "*/")[k] == s[i + 2 + k] && (body + "*/")[k + 1] == s[i + 3 + k];
    }
  }

  // Skipping always skips a gap.
  lemma {:induction false} SkippedGap(src: Source, i: nat) returns (g: Gap)
    requires i <= |src.text| && SkipGarbage(src, i).Ok?
    ensures var j := SkipGarbage(src, i).next;
      && StartsAt(src.text, i, GapText(g)) && j == i + |GapText(g)| && EndsGap(src, j)
      && IsGap(g, src.strategy, j == |src.text|)
    decreases |src.text| - i
  {
    hide SkipGarbage, IsBlank, BlankText, EndsGap, StartsAt;
    if EndsGap(src, i) {
      SkipNothing(src, i);
      g := [];
      StartsEmpty(src.text, i);
      NoGap(src.strategy, i == |src.text|);
    } else {
      var b := SkippedFirst(src, i);
      var j := i + |BlankText(b)|;
      StartsAtChars(src.text, i, BlankText(b));
      var rest := SkippedGap(src, j);
      g := [b] + rest;
      assert g[1..] == rest;
      StartsJoin(src.text, i, BlankText(b), GapText(rest));
      StartsAtChars(src.text, j, GapText(rest));
      EmptyGap(rest);
      NoNewlineAtEnd(src, SkipGarbage(src, i).next);
      if b.Line? && rest != [] {
        FirstIsNewline(src, j, rest);
      }
      GapCons(b, rest, src.strategy, SkipGarbage(src, i).next == |src.text|);
    }
  }

  lemma FirstIsNewline(src: Source, j: nat, g: Gap)
    requires g != [] && IsBlank(g[0], src.strategy) && StartsAt(src.text, j, GapText(g)) && j < |src.text| && src.text[j] == '\n'
    ensures g[0] == Blank('\n')
  {
    StartsAtChar(src.text, j, GapText(g), 0);
  }

  lemma NoNewlineAtEnd(src: Source, i: nat)
    ensures EndsGap(src, i) && i < |src.text| ==> src.text[i] != '\n'
  {
  }

  lemma NoGap(strategy: Strategy, last: bool)
    ensures IsGap([], strategy, last) && GapText([]) == ""
  {
  }

  lemma EmptyGap(g: Gap)
    ensures GapText(g) == "" <==> g == []
  {
  }

  lemma StartsEmpty(s: string, i: nat)
    requires i <= |s|
    ensures StartsAt(s, i, "")
  {
  }

  lemma StartsJoin(s: string, i: nat, a: string, b: string)
    requires StartsAt(s, i, a) && StartsAt(s, i + |a|, b)
    ensures StartsAt(s, i, a + b)
  {
    assert s[i..i + |a + b|] == s[i..i + |a|] + s[i + |a|..i + |a| + |b|];
  }
}

// The parser accepts just the texts of syntax trees that are not too deep, whatever stands
// between their tokens, and gives what these mean.
module JsonLanguage {
  import opened JsonValue
  import opened JsonGrammar
  import opened JsonSyntax
  import opened JsonTokens

  // ----- tokens behind gaps -----

  lemma TokenBehind(src: Source, i: nat, g: Gap)
    requires StartsAt(src.text, i, GapText(g)) && IsGap(g, src.strategy, false)
    requires var j := i + |GapText(g)|; j < |src.text| && EndsGap(src, j)
    ensures var j := i + |GapText(g)|;
      i <= j && NextToken(src, i) == Ok(src.text[j], j + 1) && NextToken(src, j) == Ok(src.text[j], j + 1)
  {
    hide SkipGarbage, EndsGap;
    GapSkips(src, i, g);
    SkipNothing(src, i + |GapText(g)|);
  }

  lemma TokenOf(src: Source, i: nat) returns (g: Gap)
    requires i <= |src.text| && NextToken(src, i).Ok?
    ensures StartsAt(src.text, i, GapText(g)) && IsGap(g, src.strategy, false)
    ensures var j := i + |GapText(g)|;
      j < |src.text| && EndsGap(src, j)
      && NextToken(src, i) == Ok(src.text[j], j + 1) && NextToken(src, j) == Ok(src.text[j], j + 1)
  {
    hide SkipGarbage, EndsGap;
    g := SkippedGap(src, i);
    SkipNothing(src, i + |GapText(g)|);
  }

  lemma ValueFromToken(src: Source, i: nat, j: nat, depth: nat)
    requires i <= |src.text| && j <= |src.text| && NextToken(src, i) == NextToken(src, j)
    ensures Value(src, i, depth) == Value(src, j, depth)
  {
    hide NextToken, ValueFrom;
  }

  lemma FirstOfGap(g: Gap, strategy: Strategy, last: bool)
    requires IsGap(g, strategy, last) && g != []
    ensures GapText(g) != "" && (IsSpace(GapText(g)[0]) || (strategy.Comments? && GapText(g)[0] == '/'))
  {
  }

  lemma GapStarts(src: Source, i: nat, g: Gap)
    requires StartsAt(src.text, i, GapText(g)) && IsGap(g, src.strategy, false)
    ensures g != [] ==> !EndsGap(src, i)
  {
    if g != [] {
      FirstOfGap(g, src.strategy, false);
      StartsAtChar(src.text, i, GapText(g), 0);
    }
  }

  // A number ends before a gap if it ends before what is behind it.
  lemma EndsBeforeGap(src: Source, i: nat, g: Gap, last: bool)
    requires StartsAt(src.text, i, GapText(g)) && IsGap(g, src.strategy, last)
    requires EndsNumeral(At(src.text, i + |GapText(g)|))
    ensures EndsNumeral(At(src.text, i))
  {
    if g != [] {
      FirstOfGap(g, src.strategy, last);
      StartsAtChar(src.text, i, GapText(g), 0);
    }
  }

  // What a value starts with.
  lemma FirstOf(s: Syntax, strategy: Strategy)
    requires IsSyntax(s, strategy)
    ensures var t := Text(s); t != "" && !IsSpace(t[0]) && t[0] != '/' && t[0] != ']' && t[0] != '}'
    ensures s.Number? ==> Text(s)[0] == '-' || IsDigit(Text(s)[0])
    ensures s.Quoted? ==> Text(s)[0] == '"'
    ensures s.Array? ==> Text(s)[0] == '['
    ensures s.Object? ==> Text(s)[0] == '{'
  {
    hide PiecesText, GapText, ElementsText, MembersText;
    if s.Number? {
      assert NumeralText(s.n)[0] == if s.n.minus then '-' else s.n.whole[0];
    }
  }

  lemma ValueStarts(src: Source, i: nat, s: Syntax)
    requires IsSyntax(s, src.strategy) && StartsAt(src.text, i, Text(s))
    ensures i < |src.text| && src.text[i] == Text(s)[0] && EndsGap(src, i)
    ensures NextToken(src, i) == Ok(src.text[i], i + 1)
    ensures src.text[i] != ']' && src.text[i] != '}'
  {
    hide Text, IsSyntax, SkipGarbage;
    FirstOf(s, src.strategy);
    StartsAtChar(src.text, i, Text(s), 0);
    SkipNothing(src, i);
  }

  // ----- the parser one step at a time -----

  lemma PlainCases(src: Source, i: nat, ch: char, depth: nat)
    requires i < |src.text| && depth <= MAX_DEPTH && NextToken(src, i) == Ok(ch, i + 1)
    ensures IsDigit(ch) || ch == '-' ==> Value(src, i, depth) == ParseNumber(src, i)
    ensures ch == 't' ==> Value(src, i, depth) == Expect(src.text, i, "true", Bool(true))
    ensures ch == 'f' ==> Value(src, i, depth) == Expect(src.text, i, "false", Bool(false))
    ensures ch == 'n' ==> Value(src, i, depth) == Expect(src.text, i, "null", Null)
    ensures ch == '"' ==> var q := ParseString(src.text, i + 1, -1);
      Value(src, i, depth) == if q.Fail? then Fail(q.error) else Ok(Str(q.value), q.next)
    ensures Value(src, i, depth).Ok? ==>
      IsDigit(ch) || ch == '-' || ch == 't' || ch == 'f' || ch == 'n' || ch == '"' || ch == '{' || ch == '['
  {
    hide ParseNumber, ParseString, NextToken, Members, Elements, Expect;
    assert Value(src, i, depth) == ValueFrom(src, Ok(ch, i + 1), depth);
  }

  function InBrackets(src: Source, u: Parsed<char>, depth: nat): Parsed<Json>
    requires u.Ok? ==> 0 < u.next <= |src.text|
    requires depth <= MAX_DEPTH
  {
    if u.Fail? then Fail(u.error) else if u.value == ']' then Ok(Arr([]), u.next)
    else Elements(src, u.next - 1, depth, [])
  }

  function InBraces(src: Source, u: Parsed<char>, depth: nat): Parsed<Json>
    requires u.Ok? ==> 0 < u.next <= |src.text|
    requires depth <= MAX_DEPTH
  {
    if u.Fail? then Fail(u.error) else if u.value == '}' then Ok(Obj([]), u.next)
    else Members(src, u.next, u.value, depth, [])
  }

  lemma BracketCases(src: Source, i: nat, ch: char, depth: nat)
    requires i < |src.text| && depth <= MAX_DEPTH && NextToken(src, i) == Ok(ch, i + 1)
    ensures ch == '[' ==> Value(src, i, depth) == InBrackets(src, NextToken(src, i + 1), depth)
    ensures ch == '{' ==> Value(src, i, depth) == InBraces(src, NextToken(src, i + 1), depth)
  {
    hide ParseNumber, ParseString, NextToken, Members, Elements, Expect;
  }

  // ----- every text of a tree is read, as what the tree means -----

  predicate AreElements(es: seq<Element>, strategy: Strategy, room: int) {
    forall k :: 0 <= k < |es| ==>
      && IsGap(es[k].before, strategy, false) && IsSyntax(es[k].v, strategy) && IsGap(es[k].after, strategy, false)
      && IsShallow(es[k].v, room)
  }

  predicate AreMembers(ms: seq<Member>, strategy: Strategy, room: int) {
    forall k :: 0 <= k < |ms| ==>
      && IsGap(ms[k].before, strategy, false) && ArePieces(ms[k].key) && IsGap(ms[k].colon, strategy, false)
      && IsGap(ms[k].value, strategy, false) && IsSyntax(ms[k].v, strategy) && IsGap(ms[k].after, strategy, false)
      && IsShallow(ms[k].v, room)
  }

  lemma {:induction false} ValueReads(src: Source, i: nat, s: Syntax, depth: nat)
    requires IsSyntax(s, src.strategy) && IsShallow(s, MAX_DEPTH - depth) && StartsAt(src.text, i, Text(s))
    requires s.Number? ==> EndsNumeral(At(src.text, i + |Text(s)|))
    ensures i < |src.text| && Value(src, i, depth) == Ok(Meaning(src, i, s), i + |Text(s)|)
    decreases s, 2
  {
    hide Value, Elements, Members, ParseNumber, ParseString, NextToken, StartsAt;
    ValueStarts(src, i, s);
    match s
    case Array(_, _) => ArrayReads(src, i, s, depth);
    case Object(_, _) => ObjectReads(src, i, s, depth);
    case Number(n) =>
      FirstOf(s, src.strategy);
      PlainCases(src, i, src.text[i], depth);
      NumeralReads(src, i, n);
    case Quoted(ps) =>
      PlainCases(src, i, src.text[i], depth);
      StartsAtSplit(src.text, i, "\"", PiecesText(ps) + "\"");
      QuotedReads(src.text, i + 1, ps);
    case Literal(t) =>
      PlainCases(src, i, src.text[i], depth);
  }

  function Before(s: Syntax): Gap
    requires s.Array? || s.Object?
  {
    match s
    case Array(es, g) => if es == [] then g else es[0].before
    case Object(ms, g) => if ms == [] then g else ms[0].before
    case _ => assert false; []
  }

  function Inside(s: Syntax): string
    requires s.Array? || s.Object?
  {
    match s
    case Array(es, _) => if es == [] then "]" else ElementsText(es)
    case Object(ms, _) => if ms == [] then "}" else MembersText(ms)
    case _ => assert false; ""
  }

  lemma BracketsText(s: Syntax)
    requires s.Array? || s.Object?
    ensures Text(s) == (if s.Array? then "[" else "{") + (GapText(Before(s)) + Inside(s))
  {
    hide ElementsText, MembersText, GapText;
  }

  lemma Brackets(src: Source, i: nat, s: Syntax)
    requires (s.Array? || s.Object?) && StartsAt(src.text, i, Text(s))
    ensures var p := i + 1 + |GapText(Before(s))|;
      && StartsAt(src.text, i + 1, GapText(Before(s))) && StartsAt(src.text, p, Inside(s))
      && |Text(s)| == p - i + |Inside(s)|
  {
    hide Text, Before, Inside, StartsAt;
    var open := if s.Array? then "[" else "{";
    BracketsText(s);
    StartsAtSplit(src.text, i, open, GapText(Before(s)) + Inside(s));
    StartsAtSplit(src.text, i + 1, GapText(Before(s)), Inside(s));
  }

  lemma BeforeIsGap(s: Syntax, strategy: Strategy)
    requires (s.Array? || s.Object?) && IsSyntax(s, strategy)
    ensures IsGap(Before(s), strategy, false)
  {
    hide IsGap;
  }

  lemma PartsBelow(s: Syntax, strategy: Strategy, room: int)
    requires IsSyntax(s, strategy) && IsShallow(s, room)
    ensures room >= 0
    ensures s.Array? ==> AreElements(s.elements, strategy, room - 1)
    ensures s.Object? ==> AreMembers(s.members, strategy, room - 1)
  {
    hide IsGap, ArePieces;
  }

  lemma {:induction false} ArrayReads(src: Source, i: nat, s: Syntax, depth: nat)
    requires s.Array? && IsSyntax(s, src.strategy) && IsShallow(s, MAX_DEPTH - depth) && StartsAt(src.text, i, Text(s))
    requires i < |src.text| && src.text[i] == '[' && NextToken(src, i) == Ok('[', i + 1)
    ensures Value(src, i, depth) == Ok(Meaning(src, i, s), i + |Text(s)|)
    decreases s, 1
  {
    hide Value, Elements, NextToken, StartsAt, EndsGap, Text, ElementsText, ElementsMeaning, IsGap, GapText, IsSyntax,
      IsShallow, AreElements;
    var es, p := s.elements, i + 1 + |GapText(Before(s))|;
    Brackets(src, i, s);
    BeforeIsGap(s, src.strategy);
    PartsBelow(s, src.strategy, MAX_DEPTH - depth);
    BracketCases(src, i, '[', depth);
    if es == [] {
      ClosingAt(src, p, ']');
      TokenBehind(src, i + 1, Before(s));
    } else {
      AreSyntax(es, src.strategy, MAX_DEPTH - depth - 1);
      FirstElement(src, p, es);
      TokenBehind(src, i + 1, Before(s));
      ElementsRead(src, p, es, depth, []);
      assert [] + ElementsMeaning(src, p, es) == ElementsMeaning(src, p, es);
    }
  }

  lemma AreSyntax(es: seq<Element>, strategy: Strategy, room: int)
    requires AreElements(es, strategy, room)
    ensures forall k :: 0 <= k < |es| ==> IsSyntax(es[k].v, strategy)
  {
  }

  lemma ClosingAt(src: Source, p: nat, c: char)
    requires StartsAt(src.text, p, [c]) && c in {']', '}', ',', ':', '"'}
    ensures p < |src.text| && src.text[p] == c && EndsGap(src, p)
  {
    StartsAtChar(src.text, p, [c], 0);
  }

  function BehindElement(es: seq<Element>): string
    requires es != []
  {
    if |es| == 1 then "]" else "," + (GapText(es[1].before) + ElementsText(es[1..]))
  }

  lemma ElementsTextIs(es: seq<Element>)
    requires es != []
    ensures ElementsText(es) == Text(es[0].v) + (GapText(es[0].after) + BehindElement(es))
  {
    hide GapText, Text;
  }

  lemma FirstElement(src: Source, p: nat, es: seq<Element>)
    requires es != [] && IsSyntax(es[0].v, src.strategy) && StartsAt(src.text, p, ElementsText(es))
    ensures p < |src.text| && EndsGap(src, p) && src.text[p] != ']' && StartsAt(src.text, p, Text(es[0].v))
  {
    hide Text, StartsAt, IsSyntax, EndsGap, ElementsText, GapText;
    ElementsTextIs(es);
    StartsAtSplit(src.text, p, Text(es[0].v), GapText(es[0].after) + BehindElement(es));
    ValueStarts(src, p, es[0].v);
  }

  // Where the parts of the elements lie.
  lemma ElementParts(src: Source, p: nat, es: seq<Element>)
    requires es != [] && StartsAt(src.text, p, ElementsText(es))
    ensures var e := p + |Text(es[0].v)|;
      var k := e + |GapText(es[0].after)|;
      && StartsAt(src.text, p, Text(es[0].v)) && StartsAt(src.text, e, GapText(es[0].after))
      && StartsAt(src.text, k, BehindElement(es)) && |ElementsText(es)| == k - p + |BehindElement(es)|
  {
    hide Text, ElementsText, StartsAt, GapText, BehindElement;
    ElementsTextIs(es);
    StartsAtSplit(src.text, p, Text(es[0].v), GapText(es[0].after) + BehindElement(es));
    StartsAtSplit(src.text, p + |Text(es[0].v)|, GapText(es[0].after), BehindElement(es));
  }

  lemma ElementEnds(src: Source, k: nat, es: seq<Element>)
    requires es != [] && StartsAt(src.text, k, BehindElement(es))
    ensures k < |src.text| && src.text[k] == (if |es| == 1 then ']' else ',') && EndsGap(src, k)
    ensures |es| == 1 ==> |BehindElement(es)| == 1
    ensures |es| > 1 ==>
      var q := k + 1 + |GapText(es[1].before)|;
      && StartsAt(src.text, k + 1, GapText(es[1].before)) && StartsAt(src.text, q, ElementsText(es[1..]))
      && |BehindElement(es)| == q - k + |ElementsText(es[1..])|
  {
    hide ElementsText, StartsAt, EndsGap, GapText;
    if |es| == 1 {
      ClosingAt(src, k, ']');
    } else {
      StartsAtSplit(src.text, k, ",", GapText(es[1].before) + ElementsText(es[1..]));
      StartsAtSplit(src.text, k + 1, GapText(es[1].before), ElementsText(es[1..]));
      ClosingAt(src, k, ',');
    }
  }

  lemma {:induction false} ElementsRead(src: Source, p: nat, es: seq<Element>, depth: nat, data: seq<Json>)
    requires es != [] && AreElements(es, src.strategy, MAX_DEPTH - depth - 1) && depth <= MAX_DEPTH
    requires StartsAt(src.text, p, ElementsText(es))
    ensures p < |src.text|
    ensures Elements(src, p, depth, data) == Ok(Arr(data + ElementsMeaning(src, p, es)), p + |ElementsText(es)|)
    decreases es, 3
  {
    hide Value, Elements, NextToken, StartsAt, EndsGap, Text, ElementsText, ElementsMeaning, IsGap, GapText, Meaning,
      IsSyntax, IsShallow, BehindElement;
    var e := p + |Text(es[0].v)|;
    var k := e + |GapText(es[0].after)|;
    var v := Meaning(src, p, es[0].v);
    ElementParts(src, p, es);
    ElementEnds(src, k, es);
    FirstElement(src, p, es);
    EndsBeforeGap(src, e, es[0].after, false);
    ValueReads(src, p, es[0].v, depth + 1);
    ElementsUnfold(src, p, depth, data);
    TokenBehind(src, e, es[0].after);
    ElementsMeaningIs(src, p, es);
    if |es| > 1 {
      var q := k + 1 + |GapText(es[1].before)|;
      FirstElement(src, q, es[1..]);
      TokenBehind(src, k + 1, es[1].before);
      ElementsRead(src, q, es[1..], depth, data + [v]);
      assert data + [v] + ElementsMeaning(src, q, es[1..]) == data + ([v] + ElementsMeaning(src, q, es[1..]));
    }
  }

  lemma ElementsMeaningIs(src: Source, p: nat, es: seq<Element>)
    requires es != [] && forall k :: 0 <= k < |es| ==> IsSyntax(es[k].v, src.strategy)
    ensures |es| == 1 ==> ElementsMeaning(src, p, es) == [Meaning(src, p, es[0].v)]
    ensures |es| > 1 ==>
      var q := p + |Text(es[0].v)| + |GapText(es[0].after)| + 1 + |GapText(es[1].before)|;
      ElementsMeaning(src, p, es) == [Meaning(src, p, es[0].v)] + ElementsMeaning(src, q, es[1..])
  {
    hide Text, GapText, Meaning, IsSyntax;
  }

  lemma {:induction false} ObjectReads(src: Source, i: nat, s: Syntax, depth: nat)
    requires s.Object? && IsSyntax(s, src.strategy) && IsShallow(s, MAX_DEPTH - depth) && StartsAt(src.text, i, Text(s))
    requires i < |src.text| && src.text[i] == '{' && NextToken(src, i) == Ok('{', i + 1)
    ensures Value(src, i, depth) == Ok(Meaning(src, i, s), i + |Text(s)|)
    decreases s, 1
  {
    hide Value, Members, NextToken, StartsAt, EndsGap, Text, MembersText, MembersMeaning, IsGap, GapText, IsSyntax,
      IsShallow, AreMembers;
    var ms, p := s.members, i + 1 + |GapText(Before(s))|;
    Brackets(src, i, s);
    BeforeIsGap(s, src.strategy);
    PartsBelow(s, src.strategy, MAX_DEPTH - depth);
    BracketCases(src, i, '{', depth);
    if ms == [] {
      ClosingAt(src, p, '}');
      TokenBehind(src, i + 1, Before(s));
    } else {
      FirstMember(src, p, ms);
      TokenBehind(src, i + 1, Before(s));
      MembersRead(src, p, ms, depth, []);
    }
  }

  lemma FirstMember(src: Source, p: nat, ms: seq<Member>)
    requires ms != [] && StartsAt(src.text, p, MembersText(ms))
    ensures p < |src.text| && src.text[p] == '"' && EndsGap(src, p)
  {
    StartsAtChar(src.text, p, MembersText(ms), 0);
  }

  // What is behind the first member, behind its value and behind its key.
  function BehindMember(ms: seq<Member>): string
    requires ms != []
  {
    if |ms| == 1 then "}" else "," + (GapText(ms[1].before) + MembersText(ms[1..]))
  }

  function BehindValue(ms: seq<Member>): string
    requires ms != []
  {
    GapText(ms[0].after) + BehindMember(ms)
  }

  function BehindKey(ms: seq<Member>): string
    requires ms != []
  {
    GapText(ms[0].colon) + (":" + (GapText(ms[0].value) + (Text(ms[0].v) + BehindValue(ms))))
  }

  lemma MembersTextIs(ms: seq<Member>)
    requires ms != []
    ensures MembersText(ms) == "\"" + (PiecesText(ms[0].key) + ("\"" + BehindKey(ms)))
  {
    hide PiecesText, GapText, Text;
  }

  lemma KeyParts(src: Source, p: nat, ms: seq<Member>)
    requires ms != [] && StartsAt(src.text, p, MembersText(ms))
    ensures StartsAt(src.text, p + 1, PiecesText(ms[0].key) + "\"")
    ensures var c := p + 2 + |PiecesText(ms[0].key)|;
      var d := c + |GapText(ms[0].colon)|;
      && StartsAt(src.text, c, GapText(ms[0].colon)) && d < |src.text| && src.text[d] == ':' && EndsGap(src, d)
      && StartsAt(src.text, d + 1, GapText(ms[0].value) + (Text(ms[0].v) + BehindValue(ms)))
      && |MembersText(ms)| == d + 1 - p + |GapText(ms[0].value)| + |Text(ms[0].v)| + |BehindValue(ms)|
  {
    hide PiecesText, GapText, Text, MembersText, BehindValue, StartsAt, EndsGap;
    var key, rest := PiecesText(ms[0].key), GapText(ms[0].value) + (Text(ms[0].v) + BehindValue(ms));
    MembersTextIs(ms);
    StartsAtSplit(src.text, p, "\"", key + ("\"" + BehindKey(ms)));
    Assoc(key, "\"", BehindKey(ms));
    StartsAtSplit(src.text, p + 1, key + "\"", BehindKey(ms));
    var c := p + 2 + |key|;
    var d := c + |GapText(ms[0].colon)|;
    StartsAtSplit(src.text, c, GapText(ms[0].colon), ":" + rest);
    StartsAtSplit(src.text, d, ":", rest);
    ClosingAt(src, d, ':');
  }

  lemma ValueParts(src: Source, d: nat, ms: seq<Member>)
    requires ms != [] && StartsAt(src.text, d, GapText(ms[0].value) + (Text(ms[0].v) + BehindValue(ms)))
    ensures var at := d + |GapText(ms[0].value)|;
      var e := at + |Text(ms[0].v)|;
      var k := e + |GapText(ms[0].after)|;
      && StartsAt(src.text, d, GapText(ms[0].value)) && StartsAt(src.text, at, Text(ms[0].v))
      && StartsAt(src.text, e, GapText(ms[0].after)) && StartsAt(src.text, k, BehindMember(ms))
      && |BehindValue(ms)| == k - e + |BehindMember(ms)|
  {
    hide GapText, Text, MembersText, StartsAt, BehindMember;
    var at := d + |GapText(ms[0].value)|;
    var e := at + |Text(ms[0].v)|;
    StartsAtSplit(src.text, d, GapText(ms[0].value), Text(ms[0].v) + BehindValue(ms));
    StartsAtSplit(src.text, at, Text(ms[0].v), BehindValue(ms));
    StartsAtSplit(src.text, e, GapText(ms[0].after), BehindMember(ms));
  }

  lemma MemberEnds(src: Source, k: nat, ms: seq<Member>)
    requires ms != [] && StartsAt(src.text, k, BehindMember(ms))
    ensures k < |src.text| && src.text[k] == (if |ms| == 1 then '}' else ',') && EndsGap(src, k)
    ensures |ms| == 1 ==> |BehindMember(ms)| == 1
    ensures |ms| > 1 ==>
      var q := k + 1 + |GapText(ms[1].before)|;
      && StartsAt(src.text, k + 1, GapText(ms[1].before)) && StartsAt(src.text, q, MembersText(ms[1..]))
      && |BehindMember(ms)| == q - k + |MembersText(ms[1..])|
  {
    hide MembersText, StartsAt, EndsGap, GapText;
    if |ms| == 1 {
      ClosingAt(src, k, '}');
    } else {
      StartsAtSplit(src.text, k, ",", GapText(ms[1].before) + MembersText(ms[1..]));
      StartsAtSplit(src.text, k + 1, GapText(ms[1].before), MembersText(ms[1..]));
      ClosingAt(src, k, ',');
    }
  }

  lemma {:induction false} MembersRead(src: Source, p: nat, ms: seq<Member>, depth: nat, data: seq<Field>)
    requires ms != [] && AreMembers(ms, src.strategy, MAX_DEPTH - depth - 1) && depth <= MAX_DEPTH && Sorted(data)
    requires StartsAt(src.text, p, MembersText(ms))
    ensures p < |src.text|
    ensures Members(src, p + 1, '"', depth, data)
      == Ok(Obj(MembersMeaning(src, p, ms, data)), p + |MembersText(ms)|)
    decreases ms, 3
  {
    hide Value, Members, NextToken, ParseString, StartsAt, EndsGap, Text, MembersText, IsGap, GapText, PiecesText,
      Meaning, Meant, IsSyntax, IsShallow, ArePieces, Insert, Sorted, BehindValue, BehindMember;
    var m := ms[0];
    var at := ValueAt(p, m);
    var k := at + |Text(m.v)| + |GapText(m.after)|;
    FirstMember(src, p, ms);
    MemberReads(src, p, ms, depth, data);
    MemberEnds(src, k, ms);
    MembersMeaningIs(src, p, ms, data);
    if |ms| > 1 {
      var q := k + 1 + |GapText(ms[1].before)|;
      FirstMember(src, q, ms[1..]);
      TokenBehind(src, k + 1, ms[1].before);
      MembersRead(src, q, ms[1..], depth, Insert(data, Meant(m.key), Meaning(src, at, m.v)));
    }
  }

  // The first member is read, and what is behind it goes on being read.
  lemma {:induction false} MemberReads(src: Source, p: nat, ms: seq<Member>, depth: nat, data: seq<Field>)
    requires ms != [] && AreMembers(ms, src.strategy, MAX_DEPTH - depth - 1) && depth <= MAX_DEPTH && Sorted(data)
    requires StartsAt(src.text, p, MembersText(ms)) && p < |src.text|
    ensures var at := ValueAt(p, ms[0]);
      var k := at + |Text(ms[0].v)| + |GapText(ms[0].after)|;
      var data' := Insert(data, Meant(ms[0].key), Meaning(src, at, ms[0].v));
      && StartsAt(src.text, k, BehindMember(ms)) && |MembersText(ms)| == k - p + |BehindMember(ms)|
      && k < |src.text|
      && Members(src, p + 1, '"', depth, data) ==
           if |ms| == 1 then Ok(Obj(data'), k + 1) else MoreMembersFrom(src, NextToken(src, k + 1), depth, data')
    decreases ms, 2
  {
    hide Value, Members, NextToken, ParseString, StartsAt, EndsGap, Text, MembersText, IsGap, GapText, PiecesText,
      Meaning, Meant, IsSyntax, IsShallow, ArePieces, Insert, Sorted, BehindValue, BehindMember;
    var m := ms[0];
    KeyParts(src, p, ms);
    QuotedReads(src.text, p + 1, m.key);
    var c := p + 2 + |PiecesText(m.key)|;
    var d := c + |GapText(m.colon)|;
    TokenBehind(src, c, m.colon);
    var e := ValueAt(p, m) + |Text(m.v)|;
    ValueParts(src, d + 1, ms);
    MemberEnds(src, e + |GapText(m.after)|, ms);
    MemberValueReads(src, d + 1, m, depth);
    TokenBehind(src, e, m.after);
    MembersUnfold(src, p + 1, '"', depth, data);
  }

  function MoreMembersFrom(src: Source, u: Parsed<char>, depth: nat, data: seq<Field>): Parsed<Json>
    requires (u.Ok? ==> u.next <= |src.text|) && depth <= MAX_DEPTH && Sorted(data)
  {
    if u.Fail? then Fail(u.error) else Members(src, u.next, u.value, depth, data)
  }

  lemma MembersMeaningIs(src: Source, p: nat, ms: seq<Member>, data: seq<Field>)
    requires ms != [] && Sorted(data)
    requires forall k :: 0 <= k < |ms| ==> ArePieces(ms[k].key) && IsSyntax(ms[k].v, src.strategy)
    ensures var at := ValueAt(p, ms[0]);
      var data' := Insert(data, Meant(ms[0].key), Meaning(src, at, ms[0].v));
      MembersMeaning(src, p, ms, data) ==
        if |ms| == 1 then data'
        else
          MembersMeaning(src, at + |Text(ms[0].v)| + |GapText(ms[0].after)| + 1 + |GapText(ms[1].before)|,
            ms[1..], data')
  {
    hide Text, GapText, Meaning, IsSyntax, ArePieces, Insert, Sorted, Meant;
  }

  lemma {:induction false} MemberValueReads(src: Source, d: nat, m: Member, depth: nat)
    requires IsGap(m.value, src.strategy, false) && IsSyntax(m.v, src.strategy) && IsGap(m.after, src.strategy, false)
    requires IsShallow(m.v, MAX_DEPTH - depth - 1) && depth <= MAX_DEPTH
    requires var at := d + |GapText(m.value)|;
      var e := at + |Text(m.v)|;
      && StartsAt(src.text, d, GapText(m.value)) && StartsAt(src.text, at, Text(m.v))
      && StartsAt(src.text, e, GapText(m.after)) && At(src.text, e + |GapText(m.after)|) in {',', '}'}
    ensures var at := d + |GapText(m.value)|;
      d <= |src.text| && Value(src, d, depth + 1) == Ok(Meaning(src, at, m.v), at + |Text(m.v)|)
    decreases m, 3
  {
    hide Value, NextToken, StartsAt, EndsGap, Text, IsGap, GapText, Meaning, IsSyntax, IsShallow;
    var at := d + |GapText(m.value)|;
    EndsBeforeGap(src, at + |Text(m.v)|, m.after, false);
    ValueReads(src, at, m.v, depth + 1);
    ValueStarts(src, at, m.v);
    TokenBehind(src, d, m.value);
    ValueFromToken(src, d, at, depth + 1);
  }

  // ----- whatever is read is the text of a tree -----

  // A value read at i is a gap and the text of a tree behind it.
  predicate IsRead(src: Source, i: nat, depth: nat, g: Gap, s: Syntax)
    requires i <= |src.text|
  {
    var j := i + |GapText(g)|;
    && IsGap(g, src.strategy, false) && IsSyntax(s, src.strategy) && IsShallow(s, MAX_DEPTH - depth)
    && StartsAt(src.text, i, GapText(g)) && StartsAt(src.text, j, Text(s))
    && Value(src, i, depth) == Ok(Meaning(src, j, s), j + |Text(s)|)
  }

  lemma {:induction false} ValueIs(src: Source, i: nat, depth: nat) returns (g: Gap, s: Syntax)
    requires i <= |src.text| && Value(src, i, depth).Ok?
    ensures IsRead(src, i, depth, g, s)
    decreases MAX_DEPTH + 1 - depth, 2, 0
  {
    hide Value, Elements, Members, ParseNumber, ParseString, NextToken, StartsAt, IsGap, GapText, IsSyntax, IsShallow,
      Meaning, Text, EndsGap;
    ValueHasToken(src, i, depth);
    g := TokenOf(src, i);
    var j := i + |GapText(g)|;
    ValueFromToken(src, i, j, depth);
    PlainCases(src, j, src.text[j], depth);
    if src.text[j] == '[' {
      s := ArrayIs(src, j, depth);
    } else if src.text[j] == '{' {
      s := ObjectIs(src, j, depth);
    } else {
      s := PlainIs(src, j, src.text[j], depth);
    }
  }

  lemma ValueHasToken(src: Source, i: nat, depth: nat)
    requires i <= |src.text| && Value(src, i, depth).Ok?
    ensures NextToken(src, i).Ok? && depth <= MAX_DEPTH
  {
    hide NextToken;
  }

  // A tree read at j, without a gap in front.
  predicate IsReadAt(src: Source, j: nat, depth: nat, s: Syntax)
    requires j <= |src.text|
  {
    && IsSyntax(s, src.strategy) && IsShallow(s, MAX_DEPTH - depth) && StartsAt(src.text, j, Text(s))
    && Value(src, j, depth) == Ok(Meaning(src, j, s), j + |Text(s)|)
  }

  lemma PlainIs(src: Source, j: nat, c: char, depth: nat) returns (s: Syntax)
    requires j < |src.text| && depth <= MAX_DEPTH && src.text[j] == c && NextToken(src, j) == Ok(c, j + 1)
    requires Value(src, j, depth).Ok? && c != '[' && c != '{'
    ensures IsReadAt(src, j, depth, s)
  {
    hide Value, ParseNumber, ParseString, NextToken, StartsAt, IsReadAt;
    PlainCases(src, j, c, depth);
    if c == '"' {
      s := QuotedIs(src, j, depth);
    } else if c == 't' {
      s := LiteralIs(src, j, "true", Bool(true), depth);
    } else if c == 'f' {
      s := LiteralIs(src, j, "false", Bool(false), depth);
    } else if c == 'n' {
      s := LiteralIs(src, j, "null", Null, depth);
    } else {
      s := NumberIs(src, j, depth);
    }
  }

  lemma QuotedIs(src: Source, j: nat, depth: nat) returns (s: Syntax)
    requires j < |src.text| && depth <= MAX_DEPTH && src.text[j] == '"' && ParseString(src.text, j + 1, -1).Ok?
    requires var q := ParseString(src.text, j + 1, -1); Value(src, j, depth) == Ok(Str(q.value), q.next)
    ensures IsReadAt(src, j, depth, s)
  {
    hide Value, ParseString, StartsAt, ArePieces, PiecesText, Meant;
    var ps := PiecesOf(src.text, j + 1, -1);
    QuotedReads(src.text, j + 1, ps);
    s := Quoted(ps);
    CharAt(src.text, j);
    StartsJoin(src.text, j, "\"", PiecesText(ps) + "\"");
  }

  lemma LiteralIs(src: Source, j: nat, literal: string, v: Json, depth: nat) returns (s: Syntax)
    requires j < |src.text| && depth <= MAX_DEPTH
    requires (literal == "null" && v == Null) || (literal == "true" && v == Bool(true)) || (literal == "false" && v == Bool(false))
    requires Value(src, j, depth) == Expect(src.text, j, literal, v) && Expect(src.text, j, literal, v).Ok?
    ensures IsReadAt(src, j, depth, s)
  {
    hide Value, StartsAt;
    s := Literal(literal);
  }

  lemma NumberIs(src: Source, j: nat, depth: nat) returns (s: Syntax)
    requires j < |src.text| && depth <= MAX_DEPTH && ParseNumber(src, j).Ok?
    requires Value(src, j, depth) == ParseNumber(src, j)
    ensures IsReadAt(src, j, depth, s)
  {
    hide Value, ParseNumber, StartsAt, IsNumeral, NumeralText, NumeralValue;
    var n := NumeralOf(src, j);
    s := Number(n);
  }

  lemma CharAt(s: string, i: nat)
    requires i < |s|
    ensures StartsAt(s, i, [s[i]])
  {
  }

  lemma {:induction false} ArrayIs(src: Source, j: nat, depth: nat) returns (s: Syntax)
    requires j < |src.text| && depth <= MAX_DEPTH && src.text[j] == '[' && NextToken(src, j) == Ok('[', j + 1)
    requires Value(src, j, depth).Ok?
    ensures IsReadAt(src, j, depth, s)
    decreases MAX_DEPTH + 1 - depth, 1, 0
  {
    hide Value, Elements, NextToken, StartsAt, IsGap, GapText, EndsGap, Text, ElementsText, Inside, IsSyntax, IsShallow;
    BracketCases(src, j, '[', depth);
    CharAt(src.text, j);
    var g := TokenOf(src, j + 1);
    var p := j + 1 + |GapText(g)|;
    if src.text[p] == ']' {
      CharAt(src.text, p);
      s := Syntax.Array([], g);
      EmptyArray(s, src.strategy, MAX_DEPTH - depth);
    } else {
      var es := ElementsAre(src, p, depth, [], g);
      s := Syntax.Array(es, []);
      ArrayOf(s, src.strategy, MAX_DEPTH - depth);
    }
    BracketsJoin(src, j, s);
    ArrayReads(src, j, s, depth);
  }

  lemma EmptyArray(s: Syntax, strategy: Strategy, room: nat)
    requires s.Array? && s.elements == [] && IsGap(s.inside, strategy, false)
    ensures IsSyntax(s, strategy) && IsShallow(s, room) && Before(s) == s.inside && Inside(s) == "]"
  {
  }

  lemma ArrayOf(s: Syntax, strategy: Strategy, room: nat)
    requires s.Array? && s.elements != [] && s.inside == [] && AreElements(s.elements, strategy, room - 1)
    ensures IsSyntax(s, strategy) && IsShallow(s, room) && Before(s) == s.elements[0].before
    ensures Inside(s) == ElementsText(s.elements)
  {
  }

  lemma BracketsJoin(src: Source, i: nat, s: Syntax)
    requires (s.Array? || s.Object?) && i < |src.text| && src.text[i] == if s.Array? then '[' else '{'
    requires StartsAt(src.text, i + 1, GapText(Before(s)))
    requires StartsAt(src.text, i + 1 + |GapText(Before(s))|, Inside(s))
    ensures StartsAt(src.text, i, Text(s))
  {
    hide Text, Before, Inside, StartsAt;
    var open := if s.Array? then "[" else "{";
    BracketsText(s);
    CharAt(src.text, i);
    StartsJoin(src.text, i + 1, GapText(Before(s)), Inside(s));
    StartsJoin(src.text, i, open, GapText(Before(s)) + Inside(s));
  }

  predicate IsElement(e: Element, strategy: Strategy, room: int) {
    && IsGap(e.before, strategy, false) && IsSyntax(e.v, strategy) && IsGap(e.after, strategy, false)
    && IsShallow(e.v, room)
  }

  // The first element, and what is then left to read.
  lemma {:induction false} ElementIs(src: Source, p: nat, depth: nat, data: seq<Json>, before: Gap)
    returns (e: Element, k: nat, data': seq<Json>)
    requires p < |src.text| && depth <= MAX_DEPTH && EndsGap(src, p) && IsGap(before, src.strategy, false)
    requires Elements(src, p, depth, data).Ok?
    ensures e.before == before && IsElement(e, src.strategy, MAX_DEPTH - depth - 1)
    ensures StartsAt(src.text, p, Text(e.v)) && StartsAt(src.text, p + |Text(e.v)|, GapText(e.after))
    ensures k == p + |Text(e.v)| + |GapText(e.after)|
    ensures p < k < |src.text| && (src.text[k] == ']' || src.text[k] == ',')
    ensures src.text[k] == ',' ==>
      var u := NextToken(src, k + 1);
      u.Ok? && Elements(src, u.next - 1, depth, data').Ok?
    decreases MAX_DEPTH + 1 - depth, 0, |src.text| - p, 0
  {
    hide Value, Elements, NextToken, StartsAt, IsGap, GapText, EndsGap, Text, IsSyntax, IsShallow, Meaning;
    ElementsUnfold(src, p, depth, data);
    var none, v := ValueIs(src, p, depth + 1);
    GapStarts(src, p, none);
    NoGap(src.strategy, false);
    var after := TokenOf(src, p + |Text(v)|);
    e, k := Element(before, v, after), p + |Text(v)| + |GapText(after)|;
    data' := data + [Value(src, p, depth + 1).value];
  }

  lemma {:induction false} ElementsAre(src: Source, p: nat, depth: nat, data: seq<Json>, before: Gap)
    returns (es: seq<Element>)
    requires p < |src.text| && depth <= MAX_DEPTH && EndsGap(src, p) && IsGap(before, src.strategy, false)
    requires Elements(src, p, depth, data).Ok?
    ensures es != [] && es[0].before == before && AreElements(es, src.strategy, MAX_DEPTH - depth - 1)
    ensures StartsAt(src.text, p, ElementsText(es))
    decreases MAX_DEPTH + 1 - depth, 0, |src.text| - p, 1
  {
    hide Elements, NextToken, StartsAt, IsGap, GapText, EndsGap, Text, ElementsText, AreElements, IsElement,
      BehindElement;
    var first, k, data' := ElementIs(src, p, depth, data, before);
    CharAt(src.text, k);
    if src.text[k] == ']' {
      es := [first];
      OneElement(first, src.strategy, MAX_DEPTH - depth - 1);
    } else {
      var next := TokenOf(src, k + 1);
      var q := k + 1 + |GapText(next)|;
      var rest := ElementsAre(src, q, depth, data', next);
      es := [first] + rest;
      StartsJoin(src.text, k + 1, GapText(next), ElementsText(rest));
      StartsJoin(src.text, k, ",", GapText(next) + ElementsText(rest));
      MoreElements(first, rest, src.strategy, MAX_DEPTH - depth - 1);
    }
    StartsJoin(src.text, p + |Text(first.v)|, GapText(first.after), BehindElement(es));
    StartsJoin(src.text, p, Text(first.v), GapText(first.after) + BehindElement(es));
    ElementsTextIs(es);
  }

  lemma OneElement(e: Element, strategy: Strategy, room: int)
    requires IsElement(e, strategy, room)
    ensures AreElements([e], strategy, room) && BehindElement([e]) == "]"
  {
  }

  lemma MoreElements(e: Element, es: seq<Element>, strategy: Strategy, room: int)
    requires IsElement(e, strategy, room) && es != [] && AreElements(es, strategy, room)
    ensures AreElements([e] + es, strategy, room)
    ensures BehindElement([e] + es) == "," + (GapText(es[0].before) + ElementsText(es))
  {
    hide IsGap, IsSyntax, IsShallow, GapText, ElementsText;
    assert ([e] + es)[1..] == es;
  }

  lemma {:induction false} ObjectIs(src: Source, j: nat, depth: nat) returns (s: Syntax)
    requires j < |src.text| && depth <= MAX_DEPTH && src.text[j] == '{' && NextToken(src, j) == Ok('{', j + 1)
    requires Value(src, j, depth).Ok?
    ensures IsReadAt(src, j, depth, s)
    decreases MAX_DEPTH + 1 - depth, 1, 0
  {
    hide Value, Members, NextToken, StartsAt, IsGap, GapText, EndsGap, Text, MembersText, Inside, IsSyntax, IsShallow;
    BracketCases(src, j, '{', depth);
    CharAt(src.text, j);
    var g := TokenOf(src, j + 1);
    var p := j + 1 + |GapText(g)|;
    if src.text[p] == '}' {
      CharAt(src.text, p);
      s := Syntax.Object([], g);
      EmptyObject(s, src.strategy, MAX_DEPTH - depth);
    } else {
      var ms := MembersAre(src, p, depth, [], g);
      s := Syntax.Object(ms, []);
      ObjectOf(s, src.strategy, MAX_DEPTH - depth);
    }
    BracketsJoin(src, j, s);
    ObjectReads(src, j, s, depth);
  }

  lemma EmptyObject(s: Syntax, strategy: Strategy, room: nat)
    requires s.Object? && s.members == [] && IsGap(s.inside, strategy, false)
    ensures IsSyntax(s, strategy) && IsShallow(s, room) && Before(s) == s.inside && Inside(s) == "}"
  {
  }

  lemma ObjectOf(s: Syntax, strategy: Strategy, room: nat)
    requires s.Object? && s.members != [] && s.inside == [] && AreMembers(s.members, strategy, room - 1)
    ensures IsSyntax(s, strategy) && IsShallow(s, room) && Before(s) == s.members[0].before
    ensures Inside(s) == MembersText(s.members)
  {
  }

  predicate IsMember(m: Member, strategy: Strategy, room: int) {
    && IsGap(m.before, strategy, false) && ArePieces(m.key) && IsGap(m.colon, strategy, false)
    && IsGap(m.value, strategy, false) && IsSyntax(m.v, strategy) && IsGap(m.after, strategy, false)
    && IsShallow(m.v, room)
  }

  // A member from its first quote at p up to what ends it at k.
  predicate MemberAt(s: string, p: nat, m: Member, k: nat) {
    var c := p + 2 + |PiecesText(m.key)|;
    var d := c + |GapText(m.colon)|;
    var at := d + 1 + |GapText(m.value)|;
    var e := at + |Text(m.v)|;
    && StartsAt(s, p, "\"") && StartsAt(s, p + 1, PiecesText(m.key) + "\"")
    && StartsAt(s, c, GapText(m.colon)) && StartsAt(s, d, ":") && StartsAt(s, d + 1, GapText(m.value))
    && StartsAt(s, at, Text(m.v)) && StartsAt(s, e, GapText(m.after)) && k == e + |GapText(m.after)|
  }

  // The parts of a member, and what is then left to read.
  lemma {:induction false} MemberIs(src: Source, p: nat, depth: nat, data: seq<Field>, before: Gap)
    returns (m: Member, k: nat, data': seq<Field>)
    requires p < |src.text| && depth <= MAX_DEPTH && Sorted(data) && IsGap(before, src.strategy, false)
    requires Members(src, p + 1, src.text[p], depth, data).Ok?
    ensures m.before == before && IsMember(m, src.strategy, MAX_DEPTH - depth - 1) && MemberAt(src.text, p, m, k)
    ensures p < k < |src.text| && (src.text[k] == '}' || src.text[k] == ',') && Sorted(data')
    ensures src.text[k] == ',' ==>
      var u := NextToken(src, k + 1);
      u.Ok? && Members(src, u.next, u.value, depth, data').Ok?
    decreases MAX_DEPTH + 1 - depth, 0, |src.text| - p, 0
  {
    hide Value, Members, NextToken, ParseString, StartsAt, IsGap, GapText, EndsGap, Text, IsSyntax,
      IsShallow, Meaning, Insert, Sorted, PiecesText, ArePieces, Meant;
    MembersUnfold(src, p + 1, src.text[p], depth, data);
    CharAt(src.text, p);
    var key := PiecesOf(src.text, p + 1, -1);
    QuotedReads(src.text, p + 1, key);
    var c := p + 2 + |PiecesText(key)|;
    var colon := TokenOf(src, c);
    var d := c + |GapText(colon)|;
    CharAt(src.text, d);
    var value, v := ValueIs(src, d + 1, depth + 1);
    var e := d + 1 + |GapText(value)| + |Text(v)|;
    var after := TokenOf(src, e);
    m, k := Member(before, key, colon, value, v, after), e + |GapText(after)|;
    data' := Insert(data, Meant(key), Value(src, d + 1, depth + 1).value);
  }

  lemma {:induction false} MembersAre(src: Source, p: nat, depth: nat, data: seq<Field>, before: Gap)
    returns (ms: seq<Member>)
    requires p < |src.text| && depth <= MAX_DEPTH && Sorted(data) && IsGap(before, src.strategy, false)
    requires Members(src, p + 1, src.text[p], depth, data).Ok?
    ensures ms != [] && ms[0].before == before && AreMembers(ms, src.strategy, MAX_DEPTH - depth - 1)
    ensures StartsAt(src.text, p, MembersText(ms))
    decreases MAX_DEPTH + 1 - depth, 0, |src.text| - p, 1
  {
    hide Value, Members, NextToken, ParseString, StartsAt, IsGap, GapText, EndsGap, Text, MembersText,
      AreMembers, IsMember, MemberAt, BehindMember, Sorted;
    var first, k, data' := MemberIs(src, p, depth, data, before);
    CharAt(src.text, k);
    if src.text[k] == '}' {
      ms := [first];
      OneMember(first, src.strategy, MAX_DEPTH - depth - 1);
    } else {
      var next := TokenOf(src, k + 1);
      var q := k + 1 + |GapText(next)|;
      var rest := MembersAre(src, q, depth, data', next);
      ms := [first] + rest;
      StartsJoin(src.text, k + 1, GapText(next), MembersText(rest));
      StartsJoin(src.text, k, ",", GapText(next) + MembersText(rest));
      MoreMembers(first, rest, src.strategy, MAX_DEPTH - depth - 1);
    }
    MemberJoins(src.text, p, ms, k);
  }

  lemma OneMember(m: Member, strategy: Strategy, room: int)
    requires IsMember(m, strategy, room)
    ensures AreMembers([m], strategy, room) && BehindMember([m]) == "}"
  {
  }

  lemma MoreMembers(m: Member, ms: seq<Member>, strategy: Strategy, room: int)
    requires IsMember(m, strategy, room) && ms != [] && AreMembers(ms, strategy, room)
    ensures AreMembers([m] + ms, strategy, room)
    ensures BehindMember([m] + ms) == "," + (GapText(ms[0].before) + MembersText(ms))
  {
    hide IsGap, IsSyntax, IsShallow, GapText, MembersText, ArePieces;
    assert ([m] + ms)[1..] == ms;
  }

  lemma MemberJoins(s: string, p: nat, ms: seq<Member>, k: nat)
    requires ms != [] && MemberAt(s, p, ms[0], k) && StartsAt(s, k, BehindMember(ms))
    ensures StartsAt(s, p, MembersText(ms))
  {
    hide StartsAt, PiecesText, GapText, Text, MembersText, BehindMember;
    var m := ms[0];
    var key := PiecesText(m.key);
    var c := p + 2 + |key|;
    var d := c + |GapText(m.colon)|;
    var at := d + 1 + |GapText(m.value)|;
    StartsJoin(s, at + |Text(m.v)|, GapText(m.after), BehindMember(ms));
    StartsJoin(s, at, Text(m.v), BehindValue(ms));
    StartsJoin(s, d + 1, GapText(m.value), Text(m.v) + BehindValue(ms));
    StartsJoin(s, d, ":", GapText(m.value) + (Text(m.v) + BehindValue(ms)));
    StartsJoin(s, c, GapText(m.colon), ":" + (GapText(m.value) + (Text(m.v) + BehindValue(ms))));
    StartsJoin(s, p + 1, key + "\"", BehindKey(ms));
    Assoc(key, "\"", BehindKey(ms));
    StartsJoin(s, p, "\"", key + ("\"" + BehindKey(ms)));
    MembersTextIs(ms);
  }

  // ----- documents -----

  // A gap, the text of a tree, and a gap.
  predicate IsDocument(src: Source, before: Gap, s: Syntax, after: Gap) {
    && IsGap(before, src.strategy, false) && IsSyntax(s, src.strategy) && IsShallow(s, MAX_DEPTH)
    && IsGap(after, src.strategy, true)
    && src.text == GapText(before) + (Text(s) + GapText(after))
  }

  lemma DocumentReads(src: Source, before: Gap, s: Syntax, after: Gap)
    requires IsDocument(src, before, s, after)
    ensures Document(src) == Ok(Meaning(src, |GapText(before)|, s), |src.text|)
  {
    hide Value, NextToken, SkipGarbage, StartsAt, IsGap, GapText, Text, IsSyntax, IsShallow, Meaning;
    var i, e := |GapText(before)|, |GapText(before)| + |Text(s)|;
    DocumentParts(src.text, GapText(before), Text(s), GapText(after));
    NothingAtEnd(src);
    EndsBeforeGap(src, e, after, true);
    ValueReads(src, i, s, 0);
    ValueStarts(src, i, s);
    TokenBehind(src, 0, before);
    ValueFromToken(src, 0, i, 0);
    GapSkips(src, e, after);
    SkipNothing(src, |src.text|);
  }

  lemma DocumentParts(s: string, a: string, b: string, c: string)
    requires s == a + (b + c)
    ensures StartsAt(s, 0, a) && StartsAt(s, |a|, b) && StartsAt(s, |a| + |b|, c) && |s| == |a| + |b| + |c|
  {
    Whole(s);
    hide StartsAt;
    StartsAtSplit(s, 0, a, b + c);
    StartsAtSplit(s, |a|, b, c);
  }

  lemma Whole(s: string)
    ensures StartsAt(s, 0, s)
  {
  }

  lemma NothingAtEnd(src: Source)
    ensures EndsGap(src, |src.text|) && EndsNumeral(At(src.text, |src.text|))
  {
  }

  lemma DocumentIs(src: Source) returns (before: Gap, s: Syntax, after: Gap)
    requires Document(src).Ok?
    ensures IsDocument(src, before, s, after) && Document(src).value == Meaning(src, |GapText(before)|, s)
  {
    hide Value, NextToken, SkipGarbage, IsGap, GapText, Text, IsSyntax, IsShallow, Meaning, EndsGap;
    before, s := ValueIs(src, 0, 0);
    var e := |GapText(before)| + |Text(s)|;
    after := SkippedGap(src, e);
    StartsJoin(src.text, |GapText(before)|, Text(s), GapText(after));
    StartsJoin(src.text, 0, GapText(before), Text(s) + GapText(after));
  }

  // A text parses to v just if it is a gap, the text of a tree of at most 200 levels below its
  // root that means v, and a gap.
  lemma ParsesExactly(src: Source, v: Json)
    ensures Document(src) == Ok(v, |src.text|)
      <==> exists before, s, after ::
             IsDocument(src, before, s, after) && v == Meaning(src, |GapText(before)|, s)
  {
    hide Document, IsGap, GapText, IsSyntax, IsShallow, Text, Meaning;
    if Document(src).Ok? {
      var before, s, after := DocumentIs(src);
    }
    forall before, s, after | IsDocument(src, before, s, after) && v == Meaning(src, |GapText(before)|, s)
      ensures Document(src) == Ok(v, |src.text|)
    {
      DocumentReads(src, before, s, after);
    }
  }
}

// Values of the json11 library, their equality, and the text that `dump` prints for them.
// A `char` of a `string` stands for one byte of a std::string.
module JsonValue {

  datatype Field = Field(key: string, value: Json)

  // A number is held either as a 32-bit int or as a double; `fields` lists a
  // std::map in iteration order.
  datatype Json =
    | Null
    | Bool(b: bool)
    | Int(n: int)
    | Double(r: real)
    | Str(s: string)
    | Arr(items: seq<Json>)
    | Obj(fields: seq<Field>)

  // std::string::operator<, which compares bytes as unsigned numbers.
  predicate Less(a: string, b: string) {
    if b == [] then false
    else if a == [] then true
    else if a[0] != b[0] then a[0] < b[0]
    else Less(a[1..], b[1..])
  }

  lemma {:induction false} LessIsTotal(a: string, b: string)
    ensures a == b || Less(a, b) || Less(b, a)
  {
    if a != [] && b != [] && a[0] == b[0] {
      LessIsTotal(a[1..], b[1..]);
      assert a == [a[0]] + a[1..] && b == [b[0]] + b[1..];
    }
  }

  lemma {:induction false} LessIsStrict(a: string, b: string, c: string)
    ensures !Less(a, a)
    ensures Less(a, b) && Less(b, c) ==> Less(a, c)
  {
    if a != [] {
      LessIsStrict(a[1..], if b != [] then b[1..] else [], if c != [] then c[1..] else []);
    }
  }

  ghost predicate Sorted(fields: seq<Field>) {
    forall i, j :: 0 <= i < j < |fields| ==> Less(fields[i].key, fields[j].key)
  }

  // The values a program can build: 32-bit ints, and maps with ordered, distinct keys.
  ghost predicate WellFormed(v: Json) {
    match v
    case Int(n) => -0x8000_0000 <= n < 0x8000_0000
    case Arr(items) => forall i :: 0 <= i < |items| ==> WellFormed(items[i])
    case Obj(fields) => Sorted(fields) && forall i :: 0 <= i < |fields| ==> WellFormed(fields[i].value)
    case _ => true
  }

  // Json::operator==, under which an int equals the double of the same value.
  predicate Equal(a: Json, b: Json) {
    match (a, b)
    case (Null, Null) => true
    case (Bool(x), Bool(y)) => x == y
    case (Int(x), Int(y)) => x == y
    case (Int(x), Double(y)) => x as real == y
    case (Double(x), Int(y)) => x == y as real
    case (Double(x), Double(y)) => x == y
    case (Str(x), Str(y)) => x == y
    case (Arr(x), Arr(y)) =>
      |x| == |y| && forall i :: 0 <= i < |x| ==> Equal(x[i], y[i])
    case (Obj(x), Obj(y)) =>
      |x| == |y| && forall i :: 0 <= i < |x| ==> x[i].key == y[i].key && Equal(x[i].value, y[i].value)
    case _ => false
  }

  // An int and a double may be equal, and still equality is an equivalence.
  lemma {:induction false} EqualIsEquivalence(a: Json, b: Json, c: Json)
    ensures Equal(a, a)
    ensures Equal(a, b) ==> Equal(b, a)
    ensures Equal(a, b) && Equal(b, c) ==> Equal(a, c)
    decreases a
  {
    match a
    case Arr(x) =>
      forall i | 0 <= i < |x|
        ensures Equal(x[i], x[i])
        ensures b.Arr? && i < |b.items| && Equal(x[i], b.items[i]) ==> Equal(b.items[i], x[i])
        ensures b.Arr? && i < |b.items| && c.Arr? && i < |c.items| && Equal(x[i], b.items[i]) && Equal(b.items[i], c.items[i])
          ==> Equal(x[i], c.items[i])
      {
        EqualIsEquivalence(x[i], if b.Arr? && i < |b.items| then b.items[i] else Null,
          if c.Arr? && i < |c.items| then c.items[i] else Null);
      }
    case Obj(x) =>
      forall i | 0 <= i < |x|
        ensures Equal(x[i].value, x[i].value)
        ensures b.Obj? && i < |b.fields| && Equal(x[i].value, b.fields[i].value) ==> Equal(b.fields[i].value, x[i].value)
        ensures b.Obj? && i < |b.fields| && c.Obj? && i < |c.fields|
          && Equal(x[i].value, b.fields[i].value) && Equal(b.fields[i].value, c.fields[i].value)
          ==> Equal(x[i].value, c.fields[i].value)
      {
        EqualIsEquivalence(x[i].value, if b.Obj? && i < |b.fields| then b.fields[i].value else Null,
          if c.Obj? && i < |c.fields| then c.fields[i].value else Null);
      }
    case _ =>
  }

  // No node of v lies more than `room` levels below it.
  predicate Fits(v: Json, room: int) {
    && room >= 0
    && match v
       case Arr(items) => forall i :: 0 <= i < |items| ==> Fits(items[i], room - 1)
       case Obj(fields) => forall i :: 0 <= i < |fields| ==> Fits(fields[i].value, room - 1)
       case _ => true
  }

  predicate NoDoubles(v: Json) {
    match v
    case Double(_) => false
    case Arr(items) => forall i :: 0 <= i < |items| ==> NoDoubles(items[i])
    case Obj(fields) => forall i :: 0 <= i < |fields| ==> NoDoubles(fields[i].value)
    case _ => true
  }

  // Without doubles, equal values are the same.
  lemma {:induction false} EqualIsIdentity(a: Json, b: Json)
    requires NoDoubles(a) && NoDoubles(b)
    ensures Equal(a, b) <==> a == b
    decreases a
  {
    EqualIsEquivalence(a, a, a);
    if Equal(a, b) {
      match a
      case Arr(x) =>
        forall i | 0 <= i < |x| ensures x[i] == b.items[i] { EqualIsIdentity(x[i], b.items[i]); }
      case Obj(x) =>
        forall i | 0 <= i < |x| ensures x[i] == b.fields[i] { EqualIsIdentity(x[i].value, b.fields[i].value); }
      case _ =>
    }
  }

  // ----- printing -----

  function Digit(d: nat): char
    requires d < 10
  {
    ('0' as int + d) as char
  }

  function HexDigit(d: nat): char
    requires d < 16
  {
    if d < 10 then Digit(d) else ('a' as int + d - 10) as char
  }

  function EscapeByte(c: char): string {
    if c == '\\' then "\\\\"
    else if c == '"' then "\\\""
    else if c == 8 as char then "\\b"
    else if c == 12 as char then "\\f"
    else if c == '\n' then "\\n"
    else if c == '\r' then "\\r"
    else if c == '\t' then "\\t"
    else if c as int <= 0x1f then "\\u00" + [HexDigit(c as int / 16), HexDigit(c as int % 16)]
    else [c]
  }

  // The UTF-8 forms of U+2028 and U+2029, which are escaped as well.
  predicate IsSeparator(s: string) {
    |s| >= 3 && s[0] as int == 0xe2 && s[1] as int == 0x80 && (s[2] as int == 0xa8 || s[2] as int == 0xa9)
  }

  function Escape(s: string): string {
    if s == [] then []
    else if IsSeparator(s) then
      (if s[2] as int == 0xa8 then "\\u2028" else "\\u2029") + Escape(s[3..])
    else EscapeByte(s[0]) + Escape(s[1..])
  }

  function Quote(s: string): string {
    "\"" + Escape(s) + "\""
  }

  function Digits(n: nat): string {
    if n < 10 then [Digit(n)] else Digits(n / 10) + [Digit(n % 10)]
  }

  function DumpInt(n: int): string {
    if n < 0 then "-" + Digits(-n) else Digits(n)
  }

  // `show` stands for the printing of a finite double.
  function Dump(v: Json, show: real -> string): string
    decreases v, 0
  {
    match v
    case Null => "null"
    case Bool(b) => if b then "true" else "false"
    case Int(n) => DumpInt(n)
    case Double(r) => show(r)
    case Str(s) => Quote(s)
    case Arr(items) => "[" + DumpItems(items, show) + "]"
    case Obj(fields) => "{" + DumpFields(fields, show) + "}"
  }

  function DumpItems(items: seq<Json>, show: real -> string): string
    decreases items, 0
  {
    if items == [] then ""
    else Dump(items[0], show) + DumpMoreItems(items[1..], show)
  }

  function DumpMoreItems(items: seq<Json>, show: real -> string): string
    decreases items, 0
  {
    if items == [] then ""
    else ", " + Dump(items[0], show) + DumpMoreItems(items[1..], show)
  }

  function DumpField(f: Field, show: real -> string): string
    decreases f, 1
  {
    Quote(f.key) + ": " + Dump(f.value, show)
  }

  function DumpFields(fields: seq<Field>, show: real -> string): string
    decreases fields, 0
  {
    if fields == [] then ""
    else DumpField(fields[0], show) + DumpMoreFields(fields[1..], show)
  }

  function DumpMoreFields(fields: seq<Field>, show: real -> string): string
    decreases fields, 0
  {
    if fields == [] then ""
    else ", " + DumpField(fields[0], show) + DumpMoreFields(fields[1..], show)
  }
}

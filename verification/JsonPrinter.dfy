// `dump`, which appends the text of a value to a string byte by byte.
module JsonPrinter {
  import opened JsonValue

  lemma ArrayText(out: string, values: seq<Json>, show: real -> string)
    ensures out + Dump(Arr(values), show) == out + "[" + DumpItems(values, show) + "]"
  {
    var items := DumpItems(values, show);
    assert Dump(Arr(values), show) == "[" + items + "]";
    hide Dump, DumpItems;
    Append("[", items, "]");
    Append(out, "[", items + "]");
    Append(out + "[", items, "]");
  }

  lemma ObjectText(out: string, values: seq<Field>, show: real -> string)
    ensures out + Dump(Obj(values), show) == out + "{" + DumpFields(values, show) + "}"
  {
    var fields := DumpFields(values, show);
    assert Dump(Obj(values), show) == "{" + fields + "}";
    hide Dump, DumpFields;
    Append("{", fields, "}");
    Append(out, "{", fields + "}");
    Append(out + "{", fields, "}");
  }

  class Printer {
    var out: string
    const show: real -> string

    constructor (show: real -> string)
      ensures this.show == show && out == ""
    {
      this.show, out := show, "";
    }

    method DumpString(value: string)
      modifies this
      ensures out == old(out) + Quote(value)
    {
      assert Escape("") == "";
      hide EscapeByte, Escape, IsSeparator;
      ghost var before := out;
      assert value[0..] == value;
      out := out + "\"";
      var i := 0;
      while i < |value|
        invariant i <= |value|
        invariant out + Escape(value[i..]) == before + "\"" + Escape(value)
        decreases |value| - i
      {
        EscapeUnfold(value, i);
        if value[i] as int == 0xe2 && i + 2 < |value| && value[i + 1] as int == 0x80 && value[i + 2] as int == 0xa8 {
          Append(out, "\\u2028", Escape(value[i + 3..]));
          out := out + "\\u2028";
          i := i + 2;
        } else if value[i] as int == 0xe2 && i + 2 < |value| && value[i + 1] as int == 0x80 && value[i + 2] as int == 0xa9 {
          Append(out, "\\u2029", Escape(value[i + 3..]));
          out := out + "\\u2029";
          i := i + 2;
        } else {
          Append(out, EscapeByte(value[i]), Escape(value[i + 1..]));
          out := out + EscapeByte(value[i]);
        }
        i := i + 1;
      }
      assert value[i..] == [];
      assert out == before + "\"" + Escape(value);
      Append(before, "\"", Escape(value));
      Append(before, "\"" + Escape(value), "\"");
      out := out + "\"";
    }

    method DumpArray(values: seq<Json>)
      modifies this
      ensures out == old(out) + Dump(Arr(values), show)
      decreases values, 0
    {
      hide Dump, DumpItems, DumpMoreItems;
      ArrayText(out, values, show);
      ghost var total := out + "[" + DumpItems(values, show);
      ItemsLeftAtEnds(values, show);
      var first := true;
      out := out + "[";
      for k := 0 to |values|
        invariant first <==> k == 0
        invariant out + ItemsLeft(values, k, show) == total
      {
        hide ItemsLeft;
        ItemsLeftStep(values, k, show);
        if !first {
          Append(out, ", ", Dump(values[k], show) + ItemsLeft(values, k + 1, show));
          out := out + ", ";
        }
        Append(out, Dump(values[k], show), ItemsLeft(values, k + 1, show));
        DumpValue(values[k]);
        first := false;
      }
      out := out + "]";
    }

    method DumpObject(values: seq<Field>)
      modifies this
      ensures out == old(out) + Dump(Obj(values), show)
      decreases values, 0
    {
      hide Dump, DumpFields, DumpMoreFields, DumpField, Quote;
      ObjectText(out, values, show);
      ghost var total := out + "{" + DumpFields(values, show);
      FieldsLeftAtEnds(values, show);
      var first := true;
      out := out + "{";
      for k := 0 to |values|
        invariant first <==> k == 0
        invariant out + FieldsLeft(values, k, show) == total
      {
        hide FieldsLeft;
        FieldsLeftStep(values, k, show);
        if !first {
          Append(out, ", ", DumpField(values[k], show) + FieldsLeft(values, k + 1, show));
          out := out + ", ";
        }
        Append(out, DumpField(values[k], show), FieldsLeft(values, k + 1, show));
        FieldText(out, values[k], show);
        DumpString(values[k].key);
        out := out + ": ";
        DumpValue(values[k].value);
        first := false;
      }
      out := out + "}";
    }

    method DumpValue(v: Json)
      modifies this
      ensures out == old(out) + Dump(v, show)
      decreases v, 1
    {
      match v
      case Null => out := out + "null";
      case Bool(b) => out := out + if b then "true" else "false";
      case Int(n) => out := out + DumpInt(n);
      case Double(r) => out := out + show(r);
      case Str(s) => DumpString(s);
      case Arr(items) => DumpArray(items);
      case Obj(fields) => DumpObject(fields);
    }
  }

  // What is still to be printed before element k.
  ghost function ItemsLeft(values: seq<Json>, k: nat, show: real -> string): string
    requires k <= |values|
  {
    if k == 0 then DumpItems(values, show) else DumpMoreItems(values[k..], show)
  }

  lemma ItemsLeftAtEnds(values: seq<Json>, show: real -> string)
    ensures ItemsLeft(values, 0, show) == DumpItems(values, show)
    ensures ItemsLeft(values, |values|, show) == ""
  {
    hide Dump;
  }

  lemma ItemsLeftStep(values: seq<Json>, k: nat, show: real -> string)
    requires k < |values|
    ensures var rest := Dump(values[k], show) + ItemsLeft(values, k + 1, show);
      ItemsLeft(values, k, show) == if k == 0 then rest else ", " + rest
  {
    hide Dump;
    assert values[k..][1..] == values[k + 1..] && values[0..] == values;
    Append(", ", Dump(values[k], show), DumpMoreItems(values[k + 1..], show));
  }

  ghost function FieldsLeft(values: seq<Field>, k: nat, show: real -> string): string
    requires k <= |values|
  {
    if k == 0 then DumpFields(values, show) else DumpMoreFields(values[k..], show)
  }

  lemma FieldsLeftAtEnds(values: seq<Field>, show: real -> string)
    ensures FieldsLeft(values, 0, show) == DumpFields(values, show)
    ensures FieldsLeft(values, |values|, show) == ""
  {
    hide DumpField;
  }

  lemma FieldsLeftStep(values: seq<Field>, k: nat, show: real -> string)
    requires k < |values|
    ensures var rest := DumpField(values[k], show) + FieldsLeft(values, k + 1, show);
      FieldsLeft(values, k, show) == if k == 0 then rest else ", " + rest
  {
    hide DumpField;
    assert values[k..][1..] == values[k + 1..] && values[0..] == values;
    Append(", ", DumpField(values[k], show), DumpMoreFields(values[k + 1..], show));
  }

  lemma FieldText(out: string, f: Field, show: real -> string)
    ensures ((out + Quote(f.key)) + ": ") + Dump(f.value, show) == out + DumpField(f, show)
  {
    hide Quote, Dump;
    Append(out, Quote(f.key), ": ");
    Append(out, Quote(f.key) + ": ", Dump(f.value, show));
  }

  lemma Append(a: string, b: string, c: string)
    ensures (a + b) + c == a + (b + c)
  {
  }

  lemma EscapeUnfold(value: string, i: nat)
    requires i < |value|
    ensures IsSeparator(value[i..]) <==>
      (value[i] as int == 0xe2 && i + 2 < |value|
       && value[i + 1] as int == 0x80 && (value[i + 2] as int == 0xa8 || value[i + 2] as int == 0xa9))
    ensures IsSeparator(value[i..]) ==>
      Escape(value[i..]) == (if value[i + 2] as int == 0xa8 then "\\u2028" else "\\u2029") + Escape(value[i + 3..])
    ensures !IsSeparator(value[i..]) ==> Escape(value[i..]) == EscapeByte(value[i]) + Escape(value[i + 1..])
  {
    if IsSeparator(value[i..]) {
      assert value[i..][3..] == value[i + 3..];
    } else {
      assert value[i..][1..] == value[i + 1..];
    }
  }
}

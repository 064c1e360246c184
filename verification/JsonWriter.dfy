/**
 * The bounded JSON writer: it appends into a buffer of fixed size and marks itself failed at the
 * first text that does not fit, so one check at the end answers for the whole object.
 */
module JsonWriter {
  import opened Common
  import opened Decimals
  import opened JsonText
  import opened JsonReader

  /** Below this magnitude an integral number is written without exponent or point. */
  const EXACT_LIMIT := 1_000_000_000_000_000

  /** `printf("%.17g")`: used for every other number. */
  type Printer = real -> string

  // ---- the ideal text -----------------------------------------------------------------------------------

  function IntText(n: int): string {
    if n < 0 then "-" + PrintNat(-n) else PrintNat(n)
  }

  predicate Exact(x: real) {
    x == x.Floor as real && -EXACT_LIMIT < x.Floor < EXACT_LIMIT
  }

  function NumberText(print_: Printer, x: real): string {
    if Exact(x) then IntText(x.Floor) else print_(x)
  }

  /** The writer has no array fields. */
  predicate Writable(v: Value) {
    !v.Texts?
  }

  function ValueText(print_: Printer, v: Value): string
    requires Writable(v)
  {
    match v
    case Text(text) => Quoted(text)
    case Null => "null"
    case Number(number) => NumberText(print_, number)
    case Truth(truth) => if truth then "true" else "false"
  }

  /** A comma unless the text so far is empty or ends by opening the object. */
  function Separator(content: string): string {
    if |content| > 1 && content[|content| - 1] != '{' then "," else ""
  }

  function FieldText(print_: Printer, f: Field): string
    requires Writable(f.value)
  {
    Quoted(f.key) + ":" + ValueText(print_, f.value)
  }

  predicate AllWritable(fields: seq<Field>) {
    forall i :: 0 <= i < |fields| ==> Writable(fields[i].value)
  }

  /** The fields with commas between them. */
  function FieldsText(print_: Printer, fields: seq<Field>): string
    requires AllWritable(fields)
  {
    if fields == [] then ""
    else if |fields| == 1 then FieldText(print_, fields[0])
    else FieldsText(print_, fields[..|fields| - 1]) + "," + FieldText(print_, fields[|fields| - 1])
  }

  function ObjectText(print_: Printer, fields: seq<Field>): string
    requires AllWritable(fields)
  {
    "{" + FieldsText(print_, fields) + "}"
  }

  lemma {:induction false} EscapedSnoc(s: string, c: char)
    ensures Escaped(s + [c]) == Escaped(s) + Spell(UnitOf(c))
  {
    UnitsSnoc(s, c);
    SpellSnoc(UnitsOf(s), UnitOf(c));
  }

  lemma {:induction false} UnitsSnoc(s: string, c: char)
    ensures UnitsOf(s + [c]) == UnitsOf(s) + [UnitOf(c)]
  {
    if s == "" {
    } else {
      UnitsSnoc(s[1..], c);
      assert (s + [c])[1..] == s[1..] + [c];
    }
  }

  lemma {:induction false} SpellSnoc(us: seq<Unit>, u: Unit)
    ensures SpellAll(us + [u]) == SpellAll(us) + Spell(u)
  {
    if us == [] {
      assert us + [u] == [u] && [u][1..] == [];
    } else {
      SpellSnoc(us[1..], u);
      assert (us + [u])[1..] == us[1..] + [u];
      Associate(Spell(us[0]), SpellAll(us[1..]), Spell(u));
    }
  }

  lemma {:induction false} EscapedGrows(s: string, i: nat)
    requires i <= |s|
    ensures |Escaped(s[..i])| <= |Escaped(s)|
    decreases |s| - i
  {
    if i < |s| {
      assert s[..i + 1] == s[..i] + [s[i]];
      EscapedSnoc(s[..i], s[i]);
      EscapedGrows(s, i + 1);
    } else {
      assert s[..i] == s;
    }
  }

  /** What appending `text` to a buffer of that capacity makes of content and failure flag. */
  predicate After(capacity: nat, before: string, wasFailed: bool, text: string, content: string, failed: bool) {
    && failed == (wasFailed || |before| + |text| + 1 > capacity)
    && (!failed ==> content == before + text)
  }

  /** Writing one text and then another is writing both. */
  lemma Both(capacity: nat, c0: string, f0: bool, first: string, c1: string, f1: bool, second: string, c2: string, f2: bool)
    requires After(capacity, c0, f0, first, c1, f1) && After(capacity, c1, f1, second, c2, f2)
    ensures After(capacity, c0, f0, first + second, c2, f2)
  {
  }

  lemma Quotes(head: string, body: string)
    ensures head + "\"" + body + "\"" == head + ("\"" + body + "\"")
    ensures head + "\"" + body + "\":" == head + ("\"" + body + "\"") + ":"
  {
  }

  // ---- the writer ------------------------------------------------------------------------------------------

  class Writer {
    const buffer: array<char>
    var length: nat
    var failed: bool

    /** The buffer is terminated right behind what was written. */
    ghost predicate Valid()
      reads this, buffer
    {
      if buffer.Length == 0 then failed && length == 0 else length < buffer.Length && buffer[length] == NUL
    }

    function Content(): (s: string)
      reads this, buffer
      requires length <= buffer.Length
      ensures |s| == length
    {
      buffer[..length]
    }

    /** `text` was appended, or did not fit; a failed writer stays failed. */
    ghost predicate Wrote(before: string, wasFailed: bool, text: string)
      reads this, buffer
    {
      Valid() && After(buffer.Length, before, wasFailed, text, Content(), failed)
    }

    constructor (target: array<char>)
      modifies target
      ensures buffer == target && Valid() && Content() == "" && failed == (target.Length == 0)
    {
      buffer := target;
      length, failed := 0, target.Length == 0;
      new;
      if target.Length > 0 {
        target[0] := NUL;
      }
    }

    method WriteBytes(text: string)
      requires Valid()
      modifies this, buffer
      ensures Wrote(old(Content()), old(failed), text)
    {
      if failed {
        return;
      }
      if length + |text| + 1 > buffer.Length {
        failed := true;
        return;
      }
      forall i | 0 <= i < |text| {
        buffer[length + i] := text[i];
      }
      length := length + |text|;
      buffer[length] := NUL;
    }

    method WriteEscaped(value: string)
      requires Valid()
      modifies this, buffer
      ensures Wrote(old(Content()), old(failed), Escaped(value))
    {
      ghost var before, was := Content(), failed;
      var i := 0;
      while i < |value| && !failed
        invariant i <= |value| && Wrote(before, was, Escaped(value[..i]))
      {
        assert value[..i + 1] == value[..i] + [value[i]];
        EscapedSnoc(value[..i], value[i]);
        ghost var c, f, done, more := Content(), failed, Escaped(value[..i]), Spell(UnitOf(value[i]));
        WriteUnit(value[i]);
        Both(buffer.Length, before, was, done, c, f, more, Content(), failed);
        i := i + 1;
      }
      EscapedGrows(value, i);
      assert i == |value| ==> value[..i] == value;
    }

    /** One character, escaped where the grammar demands it. */
    method WriteUnit(c: char)
      requires Valid()
      modifies this, buffer
      ensures Wrote(old(Content()), old(failed), Spell(UnitOf(c)))
    {
      if c == '"' {
        WriteBytes("\\\"");
      } else if c == '\\' {
        WriteBytes("\\\\");
      } else if c == 8 as char {
        WriteBytes("\\b");
      } else if c == 12 as char {
        WriteBytes("\\f");
      } else if c == '\n' {
        WriteBytes("\\n");
      } else if c == '\r' {
        WriteBytes("\\r");
      } else if c == '\t' {
        WriteBytes("\\t");
      } else if c < ' ' {
        WriteBytes("\\u00" + [LowerHex(c as nat / 16), LowerHex(c as nat % 16)]);
      } else {
        WriteBytes([c]);
      }
    }

    method BeginObject()
      requires Valid()
      modifies this, buffer
      ensures Wrote(old(Content()), old(failed), "{")
    {
      WriteBytes("{");
    }

    method EndObject()
      requires Valid()
      modifies this, buffer
      ensures Wrote(old(Content()), old(failed), "}")
    {
      WriteBytes("}");
    }

    method BeginField(key: string)
      requires Valid()
      modifies this, buffer
      ensures Wrote(old(Content()), old(failed), Separator(old(Content())) + Quoted(key) + ":")
    {
      ghost var before, was := Content(), failed;
      if length > 1 && buffer[length - 1] != '{' {
        WriteBytes(",");
      }
      assert Wrote(before, was, Separator(before));
      ghost var c1, f1 := Content(), failed;
      WriteBytes("\"");
      Both(buffer.Length, before, was, Separator(before), c1, f1, "\"", Content(), failed);
      ghost var c2, f2 := Content(), failed;
      WriteEscaped(key);
      Both(buffer.Length, before, was, Separator(before) + "\"", c2, f2, Escaped(key), Content(), failed);
      ghost var c3, f3 := Content(), failed;
      WriteBytes("\":");
      Both(buffer.Length, before, was, Separator(before) + "\"" + Escaped(key), c3, f3, "\":", Content(), failed);
      Quotes(Separator(before), Escaped(key));
    }

    method FieldString(key: string, value: string)
      requires Valid()
      modifies this, buffer
      ensures Wrote(old(Content()), old(failed), Separator(old(Content())) + Quoted(key) + ":" + Quoted(value))
    {
      if failed {
        return;
      }
      ghost var before, was := Content(), failed;
      BeginField(key);
      ghost var text := Separator(before) + Quoted(key) + ":";
      ghost var c1, f1 := Content(), failed;
      WriteBytes("\"");
      Both(buffer.Length, before, was, text, c1, f1, "\"", Content(), failed);
      ghost var c2, f2 := Content(), failed;
      WriteEscaped(value);
      Both(buffer.Length, before, was, text + "\"", c2, f2, Escaped(value), Content(), failed);
      ghost var c3, f3 := Content(), failed;
      WriteBytes("\"");
      Both(buffer.Length, before, was, text + "\"" + Escaped(value), c3, f3, "\"", Content(), failed);
      Quotes(text, Escaped(value));
    }

    /** A field whose value is written as it stands. */
    method FieldRaw(key: string, text: string)
      requires Valid()
      modifies this, buffer
      ensures Wrote(old(Content()), old(failed), Separator(old(Content())) + Quoted(key) + ":" + text)
    {
      if failed {
        return;
      }
      ghost var before, was := Content(), failed;
      BeginField(key);
      ghost var c1, f1 := Content(), failed;
      WriteBytes(text);
      Both(buffer.Length, before, was, Separator(before) + Quoted(key) + ":", c1, f1, text, Content(), failed);
    }

    method FieldNumber(print_: Printer, key: string, value: real)
      requires Valid()
      modifies this, buffer
      ensures Wrote(old(Content()), old(failed), Separator(old(Content())) + Quoted(key) + ":" + NumberText(print_, value))
    {
      var text;
      if value == value.Floor as real && -EXACT_LIMIT < value.Floor < EXACT_LIMIT {
        text := IntText(value.Floor);
      } else {
        text := print_(value);
      }
      FieldRaw(key, text);
    }

    method FieldBool(key: string, value: bool)
      requires Valid()
      modifies this, buffer
      ensures Wrote(old(Content()), old(failed),
                    Separator(old(Content())) + Quoted(key) + ":" + (if value then "true" else "false"))
    {
      FieldRaw(key, if value then "true" else "false");
    }

    method FieldNull(key: string)
      requires Valid()
      modifies this, buffer
      ensures Wrote(old(Content()), old(failed), Separator(old(Content())) + Quoted(key) + ":" + "null")
    {
      FieldRaw(key, "null");
    }
  }
}

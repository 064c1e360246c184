/**
 * The flat-object JSON reader: one object of strings, numbers, booleans, nulls and string arrays,
 * nothing nested. The cursor is the rest of the C string it points into.
 */
module JsonReader {
  import opened Common
  import opened JsonText

  const MAX_FIELDS := 16
  const MAX_KEY := 64

  /** A null is a string field without a string. */
  datatype Value = Text(text: string) | Null | Number(number: real) | Truth(truth: bool) | Texts(items: seq<string>)

  datatype Field = Field(key: string, value: Value)

  /** The C library's `strtod`: the number a text starts with, and how many characters it takes. */
  type Strtod = f: string -> (real, nat) | forall s :: f(s).1 <= |s| witness s => (0.0, 0)

  // ---- what a text means --------------------------------------------------------------------------------

  predicate IsSpace(c: char) {
    c == ' ' || c == '\t' || c == '\n' || c == '\r'
  }

  function Skip(s: string): (r: string)
    ensures |r| <= |s|
  {
    if s != "" && IsSpace(s[0]) then Skip(s[1..]) else s
  }

  /** A quoted string and what follows it. */
  function StringAt(s: string): (r: Option<(string, string)>)
    ensures r.Some? ==> |r.value.1| < |s|
  {
    if Head(s) != '"' then None
    else
      var scanned := Scan(s[1..]);
      if scanned == None then None else Some((CString(scanned.value.0), scanned.value.1))
  }

  /** Reads one item of a text: the item and what follows it, which is shorter. */
  type Reading<T> = f: string -> Option<(T, string)> | forall s :: f(s).Some? ==> |f(s).value.1| < |s| witness s => None

  /** Items separated by commas up to a closing character; at most `room` of them. */
  function ListAt<T>(read: Reading<T>, close: char, s: string, room: nat): (r: Option<(seq<T>, string)>)
    ensures r.Some? ==> |r.value.1| < |s|
    decreases |s|
  {
    if room == 0 then None
    else
      var item := read(Skip(s));
      if item.None? then None
      else
        var rest := Skip(item.value.1);
        if Head(rest) == ',' then Prefixed([item.value.0], ListAt(read, close, rest[1..], room - 1))
        else if Head(rest) == close && rest != "" then Some(([item.value.0], rest[1..]))
        else None
  }

  function ArrayAt(s: string): (r: Option<(seq<string>, string)>)
    ensures r.Some? ==> |r.value.1| < |s|
  {
    var items := Skip(s);
    if Head(items) == ']' then Some(([], items[1..]))
    // There are fewer items than characters, so this sets no limit.
    else ListAt(StringAt, ']', items, |s|)
  }

  function ValueAt(strtod: Strtod, s: string): (r: Option<(Value, string)>)
    ensures r.Some? ==> |r.value.1| < |s|
  {
    if Head(s) == '[' then
      var items := ArrayAt(s[1..]);
      if items == None then None else Some((Texts(items.value.0), items.value.1))
    else if Head(s) == '"' then
      var text := StringAt(s);
      if text == None then None else Some((Text(text.value.0), text.value.1))
    else if "true" <= s then Some((Truth(true), s[4..]))
    else if "false" <= s then Some((Truth(false), s[5..]))
    else if "null" <= s then Some((Null, s[4..]))
    else
      var (number, length) := strtod(s);
      if length == 0 then None else Some((Number(number), s[length..]))
  }

  /** One key, its colon and its value. */
  function FieldAt(strtod: Strtod, s: string): (r: Option<(Field, string)>)
    ensures r.Some? ==> |r.value.1| < |s|
  {
    var key := StringAt(s);
    if key == None || |key.value.0| >= MAX_KEY then None
    else
      var colon := Skip(key.value.1);
      if Head(colon) != ':' then None
      else
        var value := ValueAt(strtod, Skip(colon[1..]));
        if value == None then None else Some((Field(key.value.0, value.value.0), value.value.1))
  }

  function FieldReading(strtod: Strtod): Reading<Field> {
    s => FieldAt(strtod, s)
  }

  /** What stands behind the opening brace. */
  function BodyAt(strtod: Strtod, s: string): Option<(seq<Field>, string)> {
    if Head(s) == '}' then Some(([], s[1..])) else ListAt(FieldReading(strtod), '}', s, MAX_FIELDS)
  }

  /** The fields of a text that is one flat object and nothing else. */
  function Parse(strtod: Strtod, text: string): Option<seq<Field>> {
    var open := Skip(text);
    if Head(open) != '{' then None
    else
      var body := BodyAt(strtod, Skip(open[1..]));
      if body == None || Head(Skip(body.value.1)) != NUL then None else Some(body.value.0)
  }

  // ---- looking fields up -------------------------------------------------------------------------------------

  /** The first field of that name holding a string or a null; a null gives no string. */
  function GetString(fields: seq<Field>, key: string): Option<string> {
    if fields == [] then None
    else if fields[0].key == key && fields[0].value.Text? then Some(fields[0].value.text)
    else if fields[0].key == key && fields[0].value.Null? then None
    else GetString(fields[1..], key)
  }

  function GetNumber(fields: seq<Field>, key: string): Option<real> {
    if fields == [] then None
    else if fields[0].key == key && fields[0].value.Number? then Some(fields[0].value.number)
    else GetNumber(fields[1..], key)
  }

  /** A string field as a buffer of `size` bytes holds it; empty if there is none. */
  function Member(fields: seq<Field>, key: string, size: nat): string
    requires size > 0
  {
    var value := GetString(fields, key);
    if value == None then "" else CopyBounded(size, value.value)
  }

  /** A buffer of `size` bytes holds what the fields say under that name, cut if need be; nothing if they say nothing. */
  predicate Taken(kept: string, fields: seq<Field>, key: string, size: nat) {
    CutTo(kept, if GetString(fields, key) == None then "" else GetString(fields, key).value, size)
  }

  // ---- the code -------------------------------------------------------------------------------------------------

  class Reader {
    var cursor: string

    constructor (text: string)
      ensures cursor == text
    {
      cursor := text;
    }

    function Peek(): char
      reads this
    {
      Head(cursor)
    }

    method SkipWhitespace()
      modifies this
      ensures cursor == Skip(old(cursor))
    {
      while Peek() == ' ' || Peek() == '\t' || Peek() == '\n' || Peek() == '\r'
        invariant Skip(cursor) == Skip(old(cursor))
        decreases |cursor|
      {
        cursor := cursor[1..];
      }
    }

    /** Four hexadecimal digits; the cursor stays put if there are fewer. */
    method ReadHex4() returns (value: Option<nat>)
      modifies this
      ensures value == if FourDigits(old(cursor)) then Some(Hex4(old(cursor))) else None
      ensures cursor == if value.Some? then old(cursor)[4..] else old(cursor)
      ensures value.Some? ==> value.value < 0x1_0000
    {
      var v: nat := 0;
      for i := 0 to 4
        invariant i <= |cursor| && cursor == old(cursor)
        invariant forall k :: 0 <= k < i ==> HexDigit(cursor[k]).Some?
        invariant v == if i == 0 then 0 else Leading(cursor, i)
      {
        var digit := HexDigit(Head(cursor[i..]));
        if digit == None {
          return None;
        }
        v := v * 16 + digit.value;
      }
      assert Leading(cursor, 2) == HexDigit(cursor[0]).value * 16 + HexDigit(cursor[1]).value;
      value := Some(v);
      cursor := cursor[4..];
    }

    /** What stands behind a backslash, as bytes. */
    method ReadEscape() returns (bytes: Option<string>)
      modifies this
      ensures bytes == match EscapeAt(old(cursor)) case None => None case Some(e) => Some(e.0)
      ensures bytes.Some? ==> cursor == old(cursor)[EscapeAt(old(cursor)).value.1..]
    {
      var escape := Peek();
      var short := ShortEscape(escape);
      if short.Some? {
        cursor := cursor[1..];
        return Some([short.value]);
      }
      if escape != 'u' {
        return None;
      }
      ghost var start := cursor;
      cursor := cursor[1..];
      var high := ReadHex4();
      if high == None {
        return None;
      }
      assert cursor == start[5..];
      if HighSurrogate(high.value) && |cursor| >= 2 && cursor[0] == '\\' && cursor[1] == 'u' {
        cursor := cursor[2..];
        assert cursor == start[7..];
        var low := ReadHex4();
        if low == None {
          return None;
        }
        return Some(Utf8(PairValue(high.value, low.value)));
      }
      return Some(Utf8(high.value));
    }

    /** A quoted string, as the C string its content makes. */
    method ReadString() returns (text: Option<string>)
      modifies this
      ensures text == match StringAt(old(cursor)) case None => None case Some(r) => Some(r.0)
      ensures text.Some? ==> cursor == StringAt(old(cursor)).value.1
    {
      if Peek() != '"' {
        return None;
      }
      cursor := cursor[1..];
      var buffer := "";
      ghost var whole := Scan(cursor);
      Extend("", "", whole);
      while Peek() != NUL && Peek() != '"'
        invariant whole == Prefixed(buffer, Scan(cursor))
        decreases |cursor|
      {
        if Peek() != '\\' {
          Extend(buffer, [cursor[0]], Scan(cursor[1..]));
          buffer := buffer + [cursor[0]];
          cursor := cursor[1..];
          continue;
        }
        ghost var start := cursor;
        cursor := cursor[1..];
        var bytes := ReadEscape();
        if bytes == None {
          return None;
        }
        assert cursor == start[1 + EscapeAt(start[1..]).value.1..];
        Extend(buffer, bytes.value, Scan(cursor));
        buffer := buffer + bytes.value;
      }
      if Peek() != '"' {
        return None;
      }
      cursor := cursor[1..];
      assert buffer + "" == buffer;
      return Some(CString(buffer));
    }

    /** The array behind an opening bracket. */
    method ReadStringArray() returns (items: Option<seq<string>>)
      requires Peek() == '['
      modifies this
      ensures items == match ArrayAt(old(cursor)[1..]) case None => None case Some(r) => Some(r.0)
      ensures items.Some? ==> cursor == ArrayAt(old(cursor)[1..]).value.1
    {
      cursor := cursor[1..];
      ghost var room := |cursor|;
      SkipWhitespace();
      if Peek() == ']' {
        cursor := cursor[1..];
        return Some([]);
      }
      items := ReadItems(StringAt, room);
    }

    /** `read` is how one item is read. */
    method ReadItems(ghost read: Reading<string>, ghost limit: nat) returns (items: Option<seq<string>>)
      requires ReadsStrings(read) && |cursor| <= limit
      modifies this
      ensures
        var whole := ListAt(read, ']', old(cursor), limit);
        match whole case None => items == None case Some(r) => items == Some(r.0) && cursor == r.1
    {
      var list: seq<string> := [];
      ghost var room := limit;
      ghost var whole := ListAt(read, ']', cursor, room);
      Extend([], [], whole);
      while true
        invariant |cursor| <= room && whole == Prefixed(list, ListAt(read, ']', cursor, room))
        decreases |cursor|
      {
        ghost var start := cursor;
        SkipWhitespace();
        var item := ReadItem(read);
        if item == None {
          return None;
        }
        SkipWhitespace();
        ListStep(read, ']', start, room, list, item.value, cursor);
        if Peek() == ',' {
          cursor := cursor[1..];
          room := room - 1;
          list := list + [item.value];
          continue;
        }
        if Peek() == ']' {
          cursor := cursor[1..];
          return Some(list + [item.value]);
        }
        return None;
      }
    }

    method ReadItem(ghost read: Reading<string>) returns (item: Option<string>)
      requires ReadsStrings(read)
      modifies this
      ensures match read(old(cursor)) case None => item == None case Some(r) => item == Some(r.0) && cursor == r.1
    {
      item := ReadString();
    }

    method ReadValue(strtod: Strtod) returns (value: Option<Value>)
      modifies this
      ensures value == match ValueAt(strtod, old(cursor)) case None => None case Some(r) => Some(r.0)
      ensures value.Some? ==> cursor == ValueAt(strtod, old(cursor)).value.1
    {
      if Peek() == '[' {
        var items := ReadStringArray();
        return match items case None => None case Some(list) => Some(Texts(list));
      }
      if Peek() == '"' {
        var text := ReadString();
        return match text case None => None case Some(t) => Some(Text(t));
      }
      if "true" <= cursor {
        cursor := cursor[4..];
        return Some(Truth(true));
      }
      if "false" <= cursor {
        cursor := cursor[5..];
        return Some(Truth(false));
      }
      if "null" <= cursor {
        cursor := cursor[4..];
        return Some(Null);
      }
      var (number, length) := strtod(cursor);
      if length == 0 {
        return None;
      }
      cursor := cursor[length..];
      return Some(Number(number));
    }

    /** A field and the white space around it. */
    method NextField(strtod: Strtod, ghost read: Reading<Field>) returns (field: Option<Field>)
      requires ReadsFields(read, strtod)
      modifies this
      ensures
        match read(Skip(old(cursor)))
        case None => field == None
        case Some(r) => field == Some(r.0) && cursor == Skip(r.1) && |cursor| < |old(cursor)|
    {
      SkipWhitespace();
      field := ReadField(strtod, read);
      SkipWhitespace();
    }

    method ReadField(strtod: Strtod, ghost read: Reading<Field>) returns (field: Option<Field>)
      requires ReadsFields(read, strtod)
      modifies this
      ensures match read(old(cursor)) case None => field == None case Some(r) => field == Some(r.0) && cursor == r.1
    {
      assert read(cursor) == FieldAt(strtod, cursor);
      var key := ReadString();
      if key == None || |key.value| >= MAX_KEY {
        return None;
      }
      SkipWhitespace();
      if Peek() != ':' {
        return None;
      }
      cursor := cursor[1..];
      SkipWhitespace();
      var value := ReadValue(strtod);
      return match value case None => None case Some(v) => Some(Field(key.value, v));
    }

    /** The fields up to and including the closing brace; `read` is how one field is read. */
    method ReadFields(strtod: Strtod, ghost read: Reading<Field>, limit: nat) returns (ok: bool, fields: seq<Field>)
      requires ReadsFields(read, strtod)
      modifies this
      ensures
        match ListAt(read, '}', old(cursor), limit)
        case None => !ok
        case Some(r) => ok && fields == r.0 && cursor == r.1
    {
      fields := [];
      ghost var room: nat := limit;
      ghost var whole := ListAt(read, '}', cursor, room);
      Extend([], [], whole);
      while true
        invariant room == limit - |fields| && whole == Prefixed(fields, ListAt(read, '}', cursor, room))
        decreases |cursor|
      {
        ghost var start := cursor;
        if |fields| >= limit {
          return false, [];
        }
        var field := NextField(strtod, read);
        if field == None {
          return false, [];
        }
        ListStep(read, '}', start, room, fields, field.value, cursor);
        fields := fields + [field.value];
        if Peek() == ',' {
          cursor := cursor[1..];
          room := room - 1;
          continue;
        }
        if Peek() == '}' {
          cursor := cursor[1..];
          return true, fields;
        }
        return false, [];
      }
    }
  }

  /** These two say what a reading reads, when asked about the specification's own terms. */
  ghost predicate ReadsStrings(read: Reading<string>) {
    forall s {:trigger StringAt(s)} :: read(s) == StringAt(s)
  }

  ghost predicate ReadsFields(read: Reading<Field>, strtod: Strtod) {
    forall s {:trigger FieldAt(strtod, s)} :: read(s) == FieldAt(strtod, s)
  }

  lemma FieldReadingReads(strtod: Strtod)
    ensures ReadsFields(FieldReading(strtod), strtod)
  {
  }

  /** One turn of a list loop that has read `list` so far and now stands at `next`. */
  lemma ListStep<T>(read: Reading<T>, close: char, s: string, room: nat, list: seq<T>, item: T, next: string)
    requires room > 0 && close != ',' && close != NUL
    requires match read(Skip(s)) case None => false case Some(r) => item == r.0 && next == Skip(r.1)
    ensures
      Prefixed(list, ListAt(read, close, s, room))
        == if Head(next) == ',' && next != "" then Prefixed(list + [item], ListAt(read, close, next[1..], room - 1))
           else if Head(next) == close && next != "" then Some((list + [item], next[1..]))
           else None
  {
    if next != "" && Head(next) == ',' {
      Extend(list, [item], ListAt(read, close, next[1..], room - 1));
    }
  }

  function Leading(s: string, n: nat): nat
    requires 1 <= n <= 4 && n <= |s| && forall k :: 0 <= k < n ==> HexDigit(s[k]).Some?
  {
    (if n == 1 then 0 else Leading(s, n - 1)) * 16 + HexDigit(s[n - 1]).value
  }

  /** Reads one flat object; any failure leaves no fields behind. */
  method ParseFlat(strtod: Strtod, text: string) returns (status: Status, fields: seq<Field>)
    ensures status == if Parse(strtod, text).Some? then Ok else Encoding
    ensures fields == if Parse(strtod, text).Some? then Parse(strtod, text).value else []
  {
    var reader := new Reader(text);
    reader.SkipWhitespace();
    if reader.Peek() != '{' {
      return Encoding, [];
    }
    reader.cursor := reader.cursor[1..];
    reader.SkipWhitespace();
    if reader.Peek() == '}' {
      reader.cursor := reader.cursor[1..];
      reader.SkipWhitespace();
      return if reader.Peek() == NUL then Ok else Encoding, [];
    }
    var ok;
    FieldReadingReads(strtod);
    ok, fields := reader.ReadFields(strtod, FieldReading(strtod), MAX_FIELDS);
    if !ok {
      return Encoding, [];
    }
    reader.SkipWhitespace();
    if reader.Peek() != NUL {
      return Encoding, [];
    }
    return Ok, fields;
  }
}

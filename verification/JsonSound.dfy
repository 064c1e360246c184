/**
 * The converse of what the reader must accept: whatever it does accept is one flat object and nothing
 * else, and what it returns is what that object's text says.
 */
module JsonSound {
  import opened Common
  import opened JsonText
  import opened JsonReader
  import opened JsonRoundTrip

  // ---- texts as they are accepted ----------------------------------------------------------------------------

  /** A value as it stands in a text; a number is any characters the C library takes for one. */
  datatype SeenValue =
    | SeenText(us: seq<Unit>)
    | SeenNull
    | SeenTruth(truth: bool)
    | SeenNumber(chars: string, number: real)
    | SeenEmpty(inner: string)
    | SeenTexts(items: seq<StringSpelling>)

  datatype SeenField = SeenField(key: StringSpelling, gap: string, value: SeenValue, after: string)

  /** A whole text: an object between white space; `inner` is the white space an empty one holds. */
  datatype SeenObject = SeenObject(before: string, inner: string, fields: seq<SeenField>, after: string)

  predicate SeenString(s: StringSpelling) {
    AllSpace(s.before) && AllSpellable(s.us) && AllSpace(s.after)
  }

  predicate AllStrings(items: seq<StringSpelling>) {
    forall i :: 0 <= i < |items| ==> SeenString(items[i])
  }

  /** `rest` is what follows, which decides how far a number goes. */
  predicate SeenOk(strtod: Strtod, v: SeenValue, rest: string) {
    match v
    case SeenText(us) => AllSpellable(us)
    case SeenNumber(chars, number) => chars != "" && strtod(chars + rest) == (number, |chars|)
    case SeenEmpty(inner) => AllSpace(inner)
    case SeenTexts(items) => items != [] && AllStrings(items)
    case _ => true
  }

  function SeenThen(v: SeenValue, rest: string): string {
    match v
    case SeenText(us) => QuotedThen(us, rest)
    case SeenNull => "null" + rest
    case SeenTruth(truth) => (if truth then "true" else "false") + rest
    case SeenNumber(chars, _) => chars + rest
    case SeenEmpty(inner) => "[" + (inner + ("]" + rest))
    case SeenTexts(items) => "[" + ListThen(StringThen, ']', items, rest)
  }

  function SeenFieldThen(f: SeenField, rest: string): string {
    StringThen(f.key, ":" + (f.gap + SeenThen(f.value, f.after + rest)))
  }

  predicate SeenFieldOk(strtod: Strtod, f: SeenField, rest: string) {
    && SeenString(f.key) && |Said(f.key)| < 64
    && AllSpace(f.gap) && SeenOk(strtod, f.value, f.after + rest) && AllSpace(f.after)
  }

  /** Every item of a list is right where it stands: in front of a comma and more items, or of the closing character. */
  predicate AllRight<S>(spell: (S, string) -> string, right: (S, string) -> bool, close: char, xs: seq<S>, rest: string) {
    xs == [] ||
    (right(xs[0], if |xs| == 1 then [close] + rest else [','] + ListThen(spell, close, xs[1..], rest))
     && AllRight(spell, right, close, xs[1..], rest))
  }

  function Right(strtod: Strtod): (SeenField, string) -> bool {
    (f, rest) => SeenFieldOk(strtod, f, rest)
  }

  function SeenObjectThen(o: SeenObject, rest: string): string {
    o.before + ("{" + (if o.fields == [] then o.inner + ("}" + (o.after + rest))
                       else ListThen(SeenFieldThen, '}', o.fields, o.after + rest)))
  }

  predicate SeenObjectOk(strtod: Strtod, o: SeenObject, rest: string) {
    && AllSpace(o.before) && AllSpace(o.inner) && AllSpace(o.after)
    && |o.fields| <= 16 && AllRight(SeenFieldThen, Right(strtod), '}', o.fields, o.after + rest)
  }

  // ---- what they say ------------------------------------------------------------------------------------------

  /** The C string that the pieces of a string make. */
  function Meant(us: seq<Unit>): string {
    if AllSpellable(us) then CString(MeaningAll(us)) else ""
  }

  function Said(s: StringSpelling): string {
    Meant(s.us)
  }

  /** What a list says, item by item. */
  function Mapped<S, T>(say: S -> T, xs: seq<S>): (r: seq<T>)
    ensures |r| == |xs| && forall i :: 0 <= i < |xs| ==> r[i] == say(xs[i])
  {
    seq(|xs|, i requires 0 <= i < |xs| => say(xs[i]))
  }

  function SaidValue(v: SeenValue): Value {
    match v
    case SeenText(us) => Text(Meant(us))
    case SeenNull => Null
    case SeenTruth(truth) => Truth(truth)
    case SeenNumber(_, number) => Number(number)
    case SeenEmpty(_) => Texts([])
    case SeenTexts(items) => Texts(Mapped(Said, items))
  }

  function SaidField(f: SeenField): Field {
    Field(Said(f.key), SaidValue(f.value))
  }

  // ---- white space and strings ----------------------------------------------------------------------------------

  function Space(s: string): (r: string)
    ensures AllSpace(r) && s == r + Skip(s)
  {
    if s != "" && IsSpace(s[0]) then [s[0]] + Space(s[1..]) else ""
  }

  /** A string the reader takes, and what follows it. */
  lemma StringSeen(s: string) returns (us: seq<Unit>)
    requires StringAt(s).Some?
    ensures AllSpellable(us) && StringAt(s).value.0 == Meant(us)
    ensures s == QuotedThen(us, StringAt(s).value.1)
  {
    var inside := s[1..];
    us := UnitsIn(inside);
    ScanSound(inside);
    var rest := Scan(inside).value.1;
    Associate(SpellAll(us), "\"", rest);
    assert s == "\"" + inside;
  }

  /** The same between white space, up to the next character that is none. */
  lemma ItemSeen(s: string) returns (x: StringSpelling)
    requires StringAt(Skip(s)).Some?
    ensures SeenString(x) && Said(x) == StringAt(Skip(s)).value.0
    ensures s == StringThen(x, Skip(StringAt(Skip(s)).value.1))
  {
    var rest := StringAt(Skip(s)).value.1;
    var us := StringSeen(Skip(s));
    x := StringSpelling(Space(s), us, Space(rest));
    assert rest == Space(rest) + Skip(rest);
  }

  // ---- lists, for any way to read and spell their items -----------------------------------------------------------

  /** Whatever item is read was spelled, rightly, and says what was read. */
  ghost predicate Sees<S(!new), T(!new)>(
      read: Reading<T>, spell: (S, string) -> string, right: (S, string) -> bool, say: S -> T) {
    forall s: string {:trigger read(Skip(s))} :: read(Skip(s)).Some? ==>
      exists x: S :: Spells(read, spell, right, say, s, x)
  }

  predicate Spells<S, T(==)>(
      read: Reading<T>, spell: (S, string) -> string, right: (S, string) -> bool, say: S -> T, s: string, x: S)
    requires read(Skip(s)).Some?
  {
    var next := Skip(read(Skip(s)).value.1);
    s == spell(x, next) && right(x, next) && say(x) == read(Skip(s)).value.0
  }

  /** What an accepted list begins with, and how it goes on. */
  lemma ListHead<T>(read: Reading<T>, close: char, s: string, room: nat)
    requires ListAt(read, close, s, room).Some? && close != ',' && close != NUL
    ensures room > 0 && read(Skip(s)).Some?
    ensures
      var (item, behind) := read(Skip(s)).value;
      var next := Skip(behind);
      && next != ""
      && (next[0] == ',' ==>
            var more := ListAt(read, close, next[1..], room - 1);
            more.Some? && ListAt(read, close, s, room) == Some(([item] + more.value.0, more.value.1)))
      && (next[0] != ',' ==> next[0] == close && ListAt(read, close, s, room) == Some(([item], next[1..])))
  {
  }

  /** A list with one item more in front. */
  lemma ListGrows<S, T>(spell: (S, string) -> string, right: (S, string) -> bool, say: S -> T, close: char, x: S, more: seq<S>, rest: string)
    requires AllRight(spell, right, close, more, rest)
    requires right(x, if more == [] then [close] + rest else [','] + ListThen(spell, close, more, rest))
    ensures ListThen(spell, close, [x] + more, rest)
         == spell(x, if more == [] then [close] + rest else [','] + ListThen(spell, close, more, rest))
    ensures AllRight(spell, right, close, [x] + more, rest) && Mapped(say, [x] + more) == [say(x)] + Mapped(say, more)
  {
    assert ([x] + more)[1..] == more;
  }

  lemma {:induction false} ListSeen<S(!new), T(!new)>(
      read: Reading<T>, spell: (S, string) -> string, right: (S, string) -> bool, say: S -> T, close: char, s: string, room: nat)
    returns (xs: seq<S>)
    requires Sees(read, spell, right, say) && ListAt(read, close, s, room).Some? && close != ',' && close != NUL
    ensures
      var (items, rest) := ListAt(read, close, s, room).value;
      && 0 < |xs| <= room && AllRight(spell, right, close, xs, rest) && Mapped(say, xs) == items
      && s == ListThen(spell, close, xs, rest)
    decreases room
  {
    ListHead(read, close, s, room);
    var x :| Spells(read, spell, right, say, s, x);
    var next, rest := Skip(read(Skip(s)).value.1), ListAt(read, close, s, room).value.1;
    var more := [];
    assert next == [next[0]] + next[1..];
    if next[0] == ',' {
      more := ListSeen(read, spell, right, say, close, next[1..], room - 1);
    }
    xs := [x] + more;
    ListGrows(spell, right, say, close, x, more, rest);
  }

  // ---- values and fields ------------------------------------------------------------------------------------------

  function RightString(): (StringSpelling, string) -> bool {
    (x, rest) => SeenString(x)
  }

  lemma StringsSeen(read: Reading<string>)
    requires ReadsStrings(read)
    ensures Sees(read, StringThen, RightString(), Said)
  {
    forall s: string | read(Skip(s)).Some?
      ensures exists x: StringSpelling :: Spells(read, StringThen, RightString(), Said, s, x)
    {
      assert read(Skip(s)) == StringAt(Skip(s));
      var x := ItemSeen(s);
      assert Spells(read, StringThen, RightString(), Said, s, x);
    }
  }

  lemma {:induction false} RightStrings(items: seq<StringSpelling>, rest: string)
    requires AllRight(StringThen, RightString(), ']', items, rest)
    ensures AllStrings(items)
  {
    if items != [] {
      RightStrings(items[1..], rest);
      assert items == [items[0]] + items[1..];
    }
  }

  lemma ItemsSeen(read: Reading<string>, s: string, room: nat) returns (items: seq<StringSpelling>)
    requires ReadsStrings(read) && ListAt(read, ']', s, room).Some?
    ensures
      var (texts, rest) := ListAt(read, ']', s, room).value;
      && items != [] && AllStrings(items) && Mapped(Said, items) == texts && s == ListThen(StringThen, ']', items, rest)
  {
    StringsSeen(read);
    items := ListSeen(read, StringThen, RightString(), Said, ']', s, room);
    RightStrings(items, ListAt(read, ']', s, room).value.1);
  }

  lemma StringAtReads()
    ensures ReadsStrings(StringAt)
  {
  }

  lemma ArrayItems(read: Reading<string>, s: string, room: nat) returns (items: seq<StringSpelling>)
    requires ReadsStrings(read) && ListAt(read, ']', Skip(s), room).Some?
    ensures
      var (texts, rest) := ListAt(read, ']', Skip(s), room).value;
      && items != [] && AllStrings(items) && Mapped(Said, items) == texts && s == ListThen(StringThen, ']', items, rest)
  {
    ListSkipped(read, ']', s, room);
    items := ItemsSeen(read, s, room);
  }

  lemma EmptySeen(s: string, texts: seq<string>, rest: string)
    requires ArrayAt(s) == Some((texts, rest)) && Head(Skip(s)) == ']'
    ensures texts == [] && s == Space(s) + ("]" + rest)
  {
    assert Skip(s) == "]" + Skip(s)[1..];
  }

  lemma FilledSeen(s: string, texts: seq<string>, rest: string) returns (items: seq<StringSpelling>)
    requires ArrayAt(s) == Some((texts, rest)) && Head(Skip(s)) != ']'
    ensures items != [] && AllStrings(items) && Mapped(Said, items) == texts && s == ListThen(StringThen, ']', items, rest)
  {
    StringAtReads();
    items := ArrayItems(StringAt, s, |s|);
  }

  lemma ArraySeen(s: string, texts: seq<string>, rest: string) returns (v: SeenValue)
    requires ArrayAt(s) == Some((texts, rest))
    ensures (v.SeenEmpty? && AllSpace(v.inner)) || (v.SeenTexts? && v.items != [] && AllStrings(v.items))
    ensures SaidValue(v) == Texts(texts) && "[" + s == SeenThen(v, rest)
  {
    if Head(Skip(s)) == ']' {
      EmptySeen(s, texts, rest);
      v := SeenEmpty(Space(s));
    } else {
      var items := FilledSeen(s, texts, rest);
      v := SeenTexts(items);
    }
  }

  /** A word or a number. */
  lemma PlainSeen(strtod: Strtod, s: string, value: Value, rest: string) returns (v: SeenValue)
    requires ValueAt(strtod, s) == Some((value, rest)) && Head(s) != '[' && Head(s) != '"'
    ensures SeenOk(strtod, v, rest) && SaidValue(v) == value && s == SeenThen(v, rest)
  {
    if "true" <= s {
      v := SeenTruth(true);
      assert s == "true" + s[4..];
    } else if "false" <= s {
      v := SeenTruth(false);
      assert s == "false" + s[5..];
    } else if "null" <= s {
      v := SeenNull;
      assert s == "null" + s[4..];
    } else {
      var (number, length) := strtod(s);
      v := SeenNumber(s[..length], number);
      assert s == s[..length] + s[length..];
      assert value == Number(number) && rest == s[length..];
    }
  }

  lemma ValueSeen(strtod: Strtod, s: string, value: Value, rest: string) returns (v: SeenValue)
    requires ValueAt(strtod, s) == Some((value, rest))
    ensures SeenOk(strtod, v, rest) && SaidValue(v) == value && s == SeenThen(v, rest)
  {
    if Head(s) == '[' {
      v := ArraySeen(s[1..], value.items, rest);
      assert s == "[" + s[1..];
    } else if Head(s) == '"' {
      var us := StringSeen(s);
      v := SeenText(us);
    } else {
      v := PlainSeen(strtod, s, value, rest);
    }
  }

  /** A field between white space, up to the next character that is none. */
  lemma FieldSeen(strtod: Strtod, s: string) returns (f: SeenField)
    requires FieldAt(strtod, Skip(s)).Some?
    ensures
      var (field, rest) := FieldAt(strtod, Skip(s)).value;
      && SeenFieldOk(strtod, f, Skip(rest)) && s == SeenFieldThen(f, Skip(rest))
      && field == Field(Said(f.key), SaidValue(f.value))
  {
    var key := ItemSeen(s);
    var colon := Skip(StringAt(Skip(s)).value.1);
    var rest := FieldAt(strtod, Skip(s)).value.1;
    var (said, behind) := ValueAt(strtod, Skip(colon[1..])).value;
    var value := ValueSeen(strtod, Skip(colon[1..]), said, behind);
    f := SeenField(key, Space(colon[1..]), value, Space(rest));
    assert colon == ":" + colon[1..];
  }

  lemma FieldsSee(strtod: Strtod, read: Reading<Field>)
    requires ReadsFields(read, strtod)
    ensures Sees(read, SeenFieldThen, Right(strtod), SaidField)
  {
    forall s: string | read(Skip(s)).Some?
      ensures exists f: SeenField :: Spells(read, SeenFieldThen, Right(strtod), SaidField, s, f)
    {
      assert read(Skip(s)) == FieldAt(strtod, Skip(s));
      var f := FieldSeen(strtod, s);
      assert Spells(read, SeenFieldThen, Right(strtod), SaidField, s, f);
    }
  }

  lemma FieldsSeen(strtod: Strtod, read: Reading<Field>, s: string, room: nat) returns (fs: seq<SeenField>)
    requires ReadsFields(read, strtod) && ListAt(read, '}', s, room).Some?
    ensures
      var (fields, rest) := ListAt(read, '}', s, room).value;
      && 0 < |fs| <= room && AllRight(SeenFieldThen, Right(strtod), '}', fs, rest) && Mapped(SaidField, fs) == fields
      && s == ListThen(SeenFieldThen, '}', fs, rest)
  {
    FieldsSee(strtod, read);
    fs := ListSeen(read, SeenFieldThen, Right(strtod), SaidField, '}', s, room);
  }

  // ---- whole texts ------------------------------------------------------------------------------------------------

  lemma BodySeen(strtod: Strtod, inside: string) returns (inner: string, fs: seq<SeenField>)
    requires BodyAt(strtod, Skip(inside)).Some?
    ensures
      var (fields, behind) := BodyAt(strtod, Skip(inside)).value;
      && AllSpace(inner) && |fs| <= 16 && AllRight(SeenFieldThen, Right(strtod), '}', fs, behind)
      && Mapped(SaidField, fs) == fields
      && inside == (if fs == [] then inner + ("}" + behind) else ListThen(SeenFieldThen, '}', fs, behind))
  {
    if Head(Skip(inside)) == '}' {
      inner, fs := Space(inside), [];
      assert Skip(inside) == "}" + Skip(inside)[1..];
    } else {
      inner := "";
      FieldReadingReads(strtod);
      ListSkipped(FieldReading(strtod), '}', inside, 16);
      fs := FieldsSeen(strtod, FieldReading(strtod), inside, 16);
    }
  }

  /**
   * Whatever text the reader accepts is, up to its end or a terminator, white space, one braced list of
   * at most sixteen fields with commas between them and keys shorter than 64, white space, and nothing
   * else; and the fields it returns are what that text says.
   */
  lemma ParseSound(strtod: Strtod, text: string) returns (o: SeenObject, rest: string)
    requires Parse(strtod, text).Some?
    ensures SeenObjectOk(strtod, o, rest) && (rest == "" || rest[0] == NUL)
    ensures text == SeenObjectThen(o, rest) && Parse(strtod, text) == Some(Mapped(SaidField, o.fields))
  {
    var inside := Skip(text)[1..];
    var inner, fs := BodySeen(strtod, inside);
    var behind := BodyAt(strtod, Skip(inside)).value.1;
    rest := Skip(behind);
    o := SeenObject(Space(text), inner, fs, Space(behind));
    assert Skip(text) == "{" + inside;
  }

  // ---- looking fields up ----------------------------------------------------------------------------------------

  predicate HoldsString(f: Field, key: string) {
    f.key == key && (f.value.Text? || f.value.Null?)
  }

  /** The first field of a name that holds a string or a null decides: a text is found, a null is none. */
  lemma {:induction false} StringExactly(fields: seq<Field>, key: string, i: nat)
    requires i <= |fields| && forall k :: 0 <= k < i ==> !HoldsString(fields[k], key)
    requires i < |fields| ==> HoldsString(fields[i], key)
    ensures GetString(fields, key) == if i < |fields| && fields[i].value.Text? then Some(fields[i].value.text) else None
  {
    if i > 0 {
      assert !HoldsString(fields[0], key);
      forall k | 0 <= k < i - 1 ensures !HoldsString(fields[1..][k], key) {
        assert !HoldsString(fields[k + 1], key);
      }
      StringExactly(fields[1..], key, i - 1);
    }
  }

  /** The first field of a name that holds a number decides. */
  lemma {:induction false} NumberExactly(fields: seq<Field>, key: string, i: nat)
    requires i <= |fields| && forall k :: 0 <= k < i ==> fields[k].key != key || !fields[k].value.Number?
    requires i < |fields| ==> fields[i].key == key && fields[i].value.Number?
    ensures GetNumber(fields, key) == if i < |fields| then Some(fields[i].value.number) else None
  {
    if i > 0 {
      NumberExactly(fields[1..], key, i - 1);
    }
  }
}

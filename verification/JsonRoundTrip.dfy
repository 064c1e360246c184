/**
 * The JSON printer and parser against each other: which texts the reader must accept and what it
 * reads from them, the object the writer prints, and that it is read back.
 */
module JsonRoundTrip {
  import opened Common
  import opened Decimals
  import opened JsonText
  import opened JsonReader
  import opened JsonWriter

  // ---- texts of an object: any white space, any spelling of strings ---------------------------------------

  /** A string between optional white space. */
  datatype StringSpelling = StringSpelling(before: string, us: seq<Unit>, after: string)

  datatype ValueSpelling =
    | AsText(us: seq<Unit>)
    | AsNull
    | AsNumber(n: int)
    | AsTruth(truth: bool)
    | AsEmpty(inner: string)
    | AsTexts(items: seq<StringSpelling>)

  /** Key and value; `gap` is the white space behind the colon, `after` behind the value. */
  datatype FieldSpelling = FieldSpelling(key: StringSpelling, gap: string, value: ValueSpelling, after: string)

  predicate AllSpace(s: string) {
    forall i :: 0 <= i < |s| ==> IsSpace(s[i])
  }

  predicate StringOk(s: StringSpelling) {
    AllSpace(s.before) && AllWellSpelled(s.us) && AllSpace(s.after)
  }

  predicate ValueOk(v: ValueSpelling) {
    match v
    case AsText(us) => AllWellSpelled(us)
    case AsNumber(n) => -1_000_000_000_000_000 < n < 1_000_000_000_000_000
    case AsEmpty(inner) => AllSpace(inner)
    case AsTexts(items) => items != [] && forall i :: 0 <= i < |items| ==> StringOk(items[i])
    case _ => true
  }

  predicate FieldOk(f: FieldSpelling) {
    && StringOk(f.key) && AllSpace(f.gap) && ValueOk(f.value) && AllSpace(f.after)
    && |StringMeaning(f.key)| < 64
  }

  /** Each of these is the text of its subject with `rest` behind it. */
  function QuotedThen(us: seq<Unit>, rest: string): string {
    "\"" + (SpellAll(us) + ("\"" + rest))
  }

  function StringThen(s: StringSpelling, rest: string): string {
    s.before + QuotedThen(s.us, s.after + rest)
  }

  /** Items separated by commas, each spelled by `spell`, then the closing character. */
  function ListThen<S>(spell: (S, string) -> string, close: char, items: seq<S>, rest: string): string {
    if items == [] then rest
    else spell(items[0], if |items| == 1 then [close] + rest else [','] + ListThen(spell, close, items[1..], rest))
  }

  function ValueThen(v: ValueSpelling, rest: string): string {
    match v
    case AsText(us) => QuotedThen(us, rest)
    case AsNull => "null" + rest
    case AsNumber(n) => IntText(n) + rest
    case AsTruth(truth) => (if truth then "true" else "false") + rest
    case AsEmpty(inner) => "[" + (inner + ("]" + rest))
    case AsTexts(items) => "[" + ListThen(StringThen, ']', items, rest)
  }

  function FieldThen(f: FieldSpelling, rest: string): string {
    StringThen(f.key, ":" + (f.gap + ValueThen(f.value, f.after + rest)))
  }

  /** A whole text; an empty object may hold the white space `inner`. */
  function Spelled(before: string, inner: string, fs: seq<FieldSpelling>, after: string): string {
    before + ("{" + BodyThen(inner, fs, after))
  }

  function BodyThen(inner: string, fs: seq<FieldSpelling>, after: string): string {
    if fs == [] then inner + ("}" + after) else ListThen(FieldThen, '}', fs, after)
  }

  // ---- what they mean ----------------------------------------------------------------------------------------

  function StringMeaning(s: StringSpelling): string
    requires StringOk(s)
  {
    CString(MeaningAll(s.us))
  }

  function ItemMeanings(items: seq<StringSpelling>): (texts: seq<string>)
    requires forall i :: 0 <= i < |items| ==> StringOk(items[i])
    ensures |texts| == |items| && forall i :: 0 <= i < |items| ==> texts[i] == StringMeaning(items[i])
  {
    seq(|items|, i requires 0 <= i < |items| => StringMeaning(items[i]))
  }

  function ValueMeaning(v: ValueSpelling): Value
    requires ValueOk(v)
  {
    match v
    case AsText(us) => Text(CString(MeaningAll(us)))
    case AsNull => Null
    case AsNumber(n) => Number(n as real)
    case AsTruth(truth) => Truth(truth)
    case AsEmpty(_) => Texts([])
    case AsTexts(items) => Texts(ItemMeanings(items))
  }

  function FieldMeaning(f: FieldSpelling): Field
    requires FieldOk(f)
  {
    Field(StringMeaning(f.key), ValueMeaning(f.value))
  }

  function FieldMeanings(fs: seq<FieldSpelling>): (r: seq<Field>)
    requires forall i :: 0 <= i < |fs| ==> FieldOk(fs[i])
    ensures |r| == |fs| && forall i :: 0 <= i < |fs| ==> r[i] == FieldMeaning(fs[i])
  {
    seq(|fs|, i requires 0 <= i < |fs| => FieldMeaning(fs[i]))
  }

  // ---- the reader reads them ------------------------------------------------------------------------------------

  /** What can follow a number in an object. */
  predicate Ends(rest: string) {
    rest == "" || IsSpace(rest[0]) || rest[0] == ',' || rest[0] == '}'
  }

  /** The C library reads an integral decimal that is followed by none of its characters as that integer. */
  ghost predicate ReadsIntegers(strtod: Strtod) {
    forall n: int, rest: string :: -1_000_000_000_000_000 < n < 1_000_000_000_000_000 && Ends(rest) ==>
      strtod(IntText(n) + rest) == (n as real, |IntText(n)|)
  }

  lemma {:induction false} SkipSpace(space: string, rest: string)
    requires AllSpace(space)
    ensures Skip(space + rest) == Skip(rest)
  {
    if space == "" {
      assert space + rest == rest;
    } else {
      SkipSpace(space[1..], rest);
      assert (space + rest)[1..] == space[1..] + rest;
    }
  }

  /** Any other character stops the skipping. */
  lemma Stop(c: char, rest: string)
    requires !IsSpace(c)
    ensures Skip([c] + rest) == [c] + rest && Head([c] + rest) == c && ([c] + rest)[1..] == rest
  {
  }

  lemma QuotedRead(us: seq<Unit>, rest: string)
    requires AllWellSpelled(us)
    ensures StringAt(QuotedThen(us, rest)) == Some((CString(MeaningAll(us)), rest))
  {
    var inside := SpellAll(us) + ("\"" + rest);
    assert QuotedThen(us, rest)[1..] == inside;
    Associate(SpellAll(us), "\"", rest);
    ScanSpelled(us, rest);
  }

  lemma StringRead(s: StringSpelling, rest: string)
    requires StringOk(s)
    ensures StringAt(Skip(StringThen(s, rest))) == Some((StringMeaning(s), s.after + rest))
    ensures Head(Skip(StringThen(s, rest))) == '"'
    ensures Skip(s.after + rest) == Skip(rest)
  {
    var quoted := QuotedThen(s.us, s.after + rest);
    SkipSpace(s.before, quoted);
    Stop('"', SpellAll(s.us) + ("\"" + (s.after + rest)));
    QuotedRead(s.us, s.after + rest);
    SkipSpace(s.after, rest);
  }

  /** Reading a spelled item gives its meaning and stops at what follows it. */
  ghost predicate ReadsAs<S(!new), T(!new)>(read: Reading<T>, spell: (S, string) -> string, x: S, meaning: T, close: char) {
    forall next: string {:trigger spell(x, next)} :: next != "" && (next[0] == ',' || next[0] == close) ==>
      && Head(Skip(spell(x, next))) == '"'
      && match read(Skip(spell(x, next))) case None => false case Some(r) => r.0 == meaning && Skip(r.1) == next
  }

  /** The first item of a list, and what follows it. */
  lemma FirstOfList<S(!new), T(!new)>(
      read: Reading<T>, spell: (S, string) -> string, close: char, x: S, meaning: T, next: string, room: nat)
    requires close != ',' && close != NUL && room > 0 && ReadsAs(read, spell, x, meaning, close)
    requires next != "" && (next[0] == ',' || next[0] == close)
    ensures ListAt(read, close, spell(x, next), room)
         == if next[0] == close then Some(([meaning], next[1..]))
            else Prefixed([meaning], ListAt(read, close, next[1..], room - 1))
    ensures Head(Skip(spell(x, next))) == '"'
  {
  }

  /** A list of such items is read as the list of their meanings. */
  lemma {:induction false} ListRead<S(!new), T(!new)>(
      read: Reading<T>, spell: (S, string) -> string, close: char, items: seq<S>, meanings: seq<T>, rest: string, room: nat)
    requires close != ',' && close != NUL && items != [] && |items| == |meanings| && |items| <= room
    requires forall i :: 0 <= i < |items| ==> ReadsAs(read, spell, items[i], meanings[i], close)
    ensures ListAt(read, close, ListThen(spell, close, items, rest), room) == Some((meanings, rest))
    ensures Head(Skip(ListThen(spell, close, items, rest))) == '"'
  {
    assert ReadsAs(read, spell, items[0], meanings[0], close);
    if |items| == 1 {
      var next := [close] + rest;
      assert next[1..] == rest && meanings == [meanings[0]];
      FirstOfList(read, spell, close, items[0], meanings[0], next, room);
    } else {
      var others, more, after := items[1..], meanings[1..], ListThen(spell, close, items[1..], rest);
      var next := [','] + after;
      assert next[1..] == after && [meanings[0]] + more == meanings;
      FirstOfList(read, spell, close, items[0], meanings[0], next, room);
      ListRead(read, spell, close, others, more, rest, room - 1);
    }
  }

  lemma {:induction false} SkipIdempotent(s: string)
    ensures Skip(Skip(s)) == Skip(s)
  {
    if s != "" && IsSpace(s[0]) {
      SkipIdempotent(s[1..]);
    }
  }

  lemma ListSkipped<T>(read: Reading<T>, close: char, s: string, room: nat)
    ensures ListAt(read, close, Skip(s), room) == ListAt(read, close, s, room)
  {
    SkipIdempotent(s);
  }

  lemma ItemReads(s: StringSpelling)
    requires StringOk(s)
    ensures ReadsAs(StringAt, StringThen, s, StringMeaning(s), ']')
  {
    forall next: string | next != "" && (next[0] == ',' || next[0] == ']')
      ensures Head(Skip(StringThen(s, next))) == '"'
      ensures match StringAt(Skip(StringThen(s, next))) case None => false
              case Some(r) => r.0 == StringMeaning(s) && Skip(r.1) == next
    {
      StringRead(s, next);
      Stop(next[0], next[1..]);
      assert next == [next[0]] + next[1..];
    }
  }

  /** Items are no more than characters. */
  lemma {:induction false} ItemsLength(items: seq<StringSpelling>, rest: string)
    ensures |ListThen(StringThen, ']', items, rest)| >= |items| + |rest|
  {
    if items != [] {
      ItemsLength(items[1..], rest);
    }
  }

  lemma ItemsRead(items: seq<StringSpelling>, rest: string)
    requires items != [] && forall i :: 0 <= i < |items| ==> StringOk(items[i])
    ensures ArrayAt(ListThen(StringThen, ']', items, rest)) == Some((ItemMeanings(items), rest))
  {
    var text := ListThen(StringThen, ']', items, rest);
    forall i | 0 <= i < |items| ensures ReadsAs(StringAt, StringThen, items[i], ItemMeanings(items)[i], ']') {
      ItemReads(items[i]);
    }
    ItemsLength(items, rest);
    ListRead(StringAt, StringThen, ']', items, ItemMeanings(items), rest, |text|);
    ListSkipped(StringAt, ']', text, |text|);
  }

  lemma EmptyRead(inner: string, rest: string)
    requires AllSpace(inner)
    ensures ArrayAt(inner + ("]" + rest)) == Some(([], rest))
  {
    SkipSpace(inner, "]" + rest);
    Stop(']', rest);
  }

  lemma NumberHead(n: int, rest: string)
    ensures IntText(n) != "" && Head(IntText(n) + rest) == IntText(n)[0] && (IntText(n)[0] == '-' || IsDigit(IntText(n)[0]))
  {
  }

  lemma WordRead(strtod: Strtod, word: string, rest: string)
    requires word == "true" || word == "false" || word == "null"
    ensures ValueAt(strtod, word + rest)
         == Some((if word == "true" then Truth(true) else if word == "false" then Truth(false) else Null, rest))
    ensures !IsSpace(Head(word + rest))
  {
    var s := word + rest;
    assert s[0] == word[0] && word <= s && s[|word|..] == rest;
    assert "true"[0] == 't' && "false"[0] == 'f' && "null"[0] == 'n';
  }

  lemma NumberRead(strtod: Strtod, n: int, rest: string)
    requires ReadsIntegers(strtod) && -EXACT_LIMIT < n < EXACT_LIMIT && Ends(rest)
    ensures ValueAt(strtod, IntText(n) + rest) == Some((Number(n as real), rest))
    ensures !IsSpace(Head(IntText(n) + rest))
  {
    var s := IntText(n) + rest;
    NumberHead(n, rest);
    assert s[|IntText(n)|..] == rest;
    assert strtod(IntText(n) + rest) == (n as real, |IntText(n)|);
  }

  lemma ListValueRead(strtod: Strtod, s: string, items: seq<string>, rest: string)
    requires ArrayAt(s) == Some((items, rest))
    ensures ValueAt(strtod, "[" + s) == Some((Texts(items), rest)) && !IsSpace(Head("[" + s))
  {
    assert ("[" + s)[1..] == s;
  }

  lemma ValueRead(strtod: Strtod, v: ValueSpelling, rest: string)
    requires ReadsIntegers(strtod) && ValueOk(v) && Ends(rest)
    ensures ValueAt(strtod, ValueThen(v, rest)) == Some((ValueMeaning(v), rest))
    ensures !IsSpace(Head(ValueThen(v, rest)))
  {
    match v {
      case AsText(us) => QuotedRead(us, rest);
      case AsNull => WordRead(strtod, "null", rest);
      case AsTruth(truth) => WordRead(strtod, if truth then "true" else "false", rest);
      case AsNumber(n) => NumberRead(strtod, n, rest);
      case AsEmpty(inner) =>
        EmptyRead(inner, rest);
        ListValueRead(strtod, inner + ("]" + rest), [], rest);
      case AsTexts(items) =>
        ItemsRead(items, rest);
        ListValueRead(strtod, ListThen(StringThen, ']', items, rest), ItemMeanings(items), rest);
    }
  }

  lemma SpaceEnds(space: string, rest: string)
    requires AllSpace(space) && Ends(rest)
    ensures Ends(space + rest) && Skip(space + rest) == Skip(rest)
  {
    SkipSpace(space, rest);
    if space == "" {
      assert space + rest == rest;
    }
  }

  lemma FieldRead(strtod: Strtod, f: FieldSpelling, rest: string)
    requires ReadsIntegers(strtod) && FieldOk(f) && Ends(rest)
    ensures FieldAt(strtod, Skip(FieldThen(f, rest))) == Some((FieldMeaning(f), f.after + rest))
    ensures Skip(f.after + rest) == Skip(rest)
    ensures Head(Skip(FieldThen(f, rest))) == '"'
  {
    SpaceEnds(f.after, rest);
    var value := ValueThen(f.value, f.after + rest);
    ValueRead(strtod, f.value, f.after + rest);
    var colon := ":" + (f.gap + value);
    StringRead(f.key, colon);
    Stop(':', f.gap + value);
    SkipSpace(f.gap, value);
    assert Skip(value) == value;
  }

  lemma FieldReads(strtod: Strtod, f: FieldSpelling)
    requires ReadsIntegers(strtod) && FieldOk(f)
    ensures ReadsAs(FieldReading(strtod), FieldThen, f, FieldMeaning(f), '}')
  {
    forall next: string | next != "" && (next[0] == ',' || next[0] == '}')
      ensures Head(Skip(FieldThen(f, next))) == '"'
      ensures match FieldReading(strtod)(Skip(FieldThen(f, next))) case None => false
              case Some(r) => r.0 == FieldMeaning(f) && Skip(r.1) == next
    {
      FieldReadsBefore(strtod, f, next, FieldThen(f, next));
    }
  }

  lemma FieldReadsBefore(strtod: Strtod, f: FieldSpelling, next: string, text: string)
    requires ReadsIntegers(strtod) && FieldOk(f) && text == FieldThen(f, next)
    requires next != "" && (next[0] == ',' || next[0] == '}')
    ensures Head(Skip(text)) == '"'
    ensures match FieldReading(strtod)(Skip(text)) case None => false case Some(r) => r.0 == FieldMeaning(f) && Skip(r.1) == next
  {
    FieldRead(strtod, f, next);
    Stop(next[0], next[1..]);
    assert next == [next[0]] + next[1..];
  }

  lemma BodyRead(strtod: Strtod, inner: string, fs: seq<FieldSpelling>, after: string)
    requires ReadsIntegers(strtod) && AllSpace(inner)
    requires |fs| <= MAX_FIELDS && forall i :: 0 <= i < |fs| ==> FieldOk(fs[i])
    ensures BodyAt(strtod, Skip(BodyThen(inner, fs, after))) == Some((FieldMeanings(fs), after))
  {
    if fs == [] {
      SkipSpace(inner, "}" + after);
      Stop('}', after);
    } else {
      forall i | 0 <= i < |fs| ensures ReadsAs(FieldReading(strtod), FieldThen, fs[i], FieldMeanings(fs)[i], '}') {
        FieldReads(strtod, fs[i]);
      }
      ListRead(FieldReading(strtod), FieldThen, '}', fs, FieldMeanings(fs), after, MAX_FIELDS);
      ListSkipped(FieldReading(strtod), '}', BodyThen(inner, fs, after), MAX_FIELDS);
    }
  }

  lemma ObjectRead(strtod: Strtod, before: string, body: string, fields: seq<Field>, after: string)
    requires AllSpace(before) && AllSpace(after) && BodyAt(strtod, Skip(body)) == Some((fields, after))
    ensures Parse(strtod, before + ("{" + body)) == Some(fields)
  {
    var open := "{" + body;
    SkipSpace(before, open);
    Stop('{', body);
    SkipSpace(after, "");
    assert after + "" == after;
  }

  /**
   * Every flat object of at most sixteen fields is read as what it says, whatever white space
   * stands between its parts and however its strings are escaped.
   */
  lemma SpelledParses(strtod: Strtod, before: string, inner: string, fs: seq<FieldSpelling>, after: string)
    requires ReadsIntegers(strtod) && AllSpace(before) && AllSpace(inner) && AllSpace(after)
    requires |fs| <= 16 && forall i :: 0 <= i < |fs| ==> FieldOk(fs[i])
    ensures Parse(strtod, Spelled(before, inner, fs, after)) == Some(FieldMeanings(fs))
  {
    BodyRead(strtod, inner, fs, after);
    ObjectRead(strtod, before, BodyThen(inner, fs, after), FieldMeanings(fs), after);
  }

  // ---- the writer prints one of them ------------------------------------------------------------------------------

  /** Fields that survive the round trip: C strings, short keys, integers below the limit. */
  predicate Printable(f: Field) {
    && IsCString(f.key) && |f.key| < 64
    && match f.value
       case Text(text) => IsCString(text)
       case Number(number) => Exact(number)
       case Texts(_) => false
       case _ => true
  }

  predicate AllPrintable(fields: seq<Field>) {
    forall i :: 0 <= i < |fields| ==> Printable(fields[i])
  }

  lemma {:induction false} UnitsMean(s: string)
    ensures AllWellSpelled(UnitsOf(s)) && MeaningAll(UnitsOf(s)) == s
  {
    if s != "" {
      UnitMeans(s[0]);
      UnitsMean(s[1..]);
      assert UnitsOf(s)[1..] == UnitsOf(s[1..]);
      assert forall i :: 0 <= i < |UnitsOf(s)| ==> UnitsOf(s)[i] == if i == 0 then UnitOf(s[0]) else UnitsOf(s[1..])[i - 1];
    }
  }

  function Plainly(s: string): StringSpelling {
    StringSpelling("", UnitsOf(s), "")
  }

  function ValueSpellingOf(v: Value): ValueSpelling
    requires Writable(v)
  {
    match v
    case Text(text) => AsText(UnitsOf(text))
    case Null => AsNull
    case Number(number) => AsNumber(number.Floor)
    case Truth(truth) => AsTruth(truth)
  }

  function FieldSpellingOf(f: Field): FieldSpelling
    requires Printable(f)
  {
    FieldSpelling(Plainly(f.key), "", ValueSpellingOf(f.value), "")
  }

  function SpellingsOf(fields: seq<Field>): (r: seq<FieldSpelling>)
    requires AllPrintable(fields)
    ensures |r| == |fields| && forall i :: 0 <= i < |fields| ==> r[i] == FieldSpellingOf(fields[i])
  {
    seq(|fields|, i requires 0 <= i < |fields| => FieldSpellingOf(fields[i]))
  }

  lemma SpellingMeans(f: Field)
    requires Printable(f)
    ensures FieldOk(FieldSpellingOf(f)) && FieldMeaning(FieldSpellingOf(f)) == f
  {
    UnitsMean(f.key);
    Absent(f.key, NUL);
    match f.value {
      case Text(text) =>
        UnitsMean(text);
        Absent(text, NUL);
      case _ =>
    }
  }

  lemma {:induction false} SpellingsMean(fields: seq<Field>)
    requires AllPrintable(fields)
    ensures forall i :: 0 <= i < |fields| ==> FieldOk(SpellingsOf(fields)[i])
    ensures FieldMeanings(SpellingsOf(fields)) == fields
  {
    forall i | 0 <= i < |fields| ensures FieldOk(SpellingsOf(fields)[i]) {
      SpellingMeans(fields[i]);
    }
    if fields != [] {
      SpellingMeans(fields[0]);
      SpellingsMean(fields[1..]);
      assert SpellingsOf(fields)[1..] == SpellingsOf(fields[1..]);
    }
  }

  lemma QuotedIs(s: string, rest: string)
    ensures QuotedThen(UnitsOf(s), rest) == Quoted(s) + rest
  {
    var body := Escaped(s);
    assert "\"" + (body + ("\"" + rest)) == ("\"" + body + "\"") + rest;
  }

  lemma ValueIs(print_: Printer, v: Value, rest: string)
    requires Writable(v) && (v.Number? ==> Exact(v.number))
    ensures ValueThen(ValueSpellingOf(v), rest) == ValueText(print_, v) + rest
  {
    match v {
      case Text(text) => QuotedIs(text, rest);
      case _ =>
    }
  }

  lemma FieldIs(print_: Printer, f: Field, rest: string)
    requires Printable(f)
    ensures FieldThen(FieldSpellingOf(f), rest) == FieldText(print_, f) + rest
  {
    assert "" + rest == rest;
    var value := ValueText(print_, f.value);
    ValueIs(print_, f.value, rest);
    assert "" + (value + rest) == value + rest;
    var colon := ":" + (value + rest);
    assert "" + colon == colon;
    QuotedIs(f.key, colon);
    var key := Quoted(f.key);
    assert "" + (key + colon) == key + colon == (key + ":" + value) + rest;
  }

  lemma {:induction false} FieldsTextCons(print_: Printer, fields: seq<Field>)
    requires AllWritable(fields) && |fields| >= 2
    ensures FieldsText(print_, fields) == FieldText(print_, fields[0]) + ("," + FieldsText(print_, fields[1..]))
  {
    var front, last := fields[..|fields| - 1], FieldText(print_, fields[|fields| - 1]);
    var first := FieldText(print_, fields[0]);
    if |fields| == 2 {
      Associate(first, ",", last);
    } else {
      FieldsTextCons(print_, front);
      var middle := FieldsText(print_, front[1..]);
      assert fields[1..][..|fields| - 2] == front[1..];
      Associate(first + ("," + middle), ",", last);
      Regroup(first, ",", middle, "," + last);
      Associate(middle, ",", last);
    }
  }

  lemma {:induction false} FieldsAre(print_: Printer, fields: seq<Field>, rest: string)
    requires AllPrintable(fields) && fields != []
    ensures ListThen(FieldThen, '}', SpellingsOf(fields), rest) == FieldsText(print_, fields) + ("}" + rest)
  {
    var all := SpellingsOf(fields);
    var first := FieldText(print_, fields[0]);
    if |fields| == 1 {
      FieldIs(print_, fields[0], "}" + rest);
    } else {
      var end, others, more := "}" + rest, FieldsText(print_, fields[1..]), fields[1..];
      FieldsTextCons(print_, fields);
      Regroup(first, ",", others, end);
      SpellingsBehind(fields);
      FieldsAre(print_, more, rest);
      FieldIs(print_, fields[0], "," + (others + end));
    }
  }

  lemma SpellingsBehind(fields: seq<Field>)
    requires AllPrintable(fields) && fields != []
    ensures AllPrintable(fields[1..]) && SpellingsOf(fields)[1..] == SpellingsOf(fields[1..])
  {
  }

  /** The printed object is read back field for field. */
  lemma RoundTrip(strtod: Strtod, print_: Printer, fields: seq<Field>)
    requires ReadsIntegers(strtod) && AllPrintable(fields) && |fields| <= 16
    ensures Parse(strtod, ObjectText(print_, fields)) == Some(fields)
  {
    SpellingsMean(fields);
    SpelledParses(strtod, "", "", SpellingsOf(fields), "");
    SpelledIs(print_, fields);
  }

  /** The printed object is one of the spelled texts. */
  lemma SpelledIs(print_: Printer, fields: seq<Field>)
    requires AllPrintable(fields)
    ensures Spelled("", "", SpellingsOf(fields), "") == ObjectText(print_, fields)
  {
    Braces(FieldsText(print_, fields));
    if fields != [] {
      FieldsAre(print_, fields, "");
    }
  }

  lemma Braces(body: string)
    ensures "" + ("{" + (body + ("}" + ""))) == "{" + body + "}"
  {
  }

  lemma FieldEnd(print_: Printer, f: Field)
    requires Printable(f)
    ensures FieldText(print_, f) != "" && FieldText(print_, f)[|FieldText(print_, f)| - 1] != '{'
  {
    match f.value {
      case Number(number) =>
        var text := IntText(number.Floor);
        NumberHead(number.Floor, "");
        assert IsDigit(text[|text| - 1]);
      case _ =>
    }
  }

  lemma SeparatorIs(print_: Printer, fields: seq<Field>)
    requires AllPrintable(fields)
    ensures Separator("{" + FieldsText(print_, fields)) == if fields == [] then "" else ","
  {
    if fields != [] {
      FieldEnd(print_, fields[|fields| - 1]);
    }
  }

  /** One field in the writer's own way for its kind. */
  method WriteField(print_: Printer, writer: Writer, f: Field)
    requires writer.Valid() && Printable(f)
    modifies writer, writer.buffer
    ensures writer.Wrote(old(writer.Content()), old(writer.failed),
                         Separator(old(writer.Content())) + FieldText(print_, f))
  {
    ghost var head := Separator(writer.Content());
    match f.value {
      case Text(text) => writer.FieldString(f.key, text);
      case Null => writer.FieldNull(f.key);
      case Number(number) => writer.FieldNumber(print_, f.key, number);
      case Truth(truth) => writer.FieldBool(f.key, truth);
    }
    Regroup(head, Quoted(f.key), ":", ValueText(print_, f.value));
  }

  /** The next field of an object under construction. */
  method WriteNext(print_: Printer, writer: Writer, field: Field, ghost done: seq<Field>)
    requires AllPrintable(done) && Printable(field)
    requires writer.Wrote("", writer.buffer.Length == 0, "{" + FieldsText(print_, done))
    modifies writer, writer.buffer
    ensures AllPrintable(done + [field])
    ensures writer.Wrote("", writer.buffer.Length == 0, "{" + FieldsText(print_, done + [field]))
  {
    ghost var c, f, text := writer.Content(), writer.failed, FieldsText(print_, done);
    SeparatorIs(print_, done);
    FieldsTextSnoc(print_, done, field);
    WriteField(print_, writer, field);
    Longer(writer.buffer.Length, text, c, f, FieldText(print_, field), writer.Content(), writer.failed);
  }

  /** A further piece behind an open object, with the comma its text calls for. */
  lemma Longer(capacity: nat, text: string, c: string, f: bool, piece: string, c1: string, f1: bool)
    requires After(capacity, "", capacity == 0, "{" + text, c, f) && After(capacity, c, f, Separator(c) + piece, c1, f1)
    ensures After(capacity, "", capacity == 0, "{" + (text + (Separator("{" + text) + piece)), c1, f1)
  {
    var more := Separator("{" + text) + piece;
    if !f {
      Both(capacity, "", capacity == 0, "{" + text, c, f, more, c1, f1);
    }
    Associate("{", text, more);
  }

  /**
   * Writing an object field by field succeeds exactly when its whole text and the terminator fit,
   * and the buffer then holds just that, which the reader turns back into the fields.
   */
  method WriteObject(print_: Printer, fields: seq<Field>, buffer: array<char>) returns (ok: bool)
    requires AllPrintable(fields)
    modifies buffer
    ensures ok <==> |ObjectText(print_, fields)| + 1 <= buffer.Length
    ensures ok ==> buffer[..|ObjectText(print_, fields)| + 1] == ObjectText(print_, fields) + [NUL]
  {
    var writer := new Writer(buffer);
    writer.BeginObject();
    assert "" + "{" == "{" + FieldsText(print_, []);
    for i := 0 to |fields|
      invariant writer.buffer == buffer && writer.Wrote("", buffer.Length == 0, "{" + FieldsText(print_, fields[..i]))
    {
      WriteNext(print_, writer, fields[i], fields[..i]);
      TakeOneMore(fields, i);
    }
    assert fields[..|fields|] == fields;
    ok := Finish(print_, writer, fields);
  }

  /** Closes the object; what the writer then says settles it. */
  method Finish(print_: Printer, writer: Writer, ghost fields: seq<Field>) returns (ok: bool)
    requires AllPrintable(fields)
    requires writer.Wrote("", writer.buffer.Length == 0, "{" + FieldsText(print_, fields))
    modifies writer, writer.buffer
    ensures ok <==> |ObjectText(print_, fields)| + 1 <= writer.buffer.Length
    ensures ok ==> writer.buffer[..|ObjectText(print_, fields)| + 1] == ObjectText(print_, fields) + [NUL]
  {
    ghost var c, f, text, size := writer.Content(), writer.failed, "{" + FieldsText(print_, fields), writer.buffer.Length;
    writer.EndObject();
    Both(size, "", size == 0, text, c, f, "}", writer.Content(), writer.failed);
    ok := !writer.failed;
  }

  lemma FieldsTextSnoc(print_: Printer, done: seq<Field>, field: Field)
    requires AllWritable(done) && Writable(field.value)
    ensures FieldsText(print_, done + [field])
         == FieldsText(print_, done) + ((if done == [] then "" else ",") + FieldText(print_, field))
  {
    assert (done + [field])[..|done|] == done;
    if done != [] {
      Associate(FieldsText(print_, done), ",", FieldText(print_, field));
    }
  }

  lemma {:induction false} EscapedCString(s: string)
    requires IsCString(s)
    ensures IsCString(Escaped(s))
  {
    if s != "" {
      EscapedCString(s[1..]);
      assert UnitsOf(s)[1..] == UnitsOf(s[1..]);
      UnitCString(s[0]);
      CStringJoin(Spell(UnitOf(s[0])), Escaped(s[1..]));
    }
  }

  lemma UnitCString(c: char)
    requires IsCString([c])
    ensures IsCString(Spell(UnitOf(c)))
  {
    assert [c][0] == c;
  }

  lemma CStringJoin(a: string, b: string)
    requires IsCString(a) && IsCString(b)
    ensures IsCString(a + b)
  {
  }

  lemma FieldCString(print_: Printer, f: Field)
    requires Printable(f)
    ensures IsCString(FieldText(print_, f))
  {
    EscapedCString(f.key);
    match f.value {
      case Text(text) => EscapedCString(text);
      case _ =>
    }
    CStringJoin(Quoted(f.key) + ":", ValueText(print_, f.value));
  }

  lemma {:induction false} FieldsCString(print_: Printer, fields: seq<Field>)
    requires AllPrintable(fields)
    ensures IsCString(FieldsText(print_, fields))
  {
    if fields != [] {
      FieldCString(print_, fields[|fields| - 1]);
      if |fields| > 1 {
        FieldsCString(print_, fields[..|fields| - 1]);
      }
    }
  }

  /** A printed object is itself a C string. */
  lemma ObjectCString(print_: Printer, fields: seq<Field>)
    requires AllPrintable(fields)
    ensures IsCString(ObjectText(print_, fields))
  {
    FieldsCString(print_, fields);
  }
}

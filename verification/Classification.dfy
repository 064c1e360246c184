/** How a message body is classified by its "type" member, without parsing it. */
module Classification {
  import opened Common
  import opened JsonText

  const TYPE_VALUE_SIZE := 32

  datatype Kind = PlainText | Audio | PaymentRequest | PaymentReceipt | PaymentSent | Unknown

  // ---- the scan --------------------------------------------------------------------------------------------

  function SkipBlanks(s: string): (r: string)
    ensures |r| <= |s|
  {
    if s != "" && (s[0] == ' ' || s[0] == '\t') then SkipBlanks(s[1..]) else s
  }

  /** The characters up to the closing quote, if they fit a buffer of `size`. */
  function RawValue(s: string, size: nat): Option<string> {
    var end := IndexOf(s, '"');
    if end == None || end.value + 1 > size then None else Some(s[..end.value])
  }

  /** What one quoted name leads to: an answer, or the rest to look at. */
  datatype Look = Answer(value: Option<string>) | GoOn(rest: string)

  function LookAt(json: string, field: string, size: nat): (r: Look)
    ensures r.GoOn? ==> |r.rest| < |json|
  {
    var open := IndexOf(json, '"');
    if open == None then Answer(None)
    else
      var name := json[open.value + 1..];
      var close := IndexOf(name, '"');
      if close == None then Answer(None)
      else
        var after := name[close.value + 1..];
        if name[..close.value] != field then GoOn(after)
        else if Head(SkipBlanks(after)) != ':' then GoOn(SkipBlanks(after))
        else
          var value := SkipBlanks(SkipBlanks(after)[1..]);
          Answer(if Head(value) != '"' then None else RawValue(value[1..], size))
  }

  /** The raw value of the first quoted name equal to `field` that a colon follows. */
  function Extract(json: string, field: string, size: nat): Option<string>
    decreases |json|
  {
    match LookAt(json, field, size)
    case Answer(value) => value
    case GoOn(rest) => Extract(rest, field, size)
  }

  method ExtractStringField(json: string, field: string, size: nat) returns (value: Option<string>)
    requires size > 0
    ensures value == Extract(json, field, size)
  {
    var cursor := json;
    while true
      invariant Extract(cursor, field, size) == Extract(json, field, size)
      decreases |cursor|
    {
      var open := IndexOf(cursor, '"');
      if open == None {
        return None;
      }
      var name := cursor[open.value + 1..];
      var close := IndexOf(name, '"');
      if close == None {
        return None;
      }
      var after := name[close.value + 1..];
      if name[..close.value] != field {
        cursor := after;
        continue;
      }
      after := SkipBlanks(after);
      if Head(after) != ':' {
        cursor := after;
        continue;
      }
      after := SkipBlanks(after[1..]);
      if Head(after) != '"' {
        return None;
      }
      value := CopyValue(after[1..], size);
      return;
    }
  }

  /** Copies until a quote, the end or a full buffer; only a quote makes it a value. */
  method CopyValue(after: string, size: nat) returns (value: Option<string>)
    requires size > 0
    ensures value == RawValue(after, size)
  {
    var out := "";
    var written := 0;
    while written < |after| && after[written] != '"' && written + 1 < size
      invariant written <= |after| && written < size && out == after[..written]
      invariant forall i :: 0 <= i < written ==> after[i] != '"'
    {
      out := out + [after[written]];
      written := written + 1;
    }
    if Head(after[written..]) == '"' {
      FirstPlace(after, '"', written);
      return Some(out);
    }
    if written == |after| {
      Absent(after, '"');
    } else {
      FoundFirst(after, '"');
      NotBefore(after, '"', size);
    }
    return None;
  }

  lemma {:induction false} NotBefore(s: string, c: char, size: nat)
    requires 0 < size <= |s| && forall i :: 0 <= i < size ==> s[i] != c
    ensures IndexOf(s, c).Some? ==> IndexOf(s, c).value >= size
  {
    if size > 1 {
      NotBefore(s[1..], c, size - 1);
    }
  }

  function KindOfName(name: string): Kind {
    if name == "text" then PlainText
    else if name == "audio" then Audio
    else if name == "payment_request" then PaymentRequest
    else if name == "payment_receipt" then PaymentReceipt
    else if name == "payment_sent" then PaymentSent
    else Unknown
  }

  function KindOf(body: string): Kind {
    if Head(body) != '{' then PlainText
    else
      var name := Extract(body, "type", TYPE_VALUE_SIZE);
      if name == None then Unknown else KindOfName(name.value)
  }

  method ContentType(body: string) returns (kind: Kind)
    ensures kind == KindOf(body)
    ensures body == "" || body[0] != '{' ==> kind == PlainText
    ensures body != "" && body[0] == '{' ==>
      && (TypeIs(body, "text") <==> kind == PlainText) && (TypeIs(body, "audio") <==> kind == Audio)
      && (TypeIs(body, "payment_request") <==> kind == PaymentRequest)
      && (TypeIs(body, "payment_receipt") <==> kind == PaymentReceipt)
      && (TypeIs(body, "payment_sent") <==> kind == PaymentSent)
  {
    KindMeans(body);
    if Head(body) != '{' {
      return PlainText;
    }
    var name := ExtractStringField(body, "type", TYPE_VALUE_SIZE);
    if name == None {
      return Unknown;
    }
    return KindOfName(name.value);
  }

  // ---- what it finds -------------------------------------------------------------------------------------------

  function Quotes(s: string): nat {
    if s == "" then 0 else Quotes(s[..|s| - 1]) + (if s[|s| - 1] == '"' then 1 else 0)
  }

  /** Blanks from `i` to `k`. */
  predicate BlankFrom(s: string, i: nat, k: nat) {
    i <= k <= |s| && forall m :: i <= m < k ==> s[m] == ' ' || s[m] == '\t'
  }

  /** The text begins with "type", in quotes, and a colon at `k`. */
  predicate Begins(s: string, k: nat) {
    "\"type\"" <= s && 6 <= k < |s| && BlankFrom(s, 6, k) && s[k] == ':'
  }

  /** A "type" member begins at `i`: an even number of quotes stands before it, so it is not inside of a string. */
  ghost predicate TypeAt(body: string, i: nat) {
    i <= |body| && Quotes(body[..i]) % 2 == 0 && exists k: nat :: Begins(body[i..], k)
  }

  ghost predicate FirstType(body: string, i: nat) {
    TypeAt(body, i) && forall j: nat :: j < i ==> !TypeAt(body, j)
  }

  /** The member is followed by a quoted value. */
  predicate ValueAt(s: string, k: nat, q: nat, name: string) {
    && Begins(s, k) && BlankFrom(s, k + 1, q) && q + 1 + |name| < |s|
    && s[q] == '"' && s[q + 1..q + 1 + |name|] == name && s[q + 1 + |name|] == '"' && '"' !in name
  }

  /** The first "type" member of the body is this string. */
  ghost predicate TypeIs(body: string, name: string) {
    exists i: nat, k: nat, q: nat :: FirstType(body, i) && ValueAt(body[i..], k, q, name)
  }

  // ---- leading blanks ----

  function Blanks(s: string): (n: nat)
    ensures BlankFrom(s, 0, n) && SkipBlanks(s) == s[n..]
    ensures n < |s| ==> s[n] != ' ' && s[n] != '\t'
  {
    if s != "" && (s[0] == ' ' || s[0] == '\t') then 1 + Blanks(s[1..]) else 0
  }

  /** The first place behind the blanks is the only one that is not a blank behind blanks. */
  lemma BlanksOnly(s: string, from: nat, k: nat, c: char)
    requires from <= |s| && c != ' ' && c != '\t' && c != NUL
    ensures (k < |s| && BlankFrom(s, from, k) && s[k] == c) <==> (k == from + Blanks(s[from..]) && Head(SkipBlanks(s[from..])) == c)
  {
    var n := from + Blanks(s[from..]);
    assert forall m :: from <= m < n ==> s[m] == s[from..][m - from];
    assert n < |s| ==> s[n] == s[from..][n - from];
  }

  // ---- counting quotes ----

  lemma {:induction false} QuotesAppend(a: string, b: string)
    ensures Quotes(a + b) == Quotes(a) + Quotes(b)
  {
    if b == "" {
      assert a + b == a;
    } else {
      QuotesAppend(a, b[..|b| - 1]);
      assert (a + b)[..|a + b| - 1] == a + b[..|b| - 1];
    }
  }

  lemma {:induction false} NoQuotes(s: string)
    requires forall i :: 0 <= i < |s| ==> s[i] != '"'
    ensures Quotes(s) == 0
  {
    if s != "" {
      NoQuotes(s[..|s| - 1]);
    }
  }

  lemma OneQuote()
    ensures Quotes("\"") == 1
  {
    assert "\""[..0] == "";
  }

  /** Behind an even number of quotes a text is scanned afresh. */
  lemma Shift(body: string, a: nat, i: nat)
    requires a <= i <= |body| && Quotes(body[..a]) % 2 == 0
    ensures TypeAt(body, i) <==> TypeAt(body[a..], i - a)
    ensures body[a..][i - a..] == body[i..]
  {
    QuotesAppend(body[..a], body[a..i]);
    assert body[..i] == body[..a] + body[a..i] && body[a..][..i - a] == body[a..i] && body[a..][i - a..] == body[i..];
  }

  lemma BeginsQuoted(s: string, k: nat)
    requires Begins(s, k)
    ensures s[0] == '"' && s[5] == '"' && s[1..5] == "type"
    ensures s[1] != '"' && s[2] != '"' && s[3] != '"' && s[4] != '"'
  {
    var t := "\"type\"";
    assert s[0] == t[0] && s[1] == t[1] && s[2] == t[2] && s[3] == t[3] && s[4] == t[4] && s[5] == t[5];
  }

  // ---- one quoted name ----

  /** A quoted name: the text up to the quote, the name, the text behind. */
  predicate Name(body: string, gap: string, name: string, after: string) {
    body == gap + "\"" + name + "\"" + after && '"' !in gap && '"' !in name
  }

  lemma NamePlaces(body: string, gap: string, name: string, after: string)
    requires Name(body, gap, name, after)
    ensures
      var a := |gap| + |name| + 2;
      && |body| == a + |after| && body[a..] == after && body[|gap|] == '"' && body[a - 1] == '"'
      && body[..a] == gap + "\"" + name + "\"" && body[|gap| + 1..a - 1] == name
      && (forall i :: 0 <= i < |gap| ==> body[i] != '"') && (forall i :: |gap| < i < a - 1 ==> body[i] != '"')
      && Quotes(body[..|gap|]) == 0 && Quotes(body[..a - 1]) == 1 && Quotes(body[..a]) == 2
  {
    var a := |gap| + |name| + 2;
    assert body[..a] == gap + "\"" + name + "\"" && body[a..] == after;
    assert forall i :: 0 <= i < |gap| ==> body[i] == gap[i];
    assert forall i :: |gap| < i < a - 1 ==> body[i] == name[i - |gap| - 1];
    NoQuotes(gap);
    NoQuotes(name);
    OneQuote();
    QuotesAppend(gap, "\"");
    QuotesAppend(gap + "\"", name);
    QuotesAppend(gap + "\"" + name, "\"");
    assert body[..|gap|] == gap && body[..a - 1] == gap + "\"" + name;
  }

  /** Up to the end of the first quoted name, a "type" member can only begin with that name. */
  lemma OnlyThere(body: string, gap: string, name: string, after: string, i: nat)
    requires Name(body, gap, name, after) && i < |gap| + |name| + 2 && TypeAt(body, i)
    ensures i == |gap| && name == "type" && Head(SkipBlanks(after)) == ':'
  {
    var a := |gap| + |name| + 2;
    NamePlaces(body, gap, name, after);
    var s := body[i..];
    var k: nat :| Begins(s, k);
    BeginsQuoted(s, k);
    assert s[0] == body[i];
    assert i == |gap|;
    assert s[5] == body[i + 5] && s[1..5] == body[i + 1..i + 5];
    assert s[1] == body[i + 1] && s[2] == body[i + 2] && s[3] == body[i + 3] && s[4] == body[i + 4];
    assert |name| == 4;
    assert s[6..] == after;
    BlanksOnly(s, 6, k, ':');
  }

  lemma ThereIndeed(body: string, gap: string, after: string)
    requires Name(body, gap, "type", after) && Head(SkipBlanks(after)) == ':'
    ensures TypeAt(body, |gap|)
  {
    NamePlaces(body, gap, "type", after);
    var s := body[|gap|..];
    assert s == "\"type\"" + after && s[6..] == after;
    BlanksOnly(s, 6, 6 + Blanks(after), ':');
    assert Begins(s, 6 + Blanks(after));
  }

  // ---- the scan against it ----

  /** What the scan sees first: no quoted name, or one. */
  lemma FirstName(body: string) returns (found: bool, gap: string, name: string, after: string)
    ensures found ==> Name(body, gap, name, after)
    ensures found ==> LookAt(body, "type", TYPE_VALUE_SIZE) == Looked(name, after)
    ensures !found ==> LookAt(body, "type", TYPE_VALUE_SIZE) == Answer(None) && forall i: nat :: !TypeAt(body, i)
  {
    found, gap, name, after := false, "", "", "";
    FoundFirst(body, '"');
    if IndexOf(body, '"') == None {
      TooFewQuotes(body, |body|);
    } else {
      var o := IndexOf(body, '"').value;
      var rest := body[o + 1..];
      FoundFirst(rest, '"');
      if IndexOf(rest, '"') == None {
        assert forall i :: o < i < |body| ==> body[i] == rest[i - o - 1];
        TooFewQuotes(body, o);
      } else {
        var c := IndexOf(rest, '"').value;
        found, gap, name, after := true, body[..o], rest[..c], rest[c + 1..];
        NameFound(body, o, c);
      }
    }
  }

  lemma TooFewQuotes(body: string, o: nat)
    requires forall i :: 0 <= i < |body| && i != o ==> body[i] != '"'
    ensures forall i: nat :: !TypeAt(body, i)
  {
    forall i: nat ensures !TypeAt(body, i) {
      if TypeAt(body, i) {
        Quoted(body, i);
      }
    }
  }

  lemma NameFound(body: string, o: nat, c: nat)
    requires IndexOf(body, '"') == Some(o) && IndexOf(body[o + 1..], '"') == Some(c)
    ensures Name(body, body[..o], body[o + 1..][..c], body[o + 1..][c + 1..])
    ensures LookAt(body, "type", TYPE_VALUE_SIZE) == Looked(body[o + 1..][..c], body[o + 1..][c + 1..])
  {
    var rest := body[o + 1..];
    FoundFirst(body, '"');
    FoundFirst(rest, '"');
    IsAt(body, '"');
    IsAt(rest, '"');
    Around(body, o);
    Around(rest, c);
    Regrouped(body[..o], "\"", rest[..c], "\"", rest[c + 1..]);
  }

  lemma Around(s: string, i: nat)
    requires i < |s| && s[i] == '"'
    ensures s == s[..i] + "\"" + s[i + 1..]
  {
  }

  lemma Regrouped(a: string, b: string, c: string, d: string, e: string)
    ensures a + b + (c + d + e) == a + b + c + d + e
  {
  }

  lemma {:induction false} IsAt(s: string, c: char)
    requires IndexOf(s, c).Some?
    ensures s[IndexOf(s, c).value] == c
  {
    if s[0] != c {
      IsAt(s[1..], c);
    }
  }

  /** A "type" member begins with a quote, and another one follows five places on. */
  lemma Quoted(body: string, i: nat)
    requires TypeAt(body, i)
    ensures i + 5 < |body| && body[i] == '"' && body[i + 5] == '"'
  {
    var s := body[i..];
    var k: nat :| Begins(s, k);
    BeginsQuoted(s, k);
    assert s[0] == body[i] && s[5] == body[i + 5];
  }

  /** What a quoted name and the text behind it lead to. */
  function Looked(name: string, after: string): Look {
    if name != "type" then GoOn(after)
    else if Head(SkipBlanks(after)) != ':' then GoOn(SkipBlanks(after))
    else
      var value := SkipBlanks(SkipBlanks(after)[1..]);
      Answer(if Head(value) != '"' then None else RawValue(value[1..], TYPE_VALUE_SIZE))
  }

  // ---- the scan finds the first member ----

  /** If no "type" member stands anywhere the scan finds none. */
  lemma {:induction false} ScanNone(body: string)
    requires forall i: nat :: !TypeAt(body, i)
    ensures Extract(body, "type", TYPE_VALUE_SIZE) == None
    decreases |body|
  {
    var found, gap, name, after := FirstName(body);
    if found {
      if name == "type" && Head(SkipBlanks(after)) == ':' {
        ThereIndeed(body, gap, after);
      } else {
        var m := NextScan(body, gap, name, after);
        forall i: nat ensures !TypeAt(body[m..], i) {
          if TypeAt(body[m..], i) {
            Shift(body, m, m + i);
          }
        }
        ScanNone(body[m..]);
      }
    }
  }

  /** Where the scan goes on: behind the name and blanks, with an even number of quotes before. */
  lemma NextScan(body: string, gap: string, name: string, after: string) returns (m: nat)
    requires Name(body, gap, name, after) && !(name == "type" && Head(SkipBlanks(after)) == ':')
    ensures 2 <= m <= |body| && Quotes(body[..m]) % 2 == 0 && Looked(name, after) == GoOn(body[m..])
    ensures forall i: nat :: i < m ==> !TypeAt(body, i)
  {
    var a, n := |gap| + |name| + 2, if name == "type" then Blanks(after) else 0;
    m := a + n;
    NamePlaces(body, gap, name, after);
    assert forall k :: 0 <= k < n ==> body[a + k] == after[k];
    EvenBehind(body, a, m);
    assert body[m..] == after[n..];
    forall i: nat | i < m ensures !TypeAt(body, i) {
      if TypeAt(body, i) {
        Quoted(body, i);
        if i < a {
          OnlyThere(body, gap, name, after, i);
        }
      }
    }
  }

  lemma EvenBehind(body: string, a: nat, m: nat)
    requires a <= m <= |body| && Quotes(body[..a]) % 2 == 0 && forall k :: a <= k < m ==> body[k] != '"'
    ensures Quotes(body[..m]) % 2 == 0
  {
    NoQuotes(body[a..m]);
    QuotesAppend(body[..a], body[a..m]);
    assert body[..m] == body[..a] + body[a..m];
  }

  /** Otherwise it finds what stands behind the first. */
  lemma {:induction false} ScanFirst(body: string, i: nat)
    requires FirstType(body, i)
    ensures i + 6 <= |body|
    ensures Extract(body, "type", TYPE_VALUE_SIZE) == BehindType(body[i + 6..])
    decreases |body|
  {
    var found, gap, name, after := FirstName(body);
    Quoted(body, i);
    if name == "type" && Head(SkipBlanks(after)) == ':' {
      FirstIsIt(body, gap, after, i);
    } else {
      var m := NextScan(body, gap, name, after);
      var rest := body[m..];
      FirstBehind(body, m, i);
      ScanFirst(rest, i - m);
      assert rest[i - m + 6..] == body[i + 6..];
    }
  }

  lemma FirstIsIt(body: string, gap: string, after: string, i: nat)
    requires Name(body, gap, "type", after) && Head(SkipBlanks(after)) == ':' && FirstType(body, i)
    ensures i + 6 <= |body| && body[i + 6..] == after
  {
    ThereIndeed(body, gap, after);
    NamePlaces(body, gap, "type", after);
    OnlyThere(body, gap, "type", after, i);
  }

  lemma FirstBehind(body: string, m: nat, i: nat)
    requires FirstType(body, i) && m <= i <= |body| && Quotes(body[..m]) % 2 == 0
    ensures FirstType(body[m..], i - m)
  {
    Shift(body, m, i);
    forall j: nat | j < i - m ensures !TypeAt(body[m..], j) {
      Shift(body, m, m + j);
    }
  }

  /** The value behind the quoted name, as far as the buffer takes it. */
  function BehindType(after: string): Option<string> {
    var value := SkipBlanks(if SkipBlanks(after) == "" then "" else SkipBlanks(after)[1..]);
    if Head(value) != '"' then None else RawValue(value[1..], TYPE_VALUE_SIZE)
  }

  /** The value read behind a colon. */
  function ValueOf(t: string): Option<string> {
    var value := SkipBlanks(t);
    if Head(value) != '"' then None else RawValue(value[1..], TYPE_VALUE_SIZE)
  }

  /** A quoted value behind blanks. */
  predicate Valued(t: string, p: nat, name: string) {
    && BlankFrom(t, 0, p) && p + 1 + |name| < |t|
    && t[p] == '"' && t[p + 1..p + 1 + |name|] == name && t[p + 1 + |name|] == '"' && '"' !in name
  }

  lemma RawExact(inside: string, name: string)
    requires |name| < |inside| && inside[..|name|] == name && inside[|name|] == '"' && '"' !in name
    ensures RawValue(inside, TYPE_VALUE_SIZE) == if |name| < 32 then Some(name) else None
  {
    assert forall m :: 0 <= m < |name| ==> inside[m] == name[m];
    FirstPlace(inside, '"', |name|);
  }

  lemma RawGives(inside: string)
    requires RawValue(inside, TYPE_VALUE_SIZE).Some?
    ensures
      var name := RawValue(inside, TYPE_VALUE_SIZE).value;
      |name| < |inside| && inside[..|name|] == name && inside[|name|] == '"' && '"' !in name
  {
    IsAt(inside, '"');
    FoundFirst(inside, '"');
  }

  lemma ValueGives(t: string)
    requires ValueOf(t).Some?
    ensures Valued(t, Blanks(t), ValueOf(t).value)
  {
    var p := Blanks(t);
    var value := t[p..];
    RawGives(value[1..]);
    assert value[1..] == t[p + 1..];
    Cut(t, p + 1, |ValueOf(t).value|);
  }

  lemma Cut(t: string, a: nat, n: nat)
    requires a + n < |t|
    ensures t[a..][..n] == t[a..a + n] && t[a..][n] == t[a + n]
  {
  }

  lemma ValueTaken(t: string, p: nat, name: string)
    requires Valued(t, p, name)
    ensures ValueOf(t) == if |name| < 32 then Some(name) else None
  {
    assert t[0..] == t;
    BlanksOnly(t, 0, p, '"');
    var inside := t[p..][1..];
    assert inside == t[p + 1..];
    Cut(t, p + 1, |name|);
    RawExact(inside, name);
  }

  lemma BehindColon(s: string, k: nat)
    requires Begins(s, k)
    ensures BehindType(s[6..]) == ValueOf(s[k + 1..])
  {
    BlanksOnly(s, 6, k, ':');
    assert s[6..][k - 6..] == s[k..] && s[k..][1..] == s[k + 1..];
  }

  lemma ValuedBehind(s: string, k: nat, q: nat, name: string)
    requires Begins(s, k)
    ensures ValueAt(s, k, q, name) <==> q > k && Valued(s[k + 1..], q - k - 1, name)
  {
    var t := s[k + 1..];
    if q > k && q + 1 + |name| < |s| {
      var p := q - k - 1;
      assert t[p] == s[q] && t[p + 1 + |name|] == s[q + 1 + |name|];
      assert t[p + 1..p + 1 + |name|] == s[q + 1..q + 1 + |name|];
      BlankShift(s, k + 1, q);
    }
  }

  lemma BlankShift(s: string, from: nat, q: nat)
    requires from <= q <= |s|
    ensures BlankFrom(s, from, q) <==> BlankFrom(s[from..], 0, q - from)
  {
    var t := s[from..];
    assert forall m :: from <= m < q ==> s[m] == t[m - from];
    assert forall m :: 0 <= m < q - from ==> t[m] == s[m + from];
  }

  /** What stands behind a member's colon is a quoted value exactly when the scan reads one. */
  lemma ValueRead(s: string, k: nat)
    requires Begins(s, k)
    ensures BehindType(s[6..]).Some? ==> exists q: nat :: ValueAt(s, k, q, BehindType(s[6..]).value)
    ensures forall q: nat, name :: ValueAt(s, k, q, name) ==> BehindType(s[6..]) == if |name| < 32 then Some(name) else None
  {
    var t := s[k + 1..];
    BehindColon(s, k);
    if ValueOf(t).Some? {
      ValueGives(t);
      ValuedBehind(s, k, k + 1 + Blanks(t), ValueOf(t).value);
    }
    forall q: nat, name | ValueAt(s, k, q, name)
      ensures ValueOf(t) == if |name| < 32 then Some(name) else None
    {
      ValuedBehind(s, k, q, name);
      ValueTaken(t, q - k - 1, name);
    }
  }

  /** A member has one value only. */
  lemma OneColon(s: string, k: nat, l: nat)
    requires Begins(s, k) && Begins(s, l)
    ensures k == l
  {
    BlanksOnly(s, 6, k, ':');
    BlanksOnly(s, 6, l, ':');
  }

  /**
   * What a body is classified as. A body that is empty or begins with no brace is text. In any other
   * the first "type" member outside of quoted strings decides, wherever it stands: its five known
   * names give the five kinds, any other value, or none, is unknown.
   */
  lemma KindMeans(body: string)
    ensures body == "" || body[0] != '{' ==> KindOf(body) == PlainText
    ensures body != "" && body[0] == '{' ==>
      && (TypeIs(body, "text") <==> KindOf(body) == PlainText)
      && (TypeIs(body, "audio") <==> KindOf(body) == Audio)
      && (TypeIs(body, "payment_request") <==> KindOf(body) == PaymentRequest)
      && (TypeIs(body, "payment_receipt") <==> KindOf(body) == PaymentReceipt)
      && (TypeIs(body, "payment_sent") <==> KindOf(body) == PaymentSent)
  {
    if body != "" && body[0] == '{' {
      TypeFound(body);
      ShortNames();
      var name := Extract(body, "type", TYPE_VALUE_SIZE);
      if name.Some? {
        NameMeans(name.value);
      }
    }
  }

  lemma ShortNames()
    ensures |"text"| < 32 && |"audio"| < 32 && |"payment_request"| < 32 && |"payment_receipt"| < 32 && |"payment_sent"| < 32
  {
  }

  lemma NameMeans(name: string)
    ensures KindOfName(name) == PlainText <==> name == "text"
    ensures KindOfName(name) == Audio <==> name == "audio"
    ensures KindOfName(name) == PaymentRequest <==> name == "payment_request"
    ensures KindOfName(name) == PaymentReceipt <==> name == "payment_receipt"
    ensures KindOfName(name) == PaymentSent <==> name == "payment_sent"
  {
    assert "payment_receipt"[10] == 'c' && "payment_request"[10] == 'q';
  }

  lemma TypeFound(body: string)
    ensures forall name :: |name| < 32 ==> (TypeIs(body, name) <==> Extract(body, "type", TYPE_VALUE_SIZE) == Some(name))
  {
    if i: nat :| FirstType(body, i) {
      ScanFirst(body, i);
      var s := body[i..];
      var k: nat :| Begins(s, k);
      assert s[6..] == body[i + 6..];
      ValueRead(s, k);
      forall name | |name| < 32
        ensures TypeIs(body, name) <==> Extract(body, "type", TYPE_VALUE_SIZE) == Some(name)
      {
        if TypeIs(body, name) {
          var j: nat, l: nat, q: nat :| FirstType(body, j) && ValueAt(body[j..], l, q, name);
          OneFirst(body, i, j);
          OneColon(s, k, l);
        }
      }
    } else {
      FirstOrNone(body);
      ScanNone(body);
    }
  }

  lemma OneFirst(body: string, i: nat, j: nat)
    requires FirstType(body, i) && FirstType(body, j)
    ensures i == j
  {
  }

  lemma FirstOrNone(body: string)
    requires forall i: nat :: !FirstType(body, i)
    ensures forall i: nat :: !TypeAt(body, i)
  {
    forall i: nat ensures !TypeAt(body, i) {
      NoneUpTo(body, i);
    }
  }

  lemma {:induction false} NoneUpTo(body: string, i: nat)
    requires forall i: nat :: !FirstType(body, i)
    ensures forall j: nat :: j <= i ==> !TypeAt(body, j)
  {
    if i > 0 {
      NoneUpTo(body, i - 1);
    }
    assert !FirstType(body, i);
  }
}

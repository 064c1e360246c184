/**
 * The visitor bot's session file: one escaped line per keyed room, written on every change and
 * read back after a restart.
 */
module Sessions {
  import opened Common

  const SESSIONS_MAX := 32
  const LINE_SIZE := 2048
  const TOKEN_SIZE := 128
  const WIDGET_SIZE := 128
  const LABEL_SIZE := 128
  const ORIGIN_SIZE := 256
  const KEY_BYTES := 32

  datatype Session = Session(token: string, widget: string, visitorLabel: string, origin: string, key: seq<byte>, hasKey: bool)

  /** What the C struct can hold. */
  predicate Storable(s: Session) {
    && FitsBuffer(s.token, TOKEN_SIZE) && FitsBuffer(s.widget, WIDGET_SIZE)
    && FitsBuffer(s.visitorLabel, LABEL_SIZE) && FitsBuffer(s.origin, ORIGIN_SIZE)
    && |s.key| == KEY_BYTES
  }

  // ---- key bytes in hexadecimal ----------------------------------------------------------------------

  function LowerDigit(v: nat): char
    requires v < 16
  {
    if v < 10 then '0' + v as char else 'a' + (v - 10) as char
  }

  function UpperDigit(v: nat): char
    requires v < 16
  {
    if v < 10 then '0' + v as char else 'A' + (v - 10) as char
  }

  /** The value of a digit whose letters start at `ten`. */
  function DigitValue(c: char, ten: char): (r: Option<nat>)
    ensures r.Some? ==> r.value < 16
  {
    if '0' <= c <= '9' then Some((c - '0') as nat)
    else if ten <= c && c as int <= ten as int + 5 then Some((c - ten) as nat + 10)
    else None
  }

  function HexText(bytes: seq<byte>): string {
    if bytes == [] then ""
    else [LowerDigit(bytes[0] / 16), LowerDigit(bytes[0] % 16)] + HexText(bytes[1..])
  }

  predicate IsHex(text: string) {
    forall i :: 0 <= i < |text| ==> DigitValue(text[i], 'a').Some?
  }

  /** Exactly `2 * size` lower-case digits name `size` bytes. */
  method HexEncode(bytes: seq<byte>, out: array<char>)
    requires out.Length == 2 * |bytes| + 1
    modifies out
    ensures out[..] == HexText(bytes) + [NUL]
  {
    HexLength(bytes);
    for i := 0 to |bytes|
      invariant out[..2 * i] == HexText(bytes)[..2 * i]
    {
      out[2 * i] := LowerDigit(bytes[i] / 16);
      out[2 * i + 1] := LowerDigit(bytes[i] % 16);
      HexAt(bytes, i);
      assert out[..2 * (i + 1)] == out[..2 * i] + [out[2 * i], out[2 * i + 1]];
    }
    out[2 * |bytes|] := NUL;
  }

  lemma {:induction false} HexLength(bytes: seq<byte>)
    ensures |HexText(bytes)| == 2 * |bytes|
  {
    if bytes != [] {
      HexLength(bytes[1..]);
    }
  }

  lemma {:induction false} HexAt(bytes: seq<byte>, i: nat)
    requires i < |bytes|
    ensures |HexText(bytes)| == 2 * |bytes|
    ensures HexText(bytes)[2 * i] == LowerDigit(bytes[i] / 16) && HexText(bytes)[2 * i + 1] == LowerDigit(bytes[i] % 16)
  {
    HexLength(bytes);
    HexLength(bytes[1..]);
    if i > 0 {
      HexAt(bytes[1..], i - 1);
      assert HexText(bytes)[2 * i] == HexText(bytes[1..])[2 * (i - 1)];
      assert HexText(bytes)[2 * i + 1] == HexText(bytes[1..])[2 * (i - 1) + 1];
    }
  }

  /** Bytes named by an even number of digits. */
  function HexBytes(text: string): (r: seq<byte>)
    requires |text| % 2 == 0 && IsHex(text)
    ensures 2 * |r| == |text|
  {
    if text == "" then []
    else [DigitValue(text[0], 'a').value * 16 + DigitValue(text[1], 'a').value] + HexBytes(text[2..])
  }

  lemma {:induction false} HexRoundTrip(bytes: seq<byte>)
    ensures |HexText(bytes)| == 2 * |bytes| && IsHex(HexText(bytes)) && HexBytes(HexText(bytes)) == bytes
  {
    HexLength(bytes);
    HexIsHex(bytes);
    if bytes != [] {
      var text, rest := HexText(bytes), HexText(bytes[1..]);
      HexRoundTrip(bytes[1..]);
      assert text[2..] == rest;
      assert DigitValue(text[0], 'a').value * 16 + DigitValue(text[1], 'a').value == bytes[0];
    }
  }

  /** Accepts exactly the texts `HexEncode` writes for `size` bytes, and gives the bytes back. */
  method HexDecode(hex: string, size: nat) returns (ok: bool, bytes: seq<byte>)
    ensures ok <==> |hex| == 2 * size && IsHex(hex)
    ensures ok ==> |bytes| == size && bytes == HexBytes(hex) && HexText(bytes) == hex
  {
    if |hex| != 2 * size {
      return false, [];
    }
    var out := new byte[size](_ => 0);
    for i := 0 to size
      invariant forall k :: 0 <= k < 2 * i ==> DigitValue(hex[k], 'a').Some?
      invariant forall k :: 0 <= k < i ==> LowerDigit(out[k] / 16) == hex[2 * k] && LowerDigit(out[k] % 16) == hex[2 * k + 1]
    {
      var value: nat := 0;
      for nibble := 0 to 2
        invariant forall k :: 0 <= k < 2 * i + nibble ==> DigitValue(hex[k], 'a').Some?
        invariant nibble == 0 ==> value == 0
        invariant nibble == 1 ==> value < 16 && LowerDigit(value) == hex[2 * i]
        invariant nibble == 2 ==> value < 256 && LowerDigit(value / 16) == hex[2 * i] && LowerDigit(value % 16) == hex[2 * i + 1]
      {
        var c := hex[2 * i + nibble];
        var digit := DigitValue(c, 'a');
        if digit == None {
          return false, [];
        }
        assert LowerDigit(digit.value) == c;
        value := value * 16 + digit.value;
      }
      out[i] := value;
    }
    ok, bytes := true, out[..];
    HexLength(bytes);
    forall k | 0 <= k < |hex| ensures HexText(bytes)[k] == hex[k] {
      HexAt(bytes, k / 2);
      assert k == 2 * (k / 2) || k == 2 * (k / 2) + 1;
    }
    assert HexText(bytes) == hex;
    HexRoundTrip(bytes);
  }

  lemma HexIsHex(bytes: seq<byte>)
    ensures IsHex(HexText(bytes))
  {
    HexLength(bytes);
    forall k | 0 <= k < |HexText(bytes)| ensures DigitValue(HexText(bytes)[k], 'a').Some? {
      HexAt(bytes, k / 2);
      assert k == 2 * (k / 2) || k == 2 * (k / 2) + 1;
    }
  }

  // ---- escaped fields -------------------------------------------------------------------------------------

  predicate Special(c: char) {
    c == '|' || c == '%' || c == '\n' || c == '\r'
  }

  function EscapedChar(c: char): (r: string)
    ensures 1 <= |r| <= 3
  {
    if Special(c) then ['%', UpperDigit(c as nat / 16), UpperDigit(c as nat % 16)] else [c]
  }

  function Escaped(s: string): (r: string)
    ensures |s| <= |r| <= 3 * |s|
  {
    if s == "" then "" else EscapedChar(s[0]) + Escaped(s[1..])
  }

  /** Escaped text holds no separator, no line end and no new terminator. */
  lemma {:induction false} EscapedPlain(s: string)
    requires NUL !in s
    ensures Plain(Escaped(s))
  {
    if s != "" {
      EscapedPlain(s[1..]);
      assert Plain(EscapedChar(s[0]));
      PlainJoin(EscapedChar(s[0]), Escaped(s[1..]));
    }
  }

  /** Fit to stand between the separators of a line. */
  predicate Plain(s: string) {
    forall i :: 0 <= i < |s| ==> s[i] != '|' && s[i] != '\n' && s[i] != '\r' && s[i] != NUL
  }

  lemma PlainJoin(s: string, t: string)
    requires Plain(s) && Plain(t)
    ensures Plain(s + t)
  {
  }

  lemma {:induction false} EscapedSnoc(s: string, c: char)
    ensures Escaped(s + [c]) == Escaped(s) + EscapedChar(c)
  {
    if s == "" {
      assert [c][1..] == "";
    } else {
      EscapedSnoc(s[1..], c);
      var head, middle, last := EscapedChar(s[0]), Escaped(s[1..]), EscapedChar(c);
      assert (s + [c])[1..] == s[1..] + [c];
      assert head + (middle + last) == head + middle + last;
    }
  }

  predicate EscapeAt(s: string) {
    |s| >= 3 && s[0] == '%' && DigitValue(s[1], 'A').Some? && DigitValue(s[2], 'A').Some?
  }

  /** A malformed escape stays literal text. */
  function Unescaped(s: string): (r: string)
    ensures |r| <= |s|
  {
    if s == "" then ""
    else if EscapeAt(s) then [(DigitValue(s[1], 'A').value * 16 + DigitValue(s[2], 'A').value) as char] + Unescaped(s[3..])
    else [s[0]] + Unescaped(s[1..])
  }

  lemma {:induction false} UnescapeEscaped(s: string)
    ensures Unescaped(Escaped(s)) == s
  {
    if s != "" {
      var head, rest := EscapedChar(s[0]), Escaped(s[1..]);
      UnescapeEscaped(s[1..]);
      if Special(s[0]) {
        assert (head + rest)[3..] == rest;
      } else {
        assert (head + rest)[1..] == rest;
      }
    }
  }

  /** Escapes as many characters as leave room for one more escape; stops at the end of the field. */
  method Escape(field: string, out: array<char>) returns (used: nat, ghost taken: nat)
    requires out.Length > 0
    modifies out
    ensures used < out.Length && out[used] == NUL && taken <= |field|
    ensures out[..used] == Escaped(field[..taken])
    ensures taken == |field| || used + 4 >= out.Length
    ensures 3 * |field| + 1 < out.Length ==> taken == |field|
  {
    used, taken := 0, 0;
    var cursor := 0;
    while cursor < |field| && used + 4 < out.Length
      invariant cursor == taken <= |field| && used < out.Length && used <= 3 * cursor
      invariant out[..used] == Escaped(field[..taken])
    {
      var c := field[cursor];
      assert field[..cursor + 1] == field[..cursor] + [c];
      EscapedSnoc(field[..cursor], c);
      if Special(c) {
        out[used], out[used + 1], out[used + 2] := '%', UpperDigit(c as nat / 16), UpperDigit(c as nat % 16);
        used := used + 3;
      } else {
        out[used] := c;
        used := used + 1;
      }
      cursor, taken := cursor + 1, taken + 1;
    }
    out[used] := NUL;
  }

  /** Keeps what fits. */
  method Unescape(field: string, out: array<char>) returns (used: nat)
    requires out.Length > 0
    modifies out
    ensures used < out.Length && out[used] == NUL
    ensures out[..used] == if |Unescaped(field)| < out.Length then Unescaped(field) else Unescaped(field)[..out.Length - 1]
  {
    used := 0;
    var cursor := 0;
    ghost var whole := Unescaped(field);
    while cursor < |field| && used + 1 < out.Length
      invariant cursor <= |field| && used < out.Length && used <= |whole|
      invariant forall k :: 0 <= k < used ==> out[k] == whole[k]
      invariant whole[used..] == Unescaped(field[cursor..])
    {
      ghost var rest := field[cursor..];
      var value := HexPair(field, cursor);
      if value.Some? {
        out[used] := value.value as char;
        cursor := cursor + 3;
        assert rest[3..] == field[cursor..];
      } else {
        out[used] := field[cursor];
        cursor := cursor + 1;
        assert rest[1..] == field[cursor..];
      }
      assert whole[used] == whole[used..][0] && whole[used + 1..] == whole[used..][1..];
      used := used + 1;
    }
    out[used] := NUL;
    assert cursor == |field| ==> whole[used..] == "";
  }

  function PairValue(field: string, cursor: nat): nat
    requires cursor < |field| && EscapeAt(field[cursor..])
  {
    DigitValue(field[cursor + 1], 'A').value * 16 + DigitValue(field[cursor + 2], 'A').value
  }

  /** Two upper-case digits behind a percent sign. */
  method HexPair(field: string, cursor: nat) returns (value: Option<nat>)
    requires cursor < |field|
    ensures value == if EscapeAt(field[cursor..]) then Some(PairValue(field, cursor)) else None
  {
    if field[cursor] != '%' {
      return None;
    }
    var pair: nat := 0;
    for nibble := 0 to 2
      invariant nibble == 1 ==> cursor + 1 < |field| && DigitValue(field[cursor + 1], 'A') == Some(pair)
      invariant nibble == 0 ==> pair == 0
      invariant nibble == 2 ==> EscapeAt(field[cursor..])
      invariant nibble == 2 ==> pair == PairValue(field, cursor)
    {
      var at := cursor + 1 + nibble;
      if at >= |field| || DigitValue(field[at], 'A') == None {
        return None;
      }
      pair := pair * 16 + DigitValue(field[at], 'A').value;
    }
    return Some(pair);
  }

  // ---- lines ------------------------------------------------------------------------------------------------

  function LineText(s: Session): string {
    Escaped(s.token) + "|" + HexText(s.key) + "|" + Escaped(s.widget) + "|" + Escaped(s.visitorLabel) + "|" + Escaped(s.origin)
  }

  /** One line for each session that has a key. */
  function FileText(ss: seq<Session>): string {
    if ss == [] then ""
    else (if ss[0].hasKey then LineText(ss[0]) + "\n" else "") + FileText(ss[1..])
  }

  function Keyed(ss: seq<Session>): seq<Session> {
    if ss == [] then []
    else (if ss[0].hasKey then [ss[0]] else []) + Keyed(ss[1..])
  }

  function FieldValue(field: string, size: nat): string
    requires size > 0
  {
    CString(CopyBounded(size, Unescaped(field)))
  }

  /** Cuts a line at its first `n` separators. */
  function Parts(line: string, n: nat): (r: Option<seq<string>>)
    ensures r.Some? ==> |r.value| == n + 1
    decreases |line|
  {
    if n == 0 then Some([line])
    else
      var at := IndexOf(line, '|');
      if at == None then None
      else
        var rest := Parts(line[at.value + 1..], n - 1);
        if rest == None then None else Some([line[..at.value]] + rest.value)
  }

  /** The session a line names, if it has five parts, a key of the right form and a token. */
  function ReadLine(line: string): Option<Session> {
    var parts := Parts(line, 4);
    if parts == None then None
    else FromParts(parts.value[0], parts.value[1], parts.value[2], parts.value[3], parts.value[4])
  }

  function FromParts(token: string, hex: string, widget: string, visitorLabel: string, origin: string): Option<Session> {
    if |hex| != 2 * KEY_BYTES || !IsHex(hex) || FieldValue(token, TOKEN_SIZE) == "" then None
    else Some(Session(FieldValue(token, TOKEN_SIZE), FieldValue(widget, WIDGET_SIZE), FieldValue(visitorLabel, LABEL_SIZE),
                      FieldValue(origin, ORIGIN_SIZE), HexBytes(hex), true))
  }

  /** What `fgets` takes: up to and including a newline, at most one character less than the buffer. */
  function Taken(file: string): (n: nat)
    requires file != ""
    ensures 0 < n <= |file| && n < LINE_SIZE
  {
    var at := IndexOf(file, '\n');
    var n := if at == None then |file| else at.value + 1;
    if n < LINE_SIZE then n else LINE_SIZE - 1
  }

  /** The line without its end. */
  function Stripped(chunk: string): string {
    var text := CString(chunk);
    var cr := IndexOf(text, '\r');
    var short := if cr == None then text else text[..cr.value];
    var lf := IndexOf(short, '\n');
    if lf == None then short else short[..lf.value]
  }

  /** The lines of a file as they reach the parser. */
  function Lines(file: string): seq<string>
    decreases |file|
  {
    if file == "" then [] else [Stripped(file[..Taken(file)])] + Lines(file[Taken(file)..])
  }

  /** The sessions the lines name, in order; unreadable lines name none. */
  function Named(lines: seq<string>): seq<Session> {
    if lines == [] then []
    else Listed(ReadLine(lines[0])) + Named(lines[1..])
  }

  function Listed(session: Option<Session>): seq<Session> {
    if session == None then [] else [session.value]
  }

  /** As many as the table has room for. */
  function Bounded(ss: seq<Session>): seq<Session> {
    if |ss| <= SESSIONS_MAX then ss else ss[..SESSIONS_MAX]
  }

  // ---- the round trip ------------------------------------------------------------------------------------------

  lemma HexPlain(bytes: seq<byte>)
    ensures Plain(HexText(bytes))
  {
    HexIsHex(bytes);
    assert DigitValue('|', 'a') == None && DigitValue('\n', 'a') == None && DigitValue('\r', 'a') == None && DigitValue(NUL, 'a') == None;
  }

  lemma FieldRoundTrip(field: string, size: nat)
    requires FitsBuffer(field, size) && size > 0
    ensures FieldValue(Escaped(field), size) == field
  {
    UnescapeEscaped(field);
    Absent(field, NUL);
  }

  /** Every stored line is short enough for the line buffer and holds no line end. */
  lemma LineFits(s: Session)
    requires Storable(s)
    ensures OneLine(LineText(s))
  {
    HexLength(s.key);
    HexPlain(s.key);
    EscapedPlain(s.token);
    EscapedPlain(s.widget);
    EscapedPlain(s.visitorLabel);
    EscapedPlain(s.origin);
  }

  predicate OneLine(line: string) {
    |line| + 1 < LINE_SIZE && forall i :: 0 <= i < |line| ==> line[i] != '\n' && line[i] != '\r' && line[i] != NUL
  }

  predicate Barless(text: string) {
    forall i :: 0 <= i < |text| ==> text[i] != '|'
  }

  lemma PartsStep(head: string, tail: string, n: nat)
    requires Barless(head) && n > 0
    ensures Parts(head + "|" + tail, n)
         == if Parts(tail, n - 1) == None then None else Some([head] + Parts(tail, n - 1).value)
  {
    SplitAt(head, '|', tail);
  }

  /** Five parts joined by separators are cut at the separators. */
  lemma PartsRead(token: string, hex: string, widget: string, visitorLabel: string, origin: string)
    requires Barless(token) && Barless(hex) && Barless(widget) && Barless(visitorLabel)
    ensures Parts(token + "|" + hex + "|" + widget + "|" + visitorLabel + "|" + origin, 4)
         == Some([token, hex, widget, visitorLabel, origin])
  {
    var three := visitorLabel + "|" + origin;
    var two := widget + "|" + three;
    var one := hex + "|" + two;
    assert token + "|" + hex + "|" + widget + "|" + visitorLabel + "|" + origin == token + "|" + one;
    PartsStep(visitorLabel, origin, 1);
    PartsStep(widget, three, 2);
    PartsStep(hex, two, 3);
    PartsStep(token, one, 4);
    assert [visitorLabel] + [origin] == [visitorLabel, origin];
    assert [widget] + [visitorLabel, origin] == [widget, visitorLabel, origin];
    assert [hex] + [widget, visitorLabel, origin] == [hex, widget, visitorLabel, origin];
    assert [token] + [hex, widget, visitorLabel, origin] == [token, hex, widget, visitorLabel, origin];
  }

  /** A stored line reads as the session it was written for. */
  lemma LineReads(s: Session)
    requires Storable(s) && s.token != "" && s.hasKey
    ensures ReadLine(LineText(s)) == Some(s)
  {
    HexPlain(s.key);
    HexRoundTrip(s.key);
    EscapedPlain(s.token);
    EscapedPlain(s.widget);
    EscapedPlain(s.visitorLabel);
    PartsRead(Escaped(s.token), HexText(s.key), Escaped(s.widget), Escaped(s.visitorLabel), Escaped(s.origin));
    FieldRoundTrip(s.token, TOKEN_SIZE);
    FieldRoundTrip(s.widget, WIDGET_SIZE);
    FieldRoundTrip(s.visitorLabel, LABEL_SIZE);
    FieldRoundTrip(s.origin, ORIGIN_SIZE);
  }

  lemma LineTaken(line: string, rest: string)
    requires OneLine(line)
    ensures
      var file := line + "\n" + rest;
      Taken(file) == |line| + 1 && file[Taken(file)..] == rest && Stripped(file[..Taken(file)]) == line
  {
    SplitAt(line, '\n', rest);
    var chunk := line + "\n";
    assert (chunk + rest)[..|chunk|] == chunk;
    Absent(chunk, NUL);
    Absent(chunk, '\r');
    SplitAt(line, '\n', "");
    assert chunk == line + ['\n'] + "";
  }

  lemma FileTextStep(ss: seq<Session>, line: string)
    requires ss != [] && ss[0].hasKey && line == LineText(ss[0])
    ensures FileText(ss) == line + "\n" + FileText(ss[1..])
  {
  }

  function LineTexts(ss: seq<Session>): seq<string> {
    if ss == [] then [] else [LineText(ss[0])] + LineTexts(ss[1..])
  }

  lemma LinesStep(line: string, rest: string)
    requires OneLine(line)
    ensures Lines(line + "\n" + rest) == [line] + Lines(rest)
  {
    LineTaken(line, rest);
  }

  /** A saved file has one line for each session with a key. */
  lemma {:induction false} LinesOfFile(saved: seq<Session>)
    requires forall i :: 0 <= i < |saved| ==> Storable(saved[i])
    ensures Lines(FileText(saved)) == LineTexts(Keyed(saved))
  {
    if saved == [] {
    } else if saved[0].hasKey {
      var line, rest := LineText(saved[0]), FileText(saved[1..]);
      FileTextStep(saved, line);
      LineFits(saved[0]);
      LinesStep(line, rest);
      LinesOfFile(saved[1..]);
      assert Keyed(saved) == [saved[0]] + Keyed(saved[1..]) && Keyed(saved)[1..] == Keyed(saved[1..]);
    } else {
      LinesOfFile(saved[1..]);
      assert FileText(saved) == FileText(saved[1..]) && Keyed(saved) == Keyed(saved[1..]);
    }
  }

  lemma {:induction false} LinesNamed(keyed: seq<Session>)
    requires forall i :: 0 <= i < |keyed| ==> Storable(keyed[i]) && keyed[i].token != "" && keyed[i].hasKey
    ensures Named(LineTexts(keyed)) == keyed
  {
    if keyed != [] {
      LineReads(keyed[0]);
      LinesNamed(keyed[1..]);
      NamedStep(LineText(keyed[0]), LineTexts(keyed[1..]), keyed[0]);
    }
  }

  lemma FirstLine(file: string)
    requires file != ""
    ensures Named(Lines(file)) == Listed(ReadLine(Stripped(file[..Taken(file)]))) + Named(Lines(file[Taken(file)..]))
  {
    var line, lines := Stripped(file[..Taken(file)]), Lines(file[Taken(file)..]);
    assert ([line] + lines)[1..] == lines;
  }

  lemma Filled(ss: seq<Session>, later: seq<Session>)
    requires |ss| <= SESSIONS_MAX && (|ss| == SESSIONS_MAX || later == [])
    ensures Bounded(ss + later) == ss
  {
  }

  lemma NamedStep(line: string, lines: seq<string>, s: Session)
    requires ReadLine(line) == Some(s)
    ensures Named([line] + lines) == [s] + Named(lines)
  {
  }

  lemma {:induction false} KeyedIn(saved: seq<Session>)
    requires forall i :: 0 <= i < |saved| ==> Storable(saved[i]) && saved[i].token != ""
    ensures |Keyed(saved)| <= |saved|
    ensures forall s :: s in Keyed(saved) <==> s in saved && s.hasKey
  {
    if saved != [] {
      KeyedIn(saved[1..]);
    }
  }

  /** Reading a saved file into an empty table restores exactly the sessions with a key, in order. */
  lemma RoundTrip(saved: seq<Session>)
    requires forall i :: 0 <= i < |saved| ==> Storable(saved[i]) && saved[i].token != ""
    requires |saved| <= 32
    ensures Bounded(Named(Lines(FileText(saved)))) == Keyed(saved)
  {
    LinesOfFile(saved);
    KeyedIn(saved);
    LinesNamed(Keyed(saved));
  }

  // ---- the code ---------------------------------------------------------------------------------------------------

  class App {
    var sessions: array<Session>
    var count: nat

    ghost predicate Valid()
      reads this, sessions
    {
      && sessions.Length == SESSIONS_MAX && count <= SESSIONS_MAX
      && forall i :: 0 <= i < count ==> Storable(sessions[i])
    }

    function Sessions(): (s: seq<Session>)
      reads this, sessions
      requires count <= sessions.Length
      ensures |s| == count
    {
      sessions[..count]
    }

    /** The text of the file after saving. */
    method Save() returns (file: string)
      requires Valid()
      ensures file == FileText(Sessions())
    {
      file := "";
      for i := 0 to count
        invariant file + FileText(Sessions()[i..]) == FileText(Sessions())
      {
        ghost var left, before := Sessions()[i..], file;
        assert left[1..] == Sessions()[i + 1..];
        if sessions[i].hasKey {
          var line := WriteLine(sessions[i]);
          FileTextStep(left, LineText(sessions[i]));
          file := file + line;
          Associate(before, line, FileText(left[1..]));
        } else {
          assert FileText(left) == FileText(left[1..]);
        }
      }
    }

    /** Appends the sessions a file names until the table is full. */
    method Load(file: string)
      requires Valid()
      modifies this`count, sessions
      ensures Valid() && Sessions() == Bounded(old(Sessions()) + Named(Lines(file)))
    {
      var rest := file;
      ghost var all, later := Sessions() + Named(Lines(file)), Named(Lines(file));
      while rest != "" && count < SESSIONS_MAX
        invariant Valid() && later == Named(Lines(rest)) && Sessions() + later == all
        decreases |rest|
      {
        ghost var before := Sessions();
        var line := Stripped(rest[..Taken(rest)]);
        FirstLine(rest);
        rest := rest[Taken(rest)..];
        later := Named(Lines(rest));
        var session := ParseLine(line);
        if session.Some? {
          Add(session.value);
        }
        Associate(before, Listed(session), later);
      }
      Filled(Sessions(), later);
    }

    method Add(session: Session)
      requires Valid() && count < SESSIONS_MAX && Storable(session)
      modifies this`count, sessions
      ensures Valid() && Sessions() == old(Sessions()) + Listed(Some(session))
    {
      sessions[count] := session;
      count := count + 1;
    }

    /** A restart with an empty table restores exactly the keyed sessions, in order. */
    method Restart(file: string, ghost saved: seq<Session>)
      requires Valid() && count == 0
      requires |saved| <= SESSIONS_MAX && file == FileText(saved)
      requires forall i :: 0 <= i < |saved| ==> Storable(saved[i]) && saved[i].token != ""
      modifies this`count, sessions
      ensures Valid() && Sessions() == Keyed(saved)
    {
      RoundTrip(saved);
      assert Sessions() + Named(Lines(file)) == Named(Lines(file));
      Load(file);
    }
  }

  method WriteLine(s: Session) returns (line: string)
    requires Storable(s)
    ensures line == LineText(s) + "\n"
  {
    var hex := new char[2 * |s.key| + 1](_ => NUL);
    HexEncode(s.key, hex);
    HexLength(s.key);
    var token := WriteField(s.token, TOKEN_SIZE);
    var widget := WriteField(s.widget, WIDGET_SIZE);
    var visitorLabel := WriteField(s.visitorLabel, LABEL_SIZE);
    var origin := WriteField(s.origin, ORIGIN_SIZE);
    line := token + "|" + hex[..2 * |s.key|] + "|" + widget + "|" + visitorLabel + "|" + origin + "\n";
    assert hex[..2 * |s.key|] == HexText(s.key);
  }

  /** A buffer four times the field's size never truncates. */
  method WriteField(field: string, size: nat) returns (text: string)
    requires FitsBuffer(field, size)
    ensures text == Escaped(field)
  {
    var out := new char[4 * size](_ => NUL);
    var used, taken := Escape(field, out);
    assert field[..|field|] == field;
    text := out[..used];
  }

  method ReadField(field: string, size: nat) returns (text: string)
    requires size > 0
    ensures text == FieldValue(field, size) && FitsBuffer(text, size)
  {
    var out := new char[size](_ => NUL);
    var used := Unescape(field, out);
    text := CString(out[..used]);
    CStringPlain(out[..used]);
  }

  /** Cuts a line at its first four separators; a line with fewer, or a bad key or no token, is skipped. */
  method ParseLine(line: string) returns (session: Option<Session>)
    ensures session == ReadLine(line)
    ensures session.Some? ==> Storable(session.value)
  {
    var parts: seq<string>, rest := [], line;
    assert Parts(line, 4).Some? ==> [] + Parts(line, 4).value == Parts(line, 4).value;
    while |parts| < 4
      invariant |parts| <= 4
      invariant Parts(line, 4) == Prefixed(parts, Parts(rest, 4 - |parts|))
    {
      var at := IndexOf(rest, '|');
      if at == None {
        return None;
      }
      ghost var head, after := rest[..at.value], Parts(rest[at.value + 1..], 4 - |parts| - 1);
      assert after.Some? ==> parts + ([head] + after.value) == (parts + [head]) + after.value;
      parts, rest := parts + [rest[..at.value]], rest[at.value + 1..];
    }
    session := ParseParts(parts[0], parts[1], parts[2], parts[3], rest);
  }

  function Prefixed(head: seq<string>, tail: Option<seq<string>>): Option<seq<string>> {
    if tail == None then None else Some(head + tail.value)
  }

  method ParseParts(token: string, hex: string, widget: string, visitorLabel: string, origin: string)
    returns (session: Option<Session>)
    ensures session == FromParts(token, hex, widget, visitorLabel, origin)
    ensures session.Some? ==> Storable(session.value)
  {
    var t := ReadField(token, TOKEN_SIZE);
    var w := ReadField(widget, WIDGET_SIZE);
    var v := ReadField(visitorLabel, LABEL_SIZE);
    var o := ReadField(origin, ORIGIN_SIZE);
    var ok, key := HexDecode(hex, KEY_BYTES);
    if !ok {
      return None;
    }
    // The client refuses to arm a room without a token.
    if t == "" {
      return None;
    }
    return Some(Session(t, w, v, o, key, true));
  }
}

/**
 * The session file as it stands on disk, character by character: what a line spells, and what the
 * loader makes of any line at all, written by this program or not.
 */
module SessionFile {
  import opened Common
  import opened Sessions

  const LOWER := "0123456789abcdef"
  const UPPER := "0123456789ABCDEF"

  /** The digit of a value. */
  predicate Names(digits: string, c: char, v: nat) {
    v < |digits| && digits[v] == c
  }

  /** Two digits for each byte. */
  predicate NamesBytes(text: string, bytes: seq<byte>) {
    && |text| == 2 * |bytes|
    && forall i :: 0 <= i < |bytes| ==> text[2 * i] == LOWER[bytes[i] / 16] && text[2 * i + 1] == LOWER[bytes[i] % 16]
  }

  /** Bars, percent signs and line ends as escapes, everything else as it is. */
  predicate Spells(text: string, field: string) {
    if field == "" then text == ""
    else if field[0] == '|' then "%7C" <= text && Spells(text[3..], field[1..])
    else if field[0] == '%' then "%25" <= text && Spells(text[3..], field[1..])
    else if field[0] == '\n' then "%0A" <= text && Spells(text[3..], field[1..])
    else if field[0] == '\r' then "%0D" <= text && Spells(text[3..], field[1..])
    else text != "" && text[0] == field[0] && Spells(text[1..], field[1..])
  }

  /** The five parts of a line. */
  datatype Line = Line(token: string, key: string, widget: string, visitorLabel: string, origin: string)

  function LineOf(l: Line): string {
    l.token + "|" + l.key + "|" + l.widget + "|" + l.visitorLabel + "|" + l.origin
  }

  /** Only the last part may have bars. */
  predicate Cut(l: Line) {
    Barless(l.token) && Barless(l.key) && Barless(l.widget) && Barless(l.visitorLabel)
  }

  lemma DigitAt(v: nat)
    requires v < 16
    ensures LowerDigit(v) == LOWER[v] && UpperDigit(v) == UPPER[v]
  {
  }

  lemma DigitRead(v: nat)
    requires v < 16
    ensures DigitValue(LOWER[v], 'a') == Some(v) && DigitValue(UPPER[v], 'A') == Some(v)
  {
    DigitAt(v);
  }

  lemma LowerNames(c: char)
    ensures DigitValue(c, 'a').Some? <==> c in LOWER
    ensures forall v: nat :: Names(LOWER, c, v) <==> DigitValue(c, 'a') == Some(v)
  {
    forall v: nat | Names(LOWER, c, v) ensures DigitValue(c, 'a') == Some(v) {
      DigitRead(v);
    }
    if DigitValue(c, 'a').Some? {
      DigitAt(DigitValue(c, 'a').value);
      assert Names(LOWER, c, DigitValue(c, 'a').value);
    }
    if c in LOWER {
      var v: nat :| Names(LOWER, c, v);
    }
  }

  lemma UpperNames(c: char)
    ensures DigitValue(c, 'A').Some? <==> c in UPPER
    ensures forall v: nat :: Names(UPPER, c, v) <==> DigitValue(c, 'A') == Some(v)
  {
    forall v: nat | Names(UPPER, c, v) ensures DigitValue(c, 'A') == Some(v) {
      DigitRead(v);
    }
    if DigitValue(c, 'A').Some? {
      DigitAt(DigitValue(c, 'A').value);
      assert Names(UPPER, c, DigitValue(c, 'A').value);
    }
    if c in UPPER {
      var v: nat :| Names(UPPER, c, v);
    }
  }

  lemma {:induction false} EscapedSpells(field: string)
    ensures Spells(Escaped(field), field)
  {
    if field != "" {
      EscapedSpells(field[1..]);
      var head, rest := EscapedChar(field[0]), Escaped(field[1..]);
      assert '|' as nat == 124 && '%' as nat == 37 && '\n' as nat == 10 && '\r' as nat == 13;
      assert (head + rest)[|head|..] == rest;
    }
  }

  /** A saved line: token, key, widget, label and origin, with a bar between each two. */
  lemma LineSays(s: Session) returns (l: Line)
    requires Storable(s)
    ensures LineText(s) == LineOf(l) && Cut(l)
    ensures Spells(l.token, s.token) && NamesBytes(l.key, s.key) && Spells(l.widget, s.widget)
    ensures Spells(l.visitorLabel, s.visitorLabel) && Spells(l.origin, s.origin)
  {
    l := Line(Escaped(s.token), HexText(s.key), Escaped(s.widget), Escaped(s.visitorLabel), Escaped(s.origin));
    EscapedSpells(s.token);
    EscapedSpells(s.widget);
    EscapedSpells(s.visitorLabel);
    EscapedSpells(s.origin);
    EscapedPlain(s.token);
    EscapedPlain(s.widget);
    EscapedPlain(s.visitorLabel);
    HexPlain(s.key);
    HexLength(s.key);
    forall i | 0 <= i < |s.key| ensures l.key[2 * i] == LOWER[s.key[i] / 16] && l.key[2 * i + 1] == LOWER[s.key[i] % 16] {
      HexAt(s.key, i);
      DigitAt(s.key[i] / 16);
      DigitAt(s.key[i] % 16);
    }
  }

  // ---- what the loader reads -----------------------------------------------------------------------------------

  /** An escape is a percent sign and two upper-case digits; anything else, a lone percent sign too, stands for itself. */
  predicate Reads(text: string, value: string)
    decreases |text|
  {
    if text == "" then value == ""
    else if |text| >= 3 && text[0] == '%' && text[1] in UPPER && text[2] in UPPER then
      && value != "" && Names(UPPER, text[1], value[0] as nat / 16) && Names(UPPER, text[2], value[0] as nat % 16)
      && Reads(text[3..], value[1..])
    else value != "" && value[0] == text[0] && Reads(text[1..], value[1..])
  }

  lemma EscapeNames(text: string)
    requires |text| >= 3 && text[0] == '%'
    ensures EscapeAt(text) <==> text[1] in UPPER && text[2] in UPPER
    ensures EscapeAt(text) ==>
      var c := Unescaped(text)[0] as nat;
      Names(UPPER, text[1], c / 16) && Names(UPPER, text[2], c % 16)
  {
    UpperNames(text[1]);
    UpperNames(text[2]);
    if EscapeAt(text) {
      var high, low := DigitValue(text[1], 'A').value, DigitValue(text[2], 'A').value;
      assert (16 * high + low) / 16 == high && (16 * high + low) % 16 == low;
    }
  }

  lemma {:induction false} UnescapedReads(text: string)
    ensures Reads(text, Unescaped(text))
    decreases |text|
  {
    if |text| >= 3 && text[0] == '%' {
      EscapeNames(text);
    }
    if text != "" {
      var rest := text[if EscapeAt(text) then 3 else 1..];
      UnescapedReads(rest);
      assert Unescaped(text)[1..] == Unescaped(rest);
    }
  }

  /** What a buffer keeps of a part: the text it reads as, cut to the buffer and ended by its first terminator. */
  ghost predicate Holds(kept: string, text: string, size: nat) {
    exists value, cut :: Reads(text, value) && CutTo(cut, value, size) && kept == CString(cut)
  }

  lemma FieldHolds(text: string, size: nat)
    requires size > 0
    ensures Holds(FieldValue(text, size), text, size)
  {
    UnescapedReads(text);
    assert CutTo(CopyBounded(size, Unescaped(text)), Unescaped(text), size);
  }

  /** The key of a line is right: sixty-four lower-case digits. */
  predicate KeyText(text: string) {
    |text| == 64 && forall i :: 0 <= i < 64 ==> text[i] in LOWER
  }

  lemma KeyReads(text: string)
    ensures KeyText(text) <==> |text| == 64 && IsHex(text)
    ensures KeyText(text) ==> NamesBytes(text, HexBytes(text))
  {
    forall i | 0 <= i < |text| ensures DigitValue(text[i], 'a').Some? <==> text[i] in LOWER {
      LowerNames(text[i]);
    }
    if KeyText(text) {
      HexNames(text);
    }
  }

  lemma {:induction false} HexNames(text: string)
    requires |text| % 2 == 0 && IsHex(text)
    ensures NamesBytes(text, HexBytes(text))
  {
    if text != "" {
      var bytes, rest := HexBytes(text), HexBytes(text[2..]);
      HexNames(text[2..]);
      LowerNames(text[0]);
      LowerNames(text[1]);
      NamesMore(text, bytes, rest);
    }
  }

  lemma NamesMore(text: string, bytes: seq<byte>, rest: seq<byte>)
    requires |text| >= 2 && bytes != [] && bytes[1..] == rest && NamesBytes(text[2..], rest)
    requires Names(LOWER, text[0], bytes[0] / 16) && Names(LOWER, text[1], bytes[0] % 16)
    ensures NamesBytes(text, bytes)
  {
    forall i | 0 <= i < |bytes| ensures text[2 * i] == LOWER[bytes[i] / 16] && text[2 * i + 1] == LOWER[bytes[i] % 16] {
      if i > 0 {
        assert bytes[i] == rest[i - 1];
        assert text[2..][2 * (i - 1)] == text[2 * i] && text[2..][2 * (i - 1) + 1] == text[2 * i + 1];
      }
    }
  }

  /**
   * Any line with four bars or more is read by its first four: as a session when the second part is a
   * key and the first part leaves a token, with every part unescaped and cut to its buffer.
   */
  lemma LineExactly(l: Line)
    requires Cut(l)
    ensures ReadLine(LineOf(l)).Some? <==> KeyText(l.key) && !Holds("", l.token, 128)
    ensures ReadLine(LineOf(l)).Some? ==>
      var s := ReadLine(LineOf(l)).value;
      && s.hasKey && NamesBytes(l.key, s.key) && Holds(s.token, l.token, 128) && Holds(s.widget, l.widget, 128)
      && Holds(s.visitorLabel, l.visitorLabel, 128) && Holds(s.origin, l.origin, 256)
  {
    PartsRead(l.token, l.key, l.widget, l.visitorLabel, l.origin);
    KeyReads(l.key);
    FieldHolds(l.token, 128);
    FieldHolds(l.widget, 128);
    FieldHolds(l.visitorLabel, 128);
    FieldHolds(l.origin, 256);
    HeldOnce(FieldValue(l.token, 128), l.token, 128);
  }

  /** The bars of a line. */
  function Bars(line: string): nat {
    if line == "" then 0 else (if line[0] == '|' then 1 else 0) + Bars(line[1..])
  }

  lemma {:induction false} BarsBehind(line: string)
    ensures IndexOf(line, '|') == None <==> Bars(line) == 0
    ensures IndexOf(line, '|').Some? ==> Bars(line) == 1 + Bars(line[IndexOf(line, '|').value + 1..])
  {
    if line != "" && line[0] != '|' {
      BarsBehind(line[1..]);
      var at := IndexOf(line[1..], '|');
      assert at.Some? ==> line[1..][at.value + 1..] == line[at.value + 2..];
    }
  }

  lemma {:induction false} FewBars(line: string, n: nat)
    ensures Parts(line, n).Some? <==> n <= Bars(line)
    decreases n
  {
    if n > 0 {
      BarsBehind(line);
      var at := IndexOf(line, '|');
      if at.Some? {
        FewBars(line[at.value + 1..], n - 1);
      }
    }
  }

  /** A line with fewer bars is skipped. */
  lemma ShortLine(line: string)
    requires Bars(line) < 4
    ensures ReadLine(line) == None
  {
    FewBars(line, 4);
  }

  lemma {:induction false} ReadOnce(text: string, v: string, w: string)
    requires Reads(text, v) && Reads(text, w)
    ensures v == w
    decreases |text|
  {
    if text != "" {
      var n := if |text| >= 3 && text[0] == '%' && text[1] in UPPER && text[2] in UPPER then 3 else 1;
      ReadOnce(text[n..], v[1..], w[1..]);
      if n == 3 {
        UpperNames(text[1]);
        UpperNames(text[2]);
        assert v[0] as nat / 16 == w[0] as nat / 16 && v[0] as nat % 16 == w[0] as nat % 16;
      }
      assert v == [v[0]] + v[1..] && w == [w[0]] + w[1..];
    }
  }

  lemma HeldOnce(kept: string, text: string, size: nat)
    requires Holds(kept, text, size) && size > 0
    ensures Holds("", text, size) <==> kept == ""
  {
    var value, cut :| Reads(text, value) && CutTo(cut, value, size) && kept == CString(cut);
    if Holds("", text, size) {
      var v, c :| Reads(text, v) && CutTo(c, v, size) && "" == CString(c);
      ReadOnce(text, value, v);
      assert c == cut;
    }
  }
}

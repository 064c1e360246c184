/**
 * String literals of the SDK's JSON: what the scanner makes of escapes, how code points become
 * UTF-8 bytes, and which texts name which strings. A `char` is one byte of a C string.
 */
module JsonText {
  import opened Common

  // ---- UTF-8 ------------------------------------------------------------------------------------------

  /** The byte sequence of one code point; the scanner never produces one of 21 bits or more. */
  function Utf8(cp: nat): (r: string)
    requires cp < 0x20_0000
    ensures 1 <= |r| <= 4
  {
    if cp < 0x80 then [cp as char]
    else if cp < 0x800 then [(0xC0 + cp / 0x40) as char, (0x80 + cp % 0x40) as char]
    else if cp < 0x1_0000 then
      [(0xE0 + cp / 0x1000) as char, (0x80 + cp / 0x40 % 0x40) as char, (0x80 + cp % 0x40) as char]
    else
      [(0xF0 + cp / 0x4_0000) as char, (0x80 + cp / 0x1000 % 0x40) as char,
       (0x80 + cp / 0x40 % 0x40) as char, (0x80 + cp % 0x40) as char]
  }

  /** A Unicode scalar value. */
  type ScalarValue = x: nat | x < 0xD800 || 0xE000 <= x < 0x11_0000

  predicate Scalar(x: nat) {
    x < 0xD800 || 0xE000 <= x < 0x11_0000
  }

  function Utf8Text(cps: seq<ScalarValue>): string {
    if cps == [] then "" else Utf8(cps[0]) + Utf8Text(cps[1..])
  }

  /** The payload of a continuation byte. */
  function Tail(c: char): (r: Option<nat>)
    ensures r.Some? ==> r.value < 0x40
  {
    if 0x80 <= c as nat < 0xC0 then Some(c as nat - 0x80) else None
  }

  /** One character as section 3 of RFC 3629 defines it: the shortest form, no surrogates. */
  function DecodeOne(s: string): (r: Option<(ScalarValue, nat)>)
    requires s != ""
    ensures r.Some? ==> 1 <= r.value.1 <= |s|
  {
    var b := s[0] as nat;
    if b < 0x80 then Some((b, 1))
    else if 0xC2 <= b < 0xE0 then
      if |s| >= 2 && Tail(s[1]).Some? then Some(((b - 0xC0) * 0x40 + Tail(s[1]).value, 2)) else None
    else if 0xE0 <= b < 0xF0 then
      if |s| >= 3 && Tail(s[1]).Some? && Tail(s[2]).Some? then
        var cp := (b - 0xE0) * 0x1000 + Tail(s[1]).value * 0x40 + Tail(s[2]).value;
        if cp >= 0x800 && Scalar(cp) then Some((cp, 3)) else None
      else None
    else if 0xF0 <= b < 0xF5 then
      if |s| >= 4 && Tail(s[1]).Some? && Tail(s[2]).Some? && Tail(s[3]).Some? then
        var cp := (b - 0xF0) * 0x4_0000 + Tail(s[1]).value * 0x1000 + Tail(s[2]).value * 0x40 + Tail(s[3]).value;
        if cp >= 0x1_0000 && Scalar(cp) then Some((cp, 4)) else None
      else None
    else None
  }

  function DecodeUtf8(s: string): Option<seq<ScalarValue>> {
    if s == "" then Some([])
    else
      var first := DecodeOne(s);
      if first == None then None
      else
        var rest := DecodeUtf8(s[first.value.1..]);
        if rest == None then None else Some([first.value.0] + rest.value)
  }

  lemma DecodeEncodedOne(cp: ScalarValue, rest: string)
    ensures DecodeOne(Utf8(cp) + rest) == Some((cp, |Utf8(cp)|))
  {
    var s := Utf8(cp) + rest;
    assert forall i :: 0 <= i < |Utf8(cp)| ==> s[i] == Utf8(cp)[i];
    Recompose(cp);
  }

  lemma Recompose(cp: nat)
    ensures cp == cp / 0x40 * 0x40 + cp % 0x40
    ensures cp == cp / 0x1000 * 0x1000 + cp / 0x40 % 0x40 * 0x40 + cp % 0x40
    ensures cp == cp / 0x4_0000 * 0x4_0000 + cp / 0x1000 % 0x40 * 0x1000 + cp / 0x40 % 0x40 * 0x40 + cp % 0x40
  {
    var q, p := cp / 0x40, cp / 0x1000;
    Nested(cp);
    assert q == q / 0x40 * 0x40 + q % 0x40 && p == p / 0x40 * 0x40 + p % 0x40;
  }

  lemma Nested(x: nat)
    ensures x / 0x1000 == x / 0x40 / 0x40 && x / 0x4_0000 == x / 0x1000 / 0x40
  {
  }

  /** UTF-8 text decodes to the code points it was made of. */
  lemma {:induction false} DecodeEncoded(cps: seq<ScalarValue>)
    ensures DecodeUtf8(Utf8Text(cps)) == Some(cps)
  {
    if cps != [] {
      var head, rest := Utf8(cps[0]), Utf8Text(cps[1..]);
      DecodeEncodedOne(cps[0], rest);
      DecodeEncoded(cps[1..]);
      assert (head + rest)[|head|..] == rest && [cps[0]] + cps[1..] == cps;
    }
  }

  // ---- the scanner ----------------------------------------------------------------------------------------

  /** The character under the cursor; the terminator at the end. */
  function Head(s: string): char {
    if s == "" then NUL else s[0]
  }

  function HexDigit(c: char): (r: Option<nat>)
    ensures r.Some? ==> r.value < 16
  {
    if '0' <= c <= '9' then Some((c - '0') as nat)
    else if 'a' <= c <= 'f' then Some((c - 'a') as nat + 10)
    else if 'A' <= c <= 'F' then Some((c - 'A') as nat + 10)
    else None
  }

  predicate FourDigits(s: string) {
    |s| >= 4 && forall i :: 0 <= i < 4 ==> HexDigit(s[i]).Some?
  }

  function Hex4(s: string): (r: nat)
    requires FourDigits(s)
    ensures r < 0x1_0000
  {
    ((HexDigit(s[0]).value * 16 + HexDigit(s[1]).value) * 16 + HexDigit(s[2]).value) * 16 + HexDigit(s[3]).value
  }

  predicate HighSurrogate(v: nat) {
    0xD800 <= v < 0xDC00
  }

  /** The code point of a pair; the low half is not checked to be one. */
  function PairValue(high: nat, low: nat): (r: nat)
    requires HighSurrogate(high) && low < 0x1_0000
    ensures r < 0x11_2400
  {
    0x1_0000 + (high - 0xD800) * 0x400 + low - 0xDC00
  }

  /** What the single-letter escapes stand for. */
  function ShortEscape(c: char): Option<char> {
    if c == '"' || c == '\\' || c == '/' then Some(c)
    else if c == 'b' then Some(8 as char)
    else if c == 'f' then Some(12 as char)
    else if c == 'n' then Some('\n')
    else if c == 'r' then Some('\r')
    else if c == 't' then Some('\t')
    else None
  }

  /** Behind a backslash: the bytes the escape stands for, and how many characters it takes. */
  function EscapeAt(s: string): (r: Option<(string, nat)>)
    ensures r.Some? ==> 1 <= r.value.1 <= |s|
  {
    if ShortEscape(Head(s)).Some? then Some(([ShortEscape(Head(s)).value], 1))
    else if Head(s) != 'u' || !FourDigits(s[1..]) then None
    else
      var high := Hex4(s[1..]);
      if !HighSurrogate(high) || |s| < 7 || s[5] != '\\' || s[6] != 'u' then Some((Utf8(high), 5))
      else if !FourDigits(s[7..]) then None
      else Some((Utf8(PairValue(high, Hex4(s[7..]))), 11))
  }

  /** Behind the opening quote: the content, and what follows the closing quote. */
  function Scan(s: string): (r: Option<(string, string)>)
    ensures r.Some? ==> |r.value.1| < |s|
    decreases |s|
  {
    if Head(s) == NUL then None
    else if s[0] == '"' then Some(("", s[1..]))
    else if s[0] != '\\' then Prefixed([s[0]], Scan(s[1..]))
    else
      var escape := EscapeAt(s[1..]);
      if escape == None then None else Prefixed(escape.value.0, Scan(s[1 + escape.value.1..]))
  }

  /** More in front of what was read; nothing if nothing could be read. */
  function Prefixed<T>(head: seq<T>, r: Option<(seq<T>, string)>): Option<(seq<T>, string)> {
    if r.None? then None else Some((head + r.value.0, r.value.1))
  }

  lemma Extend<T>(head: seq<T>, more: seq<T>, r: Option<(seq<T>, string)>)
    ensures Prefixed(head, Prefixed(more, r)) == Prefixed(head + more, r)
    ensures Prefixed([], r) == r
  {
    if r.Some? {
      Associate(head, more, r.value.0);
      assert [] + r.value.0 == r.value.0;
    }
  }

  // ---- which texts name which strings ------------------------------------------------------------------------

  /** How one piece of a string may be written. */
  datatype Unit = Raw(c: char) | Short(letter: char) | Code(digits: string) | Pair(high: string, low: string)

  /** What the scanner takes for a piece. */
  predicate Spellable(u: Unit) {
    match u
    case Raw(c) => c != '"' && c != '\\' && c != NUL
    case Short(letter) => ShortEscape(letter).Some?
    case Code(digits) => |digits| == 4 && FourDigits(digits)
    case Pair(high, low) => |high| == 4 && |low| == 4 && FourDigits(high) && FourDigits(low) && HighSurrogate(Hex4(high))
  }

  /** The same without a high surrogate on its own, which would swallow an escape behind it. */
  predicate WellSpelled(u: Unit) {
    Spellable(u) && (u.Code? ==> !HighSurrogate(Hex4(u.digits)))
  }

  function Spell(u: Unit): (r: string)
    ensures |r| >= (if u.Raw? then 1 else 2)
  {
    match u
    case Raw(c) => [c]
    case Short(letter) => ['\\', letter]
    case Code(digits) => ['\\', 'u'] + digits
    case Pair(high, low) => ['\\', 'u'] + high + ['\\', 'u'] + low
  }

  function Meaning(u: Unit): string
    requires Spellable(u)
  {
    match u
    case Raw(c) => [c]
    case Short(letter) => [ShortEscape(letter).value]
    case Code(digits) => Utf8(Hex4(digits))
    case Pair(high, low) => Utf8(PairValue(Hex4(high), Hex4(low)))
  }

  function SpellAll(us: seq<Unit>): string {
    if us == [] then "" else Spell(us[0]) + SpellAll(us[1..])
  }

  predicate AllWellSpelled(us: seq<Unit>) {
    forall i :: 0 <= i < |us| ==> WellSpelled(us[i])
  }

  predicate AllSpellable(us: seq<Unit>) {
    forall i :: 0 <= i < |us| ==> Spellable(us[i])
  }

  function MeaningAll(us: seq<Unit>): string
    requires AllSpellable(us)
  {
    if us == [] then "" else Meaning(us[0]) + MeaningAll(us[1..])
  }

  lemma EscapeUnit(u: Unit, s: string)
    requires WellSpelled(u) && !u.Raw? && Spell(u)[1..] <= s
    ensures EscapeAt(s) == Some((Meaning(u), |Spell(u)| - 1))
  {
    match u {
      case Short(letter) =>
        assert s[0] == letter;
      case Code(digits) =>
        var t := Spell(u)[1..];
        assert s[0] == t[0];
        assert forall i :: 0 <= i < 4 ==> s[1..][i] == s[i + 1] == t[i + 1] == digits[i];
      case Pair(high, low) =>
        EscapePair(high, low, s);
    }
  }

  lemma EscapePair(high: string, low: string, s: string)
    requires WellSpelled(Pair(high, low)) && Spell(Pair(high, low))[1..] <= s
    ensures EscapeAt(s) == Some((Meaning(Pair(high, low)), 11))
  {
    var t := Spell(Pair(high, low))[1..];
    assert s[0] == t[0] && s[5] == t[5] && s[6] == t[6];
    assert forall i :: 0 <= i < 4 ==> s[1..][i] == s[i + 1] == t[i + 1] == high[i];
    assert forall i :: 0 <= i < 4 ==> s[7..][i] == s[i + 7] == t[i + 7] == low[i];
  }

  lemma ScanUnit(u: Unit, rest: string)
    requires WellSpelled(u)
    ensures Scan(Spell(u) + rest) == Prefixed(Meaning(u), Scan(rest))
  {
    var t := Spell(u);
    var s := t + rest;
    assert s[|t|..] == rest;
    if !u.Raw? {
      assert s[1..][..|t| - 1] == t[1..];
      EscapeUnit(u, s[1..]);
    }
  }

  /** Every mixture of plain characters and escapes is read as what it stands for. */
  lemma {:induction false} ScanSpelled(us: seq<Unit>, rest: string)
    requires AllWellSpelled(us)
    ensures Scan(SpellAll(us) + "\"" + rest) == Some((MeaningAll(us), rest))
  {
    var end := "\"" + rest;
    if us == [] {
      assert SpellAll(us) + "\"" + rest == end && end[1..] == rest;
    } else {
      var first, others := Spell(us[0]), SpellAll(us[1..]);
      var after := others + "\"" + rest;
      assert SpellAll(us) + "\"" + rest == first + after;
      ScanUnit(us[0], after);
      ScanSpelled(us[1..], rest);
    }
  }

  /** The piece a text begins with, when the scanner gets past it. */
  function FirstUnit(s: string): Unit
    requires s != "" && s[0] != '"' && (s[0] == '\\' ==> EscapeAt(s[1..]).Some?)
  {
    if s[0] != '\\' then Raw(s[0])
    else
      match EscapeAt(s[1..]).value.1
      case 1 => Short(s[1])
      case 5 => Code(s[2..6])
      case _ => Pair(s[2..6], s[8..12])
  }

  lemma FirstUnitSpells(s: string)
    requires s != "" && s[0] != '"' && s[0] != NUL && (s[0] == '\\' ==> EscapeAt(s[1..]).Some?)
    ensures
      var u := FirstUnit(s);
      var n := if s[0] == '\\' then 1 + EscapeAt(s[1..]).value.1 else 1;
      && Spellable(u) && n <= |s| && s == Spell(u) + s[n..]
      && Meaning(u) == (if s[0] == '\\' then EscapeAt(s[1..]).value.0 else [s[0]])
  {
    if s[0] == '\\' {
      var t := s[1..];
      if EscapeAt(t).value.1 > 1 {
        assert t[1..] == s[2..];
        DigitsAt(s, 2);
        if EscapeAt(t).value.1 == 11 {
          assert t[7..] == s[8..];
          DigitsAt(s, 8);
          PairApart(s);
        }
      }
    }
  }

  lemma PairApart(s: string)
    requires |s| >= 12 && s[0] == '\\' && s[1] == 'u' && s[1..][5] == '\\' && s[1..][6] == 'u'
    ensures s == ("\\u" + s[2..6] + "\\u" + s[8..12]) + s[12..]
  {
    assert s[6] == s[1..][5] && s[7] == s[1..][6];
  }

  lemma DigitsAt(s: string, i: nat)
    requires i <= |s| && FourDigits(s[i..])
    ensures i + 4 <= |s| && FourDigits(s[i..i + 4]) && Hex4(s[i..i + 4]) == Hex4(s[i..])
  {
    assert forall k :: 0 <= k < 4 ==> s[i..i + 4][k] == s[i..][k];
  }

  /** The pieces of a text up to its closing quote. */
  function UnitsIn(s: string): seq<Unit>
    requires Scan(s).Some?
    decreases |s|
  {
    if s[0] == '"' then []
    else [FirstUnit(s)] + UnitsIn(s[if s[0] == '\\' then 1 + EscapeAt(s[1..]).value.1 else 1..])
  }

  /** The scanner accepts nothing but pieces and a closing quote, and reads them as what they stand for. */
  lemma {:induction false} ScanSound(s: string)
    requires Scan(s).Some?
    ensures AllSpellable(UnitsIn(s)) && Scan(s).value.0 == MeaningAll(UnitsIn(s))
    ensures s == SpellAll(UnitsIn(s)) + "\"" + Scan(s).value.1
    decreases |s|
  {
    if s[0] == '"' {
      assert s == "" + "\"" + s[1..];
    } else {
      var u, n := FirstUnit(s), if s[0] == '\\' then 1 + EscapeAt(s[1..]).value.1 else 1;
      var rest, others := s[n..], UnitsIn(s[n..]);
      FirstUnitSpells(s);
      ScanSound(rest);
      assert UnitsIn(s)[1..] == others;
      CloseBehind(Spell(u), SpellAll(others), Scan(s).value.1);
    }
  }

  lemma CloseBehind(first: string, others: string, rest: string)
    ensures first + (others + "\"" + rest) == (first + others) + "\"" + rest
  {
  }

  /** The unit writes the code point in hexadecimal, as UTF-16 where it needs two halves. */
  predicate Names(u: Unit, cp: ScalarValue) {
    && WellSpelled(u)
    && match u
       case Code(digits) => Hex4(digits) == cp
       case Pair(high, low) =>
         cp >= 0x1_0000 && Hex4(high) == 0xD800 + (cp - 0x1_0000) / 0x400 && Hex4(low) == 0xDC00 + (cp - 0x1_0000) % 0x400
       case _ => false
  }

  lemma NamedMeaning(u: Unit, cp: ScalarValue)
    requires Names(u, cp)
    ensures Meaning(u) == Utf8(cp)
    ensures cp != 0 ==> NUL !in Utf8(cp)
  {
  }

  /**
   * Code points written as escapes, in digits of either case and with a surrogate pair above
   * U+FFFF, are read as their UTF-8 encoding, which decodes to the same code points.
   */
  lemma {:induction false} EscapedCodePoints(us: seq<Unit>, cps: seq<ScalarValue>, rest: string)
    requires |us| == |cps| && forall i :: 0 <= i < |us| ==> Names(us[i], cps[i])
    ensures AllWellSpelled(us)
    ensures Scan(SpellAll(us) + "\"" + rest) == Some((Utf8Text(cps), rest))
    ensures DecodeUtf8(Utf8Text(cps)) == Some(cps)
    ensures 0 !in cps ==> NUL !in Utf8Text(cps)
  {
    ScanSpelled(us, rest);
    NamedMeanings(us, cps);
    DecodeEncoded(cps);
  }

  lemma {:induction false} NamedMeanings(us: seq<Unit>, cps: seq<ScalarValue>)
    requires |us| == |cps| && forall i :: 0 <= i < |us| ==> Names(us[i], cps[i])
    ensures AllWellSpelled(us)
    ensures MeaningAll(us) == Utf8Text(cps)
    ensures 0 !in cps ==> NUL !in Utf8Text(cps)
  {
    if us != [] {
      NamedMeaning(us[0], cps[0]);
      NamedMeanings(us[1..], cps[1..]);
      assert AllWellSpelled(us[1..]);
      assert cps[0] in cps && forall cp :: cp in cps[1..] ==> cp in cps;
    }
  }

  // ---- how the writer spells ------------------------------------------------------------------------------------

  predicate IsByte(c: char) {
    c as int < 256
  }

  /** A C string: bytes without a terminator among them. */
  predicate IsCString(s: string) {
    forall i :: 0 <= i < |s| ==> IsByte(s[i]) && s[i] != NUL
  }

  /** What a buffer of `size` bytes can hold. */
  predicate Stored(s: string, size: nat) {
    |s| < size && IsCString(s)
  }

  function LowerHex(v: nat): char
    requires v < 16
  {
    if v < 10 then '0' + v as char else 'a' + (v - 10) as char
  }

  /** Quotes, backslashes and control characters are escaped; everything else passes through. */
  function UnitOf(c: char): Unit {
    if c == '"' || c == '\\' then Short(c)
    else if c == 8 as char then Short('b')
    else if c == 12 as char then Short('f')
    else if c == '\n' then Short('n')
    else if c == '\r' then Short('r')
    else if c == '\t' then Short('t')
    else if c < ' ' then Code(['0', '0', LowerHex(c as nat / 16), LowerHex(c as nat % 16)])
    else Raw(c)
  }

  function UnitsOf(s: string): (us: seq<Unit>)
    ensures |us| == |s|
  {
    if s == "" then [] else [UnitOf(s[0])] + UnitsOf(s[1..])
  }

  function Escaped(s: string): string {
    SpellAll(UnitsOf(s))
  }

  /** How a character must stand in a string literal: a short escape, four digits for the other controls, or itself. */
  function AsWritten(c: char): string {
    var n := c as nat;
    if c == '"' then "\\\"" else if c == '\\' then "\\\\"
    else if n == 8 then "\\b" else if n == 9 then "\\t" else if n == 10 then "\\n"
    else if n == 12 then "\\f" else if n == 13 then "\\r"
    else if n < 32 then "\\u00" + [if n < 16 then '0' else '1', "0123456789abcdef"[n % 16]]
    else [c]
  }

  lemma UnitAsWritten(c: char)
    ensures Spell(UnitOf(c)) == AsWritten(c)
  {
  }

  /** Escaping goes character by character. */
  lemma EscapesExactly(s: string)
    requires s != ""
    ensures Escaped(s) == AsWritten(s[0]) + Escaped(s[1..])
  {
    var units := UnitsOf(s);
    UnitAsWritten(s[0]);
    assert units == [UnitOf(s[0])] + UnitsOf(s[1..]) && units[1..] == UnitsOf(s[1..]);
    assert SpellAll(units) == Spell(UnitOf(s[0])) + SpellAll(UnitsOf(s[1..]));
  }

  function Quoted(s: string): string {
    "\"" + Escaped(s) + "\""
  }

  lemma UnitMeans(c: char)
    ensures WellSpelled(UnitOf(c)) && Meaning(UnitOf(c)) == [c]
  {
  }

  /** Texts the writer passes through as they are. */
  predicate Unescaped(s: string) {
    forall i :: 0 <= i < |s| ==> ' ' <= s[i] && s[i] != '"' && s[i] != '\\'
  }

  lemma {:induction false} EscapedUnescaped(s: string)
    requires Unescaped(s)
    ensures Escaped(s) == s
  {
    if s != "" {
      EscapedUnescaped(s[1..]);
      assert UnitsOf(s)[1..] == UnitsOf(s[1..]);
    }
  }
}

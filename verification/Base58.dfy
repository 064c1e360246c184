/**
 * Base58 and Base58Check with the XRP Ledger alphabet: the in-place big-number conversions of
 * both directions, refined to a positional specification that is a bijection.
 */
module Base58 {
  import opened Common
  import opened Numerals
  import opened Letters58

  const ENCODED_MAX := 192
  const DECODED_MAX := 128
  const CHECKSUM_SIZE := 4

  type Hash = f: seq<byte> -> seq<byte> | forall s :: |f(s)| == CHECKSUM_SIZE witness (_ => [0, 0, 0, 0])

  // ---- specification ---------------------------------------------------------------------

  function LeadingZeros(ds: seq<nat>): (z: nat)
    ensures z <= |ds|
    ensures forall i :: 0 <= i < z ==> ds[i] == 0
    ensures z < |ds| ==> ds[z] != 0
  {
    if ds == [] || ds[0] != 0 then 0 else 1 + LeadingZeros(ds[1..])
  }

  /** The same number in another base, each leading zero digit kept as one leading zero digit. */
  function Convert(ds: seq<nat>, from: nat, to: nat): seq<nat>
    requires to >= 2
  {
    Repeat(0, LeadingZeros(ds)) + Reverse(Minimal(BigEndian(ds, from), to))
  }

  predicate InAlphabet(a: Alphabet, text: string) {
    forall i :: 0 <= i < |text| ==> text[i] in a
  }

  /** Position of a letter, as `strchr` on the alphabet finds it. */
  function IndexIn(letters: string, c: char): (k: nat)
    requires c in letters
    ensures k < |letters| && letters[k] == c
    ensures forall i :: 0 <= i < k ==> letters[i] != c
  {
    if letters[0] == c then 0 else 1 + IndexIn(letters[1..], c)
  }

  function Letters(a: Alphabet, ds: seq<nat>): (text: string)
    requires DigitsBelow(ds, 58)
    ensures |text| == |ds|
  {
    seq(|ds|, i requires 0 <= i < |ds| => a[ds[i]])
  }

  function Indices(a: Alphabet, text: string): (ds: seq<nat>)
    requires InAlphabet(a, text)
    ensures |ds| == |text| && DigitsBelow(ds, 58)
  {
    seq(|text|, i requires 0 <= i < |text| => IndexIn(a, text[i]))
  }

  function EncodedText(a: Alphabet, data: seq<byte>): string {
    ConvertDigits(data, 256, 58);
    Letters(a, Convert(data, 256, 58))
  }

  function DecodedBytes(a: Alphabet, text: string): seq<nat>
    requires InAlphabet(a, text)
  {
    Convert(Indices(a, text), 58, 256)
  }

  lemma ConvertDigits(ds: seq<nat>, from: nat, to: nat)
    requires to >= 2
    ensures DigitsBelow(Convert(ds, from, to), to)
  {
  }

  // ---- the specification is a bijection ----------------------------------------------------

  lemma LeadingZerosUnique(ds: seq<nat>, z: nat)
    requires z <= |ds|
    requires forall i :: 0 <= i < z ==> ds[i] == 0
    requires z < |ds| ==> ds[z] != 0
    ensures LeadingZeros(ds) == z
  {
  }

  /** A conversion keeps the value and the number of leading zeros. */
  lemma ConvertKeeps(ds: seq<nat>, from: nat, to: nat)
    requires to >= 2
    ensures BigEndian(Convert(ds, from, to), to) == BigEndian(ds, from)
    ensures LeadingZeros(Convert(ds, from, to)) == LeadingZeros(ds)
  {
    var z, low := LeadingZeros(ds), Minimal(BigEndian(ds, from), to);
    LeadingZeroes(z, Reverse(low), to);
    ReversedValue(low, to);
    MinimalValue(BigEndian(ds, from), to);
    LeadingZerosUnique(Convert(ds, from, to), z);
  }

  /** What follows the leading zeros is the minimal numeral of the value. */
  lemma AfterZeros(ds: seq<nat>, base: nat)
    requires base >= 2 && DigitsBelow(ds, base)
    ensures ds[LeadingZeros(ds)..] == Reverse(Minimal(BigEndian(ds, base), base))
  {
    var z := LeadingZeros(ds);
    var rest := ds[z..];
    assert ds == Repeat(0, z) + rest;
    LeadingZeroes(z, rest, base);
    BigEndianUnique(rest, base);
  }

  /** Converting there and back restores every numeral, leading zeros included. */
  lemma ConvertInverse(ds: seq<nat>, from: nat, to: nat)
    requires from >= 2 && to >= 2 && DigitsBelow(ds, from)
    ensures Convert(Convert(ds, from, to), to, from) == ds
  {
    ConvertKeeps(ds, from, to);
    AfterZeros(ds, from);
    assert ds == Repeat(0, LeadingZeros(ds)) + ds[LeadingZeros(ds)..];
  }

  lemma LetterIndex(a: Alphabet, k: nat)
    requires k < 58
    ensures IndexIn(a, a[k]) == k
  {
    var j := IndexIn(a, a[k]);
    assert a[j] == a[k];
  }

  lemma LettersIndices(a: Alphabet, ds: seq<nat>)
    requires DigitsBelow(ds, 58)
    ensures InAlphabet(a, Letters(a, ds)) && Indices(a, Letters(a, ds)) == ds
  {
    forall i | 0 <= i < |ds| ensures Letters(a, ds)[i] in a && IndexIn(a, Letters(a, ds)[i]) == ds[i] {
      LetterIndex(a, ds[i]);
    }
  }

  lemma IndicesLetters(a: Alphabet, text: string)
    requires InAlphabet(a, text)
    ensures Letters(a, Indices(a, text)) == text
  {
  }

  /** Decoding an encoding restores the bytes. */
  lemma DecodeEncode(a: Alphabet, data: seq<byte>)
    ensures InAlphabet(a, EncodedText(a, data)) && DecodedBytes(a, EncodedText(a, data)) == data
  {
    ConvertDigits(data, 256, 58);
    LettersIndices(a, Convert(data, 256, 58));
    ConvertInverse(data, 256, 58);
  }

  /** Encoding what a text decodes to restores the text. */
  lemma EncodeDecode(a: Alphabet, text: string)
    requires InAlphabet(a, text)
    ensures DigitsBelow(DecodedBytes(a, text), 256) && EncodedText(a, DecodedBytes(a, text)) == text
  {
    ConvertDigits(Indices(a, text), 58, 256);
    ConvertInverse(Indices(a, text), 58, 256);
    IndicesLetters(a, text);
  }

  // ---- the bounds of the fixed buffers ------------------------------------------------------

  /** Two bytes always fit three letters, and one byte two: 256^m <= 58^ceil(3m/2). */
  lemma {:induction false} BytesFitLetters(m: nat)
    ensures Power(256, m) <= Power(58, (3 * m + 1) / 2)
  {
    if m == 1 {
      assert Power(256, 1) == 256 * Power(256, 0);
      assert Power(58, 2) == 58 * Power(58, 1) == 58 * (58 * Power(58, 0));
    } else if m >= 2 {
      BytesFitLetters(m - 2);
      var k := (3 * (m - 2) + 1) / 2;
      assert (3 * m + 1) / 2 == k + 3;
      assert Power(256, m) == 256 * Power(256, m - 1) == 65536 * Power(256, m - 2);
      assert Power(58, k + 3) == 58 * Power(58, k + 2) == 3364 * Power(58, k + 1) == 195112 * Power(58, k);
    }
  }

  lemma TextLength(a: Alphabet, data: seq<byte>)
    ensures |EncodedText(a, data)| == LeadingZeros(data) + |Minimal(BigEndian(data, 256), 58)|
  {
  }

  /** m bytes take at most ceil(3m/2) letters. */
  lemma DigitsNeeded(ds: seq<nat>)
    requires DigitsBelow(ds, 256)
    ensures |Minimal(BigEndian(ds, 256), 58)| <= (3 * |ds| + 1) / 2
  {
    var n, k := BigEndian(ds, 256), (3 * |ds| + 1) / 2;
    BigEndianBound(ds, 256);
    BytesFitLetters(|ds|);
    MinimalLength(n, 58, k);
  }

  /** No byte string the encoder accepts overruns the digit buffer, nor its text the decoder's limit. */
  lemma EncodedFits(a: Alphabet, data: seq<byte>)
    requires |data| <= DECODED_MAX
    ensures |Minimal(BigEndian(data, 256), 58)| <= |EncodedText(a, data)| <= ENCODED_MAX
  {
    var z, ds: seq<nat> := LeadingZeros(data), data;
    var tail := ds[z..];
    TextLength(a, data);
    assert ds == Repeat(0, z) + tail;
    LeadingZeroes(z, tail, 256);
    DigitsNeeded(tail);
  }

  /** A longer front part of the input never needs fewer digits. */
  lemma LengthMonotone(a: nat, b: nat, base: nat)
    requires base >= 2 && a <= b
    ensures |Minimal(a, base)| <= |Minimal(b, base)|
  {
    MinimalLength(b, base, |Minimal(b, base)|);
    MinimalLength(a, base, |Minimal(b, base)|);
  }

  // ---- the code ----------------------------------------------------------------------------

  /** The first `len` cells hold these digits, least significant first. */
  ghost predicate Holds(digits: array<byte>, len: nat, ds: seq<nat>)
    reads digits
  {
    len == |ds| <= digits.Length && forall k :: 0 <= k < len ==> digits[k] == ds[k]
  }

  /**
   * Invariant of a carry loop after `j` digits: the new low digits, the carry and the old digits
   * above stand for the scaled and increased number.
   */
  ghost predicate Carrying(new_: seq<nat>, old_: seq<nat>, j: nat, carry: nat, base: nat, scale: nat, after: nat) {
    && j == |new_| <= |old_|
    && DigitsBelow(new_, base) && DigitsBelow(old_, base)
    && carry < scale
    && (old_ != [] ==> old_[|old_| - 1] > 0)
    && (j == |old_| && j > 0 ==> new_[j - 1] > 0 || carry > 0)
    && LittleEndian(new_, base, Above(carry, old_[j..], base, scale)) == after
  }

  /** What stands above the digits already rewritten. */
  function Above(carry: nat, rest: seq<nat>, base: nat, scale: nat): nat {
    carry + scale * LittleEndian(rest, base, 0)
  }

  lemma CarryStart(before: nat, base: nat, scale: nat, value: nat, after: nat)
    requires base >= 2 && value < scale && after == before * scale + value
    ensures Carrying([], Minimal(before, base), 0, value, base, scale, after)
  {
    MinimalValue(before, base);
    assert Minimal(before, base)[0..] == Minimal(before, base);
  }

  lemma CarryArithmetic(carry: nat, d: nat, rest: nat, base: nat, scale: nat)
    requires (base == 58 && scale == 256) || (base == 256 && scale == 58)
    requires carry < scale && d < base
    ensures
      var x := carry + d * scale;
      && carry + scale * (d + base * rest) == x % base + base * (x / base + scale * rest)
      && x / base < scale
      && (d > 0 ==> x % base > 0 || x / base > 0)
  {
    if base == 58 {
      assert scale == 256;
    } else {
      assert scale == 58;
    }
  }

  lemma CarryStep(new_: seq<nat>, old_: seq<nat>, j: nat, carry: nat, base: nat, scale: nat, after: nat)
    requires (base == 58 && scale == 256) || (base == 256 && scale == 58)
    requires j < |old_| && Carrying(new_, old_, j, carry, base, scale, after)
    ensures
      var x := carry + old_[j] * scale;
      Carrying(new_ + [x % base], old_, j + 1, x / base, base, scale, after)
  {
    var x := carry + old_[j] * scale;
    var rest := LittleEndian(old_[j + 1..], base, 0);
    assert old_[j..] == [old_[j]] + old_[j + 1..];
    LittleEndianCons(old_[j], old_[j + 1..], base, 0);
    var above, top := Above(carry, old_[j..], base, scale), Above(x / base, old_[j + 1..], base, scale);
    CarryArithmetic(carry, old_[j], rest, base, scale);
    LittleEndianAppend(new_, x % base, base, top, above);
  }

  lemma CarryEnd(new_: seq<nat>, old_: seq<nat>, carry: nat, base: nat, scale: nat, after: nat)
    requires Carrying(new_, old_, |old_|, carry, base, scale, after)
    ensures LittleEndian(new_, base, carry) == after
  {
    assert old_[|old_|..] == [];
    assert Above(carry, [], base, scale) == carry;
  }

  /** One byte into the base-58 digits: shift the number by a byte, add it, let the digits grow. */
  method PushByte(digits: array<byte>, len: nat, value: nat, ghost before: nat, ghost after: nat)
    returns (newLen: nat, fits: bool)
    requires value < 256 && Holds(digits, len, Minimal(before, 58))
    requires after == before * 256 + value
    modifies digits
    ensures fits <==> |Minimal(after, 58)| <= digits.Length
    ensures fits ==> Holds(digits, newLen, Minimal(after, 58))
  {
    var carry: nat := value;
    ghost var old_ := Minimal(before, 58);
    ghost var new_: seq<nat> := [];
    CarryStart(before, 58, 256, value, after);
    for j := 0 to len
      invariant Carrying(new_, old_, j, carry, 58, 256, after)
      invariant forall k :: 0 <= k < j ==> digits[k] == new_[k]
      invariant forall k :: j <= k < len ==> digits[k] == old_[k]
    {
      CarryStep(new_, old_, j, carry, 58, 256, after);
      var x: nat := carry + digits[j] as int * 256;
      var digit: nat := x % 58;
      new_ := new_ + [digit];
      digits[j] := digit;
      carry := x / 58;
    }
    CarryEnd(new_, old_, carry, 58, 256, after);
    newLen, fits := SpillDigits(digits, len, carry, new_, after);
  }

  /** The digits a remaining carry adds on top; false when the buffer has no room for them. */
  method SpillDigits(digits: array<byte>, len: nat, value: nat, ghost low: seq<nat>, ghost after: nat)
    returns (newLen: nat, fits: bool)
    requires Holds(digits, len, low) && DigitsBelow(low, 58) && LittleEndian(low, 58, value) == after
    requires len > 0 ==> low[len - 1] > 0 || value > 0
    modifies digits
    ensures fits <==> |Minimal(after, 58)| <= digits.Length
    ensures fits ==> Holds(digits, newLen, Minimal(after, 58))
  {
    var carry := value;
    ghost var new_ := low;
    newLen := len;
    while carry > 0
      invariant Holds(digits, newLen, new_) && DigitsBelow(new_, 58)
      invariant newLen > 0 ==> new_[newLen - 1] > 0 || carry > 0
      invariant LittleEndian(new_, 58, carry) == after
      decreases carry
    {
      if newLen >= digits.Length {
        TopBound(new_, 58, carry);
        MinimalLength(after, 58, digits.Length);
        return newLen, false;
      }
      LittleEndianAppend(new_, carry % 58, 58, carry / 58, carry);
      digits[newLen] := carry % 58;
      new_ := new_ + [carry % 58];
      newLen := newLen + 1;
      carry := carry / 58;
    }
    fits := true;
    MinimalOf(new_, 58, after);
  }

  /** One letter into the base-256 bytes: multiply the number by 58, add it, let the bytes grow. */
  method PushLetter(digits: array<byte>, len: nat, value: nat, ghost before: nat, ghost after: nat)
    returns (newLen: nat, fits: bool)
    requires value < 58 && Holds(digits, len, Minimal(before, 256))
    requires after == before * 58 + value
    modifies digits
    ensures fits <==> |Minimal(after, 256)| <= digits.Length
    ensures fits ==> Holds(digits, newLen, Minimal(after, 256))
  {
    var carry: nat := value;
    ghost var old_ := Minimal(before, 256);
    ghost var new_: seq<nat> := [];
    CarryStart(before, 256, 58, value, after);
    for j := 0 to len
      invariant Carrying(new_, old_, j, carry, 256, 58, after)
      invariant forall k :: 0 <= k < j ==> digits[k] == new_[k]
      invariant forall k :: j <= k < len ==> digits[k] == old_[k]
    {
      CarryStep(new_, old_, j, carry, 256, 58, after);
      var x: nat := carry + digits[j] as int * 58;
      var digit: nat := x % 256;
      new_ := new_ + [digit];
      digits[j] := digit;
      carry := x / 256;
    }
    CarryEnd(new_, old_, carry, 256, 58, after);
    newLen, fits := SpillBytes(digits, len, carry, new_, after);
  }

  /** The digits a remaining carry adds on top; false when the buffer has no room for them. */
  method SpillBytes(digits: array<byte>, len: nat, value: nat, ghost low: seq<nat>, ghost after: nat)
    returns (newLen: nat, fits: bool)
    requires Holds(digits, len, low) && DigitsBelow(low, 256) && LittleEndian(low, 256, value) == after
    requires len > 0 ==> low[len - 1] > 0 || value > 0
    modifies digits
    ensures fits <==> |Minimal(after, 256)| <= digits.Length
    ensures fits ==> Holds(digits, newLen, Minimal(after, 256))
  {
    var carry := value;
    ghost var new_ := low;
    newLen := len;
    while carry > 0
      invariant Holds(digits, newLen, new_) && DigitsBelow(new_, 256)
      invariant newLen > 0 ==> new_[newLen - 1] > 0 || carry > 0
      invariant LittleEndian(new_, 256, carry) == after
      decreases carry
    {
      if newLen >= digits.Length {
        TopBound(new_, 256, carry);
        MinimalLength(after, 256, digits.Length);
        return newLen, false;
      }
      LittleEndianAppend(new_, carry % 256, 256, carry / 256, carry);
      digits[newLen] := carry % 256;
      new_ := new_ + [carry % 256];
      newLen := newLen + 1;
      carry := carry / 256;
    }
    fits := true;
    MinimalOf(new_, 256, after);
  }

  method Encode(a: Alphabet, data: seq<byte>, out: array<char>) returns (status: Status)
    modifies out
    ensures |data| > DECODED_MAX ==> status == InvalidArg
    ensures |data| <= DECODED_MAX ==>
              status == if |EncodedText(a, data)| + 1 > out.Length then BufferTooSmall else Ok
    ensures status == Ok ==> out[..] == EncodedText(a, data) + [NUL] + old(out[..])[|EncodedText(a, data)| + 1..]
    ensures status != Ok ==> out[..] == old(out[..])
  {
    if |data| > DECODED_MAX {
      return InvalidArg;
    }
    if |data| == 0 {
      EncodedEmpty(a);
      if out.Length < 1 {
        return BufferTooSmall;
      }
      out[0] := NUL;
      return Ok;
    }

    var zeros := CountZeros(data);
    var digits := new byte[ENCODED_MAX](_ => 0);
    var digitsLen;
    status, digitsLen := EncodeDigits(data, zeros, digits);
    if status != Ok {
      EncodedFits(a, data);
      assert false;
      return status;
    }
    TextLength(a, data);
    var total := zeros + digitsLen;
    if total + 1 > out.Length {
      return BufferTooSmall;
    }
    WriteText(a, zeros, digits, digitsLen, out, Minimal(BigEndian(data, 256), 58));
    status := Ok;
  }

  /** The digit loop: the bytes behind the leading zeros, into the digit buffer. */
  method EncodeDigits(data: seq<byte>, zeros: nat, digits: array<byte>) returns (status: Status, digitsLen: nat)
    requires zeros == LeadingZeros(data)
    modifies digits
    ensures status == if |Minimal(BigEndian(data, 256), 58)| > digits.Length then InvalidArg else Ok
    ensures status == Ok ==> Holds(digits, digitsLen, Minimal(BigEndian(data, 256), 58))
  {
    ghost var ds: seq<nat> := data;
    ZerosValue(ds[..zeros], 256);
    digitsLen := 0;
    ghost var value := 0;
    for i := zeros to |data|
      invariant value == BigEndian(ds[..i], 256)
      invariant Holds(digits, digitsLen, Minimal(value, 58))
    {
      var fits;
      PrefixStep(ds, i, 256);
      ghost var next := BigEndian(ds[..i + 1], 256);
      digitsLen, fits := PushByte(digits, digitsLen, data[i], value, next);
      if !fits {
        LengthMonotone(next, BigEndian(ds, 256), 58);
        return InvalidArg, 0;
      }
      value := next;
    }
    assert ds[..|data|] == ds;
    status := Ok;
  }

  method CountZeros(data: seq<byte>) returns (zeros: nat)
    ensures zeros == LeadingZeros(data)
  {
    zeros := 0;
    while zeros < |data| && data[zeros] == 0
      invariant zeros <= |data| && forall i :: 0 <= i < zeros ==> data[i] == 0
    {
      zeros := zeros + 1;
    }
    LeadingZerosUnique(data, zeros);
  }

  lemma EncodedEmpty(a: Alphabet)
    ensures EncodedText(a, []) == ""
  {
  }

  lemma ZerosValue(ds: seq<nat>, base: nat)
    requires forall i :: 0 <= i < |ds| ==> ds[i] == 0
    ensures BigEndian(ds, base) == 0
  {
    assert ds == Repeat(0, |ds|) + [];
    LeadingZeroes(|ds|, [], base);
  }

  /** Taking one more digit multiplies and adds, and never passes the value of the whole. */
  lemma PrefixStep(ds: seq<nat>, i: nat, base: nat)
    requires i < |ds| && base >= 1
    ensures BigEndian(ds[..i + 1], base) == BigEndian(ds[..i], base) * base + ds[i] <= BigEndian(ds, base)
  {
    BigEndianAppend(ds[..i], ds[i], base);
    assert ds[..i + 1] == ds[..i] + [ds[i]];
    BigEndianPrefix(ds[..i + 1], ds[i + 1..], base);
    assert ds[..i + 1] + ds[i + 1..] == ds;
  }

  /** The letters of the number held in `digits`, behind `zeros` letters for zero. */
  method WriteText(a: Alphabet, zeros: nat, digits: array<byte>, digitsLen: nat, out: array<char>, ghost ds: seq<nat>)
    requires Holds(digits, digitsLen, ds) && DigitsBelow(ds, 58)
    requires zeros + digitsLen + 1 <= out.Length
    modifies out
    ensures out[..] == Letters(a, Repeat(0, zeros) + Reverse(ds)) + [NUL] + old(out[..])[zeros + digitsLen + 1..]
  {
    ghost var text := Letters(a, Repeat(0, zeros) + Reverse(ds));
    LetterIndex(a, 0);
    var position := 0;
    for i := 0 to zeros
      invariant position == i
      invariant forall k :: 0 <= k < position ==> out[k] == text[k]
      invariant forall k :: position <= k < out.Length ==> out[k] == old(out[k])
    {
      out[position] := a[0];
      position := position + 1;
    }
    for i := 0 to digitsLen
      invariant position == zeros + i
      invariant forall k :: 0 <= k < position ==> out[k] == text[k]
      invariant forall k :: position <= k < out.Length ==> out[k] == old(out[k])
    {
      assert (Repeat(0, zeros) + Reverse(ds))[position] == ds[digitsLen - 1 - i];
      LetterIndex(a, ds[digitsLen - 1 - i]);
      out[position] := a[digits[digitsLen - 1 - i]];
      position := position + 1;
    }
    out[position] := NUL;
  }

  // ---- decoding -----------------------------------------------------------------------------

  /** How many characters at the front belong to the alphabet. */
  function ValidPrefix(a: Alphabet, text: string): (p: nat)
    ensures p <= |text| && InAlphabet(a, text[..p])
    ensures p < |text| ==> text[p] !in a
  {
    if text == "" || text[0] !in a then 0 else
      var rest := ValidPrefix(a, text[1..]);
      assert text[..1 + rest] == [text[0]] + text[1..][..rest];
      1 + rest
  }

  /** The value of that front part. */
  function PrefixValue(a: Alphabet, text: string): nat {
    BigEndian(Indices(a, text[..ValidPrefix(a, text)]), 58)
  }

  /** What decoding into a buffer of `size` bytes answers, in the order the code finds out. */
  function DecodeStatus(a: Alphabet, text: string, size: nat): Status {
    if |text| > ENCODED_MAX then InvalidArg
    else if |Minimal(PrefixValue(a, text), 256)| > DECODED_MAX then InvalidArg
    else if ValidPrefix(a, text) < |text| then Encoding
    else if |DecodedBytes(a, text)| > size then BufferTooSmall
    else Ok
  }

  lemma ValidPrefixLongest(a: Alphabet, text: string, i: nat)
    requires i <= |text| && InAlphabet(a, text[..i])
    ensures i <= ValidPrefix(a, text)
  {
    assert forall k :: 0 <= k < i ==> text[..i][k] == text[k];
  }

  /** Scanning one more letter of the valid front part. */
  lemma LetterStep(a: Alphabet, text: string, i: nat)
    requires i < |text| && InAlphabet(a, text[..i]) && text[i] in a
    ensures InAlphabet(a, text[..i + 1])
    ensures BigEndian(Indices(a, text[..i + 1]), 58)
         == BigEndian(Indices(a, text[..i]), 58) * 58 + IndexIn(a, text[i]) <= PrefixValue(a, text)
  {
    var n, all := ValidPrefix(a, text), Indices(a, text[..ValidPrefix(a, text)]);
    LetterIndices(a, text, i);
    PrefixStep(all, i, 58);
  }

  lemma LetterIndices(a: Alphabet, text: string, i: nat)
    requires i < |text| && InAlphabet(a, text[..i]) && text[i] in a
    ensures InAlphabet(a, text[..i + 1]) && i < ValidPrefix(a, text)
    ensures
      var all := Indices(a, text[..ValidPrefix(a, text)]);
      Indices(a, text[..i]) == all[..i] && Indices(a, text[..i + 1]) == all[..i + 1] && all[i] == IndexIn(a, text[i])
  {
    assert text[..i + 1] == text[..i] + [text[i]];
    ValidPrefixLongest(a, text, i + 1);
  }

  method Decode(a: Alphabet, text: string, out: array<byte>) returns (status: Status, outLen: nat)
    modifies out
    ensures status == DecodeStatus(a, text, out.Length)
    ensures status == Ok ==> outLen == |DecodedBytes(a, text)|
                             && out[..] == DecodedBytes(a, text) + old(out[..])[outLen..]
    ensures status != Ok ==> outLen == 0 && out[..] == old(out[..])
  {
    outLen := 0;
    if |text| > ENCODED_MAX {
      return InvalidArg, 0;
    }
    if |text| == 0 {
      DecodedEmpty(a);
      return Ok, 0;
    }

    var zeros := CountZeroLetters(a, text);
    var bytes := new byte[DECODED_MAX](_ => 0);
    var bytesLen;
    status, bytesLen := DecodeLetters(a, text, zeros, bytes);
    if status != Ok {
      return status, 0;
    }
    DecodedShape(a, text);
    var total := zeros + bytesLen;
    if total > out.Length {
      return BufferTooSmall, 0;
    }
    WriteBytes(zeros, bytes, bytesLen, out, Minimal(PrefixValue(a, text), 256));
    return Ok, total;
  }

  lemma DecodedShape(a: Alphabet, text: string)
    requires InAlphabet(a, text)
    ensures DecodedBytes(a, text)
         == Repeat(0, LeadingZeros(Indices(a, text))) + Reverse(Minimal(PrefixValue(a, text), 256))
  {
    WholeText(a, text);
  }

  method CountZeroLetters(a: Alphabet, text: string) returns (zeros: nat)
    ensures zeros <= |text| && forall i :: 0 <= i < zeros ==> text[i] == a[0]
    ensures zeros < |text| ==> text[zeros] != a[0]
  {
    zeros := 0;
    while zeros < |text| && text[zeros] == a[0]
      invariant zeros <= |text| && forall i :: 0 <= i < zeros ==> text[i] == a[0]
    {
      zeros := zeros + 1;
    }
  }

  /** The digit loop: the letters behind the leading ones, into the byte buffer. */
  method DecodeLetters(a: Alphabet, text: string, zeros: nat, bytes: array<byte>)
    returns (status: Status, bytesLen: nat)
    requires bytes.Length == DECODED_MAX && |text| <= ENCODED_MAX
    requires zeros <= |text| && forall i :: 0 <= i < zeros ==> text[i] == a[0]
    requires zeros < |text| ==> text[zeros] != a[0]
    modifies bytes
    ensures status == if |Minimal(PrefixValue(a, text), 256)| > DECODED_MAX then InvalidArg
                      else if ValidPrefix(a, text) < |text| then Encoding else Ok
    ensures status == Ok ==> InAlphabet(a, text) && LeadingZeros(Indices(a, text)) == zeros
                             && Holds(bytes, bytesLen, Minimal(PrefixValue(a, text), 256))
  {
    bytesLen := 0;
    ghost var value := 0;
    ZeroLettersValue(a, text[..zeros]);
    for i := zeros to |text|
      invariant InAlphabet(a, text[..i])
      invariant value == BigEndian(Indices(a, text[..i]), 58)
      invariant Holds(bytes, bytesLen, Minimal(value, 256))
    {
      if text[i] !in a {
        BadLetter(a, text, i);
        return Encoding, 0;
      }
      var fits;
      LetterStep(a, text, i);
      ghost var next := BigEndian(Indices(a, text[..i + 1]), 58);
      bytesLen, fits := PushLetter(bytes, bytesLen, IndexIn(a, text[i]), value, next);
      if !fits {
        LengthMonotone(next, PrefixValue(a, text), 256);
        return InvalidArg, 0;
      }
      value := next;
    }
    assert text[..|text|] == text;
    WholeText(a, text);
    LeadingLetters(a, text, zeros);
    status := Ok;
  }

  lemma BadLetter(a: Alphabet, text: string, i: nat)
    requires i < |text| && InAlphabet(a, text[..i]) && text[i] !in a
    ensures ValidPrefix(a, text) == i && PrefixValue(a, text) == BigEndian(Indices(a, text[..i]), 58)
  {
    ValidPrefixLongest(a, text, i);
    var p := ValidPrefix(a, text);
    assert forall k :: 0 <= k < p ==> text[..p][k] == text[k];
  }

  lemma ZeroLettersValue(a: Alphabet, text: string)
    requires forall i :: 0 <= i < |text| ==> text[i] == a[0]
    ensures InAlphabet(a, text) && BigEndian(Indices(a, text), 58) == 0
  {
    LetterIndex(a, 0);
    ZerosValue(Indices(a, text), 58);
  }

  lemma DecodedEmpty(a: Alphabet)
    ensures ValidPrefix(a, "") == 0 && DecodedBytes(a, "") == [] && PrefixValue(a, "") == 0
  {
  }

  lemma LeadingLetters(a: Alphabet, text: string, zeros: nat)
    requires InAlphabet(a, text) && zeros <= |text|
    requires forall i :: 0 <= i < zeros ==> text[i] == a[0]
    requires zeros < |text| ==> text[zeros] != a[0]
    ensures LeadingZeros(Indices(a, text)) == zeros
  {
    LetterIndex(a, 0);
    LeadingZerosUnique(Indices(a, text), zeros);
  }

  /** The bytes of the number held in `bytes`, most significant first, behind `zeros` zero bytes. */
  method WriteBytes(zeros: nat, bytes: array<byte>, bytesLen: nat, out: array<byte>, ghost ds: seq<nat>)
    requires Holds(bytes, bytesLen, ds) && bytes != out
    requires zeros + bytesLen <= out.Length
    modifies out
    ensures out[..] == Repeat(0, zeros) + Reverse(ds) + old(out[..])[zeros + bytesLen..]
  {
    for i := 0 to zeros
      invariant forall k :: 0 <= k < i ==> out[k] == 0
      invariant forall k :: i <= k < out.Length ==> out[k] == old(out[k])
    {
      out[i] := 0;
    }
    ghost var all := Repeat(0, zeros) + Reverse(ds);
    for i := 0 to bytesLen
      invariant forall k :: 0 <= k < zeros + i ==> out[k] == all[k]
      invariant forall k :: zeros + i <= k < out.Length ==> out[k] == old(out[k])
    {
      out[zeros + i] := bytes[bytesLen - 1 - i];
    }
  }

  /** Every byte string the encoder accepts decodes back to itself, wherever it fits. */
  lemma RoundTrip(a: Alphabet, data: seq<byte>, size: nat)
    requires |data| <= DECODED_MAX
    ensures DecodeStatus(a, EncodedText(a, data), size) == if |data| <= size then Ok else BufferTooSmall
    ensures InAlphabet(a, EncodedText(a, data)) && DecodedBytes(a, EncodedText(a, data)) == data
  {
    var text := EncodedText(a, data);
    DecodeEncode(a, data);
    EncodedFits(a, data);
    WholeText(a, text);
    ConvertKeeps(data, 256, 58);
    ConvertDigits(data, 256, 58);
    LettersIndices(a, Convert(data, 256, 58));
    BigEndianBound(data, 256);
    MinimalLength(BigEndian(data, 256), 256, |data|);
  }

  lemma WholeText(a: Alphabet, text: string)
    requires InAlphabet(a, text)
    ensures ValidPrefix(a, text) == |text| && PrefixValue(a, text) == BigEndian(Indices(a, text), 58)
  {
    assert text[..|text|] == text;
    ValidPrefixLongest(a, text, |text|);
  }

  // ---- with a checksum ------------------------------------------------------------------------

  function CheckedText(a: Alphabet, payload: seq<byte>, hash: Hash): string {
    EncodedText(a, payload + hash(payload))
  }

  function CheckDecodeStatus(a: Alphabet, text: string, size: nat, hash: Hash): Status {
    var status := DecodeStatus(a, text, DECODED_MAX);
    if status != Ok then status else
    var payload := Payload(DecodedText(a, text), hash);
    if payload == None then Encoding
    else if |payload.value| > size then BufferTooSmall
    else Ok
  }

  /** What stands before a matching checksum; nothing when there is no payload or no match. */
  function Payload(all: seq<byte>, hash: Hash): Option<seq<byte>> {
    if |all| <= CHECKSUM_SIZE then None
    else
      var payload := all[..|all| - CHECKSUM_SIZE];
      if hash(payload) == all[|all| - CHECKSUM_SIZE..] then Some(payload) else None
  }

  /** The decoded bytes of an accepted text, as bytes. */
  function DecodedText(a: Alphabet, text: string): (all: seq<byte>)
    requires InAlphabet(a, text)
    ensures all == DecodedBytes(a, text)
  {
    ConvertDigits(Indices(a, text), 58, 256);
    DecodedBytes(a, text)
  }

  method CheckEncode(a: Alphabet, payload: seq<byte>, out: array<char>, hash: Hash) returns (status: Status)
    modifies out
    ensures |payload| > DECODED_MAX - CHECKSUM_SIZE ==> status == InvalidArg
    ensures |payload| <= DECODED_MAX - CHECKSUM_SIZE ==>
              status == if |CheckedText(a, payload, hash)| + 1 > out.Length then BufferTooSmall else Ok
    ensures status == Ok ==>
              out[..] == CheckedText(a, payload, hash) + [NUL] + old(out[..])[|CheckedText(a, payload, hash)| + 1..]
    ensures status != Ok ==> out[..] == old(out[..])
  {
    if |payload| > DECODED_MAX - CHECKSUM_SIZE {
      return InvalidArg;
    }
    status := Encode(a, payload + hash(payload), out);
  }

  method CheckDecode(a: Alphabet, text: string, out: array<byte>, hash: Hash) returns (status: Status, outLen: nat)
    modifies out
    ensures status == CheckDecodeStatus(a, text, out.Length, hash)
    ensures status == Ok ==> InAlphabet(a, text) && outLen <= out.Length
                             && Payload(DecodedText(a, text), hash) == Some(out[..outLen])
                             && out[outLen..] == old(out[..])[outLen..]
    ensures status != Ok ==> outLen == 0 && out[..] == old(out[..])
  {
    var buffer := new byte[DECODED_MAX](_ => 0);
    var bufferLen;
    status, bufferLen := Decode(a, text, buffer);
    if status != Ok {
      return status, 0;
    }
    var payload := Payload(buffer[..bufferLen], hash);
    if payload == None {
      return Encoding, 0;
    }
    if |payload.value| > out.Length {
      return BufferTooSmall, 0;
    }
    CopyOut(payload.value, out);
    return Ok, |payload.value|;
  }

  method CopyOut(data: seq<byte>, out: array<byte>)
    requires |data| <= out.Length
    modifies out
    ensures out[..] == data + old(out[..])[|data|..]
  {
    forall i | 0 <= i < |data| {
      out[i] := data[i];
    }
  }

  /**
   * Checked texts decode to their payload, for any checksum function, exactly when the payload is
   * not empty: the encoder accepts an empty payload, the decoder never returns one.
   */
  lemma CheckRoundTrip(a: Alphabet, payload: seq<byte>, size: nat, hash: Hash)
    requires |payload| <= DECODED_MAX - CHECKSUM_SIZE && |payload| <= size
    ensures CheckDecodeStatus(a, CheckedText(a, payload, hash), size, hash) == Ok <==> payload != []
    ensures InAlphabet(a, CheckedText(a, payload, hash))
    ensures payload != [] ==> Payload(DecodedText(a, CheckedText(a, payload, hash)), hash) == Some(payload)
  {
    var all := payload + hash(payload);
    RoundTrip(a, all, DECODED_MAX);
    assert all[..|payload|] == payload && all[|payload|..] == hash(payload);
  }

  /** A text the checked decoder accepts is the checked text of what it decodes to. */
  lemma CheckReencode(a: Alphabet, text: string, size: nat, hash: Hash)
    requires CheckDecodeStatus(a, text, size, hash) == Ok
    ensures InAlphabet(a, text) && Payload(DecodedText(a, text), hash).Some?
    ensures CheckedText(a, Payload(DecodedText(a, text), hash).value, hash) == text
  {
    var all := DecodedText(a, text);
    EncodeDecode(a, text);
    assert all == all[..|all| - CHECKSUM_SIZE] + all[|all| - CHECKSUM_SIZE..];
  }
}

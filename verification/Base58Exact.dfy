/**
 * What Base58 texts stand for, told without the encoder and the decoder: the same leading zeros and
 * the same number. Each byte string has exactly one such text, each text at most one byte string, and
 * these are what the two directions compute.
 */
module Base58Exact {
  import opened Common
  import opened Numerals
  import opened Letters58
  import opened Base58

  /** The digits that letters spell. */
  predicate Spells(a: Alphabet, text: string, ds: seq<nat>) {
    |ds| == |text| && forall i :: 0 <= i < |ds| ==> ds[i] < 58 && a[ds[i]] == text[i]
  }

  /** Both begin with `z` zeros and no more. */
  predicate SameZeros(x: seq<nat>, y: seq<nat>, z: nat) {
    && z <= |x| && z <= |y| && (forall i :: 0 <= i < z ==> x[i] == 0 && y[i] == 0)
    && (z < |x| ==> x[z] != 0) && (z < |y| ==> y[z] != 0)
  }

  predicate Equals(data: seq<byte>, ds: seq<nat>, z: nat) {
    SameZeros(data, ds, z) && BigEndian(data, 256) == BigEndian(ds, 58)
  }

  /** The text stands for the bytes. */
  ghost predicate StandsFor(a: Alphabet, text: string, data: seq<byte>) {
    exists ds: seq<nat>, z: nat :: Spells(a, text, ds) && Equals(data, ds, z)
  }

  lemma ConvertEquals(data: seq<byte>)
    ensures DigitsBelow(Convert(data, 256, 58), 58)
    ensures Equals(data, Convert(data, 256, 58), LeadingZeros(data))
  {
    ConvertDigits(data, 256, 58);
    ConvertKeeps(data, 256, 58);
  }

  /** The digits of the same number behind the same zeros are the converted ones. */
  lemma EqualsOnce(data: seq<byte>, ds: seq<nat>, z: nat)
    requires DigitsBelow(ds, 58) && Equals(data, ds, z)
    ensures ds == Convert(data, 256, 58)
  {
    LeadingZerosUnique(data, z);
    LeadingZerosUnique(ds, z);
    AfterZeros(ds, 58);
    assert ds == ds[..z] + ds[z..] && ds[..z] == Repeat(0, z);
  }

  lemma SpellsLetters(a: Alphabet, text: string, ds: seq<nat>)
    requires DigitsBelow(ds, 58)
    ensures Spells(a, text, ds) <==> text == Letters(a, ds)
  {
  }

  /** The encoder's text is the one that stands for the bytes. */
  lemma OnlyText(a: Alphabet, data: seq<byte>, text: string)
    ensures text == EncodedText(a, data) <==> StandsFor(a, text, data)
  {
    ConvertEquals(data);
    SpellsLetters(a, text, Convert(data, 256, 58));
    if StandsFor(a, text, data) {
      var ds: seq<nat>, z: nat :| Spells(a, text, ds) && Equals(data, ds, z);
      EqualsOnce(data, ds, z);
    }
  }

  /** The decoder's bytes are the ones its text stands for; a text that stands for bytes has only letters. */
  lemma OnlyBytes(a: Alphabet, text: string, data: seq<byte>)
    ensures StandsFor(a, text, data) <==> InAlphabet(a, text) && DecodedBytes(a, text) == data
  {
    OnlyText(a, data, text);
    DecodeEncode(a, data);
    if InAlphabet(a, text) {
      EncodeDecode(a, text);
    }
  }

  /** The letters before the first character that is none, and their digits. */
  predicate Front(a: Alphabet, text: string, p: nat, ds: seq<nat>) {
    p <= |text| && Spells(a, text[..p], ds) && (p < |text| ==> text[p] !in a)
  }

  lemma FrontValue(a: Alphabet, text: string, p: nat, ds: seq<nat>)
    requires Front(a, text, p, ds)
    ensures ValidPrefix(a, text) == p && PrefixValue(a, text) == BigEndian(ds, 58)
  {
    assert forall i :: 0 <= i < p ==> text[..p][i] == a[ds[i]];
    ValidPrefixLongest(a, text, p);
    var q := ValidPrefix(a, text);
    assert forall i :: 0 <= i < q ==> text[..q][i] == text[i];
    assert p == q;
    forall i | 0 <= i < p ensures Indices(a, text[..p])[i] == ds[i] {
      LetterIndex(a, ds[i]);
    }
    assert Indices(a, text[..p]) == ds;
  }

  /**
   * What the decoder answers every text: too long, or a number beyond 128 bytes before the first bad
   * character; a bad character; too many bytes for the buffer; or the bytes.
   */
  lemma DecodeExactly(a: Alphabet, text: string, size: nat, p: nat, ds: seq<nat>)
    requires Front(a, text, p, ds)
    ensures
      var status := DecodeStatus(a, text, size);
      && (status == InvalidArg <==> |text| > 192 || BigEndian(ds, 58) >= Power(256, 128))
      && (status == Encoding <==> |text| <= 192 && BigEndian(ds, 58) < Power(256, 128) && p < |text|)
      && (status == Ok <==> |text| <= 192 && BigEndian(ds, 58) < Power(256, 128)
                            && exists data: seq<byte> :: |data| <= size && StandsFor(a, text, data))
      && status in {InvalidArg, Encoding, BufferTooSmall, Ok}
  {
    FrontValue(a, text, p, ds);
    MinimalLength(BigEndian(ds, 58), 256, 128);
    if p == |text| {
      Standing(a, text, size);
    } else {
      assert !InAlphabet(a, text);
      forall data: seq<byte> ensures !StandsFor(a, text, data) {
        OnlyBytes(a, text, data);
      }
    }
  }

  lemma Standing(a: Alphabet, text: string, size: nat)
    requires ValidPrefix(a, text) == |text|
    ensures InAlphabet(a, text)
    ensures |DecodedBytes(a, text)| <= size <==> exists data: seq<byte> :: |data| <= size && StandsFor(a, text, data)
  {
    assert text[..|text|] == text;
    var all := AsBytes(a, text);
    OnlyBytes(a, text, all);
    forall data: seq<byte> | StandsFor(a, text, data) ensures data == all {
      OnlyBytes(a, text, data);
    }
  }

  function AsBytes(a: Alphabet, text: string): (all: seq<byte>)
    requires InAlphabet(a, text)
    ensures all == DecodedBytes(a, text)
  {
    DecodedText(a, text)
  }

  /**
   * The checked decoder accepts exactly the texts that stand for a payload of 1 to 124 bytes, with
   * room for it, and its checksum.
   */
  lemma CheckDecodeExactly(a: Alphabet, text: string, size: nat, hash: Hash)
    ensures CheckDecodeStatus(a, text, size, hash) == Ok
       <==> exists payload: seq<byte> ::
              0 < |payload| <= 124 && |payload| <= size && StandsFor(a, text, payload + hash(payload))
    ensures forall payload: seq<byte> ::
              0 < |payload| && StandsFor(a, text, payload + hash(payload))
              ==> InAlphabet(a, text) && Payload(DecodedText(a, text), hash) == Some(payload)
  {
    if CheckDecodeStatus(a, text, size, hash) == Ok {
      CheckReencode(a, text, size, hash);
      var payload := Payload(DecodedText(a, text), hash).value;
      OnlyText(a, payload + hash(payload), text);
      assert StandsFor(a, text, payload + hash(payload));
    }
    forall payload: seq<byte> | 0 < |payload| && StandsFor(a, text, payload + hash(payload))
      ensures InAlphabet(a, text) && Payload(DecodedText(a, text), hash) == Some(payload)
      ensures |payload| <= 124 && |payload| <= size ==> CheckDecodeStatus(a, text, size, hash) == Ok
    {
      var all := payload + hash(payload);
      OnlyText(a, all, text);
      OnlyBytes(a, text, all);
      assert all[..|payload|] == payload && all[|payload|..] == hash(payload);
      if |payload| <= 124 && |payload| <= size {
        CheckRoundTrip(a, payload, size, hash);
      }
    }
  }
}

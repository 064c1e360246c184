/**
 * A cipher for which everything said of relay frames holds: bare base64 of the text, padded with
 * zero bytes in the place of a tag. It keeps no secret, but it opens what it sealed.
 */
module SampleCipher {
  import opened Common
  import opened JsonText
  import opened Relay

  // ---- four letters for three bytes -------------------------------------------------------------------------

  function Letter(v: nat): (c: char)
    requires v < 64
    ensures Base64([c]) && ValueOf(c) == v
  {
    if v < 26 then 'A' + v as char
    else if v < 52 then 'a' + (v - 26) as char
    else if v < 62 then '0' + (v - 52) as char
    else if v == 62 then '+'
    else '/'
  }

  function ValueOf(c: char): (v: nat)
    ensures v < 64
  {
    if 'A' <= c <= 'Z' then (c - 'A') as int
    else if 'a' <= c <= 'z' then (c - 'a') as int + 26
    else if '0' <= c <= '9' then (c - '0') as int + 52
    else if c == '+' then 62
    else 63
  }

  function Block(a: byte, b: byte, c: byte): (t: string)
    ensures |t| == 4 && Base64(t)
  {
    [Letter(a / 4), Letter(a % 4 * 16 + b / 16), Letter(b % 16 * 4 + c / 64), Letter(c % 64)]
  }

  function Unblock(t: string): string {
    if |t| < 4 then ""
    else
      var v0, v1, v2, v3 := ValueOf(t[0]), ValueOf(t[1]), ValueOf(t[2]), ValueOf(t[3]);
      [(v0 * 4 + v1 / 16) as char, (v1 % 16 * 16 + v2 / 4) as char, (v2 % 4 * 64 + v3) as char]
  }

  lemma UnblockBlock(a: byte, b: byte, c: byte)
    ensures Unblock(Block(a, b, c)) == [a as char, b as char, c as char]
  {
    var v1, v2 := a % 4 * 16 + b / 16, b % 16 * 4 + c / 64;
    assert v1 / 16 == a % 4 && v1 % 16 == b / 16 && v2 / 4 == b % 16 && v2 % 4 == c / 64;
  }

  // ---- whole texts, for any way to write three bytes in four letters -------------------------------------------

  type Writer = (byte, byte, byte) -> string

  type Reader = string -> string

  ghost predicate Inverse(write: Writer, read: Reader) {
    forall a: byte, b: byte, c: byte ::
      |write(a, b, c)| == 4 && Base64(write(a, b, c)) && read(write(a, b, c)) == [a as char, b as char, c as char]
  }

  /** A character of a text, zero behind its end. */
  function At(s: string, i: nat): byte {
    if i < |s| then s[i] as int % 256 else 0
  }

  function Behind(s: string): string {
    if |s| <= 3 then "" else s[3..]
  }

  function Coded(write: Writer, s: string, blocks: nat): string
    decreases blocks
  {
    if blocks == 0 then "" else write(At(s, 0), At(s, 1), At(s, 2)) + Coded(write, Behind(s), blocks - 1)
  }

  function Decoded(read: Reader, t: string): string {
    if |t| < 4 then "" else read(t[..4]) + Decoded(read, t[4..])
  }

  lemma {:induction false} CodedBase64(write: Writer, read: Reader, s: string, blocks: nat)
    requires Inverse(write, read)
    ensures |Coded(write, s, blocks)| == 4 * blocks && Base64(Coded(write, s, blocks))
    decreases blocks
  {
    if blocks > 0 {
      CodedBase64(write, read, Behind(s), blocks - 1);
    }
  }

  /** The first three characters, and what is behind them. */
  lemma Padded(s: string, n: nat)
    requires IsCString(s) && |s| <= n && n >= 3
    ensures |Behind(s)| <= n - 3 && IsCString(Behind(s))
    ensures [At(s, 0) as char, At(s, 1) as char, At(s, 2) as char] + (Behind(s) + Repeat(NUL, n - 3 - |Behind(s)|))
         == s + Repeat(NUL, n - |s|)
  {
  }

  lemma {:induction false} DecodedCoded(write: Writer, read: Reader, s: string, blocks: nat)
    requires Inverse(write, read) && IsCString(s) && |s| <= 3 * blocks
    ensures Decoded(read, Coded(write, s, blocks)) == s + Repeat(NUL, 3 * blocks - |s|)
    decreases blocks
  {
    if blocks > 0 {
      var first, more := write(At(s, 0), At(s, 1), At(s, 2)), Coded(write, Behind(s), blocks - 1);
      assert (first + more)[..4] == first && (first + more)[4..] == more;
      Padded(s, 3 * blocks);
      DecodedCoded(write, read, Behind(s), blocks - 1);
    }
  }

  lemma PaddedCString(s: string, n: nat)
    requires IsCString(s)
    ensures CString(s + Repeat(NUL, n)) == s
  {
    var padded := s + Repeat(NUL, n);
    if n == 0 {
      assert padded == s;
      Absent(s, NUL);
    } else {
      FirstPlace(padded, NUL, |s|);
    }
  }

  function Seal(write: Writer, plain: string): string {
    Coded(write, plain, (|plain| + 18) / 3)
  }

  function Unseal(read: Reader, sealed: string): Opened {
    var plain := CString(Decoded(read, sealed));
    Box(|plain|, Some(plain))
  }

  lemma Unsealed(write: Writer, read: Reader, plain: string)
    requires Inverse(write, read) && IsCString(plain)
    ensures |Seal(write, plain)| == SealedLength(|plain|) && Base64(Seal(write, plain))
    ensures Unseal(read, Seal(write, plain)) == Box(|plain|, Some(plain))
  {
    var blocks := (|plain| + 18) / 3;
    CodedBase64(write, read, plain, blocks);
    DecodedCoded(write, read, plain, blocks);
    PaddedCString(plain, 3 * blocks - |plain|);
  }

  const SAMPLE := Cipher((key, nonce, plain) => Seal(Block, plain), (key, nonce, sealed) => Unseal(Unblock, sealed))

  lemma BlockInverse()
    ensures Inverse(Block, Unblock)
  {
    forall a: byte, b: byte, c: byte
      ensures |Block(a, b, c)| == 4 && Base64(Block(a, b, c)) && Unblock(Block(a, b, c)) == [a as char, b as char, c as char]
    {
      UnblockBlock(a, b, c);
    }
  }

  /** So there are ciphers as the relay frames need them. */
  lemma SampleIsSound()
    ensures Sound(SAMPLE)
  {
    forall key: Relay.Key, nonce: string, plain: string
      | |nonce| == NONCE_LENGTH && Base64(nonce) && IsCString(plain) && plain != ""
      ensures
        var sealed := SAMPLE.seal(key, nonce, plain);
        && |sealed| == SealedLength(|plain|) && Base64(sealed)
        && SAMPLE.open(key, nonce, sealed) == Box(|plain|, Some(plain))
    {
      BlockInverse();
      Unsealed(Block, Unblock, plain);
    }
  }
}

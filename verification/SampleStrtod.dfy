/** A number reader of the kind the JSON reader needs: it takes a sign and the digits behind it. */
module SampleStrtod {
  import opened Common
  import opened Decimals
  import opened JsonReader
  import opened JsonWriter
  import opened JsonRoundTrip

  /** How many digits a text begins with. */
  function Digits(s: string): (n: nat)
    ensures n <= |s| && AllDigits(s[..n])
  {
    if s == "" || !IsDigit(s[0]) then 0
    else
      var rest := Digits(s[1..]);
      assert s[..1 + rest] == [s[0]] + s[1..][..rest];
      1 + rest
  }

  function NatAt(s: string): (r: (nat, nat))
    ensures r.1 <= |s|
  {
    (NatOf(s[..Digits(s)]), Digits(s))
  }

  /** The integer a text begins with, and how many characters it takes. */
  function IntAt(s: string): (r: (int, nat))
    ensures r.1 <= |s|
  {
    if s != "" && s[0] == '-' then
      var (n, length) := NatAt(s[1..]);
      (0 - n, 1 + length)
    else NatAt(s)
  }

  const SAMPLE: Strtod := s => (IntAt(s).0 as real, IntAt(s).1)

  lemma {:induction false} DigitsOf(digits: string, rest: string)
    requires AllDigits(digits) && (rest == "" || !IsDigit(rest[0]))
    ensures Digits(digits + rest) == |digits|
  {
    if digits == "" {
      assert digits + rest == rest;
    } else {
      assert (digits + rest)[1..] == digits[1..] + rest;
      DigitsOf(digits[1..], rest);
    }
  }

  lemma NatRead(digits: string, rest: string)
    requires AllDigits(digits) && Ends(rest)
    ensures NatAt(digits + rest) == (NatOf(digits), |digits|)
  {
    DigitsOf(digits, rest);
    assert (digits + rest)[..|digits|] == digits;
  }

  lemma Behind(sign: string, digits: string, rest: string)
    requires |sign| == 1
    ensures (sign + digits + rest)[1..] == digits + rest && (sign + digits + rest)[0] == sign[0]
  {
  }

  lemma IntRead(n: int, rest: string)
    requires Ends(rest)
    ensures IntAt(IntText(n) + rest) == (n, |IntText(n)|)
  {
    var digits := PrintNat(if n < 0 then -n else n);
    NatRead(digits, rest);
    if n < 0 {
      Behind("-", digits, rest);
    } else {
      assert (digits + rest)[0] == digits[0];
    }
  }

  /** So there are number readers as the JSON reader needs them. */
  lemma SampleReads()
    ensures ReadsIntegers(SAMPLE)
  {
    forall n: int, rest: string | -EXACT_LIMIT < n < EXACT_LIMIT && Ends(rest)
      ensures SAMPLE(IntText(n) + rest) == (n as real, |IntText(n)|)
    {
      IntRead(n, rest);
    }
  }
}

/** Decimal digit strings: reading, printing, bounds. */
module Decimals {

  predicate IsDigit(c: char) {
    '0' <= c <= '9'
  }

  function DigitOf(c: char): (d: nat)
    requires IsDigit(c)
    ensures d < 10
  {
    (c - '0') as int
  }

  predicate AllDigits(s: string) {
    forall i :: 0 <= i < |s| ==> IsDigit(s[i])
  }

  /** The number a digit string spells. */
  function NatOf(s: string): nat
    requires AllDigits(s)
  {
    if s == "" then 0 else NatOf(s[..|s| - 1]) * 10 + DigitOf(s[|s| - 1])
  }

  function DigitChar(d: nat): (c: char)
    requires d < 10
    ensures IsDigit(c) && DigitOf(c) == d
  {
    '0' + d as char
  }

  /** `%llu`. */
  function PrintNat(n: nat): (s: string)
    ensures s != "" && AllDigits(s) && NatOf(s) == n
  {
    if n < 10 then
      var s := [DigitChar(n)];
      assert s[..0] == "";
      s
    else
      var front := PrintNat(n / 10);
      var s := front + [DigitChar(n % 10)];
      assert s[..|s| - 1] == front;
      s
  }

  /** The last `width` decimal digits of `n`: `%06llu` for a number below a million. */
  function PrintPadded(n: nat, width: nat): (s: string)
    ensures |s| == width && AllDigits(s)
    ensures n < PowerOfTen(width) ==> NatOf(s) == n
  {
    if width == 0 then ""
    else
      var front := PrintPadded(n / 10, width - 1);
      var s := front + [DigitChar(n % 10)];
      assert s[..|s| - 1] == front;
      s
  }

  function PowerOfTen(e: nat): (p: nat)
    ensures p > 0
  {
    if e == 0 then 1 else 10 * PowerOfTen(e - 1)
  }

  lemma {:induction false} PrintNatLength(n: nat, digits: nat)
    requires digits > 0 && n < PowerOfTen(digits) && (digits > 1 ==> PowerOfTen(digits - 1) <= n)
    ensures |PrintNat(n)| == digits
  {
    if digits > 1 {
      PrintNatLength(n / 10, digits - 1);
    }
  }

  lemma {:induction false} NatOfBound(s: string)
    requires AllDigits(s)
    ensures NatOf(s) < PowerOfTen(|s|)
  {
    if s != "" {
      NatOfBound(s[..|s| - 1]);
    }
  }

  lemma {:induction false} NatOfPrefix(s: string, i: nat)
    requires AllDigits(s) && i <= |s|
    ensures NatOf(s[..i]) <= NatOf(s)
    decreases |s|
  {
    if i < |s| {
      NatOfPrefix(s[..|s| - 1], i);
      assert s[..|s| - 1][..i] == s[..i];
    } else {
      assert s[..i] == s;
    }
  }

  /** A number written behind another. */
  lemma {:induction false} NatOfJoin(a: string, b: string)
    requires AllDigits(a) && AllDigits(b)
    ensures AllDigits(a + b) && NatOf(a + b) == NatOf(a) * PowerOfTen(|b|) + NatOf(b)
    decreases |b|
  {
    if b == "" {
      assert a + b == a;
    } else {
      var last := |b| - 1;
      NatOfJoin(a, b[..last]);
      assert (a + b)[..|a + b| - 1] == a + b[..last];
      Shift(NatOf(a), PowerOfTen(last));
    }
  }

  lemma Shift(n: nat, p: nat)
    ensures n * (10 * p) == n * p * 10
  {
  }

  /** Reading one more digit, when the digits stand between `from` and the cursor. */
  lemma NatOfStep(s: string, from: nat, i: nat)
    requires from <= i < |s| && AllDigits(s[from..i]) && IsDigit(s[i])
    ensures AllDigits(s[from..i + 1]) && NatOf(s[from..i + 1]) == NatOf(s[from..i]) * 10 + DigitOf(s[i])
  {
    assert s[from..i + 1] == s[from..i] + [s[i]];
    assert s[from..i + 1][..i - from] == s[from..i];
  }
}

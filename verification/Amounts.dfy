/**
 * Decimal amounts of the tip bot: validation, the conversion to drops in 64-bit arithmetic, and
 * its inverse. A drop is a millionth.
 */
module Amounts {
  import opened Common
  import opened Decimals

  type uint64 = x: nat | x < 0x1_0000_0000_0000_0000

  const UINT64_MAX: uint64 := 0xFFFF_FFFF_FFFF_FFFF
  const MAX_DECIMALS := 6
  const MICRO: nat := 1_000_000
  /** The largest whole part accepted, and the largest micro fraction that still fits beside it. */
  const WHOLE_MAX: uint64 := 18446744073709
  const FRACTION_AT_MAX: nat := 551615

  // ---- amounts ---------------------------------------------------------------------------------------

  lemma PowersOfTen()
    ensures PowerOfTen(6) == MICRO
  {
    assert PowerOfTen(3) == 1000 && PowerOfTen(6) == 1000 * PowerOfTen(3);
  }

  /** The overflow guard before `value * 10 + digit` is exact. */
  lemma GuardExact(value: nat, digit: nat)
    requires digit < 10
    ensures value > (UINT64_MAX - digit) / 10 <==> value * 10 + digit > UINT64_MAX
  {
  }

  /** Index of the first dot, or the length. */
  function DotAt(raw: string): (d: nat)
    ensures d <= |raw|
    ensures forall i :: 0 <= i < d ==> raw[i] != '.'
    ensures d < |raw| ==> raw[d] == '.'
  {
    if raw == "" || raw[0] == '.' then 0 else 1 + DotAt(raw[1..])
  }

  function Whole(raw: string): string {
    raw[..DotAt(raw)]
  }

  function Fraction(raw: string): string {
    if DotAt(raw) < |raw| then raw[DotAt(raw) + 1..] else ""
  }

  predicate Decimal(raw: string) {
    AllDigits(Whole(raw)) && AllDigits(Fraction(raw)) && Whole(raw) + Fraction(raw) != ""
    && |Fraction(raw)| <= MAX_DECIMALS
  }

  /** The fraction in millionths. */
  function Micros(raw: string): nat
    requires Decimal(raw)
  {
    NatOf(Fraction(raw)) * PowerOfTen(MAX_DECIMALS - |Fraction(raw)|)
  }

  /** The amount times a million, which is a whole number for at most six decimals. */
  function TimesMillion(raw: string): nat
    requires Decimal(raw)
  {
    NatOf(Whole(raw)) * MICRO + Micros(raw)
  }

  predicate ValidAmount(raw: string) {
    Decimal(raw) && TimesMillion(raw) > 0
  }

  lemma {:induction false} NonZeroDigit(s: string)
    requires AllDigits(s)
    ensures NatOf(s) > 0 <==> exists i :: 0 <= i < |s| && s[i] != '0'
  {
    if s != "" {
      var front := s[..|s| - 1];
      NonZeroDigit(front);
      if i :| 0 <= i < |s| && s[i] != '0' {
        assert i < |front| ==> front[i] == s[i];
      }
      if i :| 0 <= i < |front| && front[i] != '0' {
        assert s[i] != '0';
      }
    }
  }

  lemma PositiveAmount(raw: string)
    requires Decimal(raw)
    ensures TimesMillion(raw) > 0 <==> exists i :: 0 <= i < |raw| && '1' <= raw[i] <= '9'
  {
    var d, whole, fraction := DotAt(raw), Whole(raw), Fraction(raw);
    NonZeroDigit(whole);
    NonZeroDigit(fraction);
    var p := PowerOfTen(MAX_DECIMALS - |fraction|);
    Product(NatOf(fraction), p);
    if TimesMillion(raw) > 0 {
      if NatOf(whole) > 0 {
        var i :| 0 <= i < |whole| && whole[i] != '0';
        assert raw[i] == whole[i];
      } else {
        var i :| 0 <= i < |fraction| && fraction[i] != '0';
        assert raw[d + 1 + i] == fraction[i];
      }
    }
    if i :| 0 <= i < |raw| && '1' <= raw[i] <= '9' {
      if i < d {
        assert whole[i] != '0';
      } else {
        assert fraction[i - d - 1] != '0';
      }
    }
  }

  lemma Product(a: nat, b: nat)
    requires b > 0
    ensures a * b > 0 <==> a > 0
  {
  }

  /** Digits with at most one dot and at most six of them behind it, and one that is not zero. */
  predicate PlainAmount(raw: string) {
    && (exists i :: 0 <= i < |raw| && '1' <= raw[i] <= '9')
    && ((forall i :: 0 <= i < |raw| ==> '0' <= raw[i] <= '9')
        || exists d :: 0 <= d < |raw| && raw[d] == '.' && |raw| - d - 1 <= 6
                       && forall i :: 0 <= i < |raw| && i != d ==> '0' <= raw[i] <= '9')
  }

  /** The amounts the tip bot accepts, and no others. */
  lemma PlainIsValid(raw: string)
    ensures ValidAmount(raw) <==> PlainAmount(raw)
  {
    var d, whole, fraction := DotAt(raw), Whole(raw), Fraction(raw);
    if Decimal(raw) {
      PositiveAmount(raw);
      forall i | 0 <= i < |raw| && i != d ensures '0' <= raw[i] <= '9' {
        assert if i < d then whole[i] == raw[i] else fraction[i - d - 1] == raw[i];
      }
    } else if PlainAmount(raw) {
      PlainIsDecimal(raw);
    }
  }

  lemma PlainIsDecimal(raw: string)
    requires PlainAmount(raw)
    ensures Decimal(raw)
  {
    var d, whole, fraction := DotAt(raw), Whole(raw), Fraction(raw);
    if d < |raw| {
      var e :| 0 <= e < |raw| && raw[e] == '.' && |raw| - e - 1 <= 6
               && forall i :: 0 <= i < |raw| && i != e ==> '0' <= raw[i] <= '9';
      assert e == d;
      assert forall i :: 0 <= i < |fraction| ==> fraction[i] == raw[d + 1 + i];
      var i :| 0 <= i < |raw| && '1' <= raw[i] <= '9';
      assert i != d;
    }
  }

  method ValidateAmount(raw: string) returns (ok: bool)
    ensures ok == ValidAmount(raw)
  {
    if raw == "" {
      return false;
    }
    var seenDot, anyDigit := false, false;
    var decimals := 0;
    ghost var d := DotAt(raw);
    for i := 0 to |raw|
      invariant seenDot <==> d < i
      invariant forall k :: 0 <= k < i && k != d ==> IsDigit(raw[k])
      invariant decimals == if seenDot then i - d - 1 else 0
      invariant anyDigit <==> i > if seenDot then 1 else 0
    {
      if raw[i] == '.' {
        if seenDot {
          assert Fraction(raw)[i - d - 1] == '.';
          return false;
        }
        seenDot := true;
        continue;
      }
      if raw[i] < '0' || raw[i] > '9' {
        if seenDot {
          assert Fraction(raw)[i - d - 1] == raw[i];
        } else {
          assert Whole(raw)[i] == raw[i];
        }
        return false;
      }
      anyDigit := true;
      if seenDot {
        decimals := decimals + 1;
      }
    }
    assert AllDigits(Whole(raw)) && AllDigits(Fraction(raw));
    if !anyDigit {
      return false;
    }
    if decimals > MAX_DECIMALS {
      return false;
    }
    ok := NonZero(raw);
  }

  method NonZero(raw: string) returns (ok: bool)
    requires Decimal(raw)
    ensures ok == (TimesMillion(raw) > 0)
  {
    PositiveAmount(raw);
    for i := 0 to |raw|
      invariant forall k :: 0 <= k < i ==> !('1' <= raw[k] <= '9')
    {
      if '1' <= raw[i] <= '9' {
        return true;
      }
    }
    return false;
  }

  /** What the conversion answers: 64-bit arithmetic wraps, and nothing guards the last addition. */
  function DropsStatus(amount: string, size: nat): Status {
    if !ValidAmount(amount) || NatOf(Whole(amount)) > WHOLE_MAX then InvalidArg
    else if |DropsText(amount)| >= size then BufferTooSmall
    else Ok
  }

  function DropsText(amount: string): string
    requires Decimal(amount)
  {
    PrintNat(TimesMillion(amount) % 0x1_0000_0000_0000_0000)
  }

  /** `size` is the caller's buffer; `drops` is what stands in it. */
  method AmountToDrops(amount: string, size: nat) returns (status: Status, drops: string)
    requires size > 0
    ensures status == DropsStatus(amount, size)
    ensures status == Ok ==> drops == DropsText(amount)
    ensures status == BufferTooSmall ==> drops == ""
  {
    drops := "";
    var valid := ValidateAmount(amount);
    if !valid {
      return InvalidArg, "";
    }
    var accepted, whole, cursor := ReadWhole(amount);
    if !accepted {
      return InvalidArg, "";
    }
    var fraction, decimals := ReadFraction(amount, cursor);
    fraction := ScaleFraction(fraction, decimals, Fraction(amount));

    var sum: nat := whole as nat * 1_000_000 + fraction;
    assert sum == TimesMillion(amount);
    drops := PrintNat(sum % 0x1_0000_0000_0000_0000);
    assert drops == DropsText(amount);
    if |drops| >= size {
      return BufferTooSmall, "";
    }
    return Ok, drops;
  }

  /** The digits before the dot; refused as soon as they pass the largest whole part. */
  method ReadWhole(amount: string) returns (accepted: bool, whole: uint64, cursor: nat)
    requires Decimal(amount)
    ensures accepted <==> NatOf(Whole(amount)) <= WHOLE_MAX
    ensures accepted ==> whole == NatOf(Whole(amount)) && cursor == DotAt(amount)
  {
    ghost var digits := Whole(amount);
    whole, cursor := 0, 0;
    while cursor < |amount| && amount[cursor] != '.'
      invariant cursor <= |digits| && AllDigits(digits[..cursor])
      invariant whole == NatOf(digits[..cursor]) <= WHOLE_MAX
    {
      assert amount[cursor] == digits[cursor];
      NatOfStep(digits, 0, cursor);
      assert digits[0..cursor] == digits[..cursor] && digits[0..cursor + 1] == digits[..cursor + 1];
      whole := whole * 10 + DigitOf(amount[cursor]);
      if whole > WHOLE_MAX {
        NatOfPrefix(digits, cursor + 1);
        return false, 0, 0;
      }
      cursor := cursor + 1;
    }
    assert digits[..cursor] == digits;
    accepted := true;
  }

  /** The digits behind the dot, if the cursor stands on one. */
  method ReadFraction(amount: string, dot: nat) returns (fraction: uint64, decimals: nat)
    requires Decimal(amount) && dot == DotAt(amount)
    ensures fraction == NatOf(Fraction(amount)) && decimals == |Fraction(amount)|
  {
    fraction, decimals := 0, 0;
    if dot < |amount| && amount[dot] == '.' {
      ghost var digits := Fraction(amount);
      for cursor := dot + 1 to |amount|
        invariant decimals == cursor - dot - 1 && amount[cursor..] == digits[decimals..]
        invariant AllDigits(digits[..decimals]) && fraction == NatOf(digits[..decimals])
      {
        assert amount[cursor] == digits[decimals];
        NatOfStep(digits, 0, decimals);
        assert digits[0..decimals] == digits[..decimals] && digits[0..decimals + 1] == digits[..decimals + 1];
        NatOfBound(digits[..decimals + 1]);
        TenPowerBound(decimals + 1);
        fraction := fraction * 10 + DigitOf(amount[cursor]);
        decimals := decimals + 1;
      }
      assert digits[..decimals] == digits;
    }
  }

  lemma {:induction false} TenPowerBound(e: nat)
    requires e <= MAX_DECIMALS
    ensures PowerOfTen(e) <= MICRO
  {
    PowersOfTen();
    if e < MAX_DECIMALS {
      TenPowerStep(e, MAX_DECIMALS);
    }
  }

  lemma {:induction false} TenPowerStep(a: nat, b: nat)
    requires a <= b
    ensures PowerOfTen(a) <= PowerOfTen(b)
  {
    if a < b {
      TenPowerStep(a, b - 1);
    }
  }

  method ScaleFraction(read: uint64, length: nat, ghost digits: string) returns (fraction: uint64)
    requires AllDigits(digits) && length == |digits| <= MAX_DECIMALS && read == NatOf(digits)
    ensures fraction == NatOf(digits) * PowerOfTen(MAX_DECIMALS - |digits|) < MICRO
  {
    fraction := read;
    var decimals := length;
    NatOfBound(digits);
    TenPowerBound(length);
    assert PowerOfTen(0) == 1;
    while decimals < MAX_DECIMALS
      invariant length <= decimals <= MAX_DECIMALS
      invariant fraction == read * PowerOfTen(decimals - length)
      invariant fraction < PowerOfTen(decimals) <= MICRO
    {
      Tenfold(read, PowerOfTen(decimals - length));
      TenPowerBound(decimals + 1);
      fraction := fraction * 10;
      decimals := decimals + 1;
    }
    PowersOfTen();
  }

  lemma Tenfold(a: nat, p: nat)
    ensures a * (10 * p) == 10 * (a * p)
  {
  }

  // ---- exactness ----------------------------------------------------------------------------------------

  lemma MicrosBound(raw: string)
    requires Decimal(raw)
    ensures Micros(raw) < MICRO
  {
    var f := Fraction(raw);
    ScaledBound(NatOf(f), |f|, f);
  }

  lemma {:induction false} ScaledBound(n: nat, k: nat, s: string)
    requires AllDigits(s) && |s| == k <= MAX_DECIMALS && n == NatOf(s)
    ensures n * PowerOfTen(MAX_DECIMALS - k) < MICRO
  {
    NatOfBound(s);
    PowersOfTen();
    PowerSplit(k, MAX_DECIMALS - k);
    var p := PowerOfTen(MAX_DECIMALS - k);
    MulLess(n, PowerOfTen(k), p);
  }

  lemma MulLess(a: nat, b: nat, p: nat)
    requires a < b && p > 0
    ensures a * p < b * p
  {
  }

  lemma {:induction false} PowerSplit(a: nat, b: nat)
    ensures PowerOfTen(a) * PowerOfTen(b) == PowerOfTen(a + b)
  {
    if a > 0 {
      PowerSplit(a - 1, b);
      var x, y := PowerOfTen(a - 1), PowerOfTen(b);
      assert 10 * x * y == 10 * (x * y);
    }
  }

  /**
   * Exactly when an accepted amount is converted exactly: always below the largest whole part, and
   * at the largest only up to 551615 millionths. Above that the sum wraps.
   */
  lemma DropsExact(amount: string, size: nat)
    requires DropsStatus(amount, size) == Ok
    ensures NatOf(DropsText(amount)) == TimesMillion(amount)
       <==> NatOf(Whole(amount)) < WHOLE_MAX || Micros(amount) <= FRACTION_AT_MAX
  {
    MicrosBound(amount);
  }

  /**
   * An amount is worth its digits without the dot, divided by ten for every decimal. Its drops are a
   * million times that, accepted up to the largest whole part, and short of the wrap exactly that.
   */
  lemma DropsWorth(raw: string, whole: string, fraction: string, size: nat)
    requires AllDigits(whole) && AllDigits(fraction) && PlainAmount(raw)
    requires raw == whole + "." + fraction || (raw == whole && fraction == "")
    ensures DropsStatus(raw, size) == InvalidArg <==> NatOf(whole) > 18446744073709
    ensures
      var digits, ten := NatOf(whole + fraction), PowerOfTen(|fraction|);
      DropsStatus(raw, size) == Ok && digits * 1_000_000 < ten * 0x1_0000_0000_0000_0000
      ==> NatOf(DropsText(raw)) * ten == digits * 1_000_000
  {
    PlainIsValid(raw);
    WorthMillionth(raw, whole, fraction);
    var value, ten := TimesMillion(raw), PowerOfTen(|fraction|);
    if value * ten < ten * 0x1_0000_0000_0000_0000 {
      Divides(value, ten, 0x1_0000_0000_0000_0000);
      Unwrapped(value);
    }
  }

  lemma WorthMillionth(raw: string, whole: string, fraction: string)
    requires AllDigits(whole) && AllDigits(fraction) && Decimal(raw)
    requires raw == whole + "." + fraction || (raw == whole && fraction == "")
    ensures Whole(raw) == whole
    ensures TimesMillion(raw) * PowerOfTen(|fraction|) == NatOf(whole + fraction) * 1_000_000
  {
    PartsWorth(raw, whole, fraction);
    NatOfJoin(whole, fraction);
    MillionSplit(|fraction|);
    Scaled(NatOf(whole), NatOf(fraction), PowerOfTen(|fraction|), PowerOfTen(MAX_DECIMALS - |fraction|), 1_000_000,
           TimesMillion(raw), NatOf(whole + fraction));
  }

  lemma PartsWorth(raw: string, whole: string, fraction: string)
    requires AllDigits(whole) && AllDigits(fraction) && Decimal(raw)
    requires raw == whole + "." + fraction || (raw == whole && fraction == "")
    ensures Whole(raw) == whole && |fraction| <= 6
    ensures TimesMillion(raw) == NatOf(whole) * 1_000_000 + NatOf(fraction) * PowerOfTen(6 - |fraction|)
  {
    if raw == whole {
      NoDot(raw);
    } else {
      JoinParts(whole, fraction);
    }
  }

  lemma MillionSplit(k: nat)
    requires k <= 6
    ensures PowerOfTen(6 - k) * PowerOfTen(k) == 1_000_000
  {
    PowersOfTen();
    PowerSplit(6 - k, k);
  }

  lemma {:induction false} NoDot(raw: string)
    requires AllDigits(raw)
    ensures DotAt(raw) == |raw|
  {
    if raw != "" {
      NoDot(raw[1..]);
    }
  }

  lemma Scaled(w: nat, f: nat, ten: nat, rest: nat, all: nat, value: nat, joined: nat)
    requires rest * ten == all && value == w * all + f * rest && joined == w * ten + f
    ensures value * ten == joined * all
  {
    assert f * rest * ten == f * (rest * ten);
    assert w * all * ten == w * ten * all;
    assert (w * all + f * rest) * ten == w * all * ten + f * rest * ten;
  }

  lemma Divides(a: nat, p: nat, limit: nat)
    requires p > 0 && a * p < p * limit
    ensures a < limit
  {
    if a >= limit {
      MulAtLeast(limit, a, p);
    }
  }

  lemma MulAtLeast(a: nat, b: nat, p: nat)
    requires a <= b
    ensures p * a <= b * p
  {
  }

  /** 18446744073709.551616. */
  function WrappingAmount(): string {
    PrintNat(WHOLE_MAX) + "." + PrintPadded(551616, 6)
  }

  /** That amount is accepted and wraps: the payment built for it sends nothing. */
  lemma WrapExample(size: nat)
    requires size > 1
    ensures DropsStatus(WrappingAmount(), size) == Ok && NatOf(DropsText(WrappingAmount())) == 0
  {
    var whole, fraction := PrintNat(WHOLE_MAX), PrintPadded(551616, 6);
    PowersOfTen();
    FromParts(WrappingAmount(), whole, fraction);
    assert TimesMillion(WrappingAmount()) == 0x1_0000_0000_0000_0000;
    assert |PrintNat(0)| == 1;
  }

  /** A whole part and six decimals. */
  lemma FromParts(raw: string, whole: string, fraction: string)
    requires AllDigits(whole) && AllDigits(fraction) && whole != "" && |fraction| == MAX_DECIMALS
    requires raw == whole + "." + fraction
    ensures Decimal(raw) && Whole(raw) == whole && Micros(raw) == NatOf(fraction)
    ensures TimesMillion(raw) == NatOf(whole) * MICRO + NatOf(fraction)
  {
    JoinParts(whole, fraction);
    assert PowerOfTen(MAX_DECIMALS - |fraction|) == 1;
  }

  lemma JoinParts(whole: string, fraction: string)
    requires AllDigits(whole) && AllDigits(fraction)
    ensures Whole(whole + "." + fraction) == whole && Fraction(whole + "." + fraction) == fraction
  {
    DotUnique(whole + "." + fraction, |whole|);
  }

  lemma {:induction false} DotUnique(raw: string, d: nat)
    requires d < |raw| && raw[d] == '.' && forall i :: 0 <= i < d ==> raw[i] != '.'
    ensures DotAt(raw) == d
  {
    if d > 0 {
      DotUnique(raw[1..], d - 1);
    }
  }

  // ---- back again --------------------------------------------------------------------------------------------

  /** Drops as a decimal amount with six decimals, without floating point. */
  function FormatDrops(drops: uint64): string {
    PrintNat(drops / 1_000_000) + "." + PrintPadded(drops % 1_000_000, 6)
  }

  /** Formatting drops and reading the amount gives the drops back, for every 64-bit value. */
  lemma FormatDropsValue(drops: uint64)
    ensures Decimal(FormatDrops(drops)) && TimesMillion(FormatDrops(drops)) == drops
    ensures NatOf(Whole(FormatDrops(drops))) <= WHOLE_MAX
  {
    var whole, fraction := PrintNat(drops / 1_000_000), PrintPadded(drops % 1_000_000, MAX_DECIMALS);
    PowersOfTen();
    FromParts(FormatDrops(drops), whole, fraction);
  }

  /** So the conversion to drops undoes the formatting wherever it accepts it: for anything but zero. */
  lemma DropsOfFormatted(drops: uint64, size: nat)
    requires size > 20
    ensures Decimal(FormatDrops(drops))
    ensures DropsStatus(FormatDrops(drops), size) == Ok <==> drops > 0
    ensures DropsText(FormatDrops(drops)) == PrintNat(drops)
  {
    FormatDropsValue(drops);
    DropsOf(FormatDrops(drops), drops, size);
  }

  lemma DropsOf(amount: string, drops: uint64, size: nat)
    requires size > 20 && Decimal(amount) && TimesMillion(amount) == drops && NatOf(Whole(amount)) <= WHOLE_MAX
    ensures DropsStatus(amount, size) == Ok <==> drops > 0
    ensures DropsText(amount) == PrintNat(drops)
  {
    SixtyFourBits(drops);
    Unwrapped(drops);
  }

  lemma Unwrapped(n: uint64)
    ensures n % 0x1_0000_0000_0000_0000 == n
  {
  }

  /** A 64-bit number has at most twenty digits. */
  lemma SixtyFourBits(n: uint64)
    ensures |PrintNat(n)| <= 20
  {
    var six, two, k := 6, 2, 20;
    PowersOfTen();
    PowerSplit(six, six);
    PowerSplit(six + six, six);
    PowerSplit(six + six + six, two);
    assert PowerOfTen(2) == 10 * PowerOfTen(1) == 100;
    PrintLength(n, k);
  }

  lemma {:induction false} PrintLength(n: nat, k: nat)
    requires k > 0 && n < PowerOfTen(k)
    ensures |PrintNat(n)| <= k
  {
    if n >= 10 {
      assert k > 1 by { assert PowerOfTen(1) == 10 * PowerOfTen(0); }
      PrintLength(n / 10, k - 1);
    }
  }

  // ---- other readers of decimal numbers ------------------------------------------------------------------

  const NATIVE_LIMIT: uint64 := 0x4000_0000_0000_0000

  /** The digit loop of a native amount: a plain decimal string below 2^62, or nothing. */
  method ReadDrops(text: string) returns (ok: bool, drops: uint64)
    ensures ok <==> text != "" && AllDigits(text) && NatOf(text) < NATIVE_LIMIT
    ensures ok ==> drops == NatOf(text)
  {
    drops := 0;
    if text == "" {
      return false, 0;
    }
    assert text[..0] == "";
    for i := 0 to |text|
      invariant AllDigits(text[..i]) && drops == NatOf(text[..i])
    {
      if text[i] < '0' || text[i] > '9' {
        return false, 0;
      }
      ReadStep(text, i);
      var digit := DigitOf(text[i]);
      GuardExact(drops, digit);
      if drops > (UINT64_MAX - digit) / 10 {
        return false, 0;
      }
      var next: nat := drops as nat * 10 + digit;
      drops := next;
    }
    assert text[..|text|] == text;
    ok := drops < NATIVE_LIMIT;
  }

  /** One more digit of a text; if the text is all digits, its value is at least what was read. */
  lemma ReadStep(text: string, i: nat)
    requires i < |text| && AllDigits(text[..i]) && IsDigit(text[i])
    ensures AllDigits(text[..i + 1]) && NatOf(text[..i + 1]) == NatOf(text[..i]) * 10 + DigitOf(text[i])
    ensures AllDigits(text) ==> NatOf(text[..i + 1]) <= NatOf(text)
  {
    assert text[0..i] == text[..i] && text[0..i + 1] == text[..i + 1];
    NatOfStep(text, 0, i);
    if AllDigits(text) {
      NatOfPrefix(text, i + 1);
    }
  }

  /** How many digits the text begins with. */
  function DigitRun(text: string): (n: nat)
    ensures n <= |text| && AllDigits(text[..n])
    ensures n < |text| ==> !IsDigit(text[n])
  {
    if text == "" || !IsDigit(text[0]) then 0
    else
      var rest := DigitRun(text[1..]);
      assert text[..1 + rest] == [text[0]] + text[1..][..rest];
      1 + rest
  }

  /**
   * The number a reply field holds, quoted or not: the digits up to the first other character,
   * refused when there are none or when they do not fit 64 bits.
   */
  method ExtractNumber(value: string) returns (ok: bool, parsed: uint64)
    ensures
      var text := if value != "" && value[0] == '"' then value[1..] else value;
      && (ok <==> DigitRun(text) > 0 && NatOf(text[..DigitRun(text)]) <= UINT64_MAX)
      && (ok ==> parsed == NatOf(text[..DigitRun(text)]))
  {
    parsed := 0;
    var text := if value != "" && value[0] == '"' then value[1..] else value;
    if text == "" || text[0] < '0' || text[0] > '9' {
      return false, 0;
    }
    ghost var run := text[..DigitRun(text)];
    var i := 0;
    while i < |text| && '0' <= text[i] <= '9'
      invariant i <= |run| && AllDigits(run[..i]) && parsed == NatOf(run[..i])
    {
      assert text[i] == run[i];
      ReadStep(run, i);
      var digit := DigitOf(text[i]);
      GuardExact(parsed, digit);
      if parsed > (UINT64_MAX - digit) / 10 {
        return false, 0;
      }
      var next: nat := parsed as nat * 10 + digit;
      parsed := next;
      i := i + 1;
    }
    assert run[..i] == run;
    ok := true;
  }
}

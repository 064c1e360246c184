/** Positional numerals: values of digit sequences and the minimal numeral of a value. */
module Numerals {
  import opened Common

  ghost predicate DigitsBelow(ds: seq<nat>, base: nat) {
    forall i :: 0 <= i < |ds| ==> ds[i] < base
  }

  /** Value of a numeral written most significant digit first. */
  function BigEndian(ds: seq<nat>, base: nat): nat {
    if ds == [] then 0 else BigEndian(ds[..|ds| - 1], base) * base + ds[|ds| - 1]
  }

  /** Value of a numeral written least significant digit first, with `top` above its last digit. */
  function LittleEndian(ds: seq<nat>, base: nat, top: nat): nat {
    if ds == [] then top else ds[0] + base * LittleEndian(ds[1..], base, top)
  }

  function Power(base: nat, e: nat): nat {
    if e == 0 then 1 else base * Power(base, e - 1)
  }

  /** What division by a base yields. */
  lemma Division(n: nat, base: nat)
    requires base >= 2
    ensures n == base * (n / base) + n % base
    ensures n > 0 ==> n / base < n
    ensures n / base == 0 ==> n % base == n
  {
    var q := n / base;
    if n > 0 && q >= n {
      MulMonotone(base, n, q);
      MulMonotone(n, 2, base);
      assert false;
    }
  }

  lemma MulMonotone(a: nat, x: nat, y: nat)
    requires x <= y
    ensures a * x <= a * y
  {
  }

  /** The digits of `n`, least significant first, with no zero on top. */
  function Minimal(n: nat, base: nat): (ds: seq<nat>)
    requires base >= 2
    ensures DigitsBelow(ds, base)
    ensures ds == [] <==> n == 0
    ensures ds != [] ==> ds[|ds| - 1] > 0
    decreases n
  {
    if n == 0 then []
    else
      Division(n, base);
      var q, r := n / base, n % base;
      var rest := Minimal(q, base);
      [r] + rest
  }

  lemma MinimalStep(n: nat, base: nat, q: nat, r: nat)
    requires base >= 2 && n > 0 && q == n / base && r == n % base
    ensures Minimal(n, base) == [r] + Minimal(q, base)
    ensures n == r + base * q && q < n
  {
    Division(n, base);
  }

  lemma {:induction false} MinimalValue(n: nat, base: nat)
    requires base >= 2
    ensures LittleEndian(Minimal(n, base), base, 0) == n
    decreases n
  {
    if n > 0 {
      var q, r := n / base, n % base;
      MinimalStep(n, base, q, r);
      MinimalValue(q, base);
      LittleEndianCons(r, Minimal(q, base), base, 0);
    }
  }

  lemma LittleEndianCons(d: nat, ds: seq<nat>, base: nat, top: nat)
    ensures LittleEndian([d] + ds, base, top) == d + base * LittleEndian(ds, base, top)
  {
    assert ([d] + ds)[1..] == ds;
  }

  /** Digits below the base with no zero on top are the only such numeral of their value. */
  lemma {:induction false} MinimalUnique(ds: seq<nat>, base: nat)
    requires base >= 2 && DigitsBelow(ds, base)
    requires ds != [] ==> ds[|ds| - 1] > 0
    ensures Minimal(LittleEndian(ds, base, 0), base) == ds
  {
    if ds != [] {
      var rest := LittleEndian(ds[1..], base, 0);
      MinimalUnique(ds[1..], base);
      DivideDigit(ds[0], rest, base);
      if |ds| == 1 {
        assert rest == 0;
      } else {
        assert Minimal(rest, base) != [];
      }
    }
  }

  lemma DivideDigit(d: nat, q: nat, base: nat)
    requires d < base
    ensures (d + base * q) / base == q && (d + base * q) % base == d
  {
    var n := d + base * q;
    var k, r := n / base, n % base;
    assert n == base * k + r;
    assert base * (q - k) == r - d;
    if q > k {
      MulMonotone(base, 1, q - k);
      assert false;
    } else if q < k {
      MulMonotone(base, 1, k - q);
      assert false;
    }
  }

  /** A digit may be split off the top: `whole == d + base * top`. */
  lemma {:induction false} LittleEndianAppend(ds: seq<nat>, d: nat, base: nat, top: nat, whole: nat)
    requires whole == d + base * top
    ensures LittleEndian(ds + [d], base, top) == LittleEndian(ds, base, whole)
  {
    if ds != [] {
      LittleEndianAppend(ds[1..], d, base, top, whole);
      assert (ds + [d])[1..] == ds[1..] + [d];
    } else {
      var one: seq<nat> := [d];
      assert ds + [d] == one && one[1..] == [];
    }
  }

  lemma {:induction false} ReversedValue(ds: seq<nat>, base: nat)
    ensures BigEndian(Reverse(ds), base) == LittleEndian(ds, base, 0)
  {
    if ds != [] {
      ReversedValue(ds[1..], base);
      var r := Reverse(ds);
      assert r == Reverse(ds[1..]) + [ds[0]];
      assert r[..|r| - 1] == Reverse(ds[1..]);
    }
  }

  /** The same uniqueness, read from the most significant digit. */
  lemma BigEndianUnique(ds: seq<nat>, base: nat)
    requires base >= 2 && DigitsBelow(ds, base)
    requires ds != [] ==> ds[0] > 0
    ensures Reverse(Minimal(BigEndian(ds, base), base)) == ds
  {
    var low := Reverse(ds);
    assert Reverse(low) == ds;
    ReversedValue(low, base);
    MinimalUnique(low, base);
  }

  lemma {:induction false} BigEndianAppend(ds: seq<nat>, d: nat, base: nat)
    ensures BigEndian(ds + [d], base) == BigEndian(ds, base) * base + d
  {
    assert (ds + [d])[..|ds|] == ds;
  }

  lemma {:induction false} LeadingZeroes(z: nat, ds: seq<nat>, base: nat)
    ensures BigEndian(Repeat(0, z) + ds, base) == BigEndian(ds, base)
    decreases |ds|, z
  {
    var whole: seq<nat> := Repeat(0, z) + ds;
    if ds != [] {
      LeadingZeroes(z, ds[..|ds| - 1], base);
      assert whole[..|whole| - 1] == Repeat(0, z) + ds[..|ds| - 1];
    } else if z > 0 {
      LeadingZeroes(z - 1, ds, base);
      assert whole[..|whole| - 1] == Repeat(0, z - 1) + ds;
      assert BigEndian(whole[..|whole| - 1], base) == 0;
      assert BigEndian(whole, base) == 0 * base + whole[|whole| - 1];
    }
  }

  lemma PowerPositive(base: nat, e: nat)
    requires base > 0
    ensures Power(base, e) > 0
  {
  }

  /** A numeral of k digits lies below base^k, and at or above base^(k-1) when its top digit is not zero. */
  lemma {:induction false} ValueBounds(ds: seq<nat>, base: nat)
    requires base >= 2 && DigitsBelow(ds, base)
    ensures LittleEndian(ds, base, 0) < Power(base, |ds|)
    ensures ds != [] && ds[|ds| - 1] > 0 ==> LittleEndian(ds, base, 0) >= Power(base, |ds| - 1)
  {
    if ds != [] {
      var rest := ds[1..];
      ValueBounds(rest, base);
      var v := LittleEndian(rest, base, 0);
      MulMonotone(base, v + 1, Power(base, |rest|));
      assert base * (v + 1) == base * v + base;
      if |ds| > 1 && ds[|ds| - 1] > 0 {
        MulMonotone(base, Power(base, |rest| - 1), v);
      }
    }
  }

  lemma {:induction false} PowerMonotone(base: nat, a: nat, b: nat)
    requires base >= 1 && a <= b
    ensures Power(base, a) <= Power(base, b)
  {
    if a < b {
      PowerMonotone(base, a, b - 1);
      PowerPositive(base, b - 1);
      assert Power(base, b) >= 1 * Power(base, b - 1);
    }
  }

  /** A value below base^k has at most k digits. */
  lemma MinimalLength(n: nat, base: nat, k: nat)
    requires base >= 2
    ensures |Minimal(n, base)| <= k <==> n < Power(base, k)
  {
    var ds := Minimal(n, base);
    MinimalValue(n, base);
    ValueBounds(ds, base);
    if |ds| <= k {
      PowerMonotone(base, |ds|, k);
    } else {
      PowerMonotone(base, k, |ds| - 1);
    }
  }

  lemma {:induction false} BigEndianBound(ds: seq<nat>, base: nat)
    requires base >= 2 && DigitsBelow(ds, base)
    ensures BigEndian(ds, base) < Power(base, |ds|)
  {
    var r := Reverse(ds);
    assert Reverse(r) == ds;
    ReversedValue(r, base);
    ValueBounds(r, base);
  }

  /** Anything above k digits makes the value reach base^k. */
  lemma {:induction false} TopBound(ds: seq<nat>, base: nat, top: nat)
    requires base >= 2 && top > 0
    ensures LittleEndian(ds, base, top) >= Power(base, |ds|)
  {
    if ds != [] {
      TopBound(ds[1..], base, top);
      MulMonotone(base, Power(base, |ds| - 1), LittleEndian(ds[1..], base, top));
    }
  }

  lemma {:induction false} BigEndianPrefix(a: seq<nat>, b: seq<nat>, base: nat)
    requires base >= 1
    ensures BigEndian(a, base) <= BigEndian(a + b, base)
  {
    if b == [] {
      assert a + b == a;
    } else {
      BigEndianPrefix(a, b[..|b| - 1], base);
      assert (a + b)[..|a + b| - 1] == a + b[..|b| - 1];
      MulMonotone(BigEndian(a + b[..|b| - 1], base), 1, base);
    }
  }

  /** A digit array whose top digit is not zero is the minimal numeral of its value. */
  lemma MinimalOf(ds: seq<nat>, base: nat, n: nat)
    requires base >= 2 && DigitsBelow(ds, base)
    requires ds != [] ==> ds[|ds| - 1] > 0
    requires LittleEndian(ds, base, 0) == n
    ensures ds == Minimal(n, base)
  {
    MinimalUnique(ds, base);
  }
}

/** Exponential backoff: the doubling loop is the capped power-of-two curve, without overflow. */
module Backoff {

  type uint32 = x: nat | x < 0x1_0000_0000
  type uint64 = x: nat | x < 0x1_0000_0000_0000_0000

  const BASE_MS: uint32 := 1000
  const CAP_MS: uint32 := 30000
  const JITTER_MS: uint32 := 500

  function Min(a: nat, b: nat): nat {
    if a < b then a else b
  }

  function PowerOfTwo(e: nat): (p: nat)
    ensures p > 0
  {
    if e == 0 then 1 else 2 * PowerOfTwo(e - 1)
  }

  /** The documented curve: min(base * 2^(attempt - 1), cap); attempt 0 counts as the first. */
  function Curve(attempt: nat, base: nat, cap: nat): nat {
    Min(base * PowerOfTwo(if attempt == 0 then 0 else attempt - 1), cap)
  }

  lemma {:induction false} PowerMonotone(a: nat, b: nat)
    requires a <= b
    ensures PowerOfTwo(a) <= PowerOfTwo(b)
  {
    if a < b {
      PowerMonotone(a, b - 1);
    }
  }

  lemma ScaledMonotone(base: nat, x: nat, y: nat)
    requires x <= y
    ensures base * x <= base * y
  {
  }

  /** Later attempts never wait less. */
  lemma CurveMonotone(a: nat, b: nat, base: nat, cap: nat)
    requires a <= b
    ensures Curve(a, base, cap) <= Curve(b, base, cap)
  {
    var x, y := if a == 0 then 0 else a - 1, if b == 0 then 0 else b - 1;
    PowerMonotone(x, y);
    ScaledMonotone(base, PowerOfTwo(x), PowerOfTwo(y));
  }

  /** Every type below is the width the C code computes in, so verifying it rules out overflow. */
  method BaseMs(attempt: uint32, baseMs: uint32, capMs: uint32) returns (delay: uint32)
    ensures delay == Curve(attempt, baseMs, capMs)
  {
    if attempt == 0 {
      return if baseMs < capMs then baseMs else capMs;
    }
    var d: uint64 := baseMs;
    for i := 1 to attempt
      invariant i <= attempt
      invariant d == baseMs * PowerOfTwo(i - 1)
      invariant i == 1 || d < 2 * 0x1_0000_0000
    {
      if d >= capMs {
        PowerMonotone(i - 1, attempt - 1);
        ScaledMonotone(baseMs, PowerOfTwo(i - 1), PowerOfTwo(attempt - 1));
        return capMs;
      }
      Doubled(baseMs, PowerOfTwo(i - 1));
      d := d * 2;
    }
    delay := if d < capMs then d else capMs;
  }

  lemma Doubled(base: nat, p: nat)
    ensures base * (2 * p) == 2 * (base * p)
  {
  }

  /** `draw` is the random number below `jitterMs`. */
  method DelayMs(attempt: uint32, baseMs: uint32, capMs: uint32, jitterMs: uint32, draw: uint32)
    returns (delay: uint32)
    requires jitterMs > 0 ==> draw < jitterMs
    ensures Curve(attempt, baseMs, capMs) <= delay <= capMs
    ensures delay == Min(Curve(attempt, baseMs, capMs) + (if jitterMs == 0 then 0 else draw), capMs)
  {
    delay := BaseMs(attempt, baseMs, capMs);
    if jitterMs == 0 {
      return;
    }
    var total: uint64 := delay + draw;
    delay := if total < capMs then total else capMs;
  }
}

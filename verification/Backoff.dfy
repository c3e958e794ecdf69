/** The exponential backoffs, computed on 64-bit integers that wrap. */
module Backoff {

  const RETRY_BASE: int := 250_000_000
  const RETRY_CAP: int := 5_000_000_000
  const CLIENT_BASE: int := 500_000_000
  const CLIENT_CAP: int := 30_000_000_000
  const TWO_63: int := 0x8000_0000_0000_0000
  const TWO_64: int := 0x1_0000_0000_0000_0000

  function Pow2(k: nat): (r: int)
    ensures r > 0
  {
    if k == 0 then 1 else 2 * Pow2(k - 1)
  }

  /** The int64 a mathematical integer is truncated to. */
  function Int64(x: int): int {
    var r := x % TWO_64;
    if r >= TWO_63 then r - TWO_64 else r
  }

  /** x << k on int64. */
  function Shl(x: int, k: nat): int {
    Int64(x * Pow2(k))
  }

  /** The clamp both backoffs apply to the shifted value. */
  function Clamped(d: int, cap: int): int {
    if d > cap || d <= 0 then cap else d
  }

  function RetryBackoff(attempt: int): int
    requires attempt >= 1
  {
    Clamped(Shl(RETRY_BASE, attempt - 1), RETRY_CAP)
  }

  function ClientBackoff(attempt: int): int
    requires attempt >= 1
  {
    Clamped(Shl(CLIENT_BASE, attempt - 1), CLIENT_CAP)
  }

  /** What a backoff should be: base doubled k times, or the cap. */
  function Capped(base: int, cap: int, k: nat): int {
    if base * Pow2(k) < cap then base * Pow2(k) else cap
  }

  /** One doubling more. */
  lemma CappedDoubles(base: int, cap: int, k: nat)
    requires 0 < base <= cap
    ensures Capped(base, cap, k + 1) == if Capped(base, cap, k) * 2 < cap then Capped(base, cap, k) * 2 else cap
  {
    var p := Pow2(k);
    assert base * (2 * p) == (base * p) * 2;
  }

  lemma {:induction false} Pow2Sum(a: nat, b: nat)
    ensures Pow2(a + b) == Pow2(a) * Pow2(b)
  {
    if a > 0 {
      Pow2Sum(a - 1, b);
      assert Pow2(a + b) == 2 * (Pow2(a - 1) * Pow2(b));
    }
  }

  lemma Pow2Grows(a: nat, b: nat)
    requires a <= b
    ensures Pow2(a) <= Pow2(b)
  {
  }

  /** A multiple of 2^43 truncated to int64 is not positive, or at least 2^43. */
  lemma OverflowIsFarOff(m: int)
    ensures var d := Int64(m * 0x800_0000_0000);
            d <= 0 || d >= 0x800_0000_0000
  {
  }

  /** Saturation despite the wrap: for a base that is odd * 2^low, below 2^63 the
      shift is exact; beyond, the wrapped value is a multiple of 2^43. */
  lemma ShiftSaturates(odd: int, low: nat, base: int, cap: int, k: nat)
    requires 0 < odd && base == odd * Pow2(low) && 0 < cap < 0x800_0000_0000 && low <= 42
    requires base * Pow2(42 - low) < TWO_63
    ensures Clamped(Shl(base, k), cap) == Capped(base, cap, k)
  {
    if low + k < 43 {
      Pow2Grows(k, 42 - low);
      ShiftIsExact(base, Pow2(k), Pow2(42 - low));
    } else {
      var high := low + k - 43;
      Pow2Sum(low, k);
      Pow2Sum(43, high);
      Pow2Is43();
      ProductIsMultiple(odd, Pow2(low), Pow2(k), Pow2(high));
      OverflowIsFarOff(odd * Pow2(high));
    }
  }

  lemma ShiftIsExact(base: int, p: int, q: int)
    requires 0 < base && 0 < p <= q && base * q < TWO_63
    ensures 0 < base * p && Int64(base * p) == base * p
  {
  }

  lemma ProductIsMultiple(odd: int, a: int, b: int, high: int)
    requires 0 < odd && 0 < high && a * b == 0x800_0000_0000 * high
    ensures odd * a * b == (odd * high) * 0x800_0000_0000
    ensures odd * a * b >= 0x800_0000_0000
  {
  }

  lemma Pow2Is43()
    ensures Pow2(43) == 0x800_0000_0000
  {
    assert Pow2(10) == 1024;
    Pow2Sum(10, 10);
    Pow2Sum(20, 20);
    Pow2Sum(40, 3);
  }

  /** Every retry wait is 250 ms doubled per attempt, capped at 5 s, for every
      attempt number, however large. */
  lemma RetryBackoffIsCapped(attempt: int)
    requires attempt >= 1
    ensures RetryBackoff(attempt) == Capped(RETRY_BASE, RETRY_CAP, attempt - 1)
  {
    assert Pow2(7) == 128;
    SmallPow2();
    ShiftSaturates(1953125, 7, RETRY_BASE, RETRY_CAP, attempt - 1);
  }

  lemma ClientBackoffIsCapped(attempt: int)
    requires attempt >= 1
    ensures ClientBackoff(attempt) == Capped(CLIENT_BASE, CLIENT_CAP, attempt - 1)
  {
    assert Pow2(8) == 256;
    SmallPow2();
    ShiftSaturates(1953125, 8, CLIENT_BASE, CLIENT_CAP, attempt - 1);
  }

  lemma SmallPow2()
    ensures Pow2(35) == 0x8_0000_0000 && Pow2(34) == 0x4_0000_0000
  {
    assert Pow2(10) == 1024;
    Pow2Sum(10, 10);
    Pow2Sum(20, 10);
    Pow2Sum(30, 4);
    assert Pow2(35) == 2 * Pow2(34);
  }
}

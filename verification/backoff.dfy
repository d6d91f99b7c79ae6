/** ExpBackoff: an exponential delay computed with a 64-bit shift. */
module Backoff {

  const MAX_INT64: int := 0x7fff_ffff_ffff_ffff
  const TWO63: int := 0x8000_0000_0000_0000
  const TWO64: int := 0x1_0000_0000_0000_0000

  function Pow2(k: nat): (p: nat)
    ensures p > 0
  {
    if k == 0 then 1 else 2 * Pow2(k - 1)
  }

  /** An integer kept to 64 bits, as Go keeps an int64. */
  function Wrap64(i: int): (w: int)
    ensures -TWO63 <= w <= MAX_INT64
  {
    var low := i % TWO64;
    if low < TWO63 then low else low - TWO64
  }

  /** base << uint(attempt-1), where a shift by 64 or more leaves nothing. */
  function Shifted(base: int, attempt: nat): int
    requires attempt >= 1
  {
    if attempt - 1 >= 64 then 0 else Wrap64(base * Pow2(attempt - 1))
  }

  function Delay(base: int, max: int, attempt: nat): int
    requires attempt >= 1
  {
    var d := Shifted(base, attempt);
    if d <= 0 || d > max then max else d
  }

  /** The delay as documented: doubled at every attempt, capped at max. */
  function Intended(base: int, max: int, attempt: nat): int
    requires attempt >= 1
  {
    var d := base * Pow2(attempt - 1);
    if d > max then max else d
  }

  /** The bits of base that a shift by attempt-1 leaves inside 64 bits are not all zero, the
      top one of them is zero, and shifted they stay below the cap. */
  predicate Surfaces(base: int, max: int, attempt: nat)
    requires attempt >= 1
  {
    attempt <= 64 && base * Pow2(attempt - 1) >= TWO63 &&
    var kept := base % Pow2(65 - attempt);
    0 < kept < Pow2(64 - attempt) && kept * Pow2(attempt - 1) < max
  }

  // ---------- Arithmetic of the shift ----------

  lemma {:induction false} Pow2Sum(i: nat, j: nat)
    ensures Pow2(i + j) == Pow2(i) * Pow2(j)
  {
    if i > 0 {
      Pow2Sum(i - 1, j);
      assert Pow2(i) * Pow2(j) == 2 * (Pow2(i - 1) * Pow2(j));
    }
  }

  lemma Pow2At64()
    ensures Pow2(63) == TWO63 && Pow2(64) == TWO64
  {
    assert Pow2(8) == 256;
    Pow2Sum(8, 8);
    Pow2Sum(16, 16);
    Pow2Sum(32, 32);
    assert Pow2(64) == 2 * Pow2(63);
  }

  lemma MulLess(a: nat, b: nat, c: nat)
    requires a < b && c > 0
    ensures a * c < b * c
  {
  }

  lemma ModOfSum(m: nat, high: nat, low: nat)
    requires low < m
    ensures (m * high + low) % m == low
  {
    var x := m * high + low;
    assert x == m * (x / m) + x % m;
    assert m * (high - x / m) == x % m - low;
    if high - x / m >= 1 {
      MulAtLeast(m, high - x / m);
    } else if high - x / m <= -1 {
      MulAtLeast(m, x / m - high);
    }
  }

  lemma MulAtLeast(m: nat, k: int)
    requires k >= 1
    ensures m * k >= m
  {
  }

  lemma ModOfProduct(base: nat, p: nat, q: nat)
    requires p > 0 && q > 0
    ensures p * q > 0 && (base * q) % (p * q) == (base % p) * q
  {
    var high, low := base / p, base % p;
    MulLess(low, p, q);
    assert p * q > 0;
    assert base * q == (p * q) * high + low * q by {
      assert base == p * high + low;
      assert base * q == (p * high) * q + low * q;
      assert (p * high) * q == (p * q) * high;
    }
    ModOfSum(p * q, high, low * q);
  }

  /** Shifting and then truncating keeps the low bits of base. */
  lemma ShiftKeepsLowBits(base: nat, k: nat)
    requires k < 64
    ensures (base * Pow2(k)) % TWO64 == (base % Pow2(64 - k)) * Pow2(k)
  {
    Pow2At64();
    Pow2Sum(64 - k, k);
    ModOfProduct(base, Pow2(64 - k), Pow2(k));
  }

  // ---------- When the delay is the documented one ----------

  lemma ShiftedOut(base: nat, max: int, attempt: nat)
    requires base > 0 && max <= MAX_INT64 && attempt > 64
    ensures Delay(base, max, attempt) == max == Intended(base, max, attempt)
  {
    Pow2At64();
    Pow2Sum(64, attempt - 1 - 64);
    MulAtLeast(TWO64, Pow2(attempt - 1 - 64));
    MulAtLeast(Pow2(attempt - 1), base);
  }

  lemma Overflowed(base: nat, max: int, attempt: nat)
    requires base > 0 && max <= MAX_INT64 && 1 <= attempt <= 64
    requires base * Pow2(attempt - 1) >= TWO63
    ensures Delay(base, max, attempt) == Intended(base, max, attempt) <==> !Surfaces(base, max, attempt)
  {
    var k := attempt - 1;
    var kept := base % Pow2(64 - k);
    var low := kept * Pow2(k);
    ShiftKeepsLowBits(base, k);
    assert Wrap64(base * Pow2(k)) == if low < TWO63 then low else low - TWO64;
    assert kept < Pow2(63 - k) <==> low < TWO63 by {
      Pow2At64();
      Pow2Sum(63 - k, k);
      if kept < Pow2(63 - k) {
        MulLess(kept, Pow2(63 - k), Pow2(k));
      } else if kept > Pow2(63 - k) {
        MulLess(Pow2(63 - k), kept, Pow2(k));
      }
    }
    assert kept > 0 <==> low > 0;
    assert Intended(base, max, attempt) == max;
  }

  /** For every base, cap and attempt: the delay computed is the delay documented, unless
      low bits of base surface below the cap. */
  lemma DelayIsExact(base: nat, max: int, attempt: nat)
    requires base > 0 && max <= MAX_INT64 && attempt >= 1
    ensures Delay(base, max, attempt) == Intended(base, max, attempt) <==> !Surfaces(base, max, attempt)
  {
    if attempt > 64 {
      ShiftedOut(base, max, attempt);
    } else if base * Pow2(attempt - 1) >= TWO63 {
      Overflowed(base, max, attempt);
    }
  }

  /** A caller can rule that out at once: it never happens while base * max fits. */
  lemma SmallProductIsExact(base: nat, max: int, attempt: nat)
    requires 0 < base && base * max < TWO63 && max <= MAX_INT64 && attempt >= 1
    ensures Delay(base, max, attempt) == Intended(base, max, attempt)
  {
    DelayIsExact(base, max, attempt);
    if Surfaces(base, max, attempt) {
      var p := Pow2(attempt - 1);
      var kept := base % Pow2(65 - attempt);
      MulAtLeast(p, kept);
      assert kept * p == p * kept;
      assert p < max;
      MulLess(p, max, base);
    }
  }

  /** And it does happen: a base of 2^62 + 1 asks for 4 at the third attempt, below every cap. */
  lemma WrapAroundShows(max: int)
    requires 4 < max <= MAX_INT64
    ensures Delay(0x4000_0000_0000_0001, max, 3) == 4 && Intended(0x4000_0000_0000_0001, max, 3) == max
  {
    assert Pow2(2) == 4;
  }

  // ---------- What a retrying caller may rely on ----------

  lemma {:induction false} Pow2Monotone(i: nat, j: nat)
    requires i <= j
    ensures Pow2(i) <= Pow2(j)
  {
    if i < j {
      Pow2Monotone(i, j - 1);
    }
  }

  lemma IntendedIsMonotone(base: nat, max: int, a: nat, b: nat)
    requires 1 <= a <= b
    ensures Intended(base, max, a) <= Intended(base, max, b) <= max
  {
    Pow2Monotone(a - 1, b - 1);
    if base > 0 && Pow2(a - 1) < Pow2(b - 1) {
      MulLess(Pow2(a - 1), Pow2(b - 1), base);
    }
  }

  /** While base * max fits, waits never get shorter from one attempt to the next. */
  lemma DelaysNeverShrink(base: nat, max: int, a: nat, b: nat)
    requires 0 < base && base * max < TWO63 && max <= MAX_INT64 && 1 <= a <= b
    ensures Delay(base, max, a) <= Delay(base, max, b) <= max
  {
    SmallProductIsExact(base, max, a);
    SmallProductIsExact(base, max, b);
    IntendedIsMonotone(base, max, a, b);
  }
}

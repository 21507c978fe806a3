/** internal/server/backoff.go: the retry delay, with Go's 64-bit arithmetic spelled out. */
module Backoff {

  const SECOND: int := 1_000_000_000

  function Pow2(n: nat): nat { if n == 0 then 1 else 2 * Pow2(n - 1) }

  function Wrap64(x: int): int {
    var m := x % 0x1_0000_0000_0000_0000;
    if m < 0x8000_0000_0000_0000 then m else m - 0x1_0000_0000_0000_0000
  }

  /** float64 to int64 as amd64 converts it: out-of-range values become the smallest integer. */
  function Truncate64(x: nat): int {
    if x < 0x8000_0000_0000_0000 then x else -0x8000_0000_0000_0000
  }

  /** time.Duration(math.Pow(2, n)) * time.Second, in nanoseconds. */
  function RetryDelay(n: nat): int { Wrap64(Truncate64(Pow2(n)) * SECOND) }

  lemma {:induction false} Pow2Monotone(a: nat, b: nat)
    requires a <= b
    ensures Pow2(a) <= Pow2(b)
    decreases b
  {
    if a < b { Pow2Monotone(a, b - 1); }
  }

  lemma Pow2At33()
    ensures Pow2(33) == 0x2_0000_0000
  {
    assert Pow2(4) == 16;
    assert Pow2(8) == 256;
    assert Pow2(12) == 4096;
    assert Pow2(16) == 65536;
    assert Pow2(20) == 1048576;
    assert Pow2(24) == 16777216;
    assert Pow2(28) == 268435456;
    assert Pow2(32) == 4294967296;
  }

  /** The delay is the intended 2^n seconds exactly up to n = 33; beyond, the product overflows. */
  lemma DelayExact(n: nat)
    ensures RetryDelay(n) == Pow2(n) * SECOND <==> n <= 33
  {
    Pow2At33();
    if n <= 33 {
      Pow2Monotone(n, 33);
    } else {
      Pow2Monotone(34, n);
      assert Pow2(34) == 2 * Pow2(33);
    }
  }

  /** The delays of retries 1 to m added up. */
  function TotalDelay(m: nat): int { if m == 0 then 0 else TotalDelay(m - 1) + RetryDelay(m) }

  lemma {:induction false} TotalDelayExact(m: nat)
    requires m <= 33
    ensures TotalDelay(m) == (Pow2(m + 1) - 2) * SECOND
  {
    if m > 0 {
      TotalDelayExact(m - 1);
      DelayExact(m);
    }
  }

  lemma {:induction false} Pow2Sum(a: nat, b: nat)
    ensures Pow2(a + b) == Pow2(a) * Pow2(b)
    decreases b
  {
    if b > 0 { Pow2Sum(a, b - 1); }
  }

  lemma Pow2At()
    ensures Pow2(55) == 36_028_797_018_963_968 && Pow2(63) == 0x8000_0000_0000_0000
  {
    Pow2At33();
    Pow2Sum(33, 22);
    Pow2Sum(11, 11);
    assert Pow2(11) == 2048;
    Pow2Sum(33, 30);
    Pow2Sum(15, 15);
    assert Pow2(15) == 32768;
  }

  lemma WrapIsCongruent(x: int)
    ensures -0x8000_0000_0000_0000 <= Wrap64(x) < 0x8000_0000_0000_0000
    ensures (Wrap64(x) - x) % 0x1_0000_0000_0000_0000 == 0
  {
  }

  lemma WholeMultiple(k: int)
    ensures (k * 0x1_0000_0000_0000_0000) % 0x1_0000_0000_0000_0000 == 0
    ensures (0 - k * 0x1_0000_0000_0000_0000) % 0x1_0000_0000_0000_0000 == 0
  {
  }

  /** From the 55th on, 2^n seconds are a multiple of 2^64 nanoseconds. */
  lemma LateDelay(n: nat) returns (k: int)
    requires n >= 55
    ensures Pow2(n) * SECOND == k * 0x1_0000_0000_0000_0000
  {
    Pow2At();
    Pow2Sum(55, n - 55);
    k := 1_953_125 * Pow2(n - 55);
  }

  lemma Truncated(n: nat)
    ensures n < 63 ==> Truncate64(Pow2(n)) == Pow2(n)
    ensures n >= 63 ==> Truncate64(Pow2(n)) == -0x8000_0000_0000_0000
  {
    Pow2At();
    if n >= 63 { Pow2Monotone(63, n); } else { Pow2Monotone(n, 62); assert Pow2(63) == 2 * Pow2(62); }
  }

  /** Beyond the 33rd retry the delay is whatever the 64-bit product leaves: a number of that range that differs
      from the intended one by a multiple of 2^64; from the 55th retry on it is zero. */
  lemma DelayWraps(n: nat)
    ensures -0x8000_0000_0000_0000 <= RetryDelay(n) < 0x8000_0000_0000_0000
    ensures (RetryDelay(n) - Pow2(n) * SECOND) % 0x1_0000_0000_0000_0000 == 0
    ensures n >= 55 ==> RetryDelay(n) == 0
  {
    Truncated(n);
    var x := Truncate64(Pow2(n)) * SECOND;
    WrapIsCongruent(x);
    if n >= 55 {
      var k := LateDelay(n);
      WholeMultiple(k);
      if n >= 63 {
        assert x == -500_000_000 * 0x1_0000_0000_0000_0000;
        WholeMultiple(-500_000_000);
      }
    }
    hide Pow2;
    hide Truncate64;
  }
}

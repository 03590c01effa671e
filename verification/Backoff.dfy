/** How long a queued event waits after a failed attempt. */
module Backoff {
  import opened Timestamps

  const MINUTE: nat := 60 * SECOND

  /** `1 << n`. */
  function PowerOfTwo(n: nat): (p: nat)
    ensures p > 0
  {
    if n == 0 then 1 else 2 * PowerOfTwo(n - 1)
  }

  function Min(a: int, b: int): int {
    if a < b then a else b
  }

  function Product(attempts: int): nat {
    MINUTE * PowerOfTwo(Min(if attempts < 0 then 0 else attempts, 10))
  }

  /** `outboxRetryDelay`. */
  function RetryDelay(attempts: int): nat {
    if Product(attempts) > 720 * MINUTE then 720 * MINUTE else Product(attempts)
  }

  lemma {:induction false} PowerMonotone(m: nat, n: nat)
    requires m <= n
    ensures PowerOfTwo(m) <= PowerOfTwo(n)
  {
    if m < n { PowerMonotone(m, n - 1); }
  }

  lemma PowerOfTen()
    ensures PowerOfTwo(10) == 1024
  {
    assert PowerOfTwo(2) == 4 && PowerOfTwo(4) == 16 by { assert PowerOfTwo(1) == 2; }
    assert PowerOfTwo(6) == 64;
    assert PowerOfTwo(8) == 256;
  }

  /** The waits in nanoseconds: a minute, doubled with each attempt up to 512 minutes, then twelve hours. */
  lemma DelaysAre()
    ensures RetryDelay(0) == 60_000_000_000 && RetryDelay(1) == 120_000_000_000 && RetryDelay(2) == 240_000_000_000
    ensures RetryDelay(3) == 480_000_000_000 && RetryDelay(4) == 960_000_000_000 && RetryDelay(5) == 1_920_000_000_000
    ensures RetryDelay(6) == 3_840_000_000_000 && RetryDelay(7) == 7_680_000_000_000
    ensures RetryDelay(8) == 15_360_000_000_000 && RetryDelay(9) == 30_720_000_000_000
    ensures forall n :: n >= 10 ==> RetryDelay(n) == 43_200_000_000_000
    ensures forall n :: n < 0 ==> RetryDelay(n) == 60_000_000_000
  {
    PowerOfTen();
    assert PowerOfTwo(1) == 2 && PowerOfTwo(3) == 8 && PowerOfTwo(5) == 32 && PowerOfTwo(7) == 128
           && PowerOfTwo(9) == 512 by {
      assert PowerOfTwo(2) == 4 && PowerOfTwo(4) == 16 && PowerOfTwo(6) == 64 && PowerOfTwo(8) == 256;
    }
  }

  /** After `n` attempts the wait is the smaller of 2^n and 720 minutes. It never decreases, lies
      between one minute and twelve hours, and its product fits 64 bits. */
  lemma DelayIsCappedPower(n: int)
    ensures RetryDelay(n) == MINUTE * Min(PowerOfTwo(if n < 0 then 0 else n), 720)
    ensures MINUTE <= RetryDelay(n) <= 12 * 60 * MINUTE
    ensures RetryDelay(n) <= RetryDelay(n + 1)
    ensures Product(n) < 0x8000_0000_0000_0000
  {
    PowerOfTen();
    if n >= 10 {
      PowerMonotone(10, n);
    } else if n >= 0 {
      PowerMonotone(n, 10);
    }
  }
}

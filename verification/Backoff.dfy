// Retry delays of the instance pool: `(1 << failures) * time.Second`, computed
// in a signed 64-bit number of nanoseconds.
module Backoff {

  const RETRY_INTERVAL_BASE := 1_000_000_000
  const TWO_63 := 0x8000_0000_0000_0000
  const TWO_64 := 0x1_0000_0000_0000_0000

  // The largest failure count for which the delay still fits.
  const MAX_SHIFT := 33

  function Pow2(n: nat): (p: nat)
    ensures p >= 1
  {
    if n == 0 then 1 else 2 * Pow2(n - 1)
  }

  // Two's complement truncation to a signed 64-bit integer.
  function Wrap64(x: int): (r: int)
    ensures -TWO_63 <= r < TWO_63
    ensures -TWO_63 <= x < TWO_63 <==> r == x
  {
    (x + TWO_63) % TWO_64 - TWO_63
  }

  // The shift wraps first, then the product.
  function Delay(failures: nat): (d: int)
    ensures -TWO_63 <= d < TWO_63
  {
    Wrap64(Wrap64(Pow2(failures)) * RETRY_INTERVAL_BASE)
  }

  lemma {:induction false} Pow2Monotone(m: nat, n: nat)
    requires m <= n
    ensures Pow2(m) <= Pow2(n)
    decreases n
  {
    if m < n {
      Pow2Monotone(m, n - 1);
    }
  }

  lemma Pow2Landmarks()
    ensures Pow2(33) == 0x2_0000_0000
    ensures Pow2(34) == 0x4_0000_0000
  {
    assert Pow2(8) == 0x100;
    assert Pow2(16) == 0x1_0000;
    assert Pow2(24) == 0x100_0000;
    assert Pow2(32) == 0x1_0000_0000;
  }

  // The delay is the intended power of two of the base interval exactly up to
  // the thirty-third earlier failure; from the next one on it wraps.
  lemma DelayIsExponentialIffNoWrap(failures: nat)
    ensures Delay(failures) == Pow2(failures) * RETRY_INTERVAL_BASE <==> failures <= MAX_SHIFT
  {
    Pow2Landmarks();
    if failures <= MAX_SHIFT {
      Pow2Monotone(failures, MAX_SHIFT);
    } else {
      Pow2Monotone(MAX_SHIFT + 1, failures);
    }
  }

  // In nanoseconds: a second at first, over two centuries in the end, and then
  // a moment in the past.
  lemma DelaysByNumber()
    ensures Delay(0) == 1_000_000_000 && Delay(1) == 2_000_000_000
    ensures Delay(33) == 8_589_934_592_000_000_000
    ensures Delay(34) == -1_266_874_889_709_551_616
  {
    Pow2Landmarks();
    DelayIsExponentialIffNoWrap(0);
    DelayIsExponentialIffNoWrap(1);
    DelayIsExponentialIffNoWrap(33);
  }

  const STREAK_LIMIT := (0x4_0000_0000 - 1) * RETRY_INTERVAL_BASE

  // The failures of a streak that began at start, by the clock: they fill at
  // least 2^failures - 1 base intervals, the wait for the next try included.
  ghost predicate Pace(failures: nat, retryTime: int, clock: int, start: int) {
    clock - start < STREAK_LIMIT ==>
      && failures <= MAX_SHIFT + 1
      && start + (Pow2(failures) - 1) * RETRY_INTERVAL_BASE <= (if retryTime == 0 then clock else retryTime)
  }

  lemma PaceWaits(failures: nat, retryTime: int, clock: int, now: int, start: int)
    requires Pace(failures, retryTime, clock, start) && clock <= now
    ensures Pace(failures, retryTime, now, start)
    ensures retryTime <= now ==> Pace(failures, 0, now, start)
  {
  }

  // A streak of a ready instance goes on no earlier than its failures demand,
  // and then the delay has not wrapped.
  lemma PaceStep(n: nat, clock: int, now: int, start: int)
    requires Pace(n, 0, clock, start) && clock <= now && now - start < STREAK_LIMIT
    ensures n <= MAX_SHIFT && start + (Pow2(n) - 1) * RETRY_INTERVAL_BASE <= now
    ensures Delay(n) == Pow2(n) * RETRY_INTERVAL_BASE
    ensures start + (Pow2(n + 1) - 1) * RETRY_INTERVAL_BASE <= now + Delay(n)
  {
    Pow2Landmarks();
    DelayIsExponentialIffNoWrap(n);
  }

  // One more failure of a ready instance.
  lemma PaceFails(failures: nat, clock: int, now: int, start: int)
    requires (failures == 0 && start == now) || Pace(failures, 0, clock, start)
    requires clock <= now && now + Delay(failures) != 0
    ensures Pace(failures + 1, now + Delay(failures), now, start)
  {
    if failures == 0 && start == now {
      DelayIsExponentialIffNoWrap(0);
    } else if now - start < STREAK_LIMIT {
      PaceStep(failures, clock, now, start);
    }
  }
}

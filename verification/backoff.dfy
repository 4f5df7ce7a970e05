/** The adaptive flush interval of the streaming relay (app.py:26, 46, 62-63).
    The interval starts at CHAT_UPDATE_INTERVAL_SEC and is doubled after a flush
    whenever the flush count divided by ten exceeds it. */
module Backoff {

  /** A flush interval in seconds; the source never lets it drop below one. */
  type Interval = i: int | i >= 1 witness 1

  /** CHAT_UPDATE_INTERVAL_SEC. */
  const InitialInterval: Interval := 1

  /** Python's `update_count / 10 > interval`: true division, compared exactly. */
  predicate Exceeds(count: nat, interval: Interval)
  {
    count as real / 10.0 > interval as real
  }

  /** The true-division test is the integer test `count > 10 * interval`. */
  lemma ExceedsIsIntegerTest(count: nat, interval: Interval)
    ensures Exceeds(count, interval) <==> count > 10 * interval
  {
  }

  /** The interval kept after a flush that brought the flush count to `count`. */
  function Next(count: nat, interval: Interval): (r: Interval)
    ensures r == interval || r == 2 * interval
    ensures r == 2 * interval <==> count > 10 * interval
  {
    ExceedsIsIntegerTest(count, interval);
    if Exceeds(count, interval) then interval * 2 else interval
  }

  predicate IsPow2(n: nat)
  {
    n == 1 || (n >= 2 && n % 2 == 0 && IsPow2(n / 2))
  }

  /** What the relay's (interval, flush count) pair always satisfies: the interval is a
      power of two, at least a tenth of the count, and no larger than needed for that. */
  predicate Calibrated(interval: Interval, count: nat)
  {
    && IsPow2(interval)
    && count <= 10 * interval
    && (interval == 1 || 5 * interval < count)
  }

  lemma InitialCalibrated()
    ensures Calibrated(InitialInterval, 0)
  {
  }

  lemma DoublePow2(n: nat)
    requires IsPow2(n)
    ensures IsPow2(2 * n)
  {
    assert (2 * n) / 2 == n;
  }

  /** One more flush, with the doubling rule applied, keeps the pair calibrated. */
  lemma CalibratedNext(interval: Interval, count: nat)
    requires Calibrated(interval, count)
    ensures Calibrated(Next(count + 1, interval), count + 1)
  {
    if count + 1 > 10 * interval {
      DoublePow2(interval);
    }
  }

  /** Distinct powers of two are at least a factor two apart. */
  lemma {:induction false} Pow2Gap(a: nat, b: nat)
    requires IsPow2(a) && IsPow2(b) && a < b
    ensures 2 * a <= b
    decreases b
  {
    if a != 1 {
      assert b != 1;
      Pow2Gap(a / 2, b / 2);
    }
  }

  /** The flush count alone determines the interval: the backoff schedule is a
      function of how many progress edits have been sent. */
  lemma CalibratedUnique(i1: Interval, i2: Interval, count: nat)
    requires Calibrated(i1, count) && Calibrated(i2, count)
    ensures i1 == i2
  {
    if i1 < i2 {
      Pow2Gap(i1, i2);
    } else if i2 < i1 {
      Pow2Gap(i2, i1);
    }
  }
}

/** The retry delay of the buffered publisher, with the int64 wrap-around of time.Duration. */
module Backoff {
  import opened Basics

  function PowerOfTwo(n: nat): (p: nat)
    ensures p >= 1
  {
    if n == 0 then 1 else 2 * PowerOfTwo(n - 1)
  }

  function Shift(retryCount: int): (s: nat)
    ensures s <= 6
  {
    Min(Max(retryCount - 1, 0), 6)
  }

  function BackoffDelay(base: Int64, retryCount: int): Int64 {
    if base <= 0 then 0 else WrapInt64(base * PowerOfTwo(Shift(retryCount)))
  }

  /** The longest delay that up to `retries` retries can ask for fits in a time.Duration. */
  predicate BackoffFits(base: Int64, retries: nat) {
    base <= 0 || base * PowerOfTwo(Shift(retries)) < TWO_TO_63
  }

  lemma Powers()
    ensures PowerOfTwo(0) == 1 && PowerOfTwo(1) == 2 && PowerOfTwo(2) == 4 && PowerOfTwo(3) == 8
    ensures PowerOfTwo(4) == 16 && PowerOfTwo(5) == 32 && PowerOfTwo(6) == 64 && PowerOfTwo(7) == 128
  {
    assert PowerOfTwo(3) == 8;
    assert PowerOfTwo(5) == 32;
  }

  lemma {:induction false} PowersGrow(m: nat, n: nat)
    requires m <= n
    ensures PowerOfTwo(m) <= PowerOfTwo(n)
  {
    if m < n { PowersGrow(m, n - 1); }
  }

  lemma ScaledPowersGrow(base: int, m: nat, n: nat)
    requires base > 0 && m <= n
    ensures 0 < base * PowerOfTwo(m) <= base * PowerOfTwo(n)
  {
    PowersGrow(m, n);
    assert base * PowerOfTwo(n) == base * PowerOfTwo(m) + base * (PowerOfTwo(n) - PowerOfTwo(m));
  }

  lemma DelayWithoutWrap(base: Int64, retries: nat, retryCount: int)
    requires BackoffFits(base, retries) && retryCount <= retries
    ensures BackoffDelay(base, retryCount) == if base <= 0 then 0 else base * PowerOfTwo(Shift(retryCount))
    ensures BackoffDelay(base, retryCount) >= 0
  {
    if base > 0 {
      ScaledPowersGrow(base, Shift(retryCount), Shift(retries));
      WrapFixesInt64(base * PowerOfTwo(Shift(retryCount)));
    }
  }

  lemma DelayIsMonotone(base: Int64, retries: nat, fewer: int, more: int)
    requires BackoffFits(base, retries) && fewer <= more <= retries
    ensures BackoffDelay(base, fewer) <= BackoffDelay(base, more)
  {
    DelayWithoutWrap(base, retries, fewer);
    DelayWithoutWrap(base, retries, more);
    if base > 0 {
      ScaledPowersGrow(base, Shift(fewer), Shift(more));
    }
  }

  /** The first shift at which the delay no longer fits. */
  lemma {:induction false} FirstOverflow(base: Int64, shift: nat) returns (first: nat)
    requires base > 0 && shift <= 6 && base * PowerOfTwo(shift) >= TWO_TO_63
    ensures 1 <= first <= shift
    ensures base * PowerOfTwo(first - 1) < TWO_TO_63 <= base * PowerOfTwo(first)
  {
    assert PowerOfTwo(0) == 1;
    if base * PowerOfTwo(shift - 1) < TWO_TO_63 {
      first := shift;
    } else {
      first := FirstOverflow(base, shift - 1);
    }
  }

  /** When the longest delay overflows, the first overflowing doubling turns it negative. */
  lemma DelayDropsOnOverflow(base: Int64, retries: nat) returns (retryCount: int)
    requires !BackoffFits(base, retries)
    ensures 1 <= retryCount < retries
    ensures BackoffDelay(base, retryCount + 1) < 0 < BackoffDelay(base, retryCount)
  {
    retryCount := FirstOverflow(base, Shift(retries));
    DelayBeforeAndAfter(base, retryCount);
  }

  lemma DelayBeforeAndAfter(base: Int64, retryCount: int)
    requires 1 <= retryCount <= 6 && base > 0
    requires base * PowerOfTwo(retryCount - 1) < TWO_TO_63 <= base * PowerOfTwo(retryCount)
    ensures BackoffDelay(base, retryCount + 1) < 0 < BackoffDelay(base, retryCount)
  {
    var delay, twice: int := base * PowerOfTwo(retryCount - 1), base * PowerOfTwo(retryCount);
    assert Shift(retryCount) == retryCount - 1 && Shift(retryCount + 1) == retryCount;
    Doubles(base, retryCount);
    ScaledPowersGrow(base, 0, retryCount - 1);
    WrapOnce(twice);
    WrapFixesInt64(delay);
  }

  lemma Doubles(base: int, n: nat)
    requires n >= 1
    ensures base * PowerOfTwo(n) == 2 * (base * PowerOfTwo(n - 1))
  {
  }

  lemma WrapOnce(x: int)
    requires TWO_TO_63 <= x < TWO_TO_64
    ensures WrapInt64(x) == x - TWO_TO_64
  {
  }

  /** Waiting at least as long after more retries is guaranteed exactly when the longest
      delay fits in a time.Duration. */
  lemma DelayMonotoneIffFits(base: Int64, retries: nat)
    ensures BackoffFits(base, retries) <==>
              forall fewer: int, more: int :: fewer <= more <= retries ==>
                BackoffDelay(base, fewer) <= BackoffDelay(base, more)
  {
    if BackoffFits(base, retries) {
      forall fewer: int, more: int | fewer <= more <= retries
        ensures BackoffDelay(base, fewer) <= BackoffDelay(base, more)
      {
        DelayIsMonotone(base, retries, fewer, more);
      }
    } else {
      var r := DelayDropsOnOverflow(base, retries);
      assert r <= r + 1 <= retries && BackoffDelay(base, r) > BackoffDelay(base, r + 1);
    }
  }

  /** The waits before retries 1 to m, added up. */
  function TotalBackoff(base: Int64, m: nat): int {
    if m == 0 then 0 else TotalBackoff(base, m - 1) + BackoffDelay(base, m)
  }

  lemma {:induction false} TotalBackoffClosedForm(base: Int64, m: nat)
    requires BackoffFits(base, m) && base > 0
    ensures TotalBackoff(base, m) == base * (PowerOfTwo(Min(m, 7)) - 1 + 64 * Max(0, m - 7))
  {
    Powers();
    if m > 0 {
      ScaledPowersGrow(base, Shift(m - 1), Shift(m));
      TotalBackoffClosedForm(base, m - 1);
      DelayWithoutWrap(base, m, m);
      if m <= 7 {
        assert Shift(m) == m - 1 && PowerOfTwo(m) == 2 * PowerOfTwo(m - 1);
        Distribute(base, PowerOfTwo(m - 1) - 1, PowerOfTwo(m - 1));
      } else {
        assert Shift(m) == 6;
        Distribute(base, 127 + 64 * (m - 8), 64);
      }
    }
  }

  lemma Distribute(base: int, a: int, b: int)
    ensures base * a + base * b == base * (a + b)
  {
  }
}

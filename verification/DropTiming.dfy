/** How long an item is kept before it is given up, when the clock never runs backwards. */
module DropTiming {
  import opened Basics
  import opened Backoff
  import opened PublishQueue
  import opened QueueOrder
  import opened QueueTrails

  /** Whether the step looks at the clock. */
  predicate ReadsClock(b: Books, a: Action) {
    a.Rewrite? || (a.Take? && b.phase == Idle && b.buffer != [])
  }

  ghost predicate ClockForward(c: Config, b: Books, run: seq<Action>)
    requires Possible(c, b, run)
    decreases |run|
  {
    run != [] ==>
      && (ReadsClock(b, run[0]) ==> run[0].now >= b.clock)
      && ClockForward(c, Step(c, b, run[0]), run[1..])
  }

  /** Every failure came after its hand-over, and everything before the latest reading. */
  ghost predicate Timely(t: Trail, clock: int) {
    && |t.failedAt| <= |t.handedAt|
    && (forall j :: 0 <= j < |t.failedAt| ==> t.handedAt[j] <= t.failedAt[j] <= clock)
    && (forall j :: 0 <= j < |t.handedAt| ==> t.handedAt[j] <= clock)
  }

  ghost predicate AllTimely(b: Books) {
    forall k :: 0 <= k < |b.trails| ==> Timely(b.trails[k], b.clock)
  }

  lemma RewriteKeepsTimely(c: Config, b: Books, now: nat)
    requires Recorded(c, b) && AllTimely(b) && b.phase == Failed && now >= b.clock
    ensures AllTimely(RewriteBatch(c, b, now))
  {
    var b' := RewriteBatch(c, b, now);
    forall k | 0 <= k < |b'.trails|
      ensures Timely(b'.trails[k], now)
    {
      assert Timely(b.trails[k], b.clock);
      if |b.settled| <= k < |b.settled| + |b.held| {
        var i := k - |b.settled|;
        assert Traced(c, Out, b.held[i], b.trails[|b.settled| + i]);
      }
    }
  }

  lemma StepKeepsTimely(c: Config, b: Books, a: Action)
    requires Recorded(c, b) && AllTimely(b) && Enabled(b, a)
    requires ReadsClock(b, a) ==> a.now >= b.clock
    ensures AllTimely(Step(c, b, a))
  {
    match a
    case Rewrite(now) => RewriteKeepsTimely(c, b, now);
    case Take(now, idOk) =>
      var b' := TakeBatch(c, b, now, idOk);
      forall k | 0 <= k < |b'.trails|
        ensures Timely(b'.trails[k], b'.clock)
      {
        assert Timely(b.trails[k], b.clock);
      }
    case _ =>
      var b' := Step(c, b, a);
      forall k | 0 <= k < |b'.trails|
        ensures Timely(b'.trails[k], b'.clock)
      {
        assert k < |b.trails| ==> Timely(b.trails[k], b.clock);
      }
  }

  lemma {:induction false} RunKeepsTimely(c: Config, b: Books, run: seq<Action>)
    requires Fifo(c, b) && Recorded(c, b) && AllTimely(b) && Possible(c, b, run) && ClockForward(c, b, run)
    ensures AllTimely(After(c, b, run))
    decreases |run|
  {
    if run != [] {
      StepKeepsFifo(c, b, run[0]);
      StepKeepsRecorded(c, b, run[0]);
      StepKeepsTimely(c, b, run[0]);
      RunKeepsTimely(c, Step(c, b, run[0]), run[1..]);
    }
  }

  /** Failures j + 1 times apart are at least the first j backoffs apart. */
  lemma {:induction false} FailuresSpread(c: Config, t: Trail, clock: int, j: nat)
    requires WaitedOut(c, t) && Timely(t, clock) && j < |t.failedAt|
    ensures t.failedAt[j] - t.failedAt[0] >= TotalBackoff(c.retryBackoff, j)
  {
    if j > 0 {
      FailuresSpread(c, t, clock, j - 1);
      assert t.handedAt[j] >= t.failedAt[j - 1] + BackoffDelay(c.retryBackoff, j);
      assert t.handedAt[j] <= t.failedAt[j];
    }
  }

  lemma DroppedSpread(c: Config, b: Books, k: nat)
    requires Recorded(c, b) && AllTimely(b)
    requires k < |b.settled| && b.settled[k].standing == GivenUp
    ensures k < |b.trails| && |b.trails[k].failedAt| == RetryCap(c) + 1
    ensures b.trails[k].failedAt[RetryCap(c)] - b.trails[k].failedAt[0] >= TotalBackoff(c.retryBackoff, RetryCap(c))
  {
    assert Traced(c, GivenUp, b.settled[k].item, b.trails[k]);
    FailuresSpread(c, b.trails[k], b.clock, RetryCap(c));
  }

  lemma ForwardRunIsTimely(c: Config, run: seq<Action>)
    requires Possible(c, OPENING_BOOKS, run) && ClockForward(c, OPENING_BOOKS, run)
    ensures Recorded(c, After(c, OPENING_BOOKS, run)) && AllTimely(After(c, OPENING_BOOKS, run))
  {
    OpeningIsFifo(c);
    OpeningIsRecorded(c);
    RunKeepsRecorded(c, OPENING_BOOKS, run);
    RunKeepsTimely(c, OPENING_BOOKS, run);
  }

  /** Time to drop, for every configuration: an item given up after M = max(MaxRetries, 0)
      retries had been failing for at least the sum of its M backoffs; when those fit in a
      time.Duration, that is base * (2^min(M, 7) - 1 + 64 * max(0, M - 7)). */
  lemma TimeToDrop(c: Config, run: seq<Action>, k: nat)
    requires Possible(c, OPENING_BOOKS, run) && ClockForward(c, OPENING_BOOKS, run)
    requires k < |After(c, OPENING_BOOKS, run).settled|
    requires After(c, OPENING_BOOKS, run).settled[k].standing == GivenUp
    ensures var b := After(c, OPENING_BOOKS, run);
            var m := RetryCap(c);
            && k < |b.trails| && |b.trails[k].failedAt| == m + 1
            && b.trails[k].failedAt[m] - b.trails[k].failedAt[0] >= TotalBackoff(c.retryBackoff, m)
            && (c.retryBackoff > 0 && BackoffFits(c.retryBackoff, m) ==>
                  TotalBackoff(c.retryBackoff, m)
                  == c.retryBackoff * (PowerOfTwo(Min(m, 7)) - 1 + 64 * Max(0, m - 7)))
  {
    hide Recorded, AllTimely, Possible, ClockForward, PowerOfTwo, TotalBackoff, BackoffFits;
    ForwardRunIsTimely(c, run);
    DroppedSpread(c, After(c, OPENING_BOOKS, run), k);
    if c.retryBackoff > 0 && BackoffFits(c.retryBackoff, RetryCap(c)) {
      TotalBackoffClosedForm(c.retryBackoff, RetryCap(c));
    }
  }
}

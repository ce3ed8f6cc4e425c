/** The shape of the buffer: one window of retried items in front, stamped by a single clock
    reading, and behind it only items never attempted. It lets the head alone decide the ready scan,
    and rests on the longest backoff fitting in a time.Duration. */
module RetryWindow {
  import opened Basics
  import opened Backoff
  import opened PublishQueue
  import opened QueueOrder

  ghost predicate AllFresh(items: seq<Item>) {
    forall i :: 0 <= i < |items| ==> items[i].retryCount == 0 && items[i].notBefore == ZERO_TIME
  }

  ghost predicate Stamped(c: Config, items: seq<Item>, stamp: int) {
    forall i :: 0 <= i < |items| ==>
      items[i].retryCount >= 1 && items[i].notBefore == stamp + BackoffDelay(c.retryBackoff, items[i].retryCount)
  }

  ghost predicate Windowed(c: Config, b: Books) {
    && |b.window| <= BatchLimit(c)
    && b.window <= b.buffer
    && Stamped(c, b.window, b.stamp)
    && AllFresh(b.buffer[|b.window|..])
    && (b.phase != Idle ==> b.window == [])
    && |b.held| <= BatchLimit(c)
    && (b.phase == Requeueing ==> Stamped(c, b.held, b.stamp))
  }

  ghost predicate DueNonIncreasing(items: seq<Item>) {
    forall i, j :: 0 <= i < j < |items| ==> items[i].notBefore >= items[j].notBefore
  }

  /** The one-test form of the ready scan: the head decides, and the answer is all or nothing. */
  function HeadScan(buffer: seq<Item>, limit: int, now: int): nat {
    if buffer == [] || buffer[0].notBefore > now then 0 else Min(|buffer|, Max(limit, 0))
  }

  /** Either a batch is one item, or the longest backoff the retry limit allows fits in a
      time.Duration. */
  predicate Tame(c: Config) {
    c.flushCount <= 1 || BackoffFits(c.retryBackoff, RetryCap(c))
  }

  // ---- The scan ----

  lemma WindowDueAfterRest(c: Config, b: Books, i: nat)
    requires Tame(c) && Windowed(c, b) && NonIncreasing(b.buffer) && CountsBounded(c, b.buffer)
    requires i < |b.buffer|
    ensures i < |b.window| ==> b.buffer[0].notBefore >= b.buffer[i].notBefore
    ensures i >= |b.window| ==> b.buffer[i].notBefore == ZERO_TIME
  {
    if i < |b.window| {
      assert b.buffer[i] == b.window[i] && b.buffer[0] == b.window[0];
      if i > 0 {
        DelayIsMonotone(c.retryBackoff, RetryCap(c), b.window[i].retryCount, b.window[0].retryCount);
      }
    } else {
      assert b.buffer[i] == b.buffer[|b.window|..][i - |b.window|];
    }
  }

  lemma HeadDecides(c: Config, b: Books, now: nat)
    requires Tame(c) && Windowed(c, b) && NonIncreasing(b.buffer) && CountsBounded(c, b.buffer)
    ensures ReadyCount(b.buffer, c.flushCount, now) == HeadScan(b.buffer, c.flushCount, now)
  {
    var n := HeadScan(b.buffer, c.flushCount, now);
    forall i | 0 <= i < n
      ensures b.buffer[i].notBefore <= now
    {
      WindowDueAfterRest(c, b, i);
    }
    ReadyCountUnique(b.buffer, c.flushCount, now, n, ReadyCount(b.buffer, c.flushCount, now));
  }

  // ---- Steps ----

  lemma TakeKeepsWindowed(c: Config, b: Books, now: nat, idOk: bool)
    requires Tame(c) && Fifo(c, b) && Windowed(c, b)
    ensures Windowed(c, TakeBatch(c, b, now, idOk))
  {
    HeadDecides(c, b, now);
    if b.phase == Idle && b.buffer != [] {
      var n := ReadyCount(b.buffer, c.flushCount, now);
      if n > 0 {
        assert n >= |b.window|;
        forall i | 0 <= i < |b.buffer| - n
          ensures b.buffer[n..][i].retryCount == 0 && b.buffer[n..][i].notBefore == ZERO_TIME
        {
          assert b.buffer[n..][i] == b.buffer[|b.window|..][n + i - |b.window|];
        }
        assert b.buffer[n..][0..] == b.buffer[n..];
      }
    }
  }

  lemma RewriteStamps(c: Config, items: seq<Item>, now: int)
    requires NonIncreasing(items) && CountsBounded(c, items)
    ensures Stamped(c, Survivors(c, items, now), now)
    ensures |Survivors(c, items, now)| <= |items|
  {
    var front, rest := DropIsPrefix(c, items, now);
    assert forall i :: 0 <= i < |rest| ==> rest[i] == items[|front| + i];
  }

  lemma StepKeepsWindowed(c: Config, b: Books, a: Action)
    requires Tame(c) && Fifo(c, b) && Windowed(c, b) && Enabled(b, a)
    ensures Windowed(c, Step(c, b, a))
  {
    match a
    case Arrive(e) =>
      assert (b.buffer + [Fresh(e)])[|b.window|..] == b.buffer[|b.window|..] + [Fresh(e)];
    case Take(now, idOk) => TakeKeepsWindowed(c, b, now, idOk);
    case Rewrite(now) => RewriteStamps(c, b.held, now);
    case PutBack =>
      assert b.buffer[0..] == b.buffer;
      assert (b.held + b.buffer)[|b.held|..] == b.buffer;
    case _ =>
  }

  lemma {:induction false} RunKeepsWindowed(c: Config, b: Books, run: seq<Action>)
    requires Tame(c) && Fifo(c, b) && Windowed(c, b) && Possible(c, b, run)
    ensures Fifo(c, After(c, b, run)) && Windowed(c, After(c, b, run))
    decreases |run|
  {
    if run != [] {
      StepKeepsFifo(c, b, run[0]);
      StepKeepsWindowed(c, b, run[0]);
      RunKeepsWindowed(c, Step(c, b, run[0]), run[1..]);
    }
  }

  lemma ReachableIsWindowed(c: Config, b: Books)
    requires Tame(c) && Reachable(c, b)
    ensures Fifo(c, b) && Windowed(c, b)
  {
    var run :| Possible(c, OPENING_BOOKS, run) && After(c, OPENING_BOOKS, run) == b;
    OpeningIsFifo(c);
    RunKeepsWindowed(c, OPENING_BOOKS, run);
  }

  /** The retry window, in every reachable state and for any clock: the buffer is W followed
      by items never attempted; W is what the latest failed batch put back, fits in one
      batch, carries one clock reading, and neither retry counts nor due times increase along
      it. While a flush is under way, everything left in the buffer was never attempted. */
  lemma BufferIsWindowThenFresh(c: Config, b: Books)
    requires Tame(c) && Reachable(c, b)
    ensures |b.window| <= |b.buffer| && b.buffer == b.window + b.buffer[|b.window|..]
    ensures AllFresh(b.buffer[|b.window|..])
    ensures |b.window| <= BatchLimit(c) && Stamped(c, b.window, b.stamp)
    ensures NonIncreasing(b.window) && DueNonIncreasing(b.window)
    ensures b.phase != Idle ==> AllFresh(b.buffer)
  {
    ReachableIsWindowed(c, b);
    forall i, j | 0 <= i < j < |b.window|
      ensures b.window[i].retryCount >= b.window[j].retryCount && b.window[i].notBefore >= b.window[j].notBefore
    {
      assert b.window[i] == b.buffer[i] && b.window[j] == b.buffer[j];
      DelayIsMonotone(c.retryBackoff, RetryCap(c), b.window[j].retryCount, b.window[i].retryCount);
    }
  }

  // ---- Exactly when the head decides ----

  /** In every reachable state and at every clock reading, the scan is the one-test form. */
  ghost predicate ScansByHead(c: Config) {
    forall b: Books, now: nat :: Reachable(c, b) ==>
      ReadyCount(b.buffer, c.flushCount, now) == HeadScan(b.buffer, c.flushCount, now)
  }

  function Retried(c: Config, e: Envelope, retryCount: nat, stamp: int): Item {
    Item(e, retryCount, stamp + BackoffDelay(c.retryBackoff, retryCount))
  }

  /** One more failed attempt of a queue that fits in a batch and is due. */
  lemma FailOnce(c: Config, b: Books, now: nat) returns (b': Books)
    requires Reachable(c, b) && b.phase == Idle && 0 < |b.buffer| <= c.flushCount
    requires forall i :: 0 <= i < |b.buffer| ==> b.buffer[i].notBefore <= now
    ensures Reachable(c, b') && b'.phase == Idle && b'.buffer == Survivors(c, b.buffer, now)
  {
    ReadyCountUnique(b.buffer, c.flushCount, now, |b.buffer|, ReadyCount(b.buffer, c.flushCount, now));
    var b1 := Step(c, b, Take(now, true));
    LeadsStep(c, OPENING_BOOKS, b, Take(now, true));
    assert b1.held == b.buffer && b1.buffer == [] && b1.phase == Publishing;
    var b2 := Step(c, b1, Reject);
    LeadsStep(c, OPENING_BOOKS, b1, Reject);
    var b3 := Step(c, b2, Rewrite(now));
    LeadsStep(c, OPENING_BOOKS, b2, Rewrite(now));
    b' := Step(c, b3, PutBack);
    LeadsStep(c, OPENING_BOOKS, b3, PutBack);
    assert b'.buffer == b3.held + [] == b3.held;
  }

  lemma SurvivorsOfTwo(c: Config, x: Item, y: Item, now: int)
    requires x.retryCount < c.maxRetries && y.retryCount < c.maxRetries
    ensures Survivors(c, [x], now) == [Bump(c, x, now)]
    ensures Survivors(c, [x, y], now) == [Bump(c, x, now), Bump(c, y, now)]
  {
    assert [x][..0] == [] && [x, y][..1] == [x];
    assert Survivors(c, [], now) == [];
  }

  lemma FirstStagger(c: Config, e: Envelope) returns (b: Books)
    requires c.flushCount >= 1 && c.maxRetries >= 1
    ensures Reachable(c, b) && b.phase == Idle
    ensures b.buffer == [Bump(c, Fresh(e), 0), Fresh(e)]
  {
    LeadsNowhere(c, OPENING_BOOKS);
    LeadsStep(c, OPENING_BOOKS, OPENING_BOOKS, Arrive(e));
    var b1 := Step(c, OPENING_BOOKS, Arrive(e));
    assert b1.buffer == [Fresh(e)];
    var b2 := FailOnce(c, b1, 0);
    SurvivorsOfTwo(c, Fresh(e), Fresh(e), 0);
    LeadsStep(c, OPENING_BOOKS, b2, Arrive(e));
    b := Step(c, b2, Arrive(e));
  }

  lemma FailTwo(c: Config, b: Books, x: Item, y: Item) returns (b': Books, stamp: nat)
    requires c.flushCount >= 2 && Reachable(c, b) && b.phase == Idle && b.buffer == [x, y]
    requires x.retryCount < c.maxRetries && y.retryCount < c.maxRetries
    ensures Reachable(c, b') && b'.phase == Idle
    ensures b'.buffer == [Bump(c, x, stamp), Bump(c, y, stamp)]
  {
    stamp := Max(Max(x.notBefore, y.notBefore), 0);
    b' := FailOnce(c, b, stamp);
    SurvivorsOfTwo(c, x, y, stamp);
  }

  /** Two items with retry counts k + 1 and k, stamped together. */
  lemma {:induction false} TwoStaggered(c: Config, e: Envelope, k: nat) returns (b: Books, stamp: nat)
    requires c.flushCount >= 2 && 1 <= k < c.maxRetries
    ensures Reachable(c, b) && b.phase == Idle
    ensures b.buffer == [Retried(c, e, k + 1, stamp), Retried(c, e, k, stamp)]
  {
    if k == 1 {
      var b1 := FirstStagger(c, e);
      b, stamp := FailTwo(c, b1, Bump(c, Fresh(e), 0), Fresh(e));
    } else {
      var b1, s := TwoStaggered(c, e, k - 1);
      b, stamp := FailTwo(c, b1, Retried(c, e, k, s), Retried(c, e, k - 1, s));
    }
  }

  lemma OverflowBreaksHeadScan(c: Config, e: Envelope)
    requires !Tame(c)
    ensures !ScansByHead(c)
  {
    var r := DelayDropsOnOverflow(c.retryBackoff, RetryCap(c));
    var b, stamp := TwoStaggered(c, e, r);
    assert b.buffer[0].notBefore <= stamp < b.buffer[1].notBefore;
    ReadyCountUnique(b.buffer, c.flushCount, stamp, 1, ReadyCount(b.buffer, c.flushCount, stamp));
    assert HeadScan(b.buffer, c.flushCount, stamp) == 2;
  }

  /** For every configuration: the scan loop is its one-test form in all reachable states
      exactly when a batch is one item or the longest backoff fits in a time.Duration. */
  lemma ScansByHeadIffTame(c: Config, e: Envelope)
    ensures ScansByHead(c) <==> Tame(c)
  {
    if Tame(c) {
      forall b: Books, now: nat | Reachable(c, b)
        ensures ReadyCount(b.buffer, c.flushCount, now) == HeadScan(b.buffer, c.flushCount, now)
      {
        ReachableIsWindowed(c, b);
        HeadDecides(c, b, now);
      }
    } else {
      OverflowBreaksHeadScan(c, e);
    }
  }

  // ---- Exactly when the buffer is a window and then fresh items ----

  /** The first n items are one retry window with this stamp, the rest was never attempted. */
  ghost predicate WindowShape(c: Config, buffer: seq<Item>, n: nat, stamp: int) {
    && n <= |buffer| && n <= BatchLimit(c)
    && Stamped(c, buffer[..n], stamp) && AllFresh(buffer[n..])
    && NonIncreasing(buffer[..n]) && DueNonIncreasing(buffer[..n])
  }

  ghost predicate AlwaysWindowed(c: Config) {
    forall b: Books :: Reachable(c, b) ==> exists n: nat, stamp: int :: WindowShape(c, b.buffer, n, stamp)
  }

  lemma ReachableHasShape(c: Config, b: Books)
    requires Tame(c) && Reachable(c, b)
    ensures WindowShape(c, b.buffer, |b.window|, b.stamp)
  {
    BufferIsWindowThenFresh(c, b);
    assert b.buffer[..|b.window|] == b.window;
  }

  lemma OverflowBreaksWindow(c: Config, e: Envelope)
    requires !Tame(c)
    ensures !AlwaysWindowed(c)
  {
    var r := DelayDropsOnOverflow(c.retryBackoff, RetryCap(c));
    var b, at := TwoStaggered(c, e, r);
    forall n: nat, stamp: int
      ensures !WindowShape(c, b.buffer, n, stamp)
    {
      if n < 2 {
        assert b.buffer[n..][1 - n].retryCount == r;
      } else if n == 2 {
        assert b.buffer[..2][0].notBefore < b.buffer[..2][1].notBefore;
      }
    }
  }

  /** For every configuration: all reachable buffers have that shape exactly when a batch is one
      item or the longest backoff fits in a time.Duration. */
  lemma WindowIffTame(c: Config, e: Envelope)
    ensures AlwaysWindowed(c) <==> Tame(c)
  {
    if Tame(c) {
      forall b: Books | Reachable(c, b)
        ensures exists n: nat, stamp: int :: WindowShape(c, b.buffer, n, stamp)
      {
        ReachableHasShape(c, b);
      }
    } else {
      OverflowBreaksWindow(c, e);
    }
  }
}

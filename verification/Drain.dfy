/** How fast the queue empties once nothing more arrives, whatever Publish answers. */
module Drain {
  import opened Basics
  import opened PublishQueue
  import opened QueueOrder
  import opened RetryWindow

  function Live(b: Books): seq<Item> {
    b.held + b.buffer
  }

  /** A completed attempt: Publish accepted the batch, or its failure was dealt with. */
  predicate IsAttempt(a: Action) {
    a.Ack? || a.Rewrite?
  }

  ghost function Attempts(run: seq<Action>): nat {
    if run == [] then 0 else (if IsAttempt(run[0]) then 1 else 0) + Attempts(run[1..])
  }

  ghost predicate NoArrivals(run: seq<Action>) {
    forall i :: 0 <= i < |run| ==> !run[i].Arrive?
  }

  // ---- The debt of attempts ----

  /** The attempts an item can still cost. */
  function ItemDebt(c: Config, item: Item): int {
    RetryCap(c) + 1 - item.retryCount
  }

  function Debt(c: Config, items: seq<Item>): int {
    if items == [] then 0 else Debt(c, items[..|items| - 1]) + ItemDebt(c, items[|items| - 1])
  }

  lemma {:induction false} DebtAppend(c: Config, s: seq<Item>, t: seq<Item>)
    ensures Debt(c, s + t) == Debt(c, s) + Debt(c, t)
    decreases |t|
  {
    if t == [] {
      assert s + t == s;
    } else {
      assert (s + t)[..|s + t| - 1] == s + t[..|t| - 1];
      DebtAppend(c, s, t[..|t| - 1]);
    }
  }

  lemma {:induction false} DebtIsAtLeastCount(c: Config, items: seq<Item>)
    requires CountsBounded(c, items)
    ensures Debt(c, items) >= |items|
  {
    if items != [] {
      DebtIsAtLeastCount(c, items[..|items| - 1]);
    }
  }

  /** The failure loop lowers the debt of its batch by exactly one an item: a retry uses one
      of the item's attempts up, and a dropped item had just one left. */
  lemma {:induction false} FailureLowersDebt(c: Config, items: seq<Item>, now: int)
    requires CountsBounded(c, items)
    ensures Debt(c, Survivors(c, items, now)) == Debt(c, items) - |items|
  {
    if items != [] {
      var init, last := items[..|items| - 1], items[|items| - 1];
      FailureLowersDebt(c, init, now);
      var earlier := Survivors(c, init, now);
      assert (earlier + [Bump(c, last, now)])[..|earlier|] == earlier;
    }
  }

  /** A dequeue leaves the live items as they are, or loses some in front. */
  lemma TakeKeepsLive(c: Config, b: Books, now: nat, idOk: bool) returns (cut: nat)
    requires b.phase == Idle ==> b.held == []
    ensures cut <= |Live(b)| && Live(TakeBatch(c, b, now, idOk)) == Live(b)[cut..]
    ensures idOk || b.phase != Idle ==> cut == 0
  {
    cut := 0;
    if b.phase == Idle && b.buffer != [] {
      var n := ReadyCount(b.buffer, c.flushCount, now);
      cut := if idOk then 0 else n;
      assert b.buffer[..n] + b.buffer[n..] == b.buffer;
      assert Live(b) == b.buffer;
    }
  }

  lemma DebtOfRest(c: Config, items: seq<Item>, n: nat)
    requires CountsBounded(c, items) && n <= |items|
    ensures Debt(c, items[n..]) <= Debt(c, items)
  {
    assert items[..n] + items[n..] == items;
    DebtAppend(c, items[..n], items[n..]);
    DebtIsAtLeastCount(c, items[..n]);
  }

  lemma TakeKeepsDebt(c: Config, b: Books, now: nat, idOk: bool)
    requires Fifo(c, b)
    ensures Debt(c, Live(TakeBatch(c, b, now, idOk))) <= Debt(c, Live(b))
  {
    var cut := TakeKeepsLive(c, b, now, idOk);
    assert CountsBounded(c, Live(b));
    DebtOfRest(c, Live(b), cut);
  }

  /** Without arrivals no step raises the debt, and each completed attempt lowers it by at
      least its batch, by exactly its batch when it failed. */
  lemma AttemptLowersDebt(c: Config, b: Books, a: Action)
    requires Fifo(c, b) && Enabled(b, a) && !a.Arrive?
    ensures Debt(c, Live(Step(c, b, a))) <= Debt(c, Live(b)) - (if IsAttempt(a) then |b.held| else 0)
    ensures a.Rewrite? ==> Debt(c, Live(Step(c, b, a))) == Debt(c, Live(b)) - |b.held|
    ensures IsAttempt(a) ==> |b.held| >= 1
  {
    match a
    case Take(now, idOk) => TakeKeepsDebt(c, b, now, idOk);
    case Ack =>
      DebtAppend(c, b.held, b.buffer);
      DebtIsAtLeastCount(c, b.held);
      assert [] + b.buffer == b.buffer;
    case Rewrite(now) =>
      DebtAppend(c, b.held, b.buffer);
      FailureLowersDebt(c, b.held, now);
      DebtAppend(c, Survivors(c, b.held, now), b.buffer);
    case PutBack => assert [] + (b.held + b.buffer) == b.held + b.buffer;
    case _ =>
  }

  /** From any point on, the completed attempts number at most the debt at that point. */
  lemma {:induction false} AttemptsAtMostDebt(c: Config, b: Books, run: seq<Action>)
    requires Fifo(c, b) && Possible(c, b, run) && NoArrivals(run)
    ensures Attempts(run) + Debt(c, Live(After(c, b, run))) <= Debt(c, Live(b))
    ensures Fifo(c, After(c, b, run)) && Debt(c, Live(After(c, b, run))) >= |Live(After(c, b, run))|
    decreases |run|
  {
    if run == [] {
      DebtIsAtLeastCount(c, Live(b));
    } else {
      AttemptLowersDebt(c, b, run[0]);
      StepKeepsFifo(c, b, run[0]);
      AttemptsAtMostDebt(c, Step(c, b, run[0]), run[1..]);
    }
  }

  // ---- Batches that stay together ----

  /** How many batches of at most `size` it takes to carry n items. */
  function Batches(n: nat, size: nat): nat
    requires size > 0
  {
    if n == 0 then 0 else 1 + Batches(Max(n - size, 0), size)
  }

  lemma {:induction false} BatchesIsCeiling(n: nat, size: nat)
    requires size > 0
    ensures size * Batches(n, size) >= n
    ensures n > 0 ==> size * (Batches(n, size) - 1) < n
  {
    if n > 0 {
      var rest := Max(n - size, 0);
      BatchesIsCeiling(rest, size);
      assert size * (1 + Batches(rest, size)) == size + size * Batches(rest, size);
      if rest > 0 {
        assert size * Batches(rest, size) == size * (Batches(rest, size) - 1) + size;
      }
    }
  }

  /** The attempts n never-attempted items can cost: every batch may need all of its own. */
  function FreshCost(c: Config, n: nat): nat
    requires c.flushCount >= 1
  {
    if n == 0 then 0 else RetryCap(c) + 1 + FreshCost(c, Max(n - c.flushCount, 0))
  }

  lemma {:induction false} FreshCostByBatches(c: Config, n: nat)
    requires c.flushCount >= 1
    ensures FreshCost(c, n) == (RetryCap(c) + 1) * Batches(n, c.flushCount)
  {
    if n > 0 {
      var rest := Max(n - c.flushCount, 0);
      FreshCostByBatches(c, rest);
      var r, k := RetryCap(c) + 1, Batches(rest, c.flushCount);
      assert r * (1 + k) == r + r * k;
    }
  }

  function FrontSize(c: Config, items: seq<Item>): nat {
    Min(|items|, BatchLimit(c))
  }

  predicate SameTurn(x: Item, y: Item) {
    x.retryCount == y.retryCount && x.notBefore == y.notBefore
  }

  /** The front batch has one retry count and one due time throughout, and the rest was never
      attempted. */
  ghost predicate Aligned(c: Config, items: seq<Item>) {
    && (forall i :: 0 <= i < FrontSize(c, items) ==> SameTurn(items[i], items[0]))
    && AllFresh(items[FrontSize(c, items)..])
  }

  /** The attempts left: those of the front batch, then all of every later batch. */
  function AttemptsLeft(c: Config, items: seq<Item>): int
    requires c.flushCount >= 1
  {
    if items == [] then 0
    else RetryCap(c) + 1 - items[0].retryCount + FreshCost(c, Max(|items| - c.flushCount, 0))
  }

  /** The live items are aligned, and what is out is exactly the front batch. */
  ghost predicate FrontOut(c: Config, b: Books) {
    && Aligned(c, Live(b))
    && (b.phase == Publishing || b.phase == Failed ==> |b.held| == FrontSize(c, Live(b)))
  }

  /** What is true of the books while an aligned queue drains. */
  ghost predicate Draining(c: Config, b: Books) {
    c.flushCount >= 1 && Fifo(c, b) && FrontOut(c, b)
  }

  /** What is left behind the front batch starts afresh. */
  lemma DropFront(c: Config, items: seq<Item>, n: nat)
    requires c.flushCount >= 1 && Aligned(c, items) && CountsBounded(c, items)
    requires 0 < n == FrontSize(c, items)
    ensures Aligned(c, items[n..])
    ensures AttemptsLeft(c, items[n..]) == AttemptsLeft(c, items) - (RetryCap(c) + 1 - items[0].retryCount)
    ensures AttemptsLeft(c, items[n..]) < AttemptsLeft(c, items)
  {
    var rest := items[n..];
    assert AllFresh(rest[FrontSize(c, rest)..]);
    assert |rest| == Max(|items| - c.flushCount, 0);
    assert FreshCost(c, |rest|) == AttemptsLeft(c, rest);
  }

  /** A failed front batch is dropped as a whole or retried as a whole. */
  lemma AlignedFailure(c: Config, items: seq<Item>, now: int)
    requires items != [] && forall i :: 0 <= i < |items| ==> SameTurn(items[i], items[0])
    ensures items[0].retryCount >= c.maxRetries ==> Survivors(c, items, now) == []
    ensures items[0].retryCount < c.maxRetries ==>
              && |Survivors(c, items, now)| == |items|
              && forall i :: 0 <= i < |items| ==> Survivors(c, items, now)[i] == Bump(c, items[i], now)
  {
    var front, rest := DropIsPrefix(c, items, now);
    assert rest != [] ==> rest[0] == items[|front|];
    assert front != [] ==> front[0] == items[0];
    assert [] + rest == rest;
  }

  lemma RetriedFront(c: Config, held: seq<Item>, retried: seq<Item>, buffer: seq<Item>)
    requires c.flushCount >= 1 && Aligned(c, held + buffer) && 0 < |held| == FrontSize(c, held + buffer)
    requires |retried| == |held| && forall i :: 0 <= i < |held| ==>
               retried[i].retryCount == held[i].retryCount + 1 && SameTurn(retried[i], retried[0])
    ensures Aligned(c, retried + buffer)
    ensures AttemptsLeft(c, retried + buffer) == AttemptsLeft(c, held + buffer) - 1
  {
    var live, live' := held + buffer, retried + buffer;
    assert |live'| == |live| && live'[|held|..] == buffer == live[|held|..];
    assert live[0] == held[0] && live'[0] == retried[0];
  }

  lemma FrontFails(c: Config, held: seq<Item>, buffer: seq<Item>, now: int)
    requires c.flushCount >= 1 && Aligned(c, held + buffer) && 0 < |held| == FrontSize(c, held + buffer)
    requires CountsBounded(c, held + buffer)
    ensures Aligned(c, Survivors(c, held, now) + buffer)
    ensures AttemptsLeft(c, Survivors(c, held, now) + buffer) == AttemptsLeft(c, held + buffer) - 1
    ensures CountsBounded(c, Survivors(c, held, now) + buffer)
  {
    var live := held + buffer;
    assert forall i :: 0 <= i < |held| ==> held[i] == live[i];
    AlignedFailure(c, held, now);
    if held[0].retryCount >= c.maxRetries {
      assert [] + buffer == live[|held|..];
      DropFront(c, live, |held|);
    } else {
      RetriedFront(c, held, Survivors(c, held, now), buffer);
    }
  }

  lemma BoundedAppend(c: Config, s: seq<Item>, t: seq<Item>)
    requires CountsBounded(c, s) && CountsBounded(c, t)
    ensures CountsBounded(c, s + t)
  {
  }

  /** The front batch is due as a whole or not at all, however long the backoff. */
  lemma ScanTakesFront(c: Config, buffer: seq<Item>, now: nat)
    requires c.flushCount >= 1 && Aligned(c, buffer)
    ensures var n := ReadyCount(buffer, c.flushCount, now); n == 0 || n == FrontSize(c, buffer)
  {
    var n := ReadyCount(buffer, c.flushCount, now);
    assert forall i :: 0 <= i < FrontSize(c, buffer) ==> buffer[i].notBefore == buffer[0].notBefore;
  }

  /** b' is no further from empty than b by at least `used` attempts, and still aligned. */
  ghost predicate Closer(c: Config, b: Books, b': Books, used: nat)
    requires c.flushCount >= 1
  {
    FrontOut(c, b') && AttemptsLeft(c, Live(b')) <= AttemptsLeft(c, Live(b)) - used
  }

  lemma TakenFront(c: Config, b: Books, b': Books, n: nat)
    requires c.flushCount >= 1 && Aligned(c, b.buffer) && CountsBounded(c, b.buffer) && b.held == []
    requires 0 < n == FrontSize(c, b.buffer) && b'.buffer == b.buffer[n..]
    requires b'.held == b.buffer[..n] || (b'.held == [] && b'.phase == Idle)
    ensures Closer(c, b, b', 0)
  {
    assert Live(b) == b.buffer;
    if b'.held == [] {
      assert Live(b') == b.buffer[n..];
      DropFront(c, b.buffer, n);
    } else {
      assert Live(b') == b.buffer[..n] + b.buffer[n..] == b.buffer;
    }
  }

  lemma TakeDrains(c: Config, b: Books, now: nat, idOk: bool)
    requires Draining(c, b)
    ensures Closer(c, b, TakeBatch(c, b, now, idOk), 0)
  {
    if b.phase == Idle && b.buffer != [] {
      assert Live(b) == b.buffer;
      ScanTakesFront(c, b.buffer, now);
      var n := ReadyCount(b.buffer, c.flushCount, now);
      if n > 0 { TakenFront(c, b, TakeBatch(c, b, now, idOk), n); }
    }
  }

  lemma AckDrains(c: Config, b: Books)
    requires c.flushCount >= 1 && FrontOut(c, b) && b.phase == Publishing && b.held != []
    requires CountsBounded(c, b.held) && CountsBounded(c, b.buffer)
    ensures Closer(c, b, Step(c, b, Ack), 1)
  {
    BoundedAppend(c, b.held, b.buffer);
    assert Live(Step(c, b, Ack)) == Live(b)[|b.held|..];
    DropFront(c, Live(b), |b.held|);
  }

  lemma RewriteDrains(c: Config, b: Books, now: nat)
    requires c.flushCount >= 1 && FrontOut(c, b) && b.phase == Failed && b.held != []
    requires CountsBounded(c, b.held) && CountsBounded(c, b.buffer)
    ensures Closer(c, b, RewriteBatch(c, b, now), 1)
    ensures AttemptsLeft(c, Live(RewriteBatch(c, b, now))) == AttemptsLeft(c, Live(b)) - 1
  {
    BoundedAppend(c, b.held, b.buffer);
    FrontFails(c, b.held, b.buffer, now);
  }

  lemma PutBackDrains(c: Config, b: Books)
    requires c.flushCount >= 1 && FrontOut(c, b) && b.phase == Requeueing
    ensures Closer(c, b, Step(c, b, PutBack), 0)
  {
    assert Live(Step(c, b, PutBack)) == Live(b);
  }

  /** One step of draining: the attempts left never grow, and a completed attempt uses one up. */
  lemma StepDrains(c: Config, b: Books, a: Action)
    requires Draining(c, b) && Enabled(b, a) && !a.Arrive?
    ensures Closer(c, b, Step(c, b, a), if IsAttempt(a) then 1 else 0)
  {
    match a
    case Take(now, idOk) => TakeDrains(c, b, now, idOk);
    case Ack => AckDrains(c, b);
    case Rewrite(now) => RewriteDrains(c, b, now);
    case PutBack => PutBackDrains(c, b);
    case _ =>
  }

  lemma {:induction false} RunDrains(c: Config, b: Books, run: seq<Action>)
    requires Draining(c, b) && Possible(c, b, run) && NoArrivals(run)
    ensures Draining(c, After(c, b, run))
    ensures Attempts(run) + AttemptsLeft(c, Live(After(c, b, run))) <= AttemptsLeft(c, Live(b))
    decreases |run|
  {
    if run != [] {
      StepDrains(c, b, run[0]);
      StepKeepsFifo(c, b, run[0]);
      RunDrains(c, Step(c, b, run[0]), run[1..]);
    }
  }

  /** Draining n never-attempted items takes at most (RetryCap + 1) * ceil(n / FlushCount)
      completed attempts, whatever their outcomes: no run makes more, and one that makes
      that many has settled every item. Nothing is asked of the backoff: it may overflow. */
  lemma DrainBound(c: Config, b: Books, run: seq<Action>)
    requires c.flushCount >= 1 && Fifo(c, b)
    requires b.phase == Idle && AllFresh(b.buffer)
    requires Possible(c, b, run) && NoArrivals(run)
    ensures var bound := (RetryCap(c) + 1) * Batches(|b.buffer|, c.flushCount);
            && Attempts(run) <= bound
            && (Attempts(run) == bound ==> Live(After(c, b, run)) == [])
  {
    FreshIsDraining(c, b);
    RunDrains(c, b, run);
    SettledWhenSpent(c, After(c, b, run));
  }

  // ---- The bound is attained ----

  /** Publish accepts nothing, and every flush gets its transmission id. */
  ghost predicate AllFail(run: seq<Action>) {
    forall i :: 0 <= i < |run| ==> !run[i].Ack? && (run[i].Take? ==> run[i].idOk)
  }

  /** Then every step uses up exactly what it is worth. */
  lemma StepFailsExactly(c: Config, b: Books, a: Action)
    requires Draining(c, b) && Enabled(b, a) && !a.Arrive? && !a.Ack? && (a.Take? ==> a.idOk)
    ensures AttemptsLeft(c, Live(Step(c, b, a))) == AttemptsLeft(c, Live(b)) - (if IsAttempt(a) then 1 else 0)
  {
    match a
    case Take(now, idOk) =>
      var cut := TakeKeepsLive(c, b, now, idOk);
      assert Live(b)[0..] == Live(b);
    case Rewrite(now) => RewriteDrains(c, b, now);
    case PutBack => assert Live(Step(c, b, PutBack)) == Live(b);
    case _ =>
  }

  lemma {:induction false} RunFailsExactly(c: Config, b: Books, run: seq<Action>)
    requires Draining(c, b) && Possible(c, b, run) && NoArrivals(run) && AllFail(run)
    ensures Attempts(run) + AttemptsLeft(c, Live(After(c, b, run))) == AttemptsLeft(c, Live(b))
    decreases |run|
  {
    hide Draining, Live, AttemptsLeft;
    if run != [] {
      StepKeepsDraining(c, b, run[0]);
      StepFailsExactly(c, b, run[0]);
      RunFailsExactly(c, Step(c, b, run[0]), run[1..]);
    }
  }

  lemma StepKeepsDraining(c: Config, b: Books, a: Action)
    requires Draining(c, b) && Enabled(b, a) && !a.Arrive?
    ensures Draining(c, Step(c, b, a))
  {
    hide Fifo, FrontOut;
    StepDrains(c, b, a);
    StepKeepsFifo(c, b, a);
  }

  /** When every publish fails, draining n never-attempted items takes exactly (RetryCap + 1) *
      ceil(n / FlushCount) completed attempts: everything is settled after that many, and not
      before. */
  lemma FailingDrainIsExact(c: Config, b: Books, run: seq<Action>)
    requires c.flushCount >= 1 && Fifo(c, b)
    requires b.phase == Idle && AllFresh(b.buffer)
    requires Possible(c, b, run) && NoArrivals(run) && AllFail(run)
    ensures Live(After(c, b, run)) == [] <==>
              Attempts(run) == (RetryCap(c) + 1) * Batches(|b.buffer|, c.flushCount)
  {
    hide Draining, Fifo, AllFresh, Batches, AllFail, NoArrivals, Possible;
    FreshIsDraining(c, b);
    RunFailsExactly(c, b, run);
    RunDrains(c, b, run);
    SettledWhenSpent(c, After(c, b, run));
  }

  lemma IdleLive(c: Config, b: Books)
    requires Fifo(c, b) && b.phase == Idle
    ensures Live(b) == b.buffer
  {
  }

  lemma FreshIsDraining(c: Config, b: Books)
    requires c.flushCount >= 1 && Fifo(c, b)
    requires b.phase == Idle && AllFresh(b.buffer)
    ensures Draining(c, b)
    ensures AttemptsLeft(c, Live(b)) == (RetryCap(c) + 1) * Batches(|b.buffer|, c.flushCount)
  {
    hide Batches, Fifo;
    IdleLive(c, b);
    assert AttemptsLeft(c, b.buffer) == FreshCost(c, |b.buffer|);
    FreshCostByBatches(c, |b.buffer|);
  }

  lemma SettledWhenSpent(c: Config, b: Books)
    requires Draining(c, b)
    ensures AttemptsLeft(c, Live(b)) >= 0
    ensures AttemptsLeft(c, Live(b)) == 0 ==> Live(b) == []
  {
    BoundedAppend(c, b.held, b.buffer);
  }
}

/** The life of one item: how often it was handed to Publish, how often that failed, and
    how long each retry waited. trails[k] follows the k-th arrival through settled, held and
    buffer, which by conservation are the arrivals in order. */
module QueueTrails {
  import opened Backoff
  import opened PublishQueue
  import opened QueueOrder

  /** No attempt after the first was made before the previous failure plus its backoff. */
  ghost predicate WaitedOut(c: Config, t: Trail) {
    forall j :: 0 < j < |t.handedAt| && j <= |t.failedAt| ==>
      t.handedAt[j] >= t.failedAt[j - 1] + BackoffDelay(c.retryBackoff, j)
  }

  /** What the trail of an item says about its retry count, by standing. */
  ghost predicate CountsAgree(c: Config, standing: Standing, item: Item, t: Trail) {
    && 0 <= item.retryCount <= RetryCap(c)
    && match standing
       case Queued => |t.handedAt| == item.retryCount && |t.failedAt| == item.retryCount
       case Lost => |t.handedAt| == item.retryCount && |t.failedAt| == item.retryCount
       case Out => |t.handedAt| == item.retryCount + 1 && |t.failedAt| == item.retryCount
       case Acked => |t.handedAt| == item.retryCount + 1 && |t.failedAt| == item.retryCount
       case GivenUp => |t.handedAt| == |t.failedAt| == item.retryCount + 1 && item.retryCount == RetryCap(c)
  }

  /** A queued item is due its backoff after its last failure; a fresh one is due at once. */
  ghost predicate DueAgrees(c: Config, item: Item, t: Trail) {
    if item.retryCount == 0 then item.notBefore == ZERO_TIME
    else 0 < item.retryCount <= |t.failedAt|
         && item.notBefore == t.failedAt[item.retryCount - 1] + BackoffDelay(c.retryBackoff, item.retryCount)
  }

  ghost predicate Traced(c: Config, standing: Standing, item: Item, t: Trail) {
    && CountsAgree(c, standing, item, t)
    && WaitedOut(c, t)
    && (standing == Queued ==> DueAgrees(c, item, t))
  }

  ghost function HeldStanding(phase: Phase): Standing {
    if phase == Requeueing then Queued else Out
  }

  ghost predicate TracedEntries(c: Config, entries: seq<Entry>, trails: seq<Trail>) {
    && |entries| <= |trails|
    && (forall k :: 0 <= k < |entries| ==>
          entries[k].standing in {Acked, GivenUp, Lost} && Traced(c, entries[k].standing, entries[k].item, trails[k]))
  }

  ghost predicate TracedItems(c: Config, standing: Standing, items: seq<Item>, trails: seq<Trail>, from: nat) {
    && from + |items| <= |trails|
    && (forall k :: 0 <= k < |items| ==> Traced(c, standing, items[k], trails[from + k]))
  }

  ghost predicate Recorded(c: Config, b: Books) {
    && |b.trails| == |b.settled| + |b.held| + |b.buffer|
    && TracedEntries(c, b.settled, b.trails)
    && TracedItems(c, HeldStanding(b.phase), b.held, b.trails, |b.settled|)
    && TracedItems(c, Queued, b.buffer, b.trails, |b.settled| + |b.held|)
  }

  lemma OpeningIsRecorded(c: Config)
    ensures Recorded(c, OPENING_BOOKS)
  {
  }

  // ---- One item ----

  lemma HandingOver(c: Config, item: Item, t: Trail, now: int)
    requires Traced(c, Queued, item, t) && item.notBefore <= now
    ensures Traced(c, Out, item, HandedOnce(t, now))
    ensures Traced(c, Lost, item, t)
  {
  }

  lemma Failing(c: Config, item: Item, t: Trail, now: int)
    requires Traced(c, Out, item, t)
    ensures item.retryCount >= c.maxRetries ==> Traced(c, GivenUp, item, FailedOnce(t, now))
    ensures item.retryCount < c.maxRetries ==> Traced(c, Queued, Bump(c, item, now), FailedOnce(t, now))
  {
  }

  // ---- Batches ----

  /** trails changed at most between from and to. */
  ghost predicate SameOutside(trails: seq<Trail>, changed: seq<Trail>, from: nat, to: nat) {
    && |changed| == |trails|
    && (forall k :: 0 <= k < |trails| && !(from <= k < to) ==> changed[k] == trails[k])
  }

  lemma ChangeElsewhere(c: Config, entries: seq<Entry>, rest: seq<Item>, trails: seq<Trail>, changed: seq<Trail>,
                        from: nat, to: nat)
    requires |entries| <= from && SameOutside(trails, changed, from, to)
    requires TracedEntries(c, entries, trails) && TracedItems(c, Queued, rest, trails, to)
    ensures TracedEntries(c, entries, changed) && TracedItems(c, Queued, rest, changed, to)
  {
  }

  lemma SplitTraced(c: Config, standing: Standing, first: seq<Item>, second: seq<Item>, trails: seq<Trail>, from: nat)
    requires TracedItems(c, standing, first + second, trails, from)
    ensures TracedItems(c, standing, first, trails, from)
    ensures TracedItems(c, standing, second, trails, from + |first|)
  {
    var all := first + second;
    forall k | 0 <= k < |first|
      ensures Traced(c, standing, first[k], trails[from + k])
    {
      assert all[k] == first[k];
    }
    forall k | 0 <= k < |second|
      ensures Traced(c, standing, second[k], trails[from + |first| + k])
    {
      assert all[|first| + k] == second[k] && trails[from + |first| + k] == trails[from + (|first| + k)];
    }
  }

  lemma JoinTraced(c: Config, standing: Standing, first: seq<Item>, second: seq<Item>, trails: seq<Trail>, from: nat)
    requires TracedItems(c, standing, first, trails, from) && TracedItems(c, standing, second, trails, from + |first|)
    ensures TracedItems(c, standing, first + second, trails, from)
  {
    forall k | 0 <= k < |first + second|
      ensures Traced(c, standing, (first + second)[k], trails[from + k])
    {
      if k >= |first| { assert trails[from + k] == trails[from + |first| + (k - |first|)]; }
    }
  }

  lemma SettleTraced(c: Config, entries: seq<Entry>, standing: Standing, items: seq<Item>, trails: seq<Trail>)
    requires standing in {Acked, GivenUp, Lost}
    requires TracedEntries(c, entries, trails) && TracedItems(c, standing, items, trails, |entries|)
    ensures TracedEntries(c, entries + EntriesOf(standing, items), trails)
  {
    var all := entries + EntriesOf(standing, items);
    forall k | 0 <= k < |all|
      ensures all[k].standing in {Acked, GivenUp, Lost} && Traced(c, all[k].standing, all[k].item, trails[k])
    {
      if k >= |entries| { assert trails[k] == trails[|entries| + (k - |entries|)]; }
    }
  }

  lemma HandOverBatch(c: Config, items: seq<Item>, trails: seq<Trail>, from: nat, now: int)
    requires TracedItems(c, Queued, items, trails, from)
    requires forall k :: 0 <= k < |items| ==> items[k].notBefore <= now
    ensures TracedItems(c, Out, items, MarkHanded(trails, from, from + |items|, now), from)
    ensures TracedItems(c, Lost, items, trails, from)
  {
    forall k | 0 <= k < |items|
      ensures Traced(c, Out, items[k], MarkHanded(trails, from, from + |items|, now)[from + k])
      ensures Traced(c, Lost, items[k], trails[from + k])
    {
      HandingOver(c, items[k], trails[from + k], now);
    }
  }

  lemma GiveUpItems(c: Config, items: seq<Item>, trails: seq<Trail>, marked: seq<Trail>, from: nat, now: int)
    requires TracedItems(c, Out, items, trails, from) && |marked| == |trails|
    requires forall k :: 0 <= k < |items| ==> items[k].retryCount >= c.maxRetries
    requires forall k :: from <= k < from + |items| ==> marked[k] == FailedOnce(trails[k], now)
    ensures TracedItems(c, GivenUp, items, marked, from)
  {
    forall k | 0 <= k < |items|
      ensures Traced(c, GivenUp, items[k], marked[from + k])
    {
      Failing(c, items[k], trails[from + k], now);
    }
  }

  lemma RetryItems(c: Config, items: seq<Item>, retried: seq<Item>, trails: seq<Trail>, marked: seq<Trail>,
                   from: nat, now: int)
    requires TracedItems(c, Out, items, trails, from) && |marked| == |trails| && |retried| == |items|
    requires forall k :: 0 <= k < |items| ==> items[k].retryCount < c.maxRetries && retried[k] == Bump(c, items[k], now)
    requires forall k :: from <= k < from + |items| ==> marked[k] == FailedOnce(trails[k], now)
    ensures TracedItems(c, Queued, retried, marked, from)
  {
    forall k | 0 <= k < |items|
      ensures Traced(c, Queued, retried[k], marked[from + k])
    {
      Failing(c, items[k], trails[from + k], now);
    }
  }

  lemma FailParts(c: Config, front: seq<Item>, rest: seq<Item>, retried: seq<Item>, trails: seq<Trail>,
                  marked: seq<Trail>, from: nat, now: int)
    requires TracedItems(c, Out, front + rest, trails, from) && |marked| == |trails| && |retried| == |rest|
    requires forall k :: 0 <= k < |front| ==> front[k].retryCount >= c.maxRetries
    requires forall k :: 0 <= k < |rest| ==> rest[k].retryCount < c.maxRetries && retried[k] == Bump(c, rest[k], now)
    requires forall k :: from <= k < from + |front| + |rest| ==> marked[k] == FailedOnce(trails[k], now)
    ensures TracedItems(c, GivenUp, front, marked, from)
    ensures TracedItems(c, Queued, retried, marked, from + |front|)
  {
    SplitTraced(c, Out, front, rest, trails, from);
    GiveUpItems(c, front, trails, marked, from, now);
    RetryItems(c, rest, retried, trails, marked, from + |front|, now);
  }

  lemma FailBatch(c: Config, items: seq<Item>, trails: seq<Trail>, from: nat, now: int)
    requires TracedItems(c, Out, items, trails, from) && NonIncreasing(items)
    ensures var dropped := Dropped(c, items);
            var marked := MarkFailed(trails, from, from + |items|, now);
            && |dropped| + |Survivors(c, items, now)| == |items|
            && TracedItems(c, GivenUp, dropped, marked, from)
            && TracedItems(c, Queued, Survivors(c, items, now), marked, from + |dropped|)
  {
    hide Traced, Dropped, Survivors;
    var front, rest := DropIsPrefix(c, items, now);
    var marked := MarkFailed(trails, from, from + |items|, now);
    FailParts(c, front, rest, Survivors(c, items, now), trails, marked, from, now);
  }

  // ---- Steps ----

  /** A stretch of the queue changes standing: the settled part grows by some of it, the held
      part becomes the rest of it, and everything behind stays as it was. */
  lemma Reassemble(c: Config, b: Books, b': Books, standing: Standing, gone: seq<Item>, marked: seq<Trail>)
    requires Recorded(c, b) && standing in {Acked, GivenUp, Lost}
    requires b'.settled == b.settled + EntriesOf(standing, gone) && b'.trails == marked
    requires SameOutside(b.trails, marked, |b.settled|, |b'.settled| + |b'.held|)
    requires TracedItems(c, standing, gone, marked, |b.settled|)
    requires TracedItems(c, HeldStanding(b'.phase), b'.held, marked, |b'.settled|)
    requires TracedItems(c, Queued, b'.buffer, b.trails, |b'.settled| + |b'.held|)
    requires |marked| == |b'.settled| + |b'.held| + |b'.buffer|
    ensures Recorded(c, b')
  {
    hide Traced;
    ChangeElsewhere(c, b.settled, b'.buffer, b.trails, marked, |b.settled|, |b'.settled| + |b'.held|);
    SettleTraced(c, b.settled, standing, gone, marked);
  }

  lemma HandOverParts(c: Config, settled: seq<Entry>, taken: seq<Item>, rest: seq<Item>, trails: seq<Trail>, now: int)
    requires TracedEntries(c, settled, trails) && TracedItems(c, Queued, taken + rest, trails, |settled|)
    requires forall k :: 0 <= k < |taken| ==> taken[k].notBefore <= now
    ensures var marked := MarkHanded(trails, |settled|, |settled| + |taken|, now);
            && TracedEntries(c, settled, marked)
            && TracedItems(c, Out, taken, marked, |settled|)
            && TracedItems(c, Queued, rest, marked, |settled| + |taken|)
  {
    hide Traced;
    var from, to := |settled|, |settled| + |taken|;
    SplitTraced(c, Queued, taken, rest, trails, from);
    HandOverBatch(c, taken, trails, from, now);
    ChangeElsewhere(c, settled, rest, trails, MarkHanded(trails, from, to, now), from, to);
  }

  lemma HandOverKeepsRecorded(c: Config, b: Books, b': Books, now: int)
    requires Recorded(c, b) && b.held == [] && b.buffer == b'.held + b'.buffer
    requires forall k :: 0 <= k < |b'.held| ==> b'.held[k].notBefore <= now
    requires b'.phase == Publishing && b'.settled == b.settled
    requires b'.trails == MarkHanded(b.trails, |b.settled|, |b.settled| + |b'.held|, now)
    ensures Recorded(c, b')
  {
    hide Traced;
    assert |b.settled| + |b.held| == |b.settled|;
    HandOverParts(c, b.settled, b'.held, b'.buffer, b.trails, now);
  }

  lemma LosingKeepsRecorded(c: Config, b: Books, b': Books, taken: seq<Item>, now: int)
    requires Recorded(c, b) && b.held == [] && b.buffer == taken + b'.buffer
    requires forall k :: 0 <= k < |taken| ==> taken[k].notBefore <= now
    requires b'.settled == b.settled + EntriesOf(Lost, taken) && b'.held == [] && b'.trails == b.trails
    ensures Recorded(c, b')
  {
    hide Traced;
    SplitTraced(c, Queued, taken, b'.buffer, b.trails, |b.settled|);
    HandOverBatch(c, taken, b.trails, |b.settled|, now);
    Reassemble(c, b, b', Lost, taken, b.trails);
  }

  lemma TakeKeepsRecorded(c: Config, b: Books, now: nat, idOk: bool)
    requires (b.phase == Idle ==> b.held == []) && Recorded(c, b)
    ensures Recorded(c, TakeBatch(c, b, now, idOk))
  {
    hide Traced;
    if b.phase == Idle && b.buffer != [] {
      var n := ReadyCount(b.buffer, c.flushCount, now);
      assert b.buffer == b.buffer[..n] + b.buffer[n..];
      if n == 0 {
      } else if idOk {
        HandOverKeepsRecorded(c, b, TakeBatch(c, b, now, idOk), now);
      } else {
        LosingKeepsRecorded(c, b, TakeBatch(c, b, now, idOk), b.buffer[..n], now);
      }
    }
  }

  lemma FailingKeepsRecorded(c: Config, b: Books, b': Books, now: int)
    requires Recorded(c, b) && b.phase == Failed && NonIncreasing(b.held)
    requires b'.phase == Requeueing && b'.settled == b.settled + EntriesOf(GivenUp, Dropped(c, b.held))
    requires b'.held == Survivors(c, b.held, now) && b'.buffer == b.buffer
    requires b'.trails == MarkFailed(b.trails, |b.settled|, |b.settled| + |b.held|, now)
    ensures Recorded(c, b')
  {
    hide Traced, Dropped, Survivors;
    FailBatch(c, b.held, b.trails, |b.settled|, now);
    Reassemble(c, b, b', GivenUp, Dropped(c, b.held), b'.trails);
  }

  lemma RewriteKeepsRecorded(c: Config, b: Books, now: nat)
    requires NonIncreasing(b.held) && Recorded(c, b) && b.phase == Failed
    ensures Recorded(c, RewriteBatch(c, b, now))
  {
    FailingKeepsRecorded(c, b, RewriteBatch(c, b, now), now);
  }

  lemma AckKeepsRecorded(c: Config, b: Books)
    requires Recorded(c, b) && b.phase == Publishing
    ensures Recorded(c, Step(c, b, Ack))
  {
    forall k | 0 <= k < |b.held|
      ensures Traced(c, Acked, b.held[k], b.trails[|b.settled| + k])
    {
      assert Traced(c, Out, b.held[k], b.trails[|b.settled| + k]);
    }
    SettleTraced(c, b.settled, Acked, b.held, b.trails);
  }

  lemma PutBackKeepsRecorded(c: Config, b: Books)
    requires Recorded(c, b) && b.phase == Requeueing
    ensures Recorded(c, Step(c, b, PutBack))
  {
    JoinTraced(c, Queued, b.held, b.buffer, b.trails, |b.settled|);
  }

  lemma ArriveKeepsRecorded(c: Config, b: Books, e: Envelope)
    requires Recorded(c, b)
    ensures Recorded(c, Step(c, b, Arrive(e)))
  {
    assert Traced(c, Queued, Fresh(e), Trail([], []));
  }

  lemma StepKeepsRecorded(c: Config, b: Books, a: Action)
    requires Fifo(c, b) && Recorded(c, b) && Enabled(b, a)
    ensures Recorded(c, Step(c, b, a))
  {
    hide Traced;
    match a
    case Arrive(e) => ArriveKeepsRecorded(c, b, e);
    case Take(now, idOk) => TakeKeepsRecorded(c, b, now, idOk);
    case Ack => AckKeepsRecorded(c, b);
    case Rewrite(now) => RewriteKeepsRecorded(c, b, now);
    case PutBack => PutBackKeepsRecorded(c, b);
    case _ =>
  }

  lemma {:induction false} RunKeepsRecorded(c: Config, b: Books, run: seq<Action>)
    requires Fifo(c, b) && Recorded(c, b) && Possible(c, b, run)
    ensures Recorded(c, After(c, b, run)) && Fifo(c, After(c, b, run))
    decreases |run|
  {
    if run != [] {
      StepKeepsFifo(c, b, run[0]);
      StepKeepsRecorded(c, b, run[0]);
      RunKeepsRecorded(c, Step(c, b, run[0]), run[1..]);
    }
  }

  // ---- What it says over whole runs ----

  /** Bounded attempts: no item is handed to Publish more than RetryCap + 1 times, each
      dropped item exactly that often, and each acknowledged item once more than it failed. */
  lemma AttemptsAreBounded(c: Config, run: seq<Action>, k: nat)
    requires Possible(c, OPENING_BOOKS, run)
    requires k < |Arrivals(run)|
    ensures var b := After(c, OPENING_BOOKS, run);
            && k < |b.trails|
            && |b.trails[k].handedAt| <= RetryCap(c) + 1
            && (k < |b.settled| && b.settled[k].standing == GivenUp ==>
                  |b.trails[k].handedAt| == |b.trails[k].failedAt| == RetryCap(c) + 1)
            && (k < |b.settled| && b.settled[k].standing == Acked ==>
                  |b.trails[k].handedAt| == |b.trails[k].failedAt| + 1 == b.settled[k].item.retryCount + 1)
  {
    var b := After(c, OPENING_BOOKS, run);
    OpeningIsRecorded(c);
    OpeningIsFifo(c);
    RunKeepsRecorded(c, OPENING_BOOKS, run);
    NothingDuplicatedOrReordered(c, run);
    var standing, item := ItemIsTraced(c, b, k);
  }

  lemma ItemIsTraced(c: Config, b: Books, k: nat) returns (standing: Standing, item: Item)
    requires Recorded(c, b) && k < |b.trails|
    ensures Traced(c, standing, item, b.trails[k])
    ensures k < |b.settled| ==> Entry(standing, item) == b.settled[k]
    ensures k < |b.settled| ==> standing in {Acked, GivenUp, Lost}
  {
    if k < |b.settled| {
      standing, item := b.settled[k].standing, b.settled[k].item;
    } else if k < |b.settled| + |b.held| {
      standing, item := HeldStanding(b.phase), b.held[k - |b.settled|];
      assert k == |b.settled| + (k - |b.settled|);
    } else {
      standing, item := Queued, b.buffer[k - |b.settled| - |b.held|];
      assert k == |b.settled| + |b.held| + (k - |b.settled| - |b.held|);
    }
  }

  /** Each retry waited at least its backoff after the failure before it, whatever the clock did. */
  lemma EveryRetryWaits(c: Config, run: seq<Action>, k: nat, j: nat)
    requires Possible(c, OPENING_BOOKS, run)
    requires k < |After(c, OPENING_BOOKS, run).trails|
    requires 0 < j < |After(c, OPENING_BOOKS, run).trails[k].handedAt|
    ensures var t := After(c, OPENING_BOOKS, run).trails[k];
            && j - 1 < |t.failedAt|
            && t.handedAt[j] >= t.failedAt[j - 1] + BackoffDelay(c.retryBackoff, j)
  {
    var b := After(c, OPENING_BOOKS, run);
    OpeningIsRecorded(c);
    OpeningIsFifo(c);
    RunKeepsRecorded(c, OPENING_BOOKS, run);
    var standing, item := ItemIsTraced(c, b, k);
  }
}

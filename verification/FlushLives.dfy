/** The life of an item, the time to drop and the shape of the buffer for the running tasks:
    what the books say of them, carried over every interleaving. */
module FlushLives {
  import opened Basics
  import opened Backoff
  import opened PublishQueue
  import opened QueueOrder
  import opened QueueTrails
  import opened RetryWindow
  import opened DropTiming
  import opened FlushRuns
  import opened FlushTasks
  import opened FlushLedger

  /** The books a run of the tasks keeps. */
  ghost function BooksOf(c: Config, run: seq<Event>): Books
    requires CanRunAll(c, INITIAL, run)
  {
    RunIsBooked(c, run);
    After(c, OPENING_BOOKS, ActionsOf(run))
  }

  lemma BooksAreReachable(c: Config, run: seq<Event>)
    requires CanRunAll(c, INITIAL, run)
    ensures Reachable(c, BooksOf(c, run)) && Simulated(EndState(c, INITIAL, run), BooksOf(c, run))
  {
    RunIsBooked(c, run);
  }

  /** Under every interleaving no enqueued item is handed to Publish more than RetryCap + 1
      times, each dropped one exactly that often, and each acknowledged one once more than it
      failed. */
  lemma AttemptsBoundedUnderInterleaving(c: Config, run: seq<Event>, k: nat)
    requires CanRunAll(c, INITIAL, run) && k < |Enqueued(run)|
    ensures var b := BooksOf(c, run);
            && k < |b.trails|
            && |b.trails[k].handedAt| <= RetryCap(c) + 1
            && (k < |b.settled| && b.settled[k].standing == GivenUp ==>
                  |b.trails[k].handedAt| == |b.trails[k].failedAt| == RetryCap(c) + 1)
            && (k < |b.settled| && b.settled[k].standing == Acked ==>
                  |b.trails[k].handedAt| == |b.trails[k].failedAt| + 1 == b.settled[k].item.retryCount + 1)
  {
    RunIsBooked(c, run);
    EnqueuedArrives(run);
    AttemptsAreBounded(c, ActionsOf(run), k);
  }

  /** Under every interleaving each retry waited at least its backoff after the failure before it. */
  lemma RetriesWaitUnderInterleaving(c: Config, run: seq<Event>, k: nat, j: nat)
    requires CanRunAll(c, INITIAL, run)
    requires k < |BooksOf(c, run).trails| && 0 < j < |BooksOf(c, run).trails[k].handedAt|
    ensures var t := BooksOf(c, run).trails[k];
            j - 1 < |t.failedAt| && t.handedAt[j] >= t.failedAt[j - 1] + BackoffDelay(c.retryBackoff, j)
  {
    RunIsBooked(c, run);
    EveryRetryWaits(c, ActionsOf(run), k, j);
  }

  // ---- Clocks ----

  /** Whether the step of a task looks at the clock. */
  predicate LooksAtClock(s: State, e: Event) {
    e.RewriteItems? || (e.Dequeue? && !s.flushing && s.buffer != [])
  }

  /** No reading of any task is earlier than the one before it, starting from `clock`. */
  ghost predicate ForwardFrom(c: Config, s: State, run: seq<Event>, clock: int)
    requires CanRunAll(c, s, run)
    decreases |run|
  {
    run != [] ==>
      && (LooksAtClock(s, run[0]) ==> run[0].now >= clock)
      && ForwardFrom(c, Next(c, s, run[0]), run[1..], if LooksAtClock(s, run[0]) then run[0].now else clock)
  }

  lemma SameClock(c: Config, s: State, b: Books, e: Event)
    requires Simulated(s, b) && CanRun(s, e) && Enabled(b, ActionOf(e))
    ensures LooksAtClock(s, e) <==> ReadsClock(b, ActionOf(e))
    ensures Step(c, b, ActionOf(e)).clock == if LooksAtClock(s, e) then e.now else b.clock
  {
  }

  lemma {:induction false} ForwardIsBooked(c: Config, s: State, b: Books, run: seq<Event>)
    requires Simulated(s, b) && CanRunAll(c, s, run) && Possible(c, b, ActionsOf(run))
    requires ForwardFrom(c, s, run, b.clock)
    ensures ClockForward(c, b, ActionsOf(run))
    decreases |run|
  {
    hide Simulated;
    if run != [] {
      StepSimulates(c, s, b, run[0]);
      SameClock(c, s, b, run[0]);
      assert ActionsOf(run)[1..] == ActionsOf(run[1..]);
      ForwardIsBooked(c, Next(c, s, run[0]), Step(c, b, ActionOf(run[0])), run[1..]);
    }
  }

  /** Time to drop under every interleaving whose clock readings do not run backwards. */
  lemma TimeToDropUnderInterleaving(c: Config, run: seq<Event>, k: nat)
    requires CanRunAll(c, INITIAL, run) && ForwardFrom(c, INITIAL, run, ZERO_TIME)
    requires k < |BooksOf(c, run).settled| && BooksOf(c, run).settled[k].standing == GivenUp
    ensures var b := BooksOf(c, run);
            var m := RetryCap(c);
            && k < |b.trails| && |b.trails[k].failedAt| == m + 1
            && b.trails[k].failedAt[m] - b.trails[k].failedAt[0] >= TotalBackoff(c.retryBackoff, m)
            && (c.retryBackoff > 0 && BackoffFits(c.retryBackoff, m) ==>
                  TotalBackoff(c.retryBackoff, m)
                  == c.retryBackoff * (PowerOfTwo(Min(m, 7)) - 1 + 64 * Max(0, m - 7)))
  {
    hide PowerOfTwo, TotalBackoff, ForwardFrom, ClockForward, BackoffFits, CanRunAll, Possible, EndState;
    RunIsBooked(c, run);
    ForwardIsBooked(c, INITIAL, OPENING_BOOKS, run);
    TimeToDrop(c, ActionsOf(run), k);
  }

  /** The retry window for the running tasks: at every moment the buffer is at most one batch
      of retried items stamped by one clock reading, counts and due times not increasing,
      then items never attempted; and only the latter while a flush is under way. */
  lemma WindowUnderInterleaving(c: Config, run: seq<Event>) returns (n: nat, stamp: int)
    requires Tame(c) && CanRunAll(c, INITIAL, run)
    ensures var s := EndState(c, INITIAL, run);
            WindowShape(c, s.buffer, n, stamp) && (s.flushing ==> AllFresh(s.buffer))
  {
    hide CanRunAll, EndState, WindowShape, AllFresh;
    BooksAreReachable(c, run);
    var b := BooksOf(c, run);
    BufferIsWindowThenFresh(c, b);
    ReachableHasShape(c, b);
    n, stamp := |b.window|, b.stamp;
  }

  // ---- Losses ----

  /** A flush that gets no transmission id while the flag is down and the head of the buffer
      is due. */
  predicate IdlessDequeueMeetsItem(c: Config, s: State, e: Event) {
    && e.Dequeue? && !e.idOk
    && !s.flushing && c.flushCount >= 1
    && s.buffer != [] && s.buffer[0].notBefore <= e.now
  }

  ghost predicate NoIdlessDequeueMeetsItem(c: Config, s: State, run: seq<Event>)
    requires CanRunAll(c, s, run)
    decreases |run|
  {
    run != [] ==>
      && !IdlessDequeueMeetsItem(c, s, run[0])
      && NoIdlessDequeueMeetsItem(c, Next(c, s, run[0]), run[1..])
  }

  lemma {:induction false} IdlessIsBooked(c: Config, s: State, b: Books, run: seq<Event>)
    requires Simulated(s, b) && CanRunAll(c, s, run) && Possible(c, b, ActionsOf(run))
    ensures NoIdlessDequeueMeetsItem(c, s, run) <==> NoIdlessTakeMeetsItem(c, b, ActionsOf(run))
    decreases |run|
  {
    if run != [] {
      StepSimulates(c, s, b, run[0]);
      assert ActionsOf(run)[1..] == ActionsOf(run[1..]);
      IdlessIsBooked(c, Next(c, s, run[0]), Step(c, b, ActionOf(run[0])), run[1..]);
    }
  }

  /** Under every interleaving no item is lost if and only if no flush without a transmission
      id met a due item. */
  lemma LossUnderInterleaving(c: Config, run: seq<Event>)
    requires CanRunAll(c, INITIAL, run)
    ensures CountOf(Lost, BooksOf(c, run).settled) == 0 <==> NoIdlessDequeueMeetsItem(c, INITIAL, run)
  {
    hide Simulated, CountOf, After;
    RunIsBooked(c, run);
    OpeningIsSimulated();
    IdlessIsBooked(c, INITIAL, OPENING_BOOKS, run);
    LostExactlyWhenNoId(c, ActionsOf(run));
  }

  lemma OpeningIsSimulated()
    ensures Simulated(INITIAL, OPENING_BOOKS)
  {
  }

  // ---- Subjects ----

  /** Under every interleaving, when no enqueued envelope has a subject of its own, every batch
      that is out with Publish goes out under the configured subject. */
  lemma SubjectsUnderInterleaving(c: Config, run: seq<Event>, t: nat)
    requires CanRunAll(c, INITIAL, run) && NoSubjects(Enqueued(run))
    requires t < |EndState(c, INITIAL, run).tasks| && EndState(c, INITIAL, run).tasks[t].Sending?
    ensures var items := EndState(c, INITIAL, run).tasks[t].items;
            items != [] && SubjectOf(c, items) == c.subject
  {
    RunIsBooked(c, run);
    EnqueuedArrives(run);
    var b := BooksOf(c, run);
    HistoryIsArrivals(c, OPENING_BOOKS, ActionsOf(run));
    EmptyPrefix(Arrivals(ActionsOf(run)));
    assert Matches(EndState(c, INITIAL, run).tasks[t], b);
    ConservedSubjects(b);
  }

  // ---- An Enqueue that fills the count ----

  /** An Enqueue starts a flush exactly when it fills the count and the flag is down. */
  lemma EnqueueSpawnsIff(c: Config, s: State, envelope: Envelope)
    ensures var s' := Next(c, s, Enqueue(envelope));
            && s'.buffer == s.buffer + [Fresh(envelope)]
            && (|s.buffer| + 1 >= c.flushCount && !s.flushing ==> s'.tasks == s.tasks + [Spawned])
            && (|s.buffer| + 1 < c.flushCount || s.flushing ==> s'.tasks == s.tasks)
  {
  }

  /** The flush started by such an Enqueue hands a due head to Publish without waiting for a
      tick, at any clock reading from the head's due time on. */
  lemma FullBufferIsHandedOver(c: Config, s: State, envelope: Envelope, now: nat)
    requires c.flushCount >= 1 && |s.buffer| + 1 >= c.flushCount && !s.flushing
    requires (s.buffer + [Fresh(envelope)])[0].notBefore <= now
    ensures var t, run := |s.tasks|, [Enqueue(envelope), Dequeue(|s.tasks|, now, true)];
            && CanRunAll(c, s, run)
            && var s' := EndState(c, s, run);
               && s'.flushing && t < |s'.tasks| && s'.tasks[t].Sending?
               && s'.tasks[t].items != [] && s'.tasks[t].items[0] == (s.buffer + [Fresh(envelope)])[0]
               && s'.tasks[t].items + s'.buffer == s.buffer + [Fresh(envelope)]
  {
    var t, s1 := |s.tasks|, Next(c, s, Enqueue(envelope));
    EnqueueSpawnsIff(c, s, envelope);
    var n := ReadyCount(s1.buffer, c.flushCount, now);
    assert n > 0;
    assert s1.buffer[..n] + s1.buffer[n..] == s1.buffer;
    TwoSteps(c, s, Enqueue(envelope), Dequeue(t, now, true));
  }
}

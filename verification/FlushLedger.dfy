/** The publisher's counters against the books, and what else the simulation carries over
    from the books to the running tasks. */
module FlushLedger {
  import opened Basics
  import opened PublishQueue
  import opened QueueOrder
  import opened RetryWindow
  import opened Drain
  import opened FlushTasks

  // ---- Retries counted over items ----

  function RetrySum(items: seq<Item>): int {
    if items == [] then 0 else RetrySum(items[..|items| - 1]) + items[|items| - 1].retryCount
  }

  function EntryRetrySum(entries: seq<Entry>): int {
    if entries == [] then 0 else EntryRetrySum(entries[..|entries| - 1]) + entries[|entries| - 1].item.retryCount
  }

  /** The retries every arrival has had, settled or not. */
  function TotalRetries(b: Books): int {
    EntryRetrySum(b.settled) + RetrySum(b.held) + RetrySum(b.buffer)
  }

  lemma {:induction false} RetrySumAppend(s: seq<Item>, t: seq<Item>)
    ensures RetrySum(s + t) == RetrySum(s) + RetrySum(t)
    decreases |t|
  {
    if t == [] {
      assert s + t == s;
    } else {
      assert (s + t)[..|s + t| - 1] == s + t[..|t| - 1];
      RetrySumAppend(s, t[..|t| - 1]);
    }
  }

  lemma {:induction false} SettlingKeepsRetries(entries: seq<Entry>, standing: Standing, items: seq<Item>)
    ensures EntryRetrySum(entries + EntriesOf(standing, items)) == EntryRetrySum(entries) + RetrySum(items)
    decreases |items|
  {
    var made := EntriesOf(standing, items);
    if items == [] {
      assert entries + made == entries;
    } else {
      var init := items[..|items| - 1];
      assert (entries + made)[..|entries + made| - 1] == entries + EntriesOf(standing, init);
      SettlingKeepsRetries(entries, standing, init);
    }
  }

  /** The failure loop adds one retry for every item it keeps, and drops no count. */
  lemma {:induction false} RewriteAddsRetries(c: Config, items: seq<Item>, now: int)
    ensures RetrySum(Dropped(c, items)) + RetrySum(Survivors(c, items, now))
         == RetrySum(items) + |Survivors(c, items, now)|
  {
    if items != [] {
      var init, last := items[..|items| - 1], items[|items| - 1];
      RewriteAddsRetries(c, init, now);
      RetrySumAppend(Dropped(c, init), [last]);
      RetrySumAppend(Survivors(c, init, now), [Bump(c, last, now)]);
      assert [last][..0] == [] && [Bump(c, last, now)][..0] == [];
    }
  }

  // ---- Counter updates still to come ----

  function PendingRetries(t: Task): nat {
    match t
    case Restoring(requeued, _) => |requeued|
    case CountingRetries(n, _) => n
    case _ => 0
  }

  function PendingDrops(t: Task): nat {
    match t
    case Restoring(_, d) => d
    case CountingRetries(_, d) => d
    case CountingDrops(d) => d
    case _ => 0
  }

  function AllPendingRetries(tasks: seq<Task>): nat {
    if tasks == [] then 0 else AllPendingRetries(tasks[..|tasks| - 1]) + PendingRetries(tasks[|tasks| - 1])
  }

  function AllPendingDrops(tasks: seq<Task>): nat {
    if tasks == [] then 0 else AllPendingDrops(tasks[..|tasks| - 1]) + PendingDrops(tasks[|tasks| - 1])
  }

  lemma {:induction false} PendingAfterMove(tasks: seq<Task>, t: nat, task: Task)
    requires t < |tasks|
    ensures AllPendingRetries(tasks[t := task])
         == AllPendingRetries(tasks) - PendingRetries(tasks[t]) + PendingRetries(task)
    ensures AllPendingDrops(tasks[t := task]) == AllPendingDrops(tasks) - PendingDrops(tasks[t]) + PendingDrops(task)
    decreases |tasks|
  {
    var moved, init := tasks[t := task], tasks[..|tasks| - 1];
    if t == |tasks| - 1 {
      assert moved[..|moved| - 1] == init;
    } else {
      assert moved[..|moved| - 1] == init[t := task];
      PendingAfterMove(init, t, task);
    }
  }

  lemma PendingAfterSpawn(tasks: seq<Task>)
    ensures AllPendingRetries(tasks + [Spawned]) == AllPendingRetries(tasks)
    ensures AllPendingDrops(tasks + [Spawned]) == AllPendingDrops(tasks)
  {
    assert (tasks + [Spawned])[..|tasks|] == tasks;
  }

  lemma {:induction false} NothingPending(tasks: seq<Task>)
    requires forall t :: 0 <= t < |tasks| ==> PendingRetries(tasks[t]) == 0 && PendingDrops(tasks[t]) == 0
    ensures AllPendingRetries(tasks) == 0 && AllPendingDrops(tasks) == 0
  {
    if tasks != [] { NothingPending(tasks[..|tasks| - 1]); }
  }

  // ---- The ledger ----

  /** Counted plus pending equals what the books show. */
  ghost predicate Balanced(s: State, b: Books) {
    && s.retries + AllPendingRetries(s.tasks) == TotalRetries(b)
    && s.droppedItems + AllPendingDrops(s.tasks) == CountOf(GivenUp, b.settled)
  }

  lemma TakeKeepsTotals(c: Config, b: Books, now: nat, idOk: bool)
    requires b.phase == Idle ==> b.held == []
    ensures TotalRetries(TakeBatch(c, b, now, idOk)) == TotalRetries(b)
    ensures CountOf(GivenUp, TakeBatch(c, b, now, idOk).settled) == CountOf(GivenUp, b.settled)
  {
    if b.phase == Idle && b.buffer != [] {
      var n := ReadyCount(b.buffer, c.flushCount, now);
      var taken, rest := b.buffer[..n], b.buffer[n..];
      assert b.buffer == taken + rest;
      RetrySumAppend(taken, rest);
      LostTotals(b.settled, taken);
    }
  }

  lemma LostTotals(entries: seq<Entry>, items: seq<Item>)
    ensures EntryRetrySum(entries + EntriesOf(Lost, items)) == EntryRetrySum(entries) + RetrySum(items)
    ensures CountOf(GivenUp, entries + EntriesOf(Lost, items)) == CountOf(GivenUp, entries)
  {
    SettlingKeepsRetries(entries, Lost, items);
    CountOfAppend(GivenUp, entries, EntriesOf(Lost, items));
    CountOfEntries(GivenUp, Lost, items);
  }

  lemma AckKeepsTotals(c: Config, b: Books)
    requires b.phase == Publishing
    ensures TotalRetries(Step(c, b, Ack)) == TotalRetries(b)
    ensures CountOf(GivenUp, Step(c, b, Ack).settled) == CountOf(GivenUp, b.settled)
  {
    SettlingKeepsRetries(b.settled, Acked, b.held);
    CountOfAppend(GivenUp, b.settled, EntriesOf(Acked, b.held));
    CountOfEntries(GivenUp, Acked, b.held);
  }

  lemma RewriteMovesTotals(c: Config, b: Books, now: nat)
    ensures TotalRetries(RewriteBatch(c, b, now)) == TotalRetries(b) + |Survivors(c, b.held, now)|
    ensures CountOf(GivenUp, RewriteBatch(c, b, now).settled) == CountOf(GivenUp, b.settled) + |Dropped(c, b.held)|
  {
    RewriteAddsRetries(c, b.held, now);
    SettlingKeepsRetries(b.settled, GivenUp, Dropped(c, b.held));
    CountOfAppend(GivenUp, b.settled, EntriesOf(GivenUp, Dropped(c, b.held)));
    CountOfEntries(GivenUp, GivenUp, Dropped(c, b.held));
  }

  lemma DequeueKeepsBalance(c: Config, s: State, b: Books, t: nat, now: nat, idOk: bool)
    requires Simulated(s, b) && Fifo(c, b) && Balanced(s, b) && t < |s.tasks| && s.tasks[t].Spawned?
    ensures Balanced(DequeueSection(c, s, t, now, idOk), TakeBatch(c, b, now, idOk))
  {
    TakeKeepsTotals(c, b, now, idOk);
    PendingAfterMove(s.tasks, t, DequeueSection(c, s, t, now, idOk).tasks[t]);
  }

  lemma RewriteKeepsBalance(c: Config, s: State, b: Books, t: nat, now: nat)
    requires Balanced(s, b) && t < |s.tasks| && s.tasks[t] == Erred(b.held)
    ensures Balanced(Next(c, s, RewriteItems(t, now)), RewriteBatch(c, b, now))
  {
    PendingAfterMove(s.tasks, t, Restoring(Survivors(c, b.held, now), |Dropped(c, b.held)|));
    RewriteMovesTotals(c, b, now);
  }

  lemma RequeueKeepsBalance(c: Config, s: State, b: Books, t: nat)
    requires Balanced(s, b) && t < |s.tasks| && s.tasks[t].Restoring? && s.tasks[t].requeued == b.held
    requires s.buffer == b.buffer && b.phase == Requeueing
    ensures Balanced(Next(c, s, Requeue(t)), Step(c, b, PutBack))
  {
    PendingAfterMove(s.tasks, t, CountingRetries(|b.held|, s.tasks[t].dropped));
    RetrySumAppend(b.held, b.buffer);
  }

  lemma OwnerKeepsBalance(c: Config, s: State, b: Books, e: Event)
    requires Simulated(s, b) && Balanced(s, b) && CanRun(s, e)
    requires e.PublishOk? || e.PublishErr? || e.RewriteItems? || e.Requeue? || e.FinishFlush?
    requires Enabled(b, ActionOf(e))
    ensures Balanced(Next(c, s, e), Step(c, b, ActionOf(e)))
  {
    assert Matches(s.tasks[e.task], b);
    match e
    case RewriteItems(t, now) => RewriteKeepsBalance(c, s, b, t, now);
    case Requeue(t) => RequeueKeepsBalance(c, s, b, t);
    case PublishOk(t) =>
      AckKeepsTotals(c, b);
      PendingAfterMove(s.tasks, t, Closing);
    case PublishErr(t) => PendingAfterMove(s.tasks, t, Erred(b.held));
    case FinishFlush(t) => PendingAfterMove(s.tasks, t, Done);
    case _ =>
  }

  lemma EnqueueKeepsBalance(c: Config, s: State, b: Books, envelope: Envelope)
    requires Balanced(s, b)
    ensures Balanced(Next(c, s, Enqueue(envelope)), Step(c, b, Arrive(envelope)))
  {
    PendingAfterSpawn(s.tasks);
    assert (b.buffer + [Fresh(envelope)])[..|b.buffer|] == b.buffer;
  }

  lemma StepKeepsBalance(c: Config, s: State, b: Books, e: Event)
    requires Simulated(s, b) && Fifo(c, b) && Balanced(s, b) && CanRun(s, e)
    requires Enabled(b, ActionOf(e))
    ensures Balanced(Next(c, s, e), Step(c, b, ActionOf(e)))
  {
    hide Simulated, Fifo;
    match e
    case Enqueue(envelope) => EnqueueKeepsBalance(c, s, b, envelope);
    case Tick => PendingAfterSpawn(s.tasks);
    case Dequeue(t, now, idOk) => DequeueKeepsBalance(c, s, b, t, now, idOk);
    case AddRetries(t) => PendingAfterMove(s.tasks, t, Next(c, s, e).tasks[t]);
    case AddDropped(t) => PendingAfterMove(s.tasks, t, Done);
    case _ => OwnerKeepsBalance(c, s, b, e);
  }

  lemma {:induction false} RunKeepsBalance(c: Config, s: State, b: Books, run: seq<Event>)
    requires Simulated(s, b) && Fifo(c, b) && Balanced(s, b) && CanRunAll(c, s, run)
    requires Possible(c, b, ActionsOf(run))
    ensures Balanced(EndState(c, s, run), After(c, b, ActionsOf(run)))
    decreases |run|
  {
    if run != [] {
      StepSimulates(c, s, b, run[0]);
      StepKeepsFifo(c, b, ActionOf(run[0]));
      StepKeepsBalance(c, s, b, run[0]);
      assert ActionsOf(run)[1..] == ActionsOf(run[1..]);
      RunKeepsBalance(c, Next(c, s, run[0]), Step(c, b, ActionOf(run[0])), run[1..]);
    }
  }

  ghost predicate NothingOwed(tasks: seq<Task>) {
    forall t :: 0 <= t < |tasks| ==> PendingRetries(tasks[t]) == 0 && PendingDrops(tasks[t]) == 0
  }

  lemma RunIsBalanced(c: Config, run: seq<Event>)
    requires CanRunAll(c, INITIAL, run) && Possible(c, OPENING_BOOKS, ActionsOf(run))
    ensures Balanced(EndState(c, INITIAL, run), After(c, OPENING_BOOKS, ActionsOf(run)))
  {
    OpeningIsFifo(c);
    RunKeepsBalance(c, INITIAL, OPENING_BOOKS, run);
  }

  /** The counters over every run: PublishRetries is the sum of the retry counts of all
      arrivals and PublishDroppedItems the number given up, once no flush still owes its
      counter updates; before that they lag by exactly what is owed. */
  lemma CountersMatchBooks(c: Config, run: seq<Event>)
    requires CanRunAll(c, INITIAL, run)
    ensures Possible(c, OPENING_BOOKS, ActionsOf(run))
    ensures Balanced(EndState(c, INITIAL, run), After(c, OPENING_BOOKS, ActionsOf(run)))
    ensures var s, b := EndState(c, INITIAL, run), After(c, OPENING_BOOKS, ActionsOf(run));
            NothingOwed(s.tasks) ==> s.retries == TotalRetries(b) && s.droppedItems == CountOf(GivenUp, b.settled)
  {
    hide EndState, After, CanRunAll, Possible, Balanced;
    RunIsBooked(c, run);
    RunIsBalanced(c, run);
    QuietIsExact(EndState(c, INITIAL, run), After(c, OPENING_BOOKS, ActionsOf(run)));
  }

  lemma QuietIsExact(s: State, b: Books)
    requires Balanced(s, b)
    ensures NothingOwed(s.tasks) ==> s.retries == TotalRetries(b) && s.droppedItems == CountOf(GivenUp, b.settled)
  {
    if NothingOwed(s.tasks) { NothingPending(s.tasks); }
  }

  // ---- Who was acknowledged ----

  ghost function AcceptedBy(s: State, e: Event): seq<Envelope>
    requires CanRun(s, e)
  {
    if e.PublishOk? then Envelopes(s.tasks[e.task].items) else []
  }

  /** What Publish accepted over a run of the tasks, batch after batch. */
  ghost function Accepted(c: Config, s: State, run: seq<Event>): seq<Envelope>
    requires CanRunAll(c, s, run)
    decreases |run|
  {
    if run == [] then []
    else AcceptedBy(s, run[0]) + Accepted(c, Next(c, s, run[0]), run[1..])
  }

  ghost function AckedIn(entries: seq<Entry>): seq<Envelope> {
    if entries == [] then []
    else
      var last := entries[|entries| - 1];
      AckedIn(entries[..|entries| - 1]) + (if last.standing == Acked then [last.item.envelope] else [])
  }

  lemma {:induction false} AckedAfterSettling(entries: seq<Entry>, standing: Standing, items: seq<Item>)
    ensures AckedIn(entries + EntriesOf(standing, items))
         == AckedIn(entries) + (if standing == Acked then Envelopes(items) else [])
    decreases |items|
  {
    var all := entries + EntriesOf(standing, items);
    if items == [] {
      assert all == entries;
    } else {
      var init, last := items[..|items| - 1], items[|items| - 1];
      assert all[..|all| - 1] == entries + EntriesOf(standing, init);
      AckedAfterSettling(entries, standing, init);
      assert Envelopes(items) == Envelopes(init) + [last.envelope];
    }
  }

  lemma StepAcknowledges(c: Config, s: State, b: Books, e: Event)
    requires Simulated(s, b) && CanRun(s, e) && Enabled(b, ActionOf(e))
    ensures AckedIn(Step(c, b, ActionOf(e)).settled)
         == AckedIn(b.settled) + AcceptedBy(s, e)
  {
    hide Dropped, Survivors;
    match e
    case PublishOk(t) =>
      assert Matches(s.tasks[t], b);
      AckedAfterSettling(b.settled, Acked, b.held);
    case Dequeue(_, now, _) => AckedAfterSettling(b.settled, Lost, b.buffer[..ReadyCount(b.buffer, c.flushCount, now)]);
    case RewriteItems(_, _) => AckedAfterSettling(b.settled, GivenUp, Dropped(c, b.held));
    case _ =>
  }

  lemma {:induction false} RunAcknowledges(c: Config, s: State, b: Books, run: seq<Event>)
    requires Simulated(s, b) && CanRunAll(c, s, run) && Possible(c, b, ActionsOf(run))
    ensures AckedIn(After(c, b, ActionsOf(run)).settled) == AckedIn(b.settled) + Accepted(c, s, run)
    decreases |run|
  {
    hide AckedIn, Simulated;
    if run != [] {
      StepSimulates(c, s, b, run[0]);
      StepAcknowledges(c, s, b, run[0]);
      assert ActionsOf(run)[1..] == ActionsOf(run[1..]);
      var s1, b1 := Next(c, s, run[0]), Step(c, b, ActionOf(run[0]));
      RunAcknowledges(c, s1, b1, run[1..]);
      Reassociate(AckedIn(b.settled), AcceptedBy(s, run[0]), Accepted(c, s1, run[1..]));
    }
  }

  lemma Reassociate(x: seq<Envelope>, y: seq<Envelope>, z: seq<Envelope>)
    ensures x + y + z == x + (y + z)
  {
  }

  /** The acknowledged part of the settled items is exactly what Publish accepted, in order:
      together with conservation, nothing counts as delivered that was not, and nothing
      accepted stays queued or is handed over again. */
  lemma AcknowledgedIsAccepted(c: Config, run: seq<Event>)
    requires CanRunAll(c, INITIAL, run)
    ensures Possible(c, OPENING_BOOKS, ActionsOf(run))
    ensures AckedIn(After(c, OPENING_BOOKS, ActionsOf(run)).settled) == Accepted(c, INITIAL, run)
  {
    RunIsBooked(c, run);
    RunAcknowledges(c, INITIAL, OPENING_BOOKS, run);
    EmptyPrefix(Accepted(c, INITIAL, run));
  }

  // ---- The window, for running tasks ----

  /** Under every interleaving a flush takes all of a full batch or nothing, as the head of
      the buffer decides, and while a flush is under way the buffer holds only items that
      were never attempted. */
  lemma HeadDecidesUnderInterleaving(c: Config, run: seq<Event>, now: nat)
    requires Tame(c) && CanRunAll(c, INITIAL, run)
    ensures var s := EndState(c, INITIAL, run);
            && ReadyCount(s.buffer, c.flushCount, now) == HeadScan(s.buffer, c.flushCount, now)
            && (s.flushing ==> AllFresh(s.buffer))
  {
    hide EndState, CanRunAll, ReadyCount, HeadScan;
    RunIsBooked(c, run);
    var b := After(c, OPENING_BOOKS, ActionsOf(run));
    assert Reachable(c, b);
    BufferIsWindowThenFresh(c, b);
    ReachableIsWindowed(c, b);
    HeadDecides(c, b, now);
  }

  /** The drain bound for running tasks: from an idle moment with n items never attempted,
      and no further Enqueue, no interleaving completes more than (RetryCap + 1) *
      ceil(n / FlushCount) attempts, and one that completes that many leaves nothing buffered
      and nothing in any task's hands. It holds for every backoff, overflowing ones too. */
  lemma DrainUnderInterleaving(c: Config, run: seq<Event>, more: seq<Event>)
    requires c.flushCount >= 1 && CanRunAll(c, INITIAL, run)
    requires !EndState(c, INITIAL, run).flushing && AllFresh(EndState(c, INITIAL, run).buffer)
    requires CanRunAll(c, EndState(c, INITIAL, run), more) && NoEnqueue(more)
    ensures var s := EndState(c, INITIAL, run);
            var s' := EndState(c, s, more);
            var bound := (RetryCap(c) + 1) * Batches(|s.buffer|, c.flushCount);
            && Attempts(ActionsOf(more)) <= bound
            && (Attempts(ActionsOf(more)) == bound ==> s'.buffer == [] && HeldByAll(s'.tasks) == [])
  {
    hide EndState, CanRunAll, AllFresh, Attempts, Batches;
    RunIsBooked(c, run);
    var s, b := EndState(c, INITIAL, run), After(c, OPENING_BOOKS, ActionsOf(run));
    RunSimulates(c, s, b, more);
    DrainBound(c, b, ActionsOf(more));
    RunKeepsFifo(c, b, ActionsOf(more));
    HeldIsBooked(EndState(c, s, more), After(c, b, ActionsOf(more)));
  }

  // ---- No dead end ----

  lemma {:induction false} JoinRuns(c: Config, s: State, first: seq<Event>, second: seq<Event>)
    requires CanRunAll(c, s, first) && CanRunAll(c, EndState(c, s, first), second)
    ensures CanRunAll(c, s, first + second)
    ensures EndState(c, s, first + second) == EndState(c, EndState(c, s, first), second)
    decreases |first|
  {
    if first == [] {
      assert first + second == second;
    } else {
      assert (first + second)[1..] == first[1..] + second;
      JoinRuns(c, Next(c, s, first[0]), first[1..], second);
    }
  }

  lemma OneStep(c: Config, s: State, e: Event)
    requires CanRun(s, e)
    ensures CanRunAll(c, s, [e]) && EndState(c, s, [e]) == Next(c, s, e)
  {
    assert [e][1..] == [];
    assert CanRunAll(c, Next(c, s, e), []);
    assert EndState(c, Next(c, s, e), []) == Next(c, s, e);
  }

  lemma TwoSteps(c: Config, s: State, e: Event, f: Event)
    requires CanRun(s, e) && CanRun(Next(c, s, e), f)
    ensures CanRunAll(c, s, [e, f]) && EndState(c, s, [e, f]) == Next(c, Next(c, s, e), f)
  {
    OneStep(c, s, e);
    OneStep(c, Next(c, s, e), f);
    JoinRuns(c, s, [e], [f]);
    assert [e] + [f] == [e, f];
  }

  ghost predicate NoEnqueue(run: seq<Event>) {
    forall i :: 0 <= i < |run| ==> !run[i].Enqueue?
  }

  /** Whoever has the flag can always put it down. */
  lemma FlagCanComeDown(c: Config, s: State) returns (run: seq<Event>)
    requires s.flushing <==> SomeInSection(s.tasks)
    requires AtMostOneInSection(s.tasks)
    ensures CanRunAll(c, s, run) && NoEnqueue(run)
    ensures !EndState(c, s, run).flushing && |EndState(c, s, run).tasks| == |s.tasks|
  {
    run := [];
    if s.flushing {
      var t :| 0 <= t < |s.tasks| && InSection(s.tasks[t]);
      match s.tasks[t]
      case Sending(_) =>
        run := [PublishOk(t), FinishFlush(t)];
        TwoSteps(c, s, PublishOk(t), FinishFlush(t));
      case Erred(_) =>
        run := [RewriteItems(t, 0), Requeue(t)];
        TwoSteps(c, s, RewriteItems(t, 0), Requeue(t));
      case Restoring(_, _) =>
        run := [Requeue(t)];
        OneStep(c, s, Requeue(t));
      case Closing =>
        run := [FinishFlush(t)];
        OneStep(c, s, FinishFlush(t));
    }
  }

  function LatestDue(items: seq<Item>): (due: nat)
    ensures forall i :: 0 <= i < |items| ==> items[i].notBefore <= due
  {
    if items == [] then 0 else Max(LatestDue(items[..|items| - 1]), items[|items| - 1].notBefore)
  }

  /** With the flag down, one tick, a late enough clock and one acknowledged publish take a
      whole batch off the buffer. */
  lemma OneGoodFlush(c: Config, s: State) returns (run: seq<Event>)
    requires c.flushCount >= 1 && !s.flushing && s.buffer != []
    ensures CanRunAll(c, s, run) && NoEnqueue(run)
    ensures var s' := EndState(c, s, run); !s'.flushing && s'.buffer == s.buffer[Min(|s.buffer|, c.flushCount)..]
  {
    var t, now, n := |s.tasks|, LatestDue(s.buffer), Min(|s.buffer|, c.flushCount);
    ReadyCountUnique(s.buffer, c.flushCount, now, n, ReadyCount(s.buffer, c.flushCount, now));
    var s1 := Next(c, s, Tick);
    var s2 := Next(c, s1, Dequeue(t, now, true));
    assert s2.tasks[t] == Sending(s.buffer[..n]);
    TwoSteps(c, s, Tick, Dequeue(t, now, true));
    TwoSteps(c, s2, PublishOk(t), FinishFlush(t));
    JoinRuns(c, s, [Tick, Dequeue(t, now, true)], [PublishOk(t), FinishFlush(t)]);
    run := [Tick, Dequeue(t, now, true)] + [PublishOk(t), FinishFlush(t)];
  }

  lemma {:induction false} IdleCanDrain(c: Config, s: State) returns (run: seq<Event>)
    requires c.flushCount >= 1 && !s.flushing
    ensures CanRunAll(c, s, run) && NoEnqueue(run)
    ensures EndState(c, s, run).buffer == [] && !EndState(c, s, run).flushing
    decreases |s.buffer|
  {
    run := [];
    if s.buffer != [] {
      var first := OneGoodFlush(c, s);
      var rest := IdleCanDrain(c, EndState(c, s, first));
      JoinRuns(c, s, first, rest);
      run := first + rest;
    }
  }

  /** No interleaving paints the publisher into a corner: from every reachable state some
      continuation without new arrivals leaves nothing buffered and nothing in flight. */
  lemma CanAlwaysDrain(c: Config, run: seq<Event>) returns (more: seq<Event>)
    requires c.flushCount >= 1 && CanRunAll(c, INITIAL, run)
    ensures NoEnqueue(more) && CanRunAll(c, INITIAL, run + more)
    ensures var s := EndState(c, INITIAL, run + more); s.buffer == [] && !s.flushing
  {
    RunIsBooked(c, run);
    var s := EndState(c, INITIAL, run);
    var down := FlagCanComeDown(c, s);
    var drain := IdleCanDrain(c, EndState(c, s, down));
    JoinRuns(c, s, down, drain);
    JoinRuns(c, INITIAL, run, down + drain);
    more := down + drain;
  }

  // ---- The drain bound is attained ----

  ghost predicate NothingPublished(run: seq<Event>) {
    forall i :: 0 <= i < |run| ==> !run[i].PublishOk?
  }

  lemma {:induction false} AttemptsAppend(first: seq<Action>, second: seq<Action>)
    ensures Attempts(first + second) == Attempts(first) + Attempts(second)
    decreases |first|
  {
    if first == [] {
      assert first + second == second;
    } else {
      assert (first + second)[1..] == first[1..] + second;
      AttemptsAppend(first[1..], second);
    }
  }

  /** With the flag down, one tick, a late enough clock and one refused publish put the front
      batch through its failure. */
  lemma OneBadFlush(c: Config, s: State) returns (run: seq<Event>)
    requires c.flushCount >= 1 && !s.flushing && s.buffer != []
    ensures CanRunAll(c, s, run) && NoEnqueue(run) && NothingPublished(run) && Attempts(ActionsOf(run)) == 1
    ensures var s', n := EndState(c, s, run), Min(|s.buffer|, c.flushCount);
            !s'.flushing && s'.buffer == Survivors(c, s.buffer[..n], 0) + s.buffer[n..]
  {
    hide Survivors, Dropped, ReadyCount, LatestDue;
    var t, now, n := |s.tasks|, LatestDue(s.buffer), Min(|s.buffer|, c.flushCount);
    ReadyCountUnique(s.buffer, c.flushCount, now, n, ReadyCount(s.buffer, c.flushCount, now));
    var taking, failing := [Tick, Dequeue(t, now, true)], [PublishErr(t), RewriteItems(t, 0)];
    var s1 := Next(c, s, Tick);
    var s2 := Next(c, s1, Dequeue(t, now, true));
    assert s2.tasks[t] == Sending(s.buffer[..n]);
    TwoSteps(c, s, Tick, Dequeue(t, now, true));
    TwoSteps(c, s2, PublishErr(t), RewriteItems(t, 0));
    var s4 := Next(c, Next(c, s2, PublishErr(t)), RewriteItems(t, 0));
    OneStep(c, s4, Requeue(t));
    JoinRuns(c, s, taking, failing);
    JoinRuns(c, s, taking + failing, [Requeue(t)]);
    run := taking + failing + [Requeue(t)];
    OneAttempt(t, now);
  }

  lemma OneAttempt(t: nat, now: nat)
    ensures var run := [Tick, Dequeue(t, now, true)] + [PublishErr(t), RewriteItems(t, 0)] + [Requeue(t)];
            Attempts(ActionsOf(run)) == 1
  {
    var run := [Tick, Dequeue(t, now, true)] + [PublishErr(t), RewriteItems(t, 0)] + [Requeue(t)];
    var front, back := [Other, Take(now, true)], [Reject, Rewrite(0), PutBack];
    assert ActionsOf(run) == front + back;
    AttemptsAppend(front, back);
    assert front[1..][1..] == [] && back[1..][1..][1..] == [];
  }

  lemma {:induction false} FailingCanDrain(c: Config, s: State) returns (run: seq<Event>)
    requires c.flushCount >= 1 && !s.flushing && Aligned(c, s.buffer) && CountsBounded(c, s.buffer)
    ensures CanRunAll(c, s, run) && NoEnqueue(run) && NothingPublished(run)
    ensures EndState(c, s, run).buffer == [] && !EndState(c, s, run).flushing
    ensures Attempts(ActionsOf(run)) == AttemptsLeft(c, s.buffer)
    decreases AttemptsLeft(c, s.buffer)
  {
    hide Aligned, AttemptsLeft, Survivors, CountsBounded, Attempts, EndState, CanRunAll;
    run := [];
    if s.buffer == [] {
      NothingLeftToFail(c, s);
    } else {
      var n := Min(|s.buffer|, c.flushCount);
      var first := OneBadFlush(c, s);
      assert s.buffer[..n] + s.buffer[n..] == s.buffer;
      FrontFails(c, s.buffer[..n], s.buffer[n..], 0);
      var s' := EndState(c, s, first);
      AttemptsRemain(c, s.buffer);
      var rest := FailingCanDrain(c, s');
      JoinRuns(c, s, first, rest);
      assert ActionsOf(first + rest) == ActionsOf(first) + ActionsOf(rest);
      AttemptsAppend(ActionsOf(first), ActionsOf(rest));
      run := first + rest;
    }
  }

  lemma AttemptsRemain(c: Config, items: seq<Item>)
    requires c.flushCount >= 1 && CountsBounded(c, items)
    ensures AttemptsLeft(c, items) >= 0
  {
  }

  lemma NothingLeftToFail(c: Config, s: State)
    requires c.flushCount >= 1 && s.buffer == []
    ensures CanRunAll(c, s, []) && EndState(c, s, []) == s
    ensures Attempts(ActionsOf([])) == 0 == AttemptsLeft(c, s.buffer)
  {
  }

  /** The drain bound is no larger than it has to be: from every idle moment with n items never
      attempted some continuation without arrivals completes exactly that many attempts. */
  lemma DrainBoundIsAttained(c: Config, run: seq<Event>) returns (more: seq<Event>)
    requires c.flushCount >= 1 && CanRunAll(c, INITIAL, run)
    requires !EndState(c, INITIAL, run).flushing && AllFresh(EndState(c, INITIAL, run).buffer)
    ensures var s := EndState(c, INITIAL, run);
            && CanRunAll(c, s, more) && NoEnqueue(more) && NothingPublished(more)
            && Attempts(ActionsOf(more)) == (RetryCap(c) + 1) * Batches(|s.buffer|, c.flushCount)
            && EndState(c, s, more).buffer == [] && !EndState(c, s, more).flushing
  {
    hide EndState, CanRunAll, AllFresh, Attempts, Batches, AttemptsLeft, Aligned, NothingPublished, NoEnqueue;
    RunIsBooked(c, run);
    var s, b := EndState(c, INITIAL, run), After(c, OPENING_BOOKS, ActionsOf(run));
    FreshIsDraining(c, b);
    IdleLive(c, b);
    more := FailingCanDrain(c, s);
  }
}

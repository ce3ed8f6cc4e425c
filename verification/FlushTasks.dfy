/** The buffered publisher as it really runs: any number of Enqueue callers, ticks and spawned
    flush goroutines, interleaved at the mutex sections. A flush is a task with a program
    counter and its own items; a step is one critical section, or one thing a flush does
    outside the mutex. */
module FlushTasks {
  import opened PublishQueue
  import opened QueueOrder

  datatype Task =
    | Spawned
    | Sending(items: seq<Item>)
    | Erred(items: seq<Item>)
    | Restoring(requeued: seq<Item>, dropped: nat)
    | Closing
    | CountingRetries(requeuedCount: nat, dropped: nat)
    | CountingDrops(dropped: nat)
    | Done

  /** The fields under the mutex, the tasks spawned so far, and the two item counters. */
  datatype State = State(buffer: seq<Item>, flushing: bool, tasks: seq<Task>, retries: nat, droppedItems: nat)

  const INITIAL: State := State([], false, [], 0, 0)

  datatype Event =
    | Enqueue(envelope: Envelope)
    | Tick
    | Dequeue(task: nat, now: nat, idOk: bool)
    | PublishOk(task: nat)
    | PublishErr(task: nat)
    | RewriteItems(task: nat, now: nat)
    | Requeue(task: nat)
    | FinishFlush(task: nat)
    | AddRetries(task: nat)
    | AddDropped(task: nat)

  predicate CanRun(s: State, e: Event) {
    match e
    case Enqueue(_) => true
    case Tick => true
    case Dequeue(t, _, _) => t < |s.tasks| && s.tasks[t].Spawned?
    case PublishOk(t) => t < |s.tasks| && s.tasks[t].Sending?
    case PublishErr(t) => t < |s.tasks| && s.tasks[t].Sending?
    case RewriteItems(t, _) => t < |s.tasks| && s.tasks[t].Erred?
    case Requeue(t) => t < |s.tasks| && s.tasks[t].Restoring?
    case FinishFlush(t) => t < |s.tasks| && s.tasks[t].Closing?
    case AddRetries(t) => t < |s.tasks| && s.tasks[t].CountingRetries?
    case AddDropped(t) => t < |s.tasks| && s.tasks[t].CountingDrops?
  }

  /** dequeueReadyBatch by task t. */
  function DequeueSection(c: Config, s: State, t: nat, now: nat, idOk: bool): State
    requires t < |s.tasks|
  {
    var over := s.(tasks := s.tasks[t := Done]);
    if s.flushing || s.buffer == [] then over
    else
      var n := ReadyCount(s.buffer, c.flushCount, now);
      if n == 0 then over
      else if !idOk then over.(buffer := s.buffer[n..])
      else s.(buffer := s.buffer[n..], flushing := true, tasks := s.tasks[t := Sending(s.buffer[..n])])
  }

  function Next(c: Config, s: State, e: Event): State
    requires CanRun(s, e)
  {
    match e
    case Enqueue(envelope) =>
      var buffer := s.buffer + [Fresh(envelope)];
      s.(buffer := buffer,
         tasks := if |buffer| >= c.flushCount && !s.flushing then s.tasks + [Spawned] else s.tasks)
    case Tick => s.(tasks := s.tasks + [Spawned])
    case Dequeue(t, now, idOk) => DequeueSection(c, s, t, now, idOk)
    case PublishOk(t) => s.(tasks := s.tasks[t := Closing])
    case PublishErr(t) => s.(tasks := s.tasks[t := Erred(s.tasks[t].items)])
    case RewriteItems(t, now) =>
      var items := s.tasks[t].items;
      s.(tasks := s.tasks[t := Restoring(Survivors(c, items, now), |Dropped(c, items)|)])
    case Requeue(t) =>
      s.(buffer := s.tasks[t].requeued + s.buffer, flushing := false,
         tasks := s.tasks[t := CountingRetries(|s.tasks[t].requeued|, s.tasks[t].dropped)])
    case FinishFlush(t) => s.(flushing := false, tasks := s.tasks[t := Done])
    case AddRetries(t) =>
      s.(retries := s.retries + s.tasks[t].requeuedCount, tasks := s.tasks[t := CountingDrops(s.tasks[t].dropped)])
    case AddDropped(t) =>
      s.(droppedItems := s.droppedItems + s.tasks[t].dropped, tasks := s.tasks[t := Done])
  }

  ghost predicate CanRunAll(c: Config, s: State, run: seq<Event>)
    decreases |run|
  {
    run != [] ==> CanRun(s, run[0]) && CanRunAll(c, Next(c, s, run[0]), run[1..])
  }

  ghost function EndState(c: Config, s: State, run: seq<Event>): State
    requires CanRunAll(c, s, run)
    decreases |run|
  {
    if run == [] then s else EndState(c, Next(c, s, run[0]), run[1..])
  }

  // ---- The books a run of tasks keeps ----

  function ActionOf(e: Event): Action {
    match e
    case Enqueue(envelope) => Arrive(envelope)
    case Dequeue(_, now, idOk) => Take(now, idOk)
    case PublishOk(_) => Ack
    case PublishErr(_) => Reject
    case RewriteItems(_, now) => Rewrite(now)
    case Requeue(_) => PutBack
    case FinishFlush(_) => Finish
    case Tick => Other
    case AddRetries(_) => Other
    case AddDropped(_) => Other
  }

  function ActionsOf(run: seq<Event>): (r: seq<Action>)
    ensures |r| == |run|
    ensures forall i :: 0 <= i < |run| ==> r[i] == ActionOf(run[i])
  {
    seq(|run|, i requires 0 <= i < |run| => ActionOf(run[i]))
  }

  /** Between its dequeue and its finish or failure section. */
  predicate InSection(t: Task) {
    t.Sending? || t.Erred? || t.Restoring? || t.Closing?
  }

  ghost predicate Matches(t: Task, b: Books) {
    match t
    case Sending(items) => b.phase == Publishing && items == b.held
    case Erred(items) => b.phase == Failed && items == b.held
    case Restoring(requeued, _) => b.phase == Requeueing && requeued == b.held
    case Closing => b.phase == Published
    case _ => true
  }

  ghost predicate AtMostOneInSection(tasks: seq<Task>) {
    forall t, u :: 0 <= t < |tasks| && 0 <= u < |tasks| && InSection(tasks[t]) && InSection(tasks[u]) ==> t == u
  }

  ghost predicate SomeInSection(tasks: seq<Task>) {
    exists t :: 0 <= t < |tasks| && InSection(tasks[t])
  }

  /** The tasks are what the books say: at most one is in its section, one is exactly while
      the flag is up, and it holds what the books call held. */
  ghost predicate Simulated(s: State, b: Books) {
    && s.buffer == b.buffer
    && (s.flushing <==> b.phase != Idle)
    && (s.flushing <==> SomeInSection(s.tasks))
    && AtMostOneInSection(s.tasks)
    && (forall t :: 0 <= t < |s.tasks| ==> Matches(s.tasks[t], b))
  }

  /** Task t moves to `task` inside its section, or leaves it. */
  lemma OwnerMoves(tasks: seq<Task>, t: nat, task: Task)
    requires t < |tasks| && InSection(tasks[t]) && AtMostOneInSection(tasks)
    ensures AtMostOneInSection(tasks[t := task])
    ensures SomeInSection(tasks[t := task]) <==> InSection(task)
    ensures forall u :: 0 <= u < |tasks| && u != t ==> !InSection(tasks[u])
  {
    var moved := tasks[t := task];
    if InSection(task) { assert InSection(moved[t]); }
    assert forall u :: 0 <= u < |tasks| && u != t ==> moved[u] == tasks[u];
  }

  /** Outside any section a task may go where it likes without disturbing the owner. */
  lemma OutsiderMoves(tasks: seq<Task>, t: nat, task: Task)
    requires t < |tasks| && !InSection(tasks[t]) && !InSection(task)
    ensures AtMostOneInSection(tasks) ==> AtMostOneInSection(tasks[t := task])
    ensures SomeInSection(tasks[t := task]) <==> SomeInSection(tasks)
  {
    var moved := tasks[t := task];
    assert forall u :: 0 <= u < |tasks| && u != t ==> moved[u] == tasks[u];
    if SomeInSection(tasks) {
      var u :| 0 <= u < |tasks| && InSection(tasks[u]);
      assert InSection(moved[u]);
    }
  }

  lemma Entering(tasks: seq<Task>, t: nat, task: Task)
    requires t < |tasks| && InSection(task) && !SomeInSection(tasks)
    ensures AtMostOneInSection(tasks[t := task]) && SomeInSection(tasks[t := task])
  {
    var moved := tasks[t := task];
    assert InSection(moved[t]);
    assert forall u :: 0 <= u < |tasks| && u != t ==> moved[u] == tasks[u];
  }

  lemma Spawning(tasks: seq<Task>)
    ensures AtMostOneInSection(tasks) ==> AtMostOneInSection(tasks + [Spawned])
    ensures SomeInSection(tasks + [Spawned]) <==> SomeInSection(tasks)
  {
    var more := tasks + [Spawned];
    if SomeInSection(tasks) {
      var u :| 0 <= u < |tasks| && InSection(tasks[u]);
      assert InSection(more[u]);
    }
  }

  lemma DequeueSimulates(c: Config, s: State, b: Books, t: nat, now: nat, idOk: bool)
    requires Simulated(s, b) && t < |s.tasks| && s.tasks[t].Spawned?
    ensures Simulated(DequeueSection(c, s, t, now, idOk), TakeBatch(c, b, now, idOk))
  {
    OutsiderMoves(s.tasks, t, Done);
    if !s.flushing && s.buffer != [] {
      var n := ReadyCount(s.buffer, c.flushCount, now);
      Entering(s.tasks, t, Sending(s.buffer[..n]));
    }
  }

  lemma OwnerSimulates(c: Config, s: State, b: Books, e: Event)
    requires Simulated(s, b) && CanRun(s, e)
    requires e.PublishOk? || e.PublishErr? || e.RewriteItems? || e.Requeue? || e.FinishFlush?
    ensures Enabled(b, ActionOf(e)) && Simulated(Next(c, s, e), Step(c, b, ActionOf(e)))
  {
    OwnerMoves(s.tasks, e.task, Next(c, s, e).tasks[e.task]);
  }

  /** Every step of the tasks is a step of the books, so the system of tasks refines the
      automaton with its single flush. */
  lemma StepSimulates(c: Config, s: State, b: Books, e: Event)
    requires Simulated(s, b) && CanRun(s, e)
    ensures Enabled(b, ActionOf(e)) && Simulated(Next(c, s, e), Step(c, b, ActionOf(e)))
  {
    match e
    case Enqueue(_) => Spawning(s.tasks);
    case Tick => Spawning(s.tasks);
    case Dequeue(t, now, idOk) => DequeueSimulates(c, s, b, t, now, idOk);
    case AddRetries(t) => OutsiderMoves(s.tasks, t, Next(c, s, e).tasks[t]);
    case AddDropped(t) => OutsiderMoves(s.tasks, t, Done);
    case _ => OwnerSimulates(c, s, b, e);
  }

  lemma {:induction false} RunSimulates(c: Config, s: State, b: Books, run: seq<Event>)
    requires Simulated(s, b) && CanRunAll(c, s, run)
    ensures Possible(c, b, ActionsOf(run))
    ensures Simulated(EndState(c, s, run), After(c, b, ActionsOf(run)))
    decreases |run|
  {
    if run != [] {
      StepSimulates(c, s, b, run[0]);
      assert ActionsOf(run)[1..] == ActionsOf(run[1..]);
      RunSimulates(c, Next(c, s, run[0]), Step(c, b, ActionOf(run[0])), run[1..]);
    }
  }

  // ---- What holds of every run of the tasks ----

  function HeldBy(t: Task): seq<Item> {
    match t
    case Sending(items) => items
    case Erred(items) => items
    case Restoring(requeued, _) => requeued
    case _ => []
  }

  /** Everything any task holds, in task order. */
  ghost function HeldByAll(tasks: seq<Task>): seq<Item> {
    if tasks == [] then [] else HeldByAll(tasks[..|tasks| - 1]) + HeldBy(tasks[|tasks| - 1])
  }

  lemma {:induction false} NobodyHolds(tasks: seq<Task>)
    requires forall t :: 0 <= t < |tasks| ==> !InSection(tasks[t])
    ensures HeldByAll(tasks) == []
  {
    if tasks != [] { NobodyHolds(tasks[..|tasks| - 1]); }
  }

  lemma {:induction false} OnlyOwnerHolds(tasks: seq<Task>, t: nat)
    requires t < |tasks| && InSection(tasks[t]) && AtMostOneInSection(tasks)
    ensures HeldByAll(tasks) == HeldBy(tasks[t])
  {
    var init, last := tasks[..|tasks| - 1], |tasks| - 1;
    if t == last {
      assert forall u :: 0 <= u < |init| ==> init[u] == tasks[u];
      NobodyHolds(init);
    } else {
      assert init[t] == tasks[t];
      assert !InSection(tasks[last]);
      OnlyOwnerHolds(init, t);
    }
  }

  lemma HeldIsBooked(s: State, b: Books)
    requires Simulated(s, b) && (b.phase == Idle || b.phase == Published ==> b.held == [])
    ensures HeldByAll(s.tasks) == b.held
  {
    if s.flushing {
      var t :| 0 <= t < |s.tasks| && InSection(s.tasks[t]);
      OnlyOwnerHolds(s.tasks, t);
      assert Matches(s.tasks[t], b);
    } else {
      NobodyHolds(s.tasks);
    }
  }

  lemma RunIsBooked(c: Config, run: seq<Event>)
    requires CanRunAll(c, INITIAL, run)
    ensures Possible(c, OPENING_BOOKS, ActionsOf(run))
    ensures Simulated(EndState(c, INITIAL, run), After(c, OPENING_BOOKS, ActionsOf(run)))
    ensures Fifo(c, After(c, OPENING_BOOKS, ActionsOf(run)))
  {
    RunSimulates(c, INITIAL, OPENING_BOOKS, run);
    OpeningIsFifo(c);
    RunKeepsFifo(c, OPENING_BOOKS, ActionsOf(run));
  }

  /** Mutual exclusion, over any number of tasks: the flag is up exactly while one task is
      between its dequeue and the end of its flush; there is never a second one, and a task
      outside holds nothing. */
  lemma MutualExclusion(c: Config, run: seq<Event>)
    requires CanRunAll(c, INITIAL, run)
    ensures var s := EndState(c, INITIAL, run);
            && (s.flushing <==> exists t :: 0 <= t < |s.tasks| && InSection(s.tasks[t]))
            && (forall t, u :: 0 <= t < u < |s.tasks| ==> !(InSection(s.tasks[t]) && InSection(s.tasks[u])))
            && (forall t :: 0 <= t < |s.tasks| && !InSection(s.tasks[t]) ==> HeldBy(s.tasks[t]) == [])
  {
    RunIsBooked(c, run);
    assert SomeInSection(EndState(c, INITIAL, run).tasks) <==> EndState(c, INITIAL, run).flushing;
  }

  ghost function Enqueued(run: seq<Event>): seq<Envelope> {
    if run == [] then [] else (if run[0].Enqueue? then [run[0].envelope] else []) + Enqueued(run[1..])
  }

  lemma {:induction false} EnqueuedArrives(run: seq<Event>)
    ensures Arrivals(ActionsOf(run)) == Enqueued(run)
  {
    if run != [] {
      EnqueuedArrives(run[1..]);
      assert ActionsOf(run)[1..] == ActionsOf(run[1..]);
    }
  }

  /** FIFO conservation under every interleaving: what was enqueued, in order, is what has
      been settled, in settling order, then what tasks hold, then the buffer. */
  lemma FifoUnderInterleaving(c: Config, run: seq<Event>)
    requires CanRunAll(c, INITIAL, run)
    ensures Possible(c, OPENING_BOOKS, ActionsOf(run))
    ensures var s := EndState(c, INITIAL, run);
            var settled := After(c, OPENING_BOOKS, ActionsOf(run)).settled;
            Enqueued(run) == SettledEnvelopes(settled) + Envelopes(HeldByAll(s.tasks)) + Envelopes(s.buffer)
  {
    RunIsBooked(c, run);
    HeldIsBooked(EndState(c, INITIAL, run), After(c, OPENING_BOOKS, ActionsOf(run)));
    EnqueuedArrives(run);
    NothingDuplicatedOrReordered(c, ActionsOf(run));
  }
}

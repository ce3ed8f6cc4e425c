/** Conservation and order: whatever happens, arrivals are the settled items, then the items
    a flush holds, then the buffer. Nothing here needs an assumption on the clock, on the
    configuration or on the length of the backoff. */
module QueueOrder {
  import opened PublishQueue

  ghost function Envelopes(items: seq<Item>): (r: seq<Envelope>)
    ensures |r| == |items|
    ensures forall i :: 0 <= i < |items| ==> r[i] == items[i].envelope
  {
    seq(|items|, i requires 0 <= i < |items| => items[i].envelope)
  }

  ghost function SettledEnvelopes(entries: seq<Entry>): (r: seq<Envelope>)
    ensures |r| == |entries|
    ensures forall i :: 0 <= i < |entries| ==> r[i] == entries[i].item.envelope
  {
    seq(|entries|, i requires 0 <= i < |entries| => entries[i].item.envelope)
  }

  /** The queue equation. */
  ghost predicate Conserved(b: Books) {
    b.history == SettledEnvelopes(b.settled) + Envelopes(b.held) + Envelopes(b.buffer)
  }

  /** Retry counts never increase from the held items' front to the buffer's end. */
  ghost predicate CountsOrdered(held: seq<Item>, buffer: seq<Item>) {
    && NonIncreasing(held)
    && NonIncreasing(buffer)
    && (forall i, j :: 0 <= i < |held| && 0 <= j < |buffer| ==> held[i].retryCount >= buffer[j].retryCount)
  }

  ghost predicate CountsBounded(c: Config, items: seq<Item>) {
    forall i :: 0 <= i < |items| ==> 0 <= items[i].retryCount <= RetryCap(c)
  }

  ghost predicate Fifo(c: Config, b: Books) {
    && Conserved(b)
    && CountsOrdered(b.held, b.buffer)
    && CountsBounded(c, b.held)
    && CountsBounded(c, b.buffer)
    && (b.phase == Idle || b.phase == Published ==> b.held == [])
    && (b.phase == Publishing || b.phase == Failed ==> b.held != [])
  }

  lemma OpeningIsFifo(c: Config)
    ensures Fifo(c, OPENING_BOOKS)
  {
  }

  lemma Regroup(settled: seq<Envelope>, taken: seq<Envelope>, rest: seq<Envelope>)
    ensures settled + [] + (taken + rest) == settled + taken + rest
    ensures (settled + taken) + [] + rest == settled + taken + rest
  {
  }

  lemma TakeKeepsConserved(c: Config, b: Books, now: nat, idOk: bool)
    requires Conserved(b) && (b.phase == Idle ==> b.held == [])
    ensures Conserved(TakeBatch(c, b, now, idOk))
  {
    if b.phase == Idle && b.buffer != [] {
      var n := ReadyCount(b.buffer, c.flushCount, now);
      assert b.buffer == b.buffer[..n] + b.buffer[n..];
      EnvelopesAppend(b.buffer[..n], b.buffer[n..]);
      SettledAppend(b.settled, Lost, b.buffer[..n]);
      assert Envelopes(b.held) == [];
      Regroup(SettledEnvelopes(b.settled), Envelopes(b.buffer[..n]), Envelopes(b.buffer[n..]));
    }
  }

  lemma TakeKeepsFifo(c: Config, b: Books, now: nat, idOk: bool)
    requires Fifo(c, b)
    ensures Fifo(c, TakeBatch(c, b, now, idOk))
  {
    TakeKeepsConserved(c, b, now, idOk);
  }

  lemma EnvelopesAppend(s: seq<Item>, t: seq<Item>)
    ensures Envelopes(s + t) == Envelopes(s) + Envelopes(t)
  {
  }

  /** A failed batch is its dropped items followed by its survivors. */
  lemma FailedBatchSplits(c: Config, items: seq<Item>, now: int)
    requires NonIncreasing(items)
    ensures Envelopes(Dropped(c, items)) + Envelopes(Survivors(c, items, now)) == Envelopes(items)
  {
    var front, rest := DropIsPrefix(c, items, now);
    EnvelopesAppend(front, rest);
    assert Envelopes(Survivors(c, items, now)) == Envelopes(rest);
  }

  lemma SettledAppend(entries: seq<Entry>, standing: Standing, items: seq<Item>)
    ensures SettledEnvelopes(entries + EntriesOf(standing, items)) == SettledEnvelopes(entries) + Envelopes(items)
  {
  }

  lemma RewriteKeepsConserved(c: Config, b: Books, now: nat)
    requires Fifo(c, b) && b.phase == Failed
    ensures Conserved(RewriteBatch(c, b, now))
  {
    var dropped, survivors := Dropped(c, b.held), Survivors(c, b.held, now);
    FailedBatchSplits(c, b.held, now);
    SettledAppend(b.settled, GivenUp, dropped);
    var s := SettledEnvelopes(b.settled);
    assert s + (Envelopes(dropped) + Envelopes(survivors)) + Envelopes(b.buffer)
        == (s + Envelopes(dropped)) + Envelopes(survivors) + Envelopes(b.buffer);
  }

  /** Survivors are a suffix of the batch, each with one retry more. */
  lemma SurvivorCounts(c: Config, items: seq<Item>, now: int) returns (front: seq<Item>, rest: seq<Item>)
    requires NonIncreasing(items) && CountsBounded(c, items)
    ensures items == front + rest && |Survivors(c, items, now)| == |rest|
    ensures forall i :: 0 <= i < |rest| ==> Survivors(c, items, now)[i].retryCount == rest[i].retryCount + 1
    ensures NonIncreasing(Survivors(c, items, now)) && CountsBounded(c, Survivors(c, items, now))
  {
    front, rest := DropIsPrefix(c, items, now);
    assert forall i :: 0 <= i < |rest| ==> rest[i] == items[|front| + i];
  }

  lemma RewriteKeepsFifo(c: Config, b: Books, now: nat)
    requires Fifo(c, b) && b.phase == Failed
    ensures Fifo(c, RewriteBatch(c, b, now))
  {
    RewriteKeepsConserved(c, b, now);
    var front, rest := SurvivorCounts(c, b.held, now);
    assert forall i :: 0 <= i < |rest| ==> rest[i] == b.held[|front| + i];
  }

  lemma PutBackKeepsFifo(c: Config, b: Books)
    requires Fifo(c, b) && b.phase == Requeueing
    ensures Fifo(c, Step(c, b, PutBack))
  {
    EnvelopesAppend(b.held, b.buffer);
  }

  lemma ArriveKeepsFifo(c: Config, b: Books, e: Envelope)
    requires Fifo(c, b)
    ensures Fifo(c, Step(c, b, Arrive(e)))
  {
    EnvelopesAppend(b.buffer, [Fresh(e)]);
    assert Envelopes([Fresh(e)]) == [e];
  }

  lemma AckKeepsFifo(c: Config, b: Books)
    requires Fifo(c, b) && b.phase == Publishing
    ensures Fifo(c, Step(c, b, Ack))
  {
    SettledAppend(b.settled, Acked, b.held);
  }

  /** Every step keeps the queue equation, the order of the retry counts and their bounds. */
  lemma StepKeepsFifo(c: Config, b: Books, a: Action)
    requires Fifo(c, b) && Enabled(b, a)
    ensures Fifo(c, Step(c, b, a))
  {
    match a
    case Arrive(e) => ArriveKeepsFifo(c, b, e);
    case Take(now, idOk) => TakeKeepsFifo(c, b, now, idOk);
    case Ack => AckKeepsFifo(c, b);
    case Rewrite(now) => RewriteKeepsFifo(c, b, now);
    case PutBack => PutBackKeepsFifo(c, b);
    case _ =>
  }

  lemma {:induction false} RunKeepsFifo(c: Config, b: Books, run: seq<Action>)
    requires Fifo(c, b) && Possible(c, b, run)
    ensures Fifo(c, After(c, b, run))
    decreases |run|
  {
    if run != [] {
      StepKeepsFifo(c, b, run[0]);
      RunKeepsFifo(c, Step(c, b, run[0]), run[1..]);
    }
  }

  ghost function Arrivals(run: seq<Action>): seq<Envelope> {
    if run == [] then [] else (if run[0].Arrive? then [run[0].envelope] else []) + Arrivals(run[1..])
  }

  lemma {:induction false} HistoryIsArrivals(c: Config, b: Books, run: seq<Action>)
    requires Possible(c, b, run)
    ensures After(c, b, run).history == b.history + Arrivals(run)
    decreases |run|
  {
    if run != [] {
      HistoryIsArrivals(c, Step(c, b, run[0]), run[1..]);
    }
  }

  /** Conservation over whole runs: the envelopes that arrived, in order, are the settled ones
      in settling order, then the ones a flush holds, then the buffered ones. */
  lemma NothingDuplicatedOrReordered(c: Config, run: seq<Action>)
    requires Possible(c, OPENING_BOOKS, run)
    ensures var b := After(c, OPENING_BOOKS, run);
            Arrivals(run) == SettledEnvelopes(b.settled) + Envelopes(b.held) + Envelopes(b.buffer)
  {
    RunKeepsFifo(c, OPENING_BOOKS, run);
    HistoryIsArrivals(c, OPENING_BOOKS, run);
    EmptyPrefix(Arrivals(run));
  }

  lemma EmptyPrefix(s: seq<Envelope>)
    ensures [] + s == s
  {
  }

  // ---- The one way to lose items ----

  ghost function CountOf(standing: Standing, entries: seq<Entry>): nat {
    if entries == [] then 0
    else CountOf(standing, entries[..|entries| - 1]) + (if entries[|entries| - 1].standing == standing then 1 else 0)
  }

  lemma {:induction false} CountOfAppend(standing: Standing, s: seq<Entry>, t: seq<Entry>)
    ensures CountOf(standing, s + t) == CountOf(standing, s) + CountOf(standing, t)
    decreases |t|
  {
    if t == [] {
      assert s + t == s;
    } else {
      assert (s + t)[..|s + t| - 1] == s + t[..|t| - 1];
      CountOfAppend(standing, s, t[..|t| - 1]);
    }
  }

  lemma {:induction false} CountOfEntries(standing: Standing, made: Standing, items: seq<Item>)
    ensures CountOf(standing, EntriesOf(made, items)) == if standing == made then |items| else 0
  {
    if items != [] {
      assert EntriesOf(made, items)[..|items| - 1] == EntriesOf(made, items[..|items| - 1]);
      CountOfEntries(standing, made, items[..|items| - 1]);
    }
  }

  /** The batch size when a flush cuts ready items from the buffer and then gets no
      transmission id; otherwise nothing. */
  ghost function CutWithoutId(c: Config, b: Books, a: Action): nat {
    if a.Take? && !a.idOk && b.phase == Idle then ReadyCount(b.buffer, c.flushCount, a.now) else 0
  }

  ghost function CutsWithoutId(c: Config, b: Books, run: seq<Action>): nat
    requires Possible(c, b, run)
    decreases |run|
  {
    if run == [] then 0 else CutWithoutId(c, b, run[0]) + CutsWithoutId(c, Step(c, b, run[0]), run[1..])
  }

  lemma StepLoses(c: Config, b: Books, a: Action)
    requires Enabled(b, a)
    ensures CountOf(Lost, Step(c, b, a).settled) == CountOf(Lost, b.settled) + CutWithoutId(c, b, a)
  {
    match a
    case Take(now, idOk) =>
      if b.phase == Idle {
        var n := ReadyCount(b.buffer, c.flushCount, now);
        CountOfAppend(Lost, b.settled, EntriesOf(Lost, b.buffer[..n]));
        CountOfEntries(Lost, Lost, b.buffer[..n]);
      }
    case Ack =>
      CountOfAppend(Lost, b.settled, EntriesOf(Acked, b.held));
      CountOfEntries(Lost, Acked, b.held);
    case Rewrite(now) =>
      CountOfAppend(Lost, b.settled, EntriesOf(GivenUp, Dropped(c, b.held)));
      CountOfEntries(Lost, GivenUp, Dropped(c, b.held));
    case _ =>
  }

  lemma {:induction false} LossAccount(c: Config, b: Books, run: seq<Action>)
    requires Possible(c, b, run)
    ensures CountOf(Lost, After(c, b, run).settled) == CountOf(Lost, b.settled) + CutsWithoutId(c, b, run)
    decreases |run|
  {
    if run != [] {
      StepLoses(c, b, run[0]);
      LossAccount(c, Step(c, b, run[0]), run[1..]);
    }
  }

  /** A flush that gets no transmission id while the head of the buffer is due. */
  predicate IdlessTakeMeetsItem(c: Config, b: Books, a: Action) {
    && a.Take? && !a.idOk
    && b.phase == Idle && c.flushCount >= 1
    && b.buffer != [] && b.buffer[0].notBefore <= a.now
  }

  ghost predicate NoIdlessTakeMeetsItem(c: Config, b: Books, run: seq<Action>)
    requires Possible(c, b, run)
    decreases |run|
  {
    run != [] ==>
      && !IdlessTakeMeetsItem(c, b, run[0])
      && NoIdlessTakeMeetsItem(c, Step(c, b, run[0]), run[1..])
  }

  lemma {:induction false} NothingCutIff(c: Config, b: Books, run: seq<Action>)
    requires Possible(c, b, run)
    ensures CutsWithoutId(c, b, run) == 0 <==> NoIdlessTakeMeetsItem(c, b, run)
    decreases |run|
  {
    if run != [] {
      NothingCutIff(c, Step(c, b, run[0]), run[1..]);
    }
  }

  /** Items are lost exactly as many as batches were cut without a transmission id: none, if
      and only if no flush without an id met a due item at the head of the buffer. */
  lemma LostExactlyWhenNoId(c: Config, run: seq<Action>)
    requires Possible(c, OPENING_BOOKS, run)
    ensures CountOf(Lost, After(c, OPENING_BOOKS, run).settled) == CutsWithoutId(c, OPENING_BOOKS, run)
    ensures CountOf(Lost, After(c, OPENING_BOOKS, run).settled) == 0 <==>
              NoIdlessTakeMeetsItem(c, OPENING_BOOKS, run)
  {
    LossAccount(c, OPENING_BOOKS, run);
    NothingCutIff(c, OPENING_BOOKS, run);
  }

  /** The error branch does lose: one arrival, one flush that gets no id, and the item is
      neither buffered nor held nor acknowledged nor dropped. */
  lemma IdFailureLosesAnItem(c: Config, e: Envelope)
    requires c.flushCount >= 1
    ensures var run := [Arrive(e), Take(1, false)];
            && Possible(c, OPENING_BOOKS, run)
            && After(c, OPENING_BOOKS, run).settled == [Entry(Lost, Fresh(e))]
            && After(c, OPENING_BOOKS, run).buffer == [] && After(c, OPENING_BOOKS, run).held == []
  {
    var run := [Arrive(e), Take(1, false)];
    var b1 := Step(c, OPENING_BOOKS, Arrive(e));
    assert b1.buffer == [Fresh(e)];
    ReadyCountUnique(b1.buffer, c.flushCount, 1, 1, ReadyCount(b1.buffer, c.flushCount, 1));
    var b2 := Step(c, b1, run[1]);
    assert b2.settled == [Entry(Lost, Fresh(e))];
    assert run[1..] == [Take(1, false)] && run[1..][1..] == [];
    assert After(c, b1, run[1..]) == After(c, b2, []);
  }
}

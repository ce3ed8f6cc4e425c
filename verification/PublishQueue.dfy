/** The publisher's queue seen through its books: what has arrived, what is settled, what one
    flush currently holds and what is still buffered. Every mutex section and every decision
    taken outside the mutex is one Action on the books. The buffered publisher's class and the
    system of concurrent flush tasks are both proved against this automaton. */
module PublishQueue {
  import opened Basics
  import opened Backoff
  import opened Telemetry

  /** Times are nanoseconds since Go's zero time. */
  const ZERO_TIME: int := 0

  datatype Envelope = Envelope(subject: string, sample: DeploymentSamples, receivedAt: int)

  datatype Item = Item(envelope: Envelope, retryCount: int, notBefore: int)

  datatype Config = Config(subject: string, flushCount: int, maxRetries: int, retryBackoff: Int64)

  function Fresh(envelope: Envelope): Item {
    Item(envelope, 0, ZERO_TIME)
  }

  /** The most retries any item can get. */
  function RetryCap(c: Config): nat {
    Max(c.maxRetries, 0)
  }

  /** The most items one flush can take. */
  function BatchLimit(c: Config): nat {
    Max(c.flushCount, 0)
  }

  // ---- The ready scan ----

  /** n is where a scan that stops at the first item not yet due, or at the limit, ends. */
  ghost predicate IsReadyCount(buffer: seq<Item>, limit: int, now: int, n: nat) {
    && n <= |buffer|
    && (n == 0 || n <= limit)
    && (forall i :: 0 <= i < n ==> buffer[i].notBefore <= now)
    && (n < |buffer| && n < limit ==> buffer[n].notBefore > now)
  }

  function ReadyCount(buffer: seq<Item>, limit: int, now: int): (n: nat)
    ensures IsReadyCount(buffer, limit, now, n)
  {
    ScanFrom(buffer, limit, now, 0)
  }

  function ScanFrom(buffer: seq<Item>, limit: int, now: int, k: nat): (n: nat)
    requires k <= |buffer| && (k == 0 || k <= limit)
    requires forall i :: 0 <= i < k ==> buffer[i].notBefore <= now
    ensures IsReadyCount(buffer, limit, now, n)
    decreases |buffer| - k
  {
    if k < |buffer| && k < limit && buffer[k].notBefore <= now then ScanFrom(buffer, limit, now, k + 1) else k
  }

  lemma ReadyCountUnique(buffer: seq<Item>, limit: int, now: int, m: nat, n: nat)
    requires IsReadyCount(buffer, limit, now, m) && IsReadyCount(buffer, limit, now, n)
    ensures m == n
  {
  }

  // ---- The failure loop ----

  function Bump(c: Config, item: Item, now: int): Item {
    item.(retryCount := item.retryCount + 1,
          notBefore := now + BackoffDelay(c.retryBackoff, item.retryCount + 1))
  }

  /** The items of a failed batch that are queued again. */
  function Survivors(c: Config, items: seq<Item>, now: int): (r: seq<Item>)
    ensures |r| <= |items|
  {
    if items == [] then []
    else
      var earlier := Survivors(c, items[..|items| - 1], now);
      var last := items[|items| - 1];
      if last.retryCount >= c.maxRetries then earlier else earlier + [Bump(c, last, now)]
  }

  /** The items of a failed batch that are given up. */
  function Dropped(c: Config, items: seq<Item>): (r: seq<Item>)
    ensures |r| <= |items|
  {
    if items == [] then []
    else
      var earlier := Dropped(c, items[..|items| - 1]);
      var last := items[|items| - 1];
      if last.retryCount >= c.maxRetries then earlier + [last] else earlier
  }

  ghost predicate NonIncreasing(items: seq<Item>) {
    forall i, j :: 0 <= i < j < |items| ==> items[i].retryCount >= items[j].retryCount
  }

  lemma {:induction false} FailureLoopAppend(c: Config, s: seq<Item>, t: seq<Item>, now: int)
    ensures Dropped(c, s + t) == Dropped(c, s) + Dropped(c, t)
    ensures Survivors(c, s + t, now) == Survivors(c, s, now) + Survivors(c, t, now)
    decreases |t|
  {
    if t == [] {
      assert s + t == s;
    } else {
      assert (s + t)[..|s + t| - 1] == s + t[..|t| - 1];
      FailureLoopAppend(c, s, t[..|t| - 1], now);
    }
  }

  lemma {:induction false} AllDropped(c: Config, items: seq<Item>, now: int)
    requires forall i :: 0 <= i < |items| ==> items[i].retryCount >= c.maxRetries
    ensures Dropped(c, items) == items && Survivors(c, items, now) == []
  {
    if items != [] { AllDropped(c, items[..|items| - 1], now); }
  }

  lemma {:induction false} NoneDropped(c: Config, items: seq<Item>, now: int)
    requires forall i :: 0 <= i < |items| ==> items[i].retryCount < c.maxRetries
    ensures Dropped(c, items) == [] && |Survivors(c, items, now)| == |items|
    ensures forall i :: 0 <= i < |items| ==> Survivors(c, items, now)[i] == Bump(c, items[i], now)
  {
    if items != [] { NoneDropped(c, items[..|items| - 1], now); }
  }

  lemma {:induction false} CutAt(items: seq<Item>, limit: int) returns (front: seq<Item>, rest: seq<Item>)
    requires NonIncreasing(items)
    ensures items == front + rest
    ensures forall i :: 0 <= i < |front| ==> front[i].retryCount >= limit
    ensures forall i :: 0 <= i < |rest| ==> rest[i].retryCount < limit
  {
    front, rest := items, [];
    if items != [] && items[|items| - 1].retryCount < limit {
      front, rest := CutAt(items[..|items| - 1], limit);
      rest := rest + [items[|items| - 1]];
    }
  }

  /** In a batch whose retry counts do not increase, what is dropped is a prefix and what
      survives is the rest, in order. */
  lemma DropIsPrefix(c: Config, items: seq<Item>, now: int) returns (front: seq<Item>, rest: seq<Item>)
    requires NonIncreasing(items)
    ensures items == front + rest
    ensures Dropped(c, items) == front && |Survivors(c, items, now)| == |rest|
    ensures forall i :: 0 <= i < |front| ==> front[i].retryCount >= c.maxRetries
    ensures forall i :: 0 <= i < |rest| ==>
              rest[i].retryCount < c.maxRetries && Survivors(c, items, now)[i] == Bump(c, rest[i], now)
  {
    hide Dropped, Survivors;
    front, rest := CutAt(items, c.maxRetries);
    FailureLoopAppend(c, front, rest, now);
    AllDropped(c, front, now);
    NoneDropped(c, rest, now);
  }

  // ---- The books ----

  /** Where an item stands: waiting in the buffer or about to be put back, out with Publish,
      or settled one of three ways. */
  datatype Standing = Queued | Out | Acked | GivenUp | Lost

  datatype Entry = Entry(standing: Standing, item: Item)

  /** The clock readings at which an item was handed to Publish and at which it failed. */
  datatype Trail = Trail(handedAt: seq<int>, failedAt: seq<int>)

  /** Where the one flush that may be under way stands: publishing; failed and not yet
      rewritten; rewritten and not yet put back; published and not yet finished. */
  datatype Phase = Idle | Publishing | Failed | Requeueing | Published

  /** history, settled, trails, window and clock are the record of the run so far:
      trails[k] belongs to the k-th arrival, window is what the latest failed batch put back
      and no flush has taken since, stamp is the clock reading of that failure. */
  datatype Books = Books(
    history: seq<Envelope>,
    settled: seq<Entry>,
    phase: Phase,
    held: seq<Item>,
    buffer: seq<Item>,
    trails: seq<Trail>,
    window: seq<Item>,
    stamp: int,
    clock: int)

  const OPENING_BOOKS: Books := Books([], [], Idle, [], [], [], [], ZERO_TIME, ZERO_TIME)

  /** A clock reading may be any time from the zero time on, also an earlier one than before. */
  datatype Action =
    | Arrive(envelope: Envelope)
    | Take(now: nat, idOk: bool)
    | Ack
    | Reject
    | Rewrite(now: nat)
    | PutBack
    | Finish
    | Other

  predicate Enabled(b: Books, a: Action) {
    match a
    case Ack => b.phase == Publishing
    case Reject => b.phase == Publishing
    case Rewrite(_) => b.phase == Failed
    case PutBack => b.phase == Requeueing
    case Finish => b.phase == Published
    case _ => true
  }

  function EntriesOf(standing: Standing, items: seq<Item>): (r: seq<Entry>)
    ensures |r| == |items|
    ensures forall i :: 0 <= i < |items| ==> r[i] == Entry(standing, items[i])
  {
    seq(|items|, i requires 0 <= i < |items| => Entry(standing, items[i]))
  }

  function HandedOnce(t: Trail, now: int): Trail {
    t.(handedAt := t.handedAt + [now])
  }

  function FailedOnce(t: Trail, now: int): Trail {
    t.(failedAt := t.failedAt + [now])
  }

  function MarkHanded(trails: seq<Trail>, from: nat, to: nat, now: int): (r: seq<Trail>)
    ensures |r| == |trails|
    ensures forall k :: 0 <= k < |trails| ==> r[k] == if from <= k < to then HandedOnce(trails[k], now) else trails[k]
  {
    seq(|trails|, k requires 0 <= k < |trails| => if from <= k < to then HandedOnce(trails[k], now) else trails[k])
  }

  function MarkFailed(trails: seq<Trail>, from: nat, to: nat, now: int): (r: seq<Trail>)
    ensures |r| == |trails|
    ensures forall k :: 0 <= k < |trails| ==> r[k] == if from <= k < to then FailedOnce(trails[k], now) else trails[k]
  {
    seq(|trails|, k requires 0 <= k < |trails| => if from <= k < to then FailedOnce(trails[k], now) else trails[k])
  }

  /** dequeueReadyBatch. When no transmission id can be made, the batch has left the buffer
      and is in nobody's hands. */
  function TakeBatch(c: Config, b: Books, now: nat, idOk: bool): Books {
    if b.phase != Idle || b.buffer == [] then b
    else
      var n := ReadyCount(b.buffer, c.flushCount, now);
      var from := |b.settled|;
      if n == 0 then b.(clock := now)
      else if !idOk then
        b.(settled := b.settled + EntriesOf(Lost, b.buffer[..n]), buffer := b.buffer[n..], window := [], clock := now)
      else
        b.(phase := Publishing, held := b.buffer[..n], buffer := b.buffer[n..],
           trails := MarkHanded(b.trails, from, from + n, now), window := [], clock := now)
  }

  /** The loop of handlePublishFailure, with its clock reading. */
  function RewriteBatch(c: Config, b: Books, now: nat): Books {
    b.(phase := Requeueing,
       settled := b.settled + EntriesOf(GivenUp, Dropped(c, b.held)),
       held := Survivors(c, b.held, now),
       trails := MarkFailed(b.trails, |b.settled|, |b.settled| + |b.held|, now),
       stamp := now, clock := now)
  }

  function Step(c: Config, b: Books, a: Action): Books
    requires Enabled(b, a)
  {
    match a
    case Arrive(e) => b.(history := b.history + [e], buffer := b.buffer + [Fresh(e)],
                         trails := b.trails + [Trail([], [])])
    case Take(now, idOk) => TakeBatch(c, b, now, idOk)
    case Ack => b.(phase := Published, settled := b.settled + EntriesOf(Acked, b.held), held := [])
    case Reject => b.(phase := Failed)
    case Rewrite(now) => RewriteBatch(c, b, now)
    case PutBack => b.(phase := Idle, held := [], buffer := b.held + b.buffer, window := b.held)
    case Finish => b.(phase := Idle)
    case Other => b
  }

  // ---- Runs ----

  ghost predicate Possible(c: Config, b: Books, run: seq<Action>)
    decreases |run|
  {
    run != [] ==> Enabled(b, run[0]) && Possible(c, Step(c, b, run[0]), run[1..])
  }

  ghost function After(c: Config, b: Books, run: seq<Action>): Books
    requires Possible(c, b, run)
    decreases |run|
  {
    if run == [] then b else After(c, Step(c, b, run[0]), run[1..])
  }

  /** Some run leads from b to b'. */
  ghost predicate Leads(c: Config, b: Books, b': Books) {
    exists run: seq<Action> :: Possible(c, b, run) && After(c, b, run) == b'
  }

  /** b is what some run makes of the empty queue. */
  ghost predicate Reachable(c: Config, b: Books) {
    Leads(c, OPENING_BOOKS, b)
  }

  lemma {:induction false} AfterAppend(c: Config, b: Books, run: seq<Action>, a: Action)
    requires Possible(c, b, run) && Enabled(After(c, b, run), a)
    ensures Possible(c, b, run + [a])
    ensures After(c, b, run + [a]) == Step(c, After(c, b, run), a)
    decreases |run|
  {
    if run == [] {
      assert [] + [a] == [a] && [a][1..] == [];
      var b' := Step(c, b, a);
      assert Possible(c, b', []) && After(c, b', []) == b';
    } else {
      AfterAppend(c, Step(c, b, run[0]), run[1..], a);
      assert (run + [a])[1..] == run[1..] + [a];
    }
  }

  lemma LeadsNowhere(c: Config, b: Books)
    ensures Leads(c, b, b)
  {
    assert Possible(c, b, []) && After(c, b, []) == b;
  }

  lemma LeadsStep(c: Config, b: Books, b': Books, a: Action)
    requires Leads(c, b, b') && Enabled(b', a)
    ensures Leads(c, b, Step(c, b', a))
  {
    var run :| Possible(c, b, run) && After(c, b, run) == b';
    AfterAppend(c, b, run, a);
  }
}

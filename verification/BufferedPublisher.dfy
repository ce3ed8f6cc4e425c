/** The publisher with the fields and loops it has in the source. Each method is one mutex
    section together with what the flush does next to it; the clock readings, the outcome of
    Publish and whether a transmission id could be made are parameters. Every method is
    proved to be the corresponding step of the queue's books, and a valid publisher's books
    are those of some run, so what is proved about the runs holds of the class. */
module BufferedPublishing {
  import opened Telemetry
  import opened PublishQueue
  import opened FlushRuns
  import opened RetryWindow

  function SamplesOf(items: seq<Item>): (r: seq<DeploymentSamples>)
    ensures |r| == |items|
    ensures forall i :: 0 <= i < |items| ==> r[i] == items[i].envelope.sample
  {
    seq(|items|, i requires 0 <= i < |items| => items[i].envelope.sample)
  }

  datatype Batch = Batch(items: seq<Item>, subject: string, samples: seq<DeploymentSamples>)

  datatype Dequeued = NothingReady | NoTransmissionID | Ready(batch: Batch)

  class BufferedPublisher {
    const cfg: Config
    var buffer: seq<Item>
    var flushing: bool
    var publishBatches: nat
    var publishFailures: nat
    var publishRetries: nat
    var publishDroppedItems: nat
    var queueDepth: nat
    ghost var books: Books

    ghost predicate Valid()
      reads this
    {
      && buffer == books.buffer
      && flushing == (books.phase != Idle)
      && Sound(cfg, books)
    }

    /** make([]bufferedItem, 0, n) demands a capacity that is not negative. */
    constructor (cfg: Config)
      requires cfg.flushCount >= 0
      ensures Valid() && this.cfg == cfg
      ensures buffer == [] && !flushing && books == OPENING_BOOKS
      ensures publishBatches == publishFailures == publishRetries == publishDroppedItems == 0
    {
      this.cfg := cfg;
      buffer, flushing := [], false;
      publishBatches, publishFailures, publishRetries, publishDroppedItems, queueDepth := 0, 0, 0, 0, 0;
      books := OPENING_BOOKS;
      new;
      OpeningIsSound(cfg);
    }

    /** Enqueue; the result says whether it goes on to start a flush. */
    method Enqueue(envelope: Envelope) returns (shouldFlush: bool)
      requires Valid()
      modifies this`buffer, this`queueDepth, this`books
      ensures Valid() && books == Step(cfg, old(books), Arrive(envelope))
      ensures buffer == old(buffer) + [Fresh(envelope)] && queueDepth == |buffer|
      ensures shouldFlush <==> |buffer| >= cfg.flushCount && !flushing
    {
      hide Sound;
      StepKeepsSound(cfg, books, Arrive(envelope));
      buffer := buffer + [Fresh(envelope)];
      books := Step(cfg, books, Arrive(envelope));
      queueDepth := |buffer|;
      shouldFlush := queueDepth >= cfg.flushCount && !flushing;
    }

    /** What others enqueue while one goroutine is between two of its sections. A flush that is
        started meanwhile finds the flag up and does nothing. */
    method OthersEnqueue(envelopes: seq<Envelope>)
      requires Valid()
      modifies this`buffer, this`queueDepth, this`books
      ensures Valid() && books == Arrived(cfg, old(books), envelopes)
      ensures buffer == old(buffer) + FreshAll(envelopes)
      ensures queueDepth == if envelopes == [] then old(queueDepth) else |buffer|
    {
      hide Sound;
      for i := 0 to |envelopes|
        invariant Valid() && books == Arrived(cfg, old(books), envelopes[..i])
        invariant queueDepth == if i == 0 then old(queueDepth) else |buffer|
      {
        assert envelopes[..i + 1][..i] == envelopes[..i];
        var _ := Enqueue(envelopes[i]);
      }
      assert envelopes[..|envelopes|] == envelopes;
      ArrivedBuffer(cfg, old(books), envelopes);
    }

    /** The ready scan of dequeueReadyBatch. */
    method CountReady(now: nat) returns (readyCount: nat)
      ensures IsReadyCount(buffer, cfg.flushCount, now, readyCount)
    {
      readyCount := 0;
      while readyCount < |buffer| && readyCount < cfg.flushCount
        invariant readyCount <= |buffer| && (readyCount == 0 || readyCount <= cfg.flushCount)
        invariant forall i :: 0 <= i < readyCount ==> buffer[i].notBefore <= now
      {
        if buffer[readyCount].notBefore > now {
          break;
        }
        readyCount := readyCount + 1;
      }
    }

    method CollectSamples(items: seq<Item>) returns (samples: seq<DeploymentSamples>)
      ensures samples == SamplesOf(items)
    {
      samples := [];
      for i := 0 to |items|
        invariant samples == SamplesOf(items)[..i]
      {
        samples := samples + [items[i].envelope.sample];
      }
    }

    /** dequeueReadyBatch. When nothing that ever arrived has a subject of its own, every batch goes
        out under the configured one. */
    method DequeueReadyBatch(now: nat, idOk: bool) returns (r: Dequeued)
      requires Valid()
      modifies this`buffer, this`flushing, this`queueDepth, this`books
      ensures Valid() && books == Step(cfg, old(books), Take(now, idOk))
      ensures var n := if old(flushing) then 0 else ReadyCount(old(buffer), cfg.flushCount, now);
              && buffer == old(buffer)[n..]
              && flushing == (old(flushing) || (n > 0 && idOk))
              && queueDepth == (if n > 0 then |buffer| else old(queueDepth))
              && r == (if n == 0 then NothingReady
                       else if !idOk then NoTransmissionID
                       else Ready(Batch(old(buffer)[..n], SubjectOf(cfg, old(buffer)[..n]),
                                        SamplesOf(old(buffer)[..n]))))
      ensures r.Ready? ==> books.phase == Publishing && books.held == r.batch.items && r.batch.items != []
      ensures r.Ready? ==>
                var first := r.batch.items[0].envelope.subject;
                && (first == "" ==> r.batch.subject == cfg.subject)
                && (first != "" ==> r.batch.subject == first)
      ensures r.Ready? && NoSubjects(old(books).history) ==> r.batch.subject == cfg.subject
    {
      hide Sound;
      StepKeepsSound(cfg, books, Take(now, idOk));
      SoundSubjects(cfg, books);
      ghost var next := Step(cfg, books, Take(now, idOk));
      if flushing || |buffer| == 0 {
        return NothingReady;
      }
      var readyCount := CountReady(now);
      ReadyCountUnique(buffer, cfg.flushCount, now, readyCount, ReadyCount(buffer, cfg.flushCount, now));
      books := next;
      if readyCount == 0 {
        return NothingReady;
      }
      flushing := true;
      var items := buffer[..readyCount];
      buffer := buffer[readyCount..];
      queueDepth := |buffer|;
      if !idOk {
        flushing := false;
        return NoTransmissionID;
      }
      var samples := CollectSamples(items);
      r := Ready(Batch(items, SubjectOf(cfg, items), samples));
    }

    /** The loop of handlePublishFailure. */
    method RetryOrDrop(items: seq<Item>, now: nat) returns (requeued: seq<Item>, droppedCount: nat)
      ensures requeued == Survivors(cfg, items, now)
      ensures droppedCount == |Dropped(cfg, items)|
    {
      requeued, droppedCount := [], 0;
      for i := 0 to |items|
        invariant requeued == Survivors(cfg, items[..i], now)
        invariant droppedCount == |Dropped(cfg, items[..i])|
      {
        assert items[..i + 1][..i] == items[..i];
        if items[i].retryCount >= cfg.maxRetries {
          droppedCount := droppedCount + 1;
        } else {
          requeued := requeued + [Bump(cfg, items[i], now)];
        }
      }
      assert items[..|items|] == items;
    }

    /** The mutex section of handlePublishFailure. */
    method Requeue(requeued: seq<Item>)
      requires Valid() && books.phase == Requeueing && requeued == books.held
      modifies this`buffer, this`flushing, this`books
      ensures Valid() && !flushing && books == Step(cfg, old(books), PutBack)
      ensures buffer == requeued + old(buffer)
    {
      hide Sound;
      StepKeepsSound(cfg, books, PutBack);
      buffer := requeued + buffer;
      flushing := false;
      books := Step(cfg, books, PutBack);
    }

    /** handlePublishFailure, for the batch that is out; others may enqueue while its loop runs. */
    method HandlePublishFailure(items: seq<Item>, now: nat, rewriting: seq<Envelope>)
      requires Valid() && books.phase == Publishing && items == books.held
      modifies this`buffer, this`flushing, this`queueDepth, this`publishRetries, this`publishDroppedItems, this`books
      ensures var rewritten := RewriteBatch(cfg, Step(cfg, old(books), Reject), now);
              Valid() && books == Step(cfg, Arrived(cfg, rewritten, rewriting), PutBack)
      ensures !flushing && queueDepth == |buffer|
      ensures buffer == Survivors(cfg, items, now) + (old(buffer) + FreshAll(rewriting))
      ensures publishRetries == old(publishRetries) + |Survivors(cfg, items, now)|
      ensures publishDroppedItems == old(publishDroppedItems) + |Dropped(cfg, items)|
    {
      hide Sound, Survivors, Dropped, RewriteBatch, Arrived;
      StepKeepsSound(cfg, books, Reject);
      StepKeepsSound(cfg, Step(cfg, books, Reject), Rewrite(now));
      RewrittenPhase(cfg, Step(cfg, books, Reject), now);
      var requeued, droppedCount := RetryOrDrop(items, now);
      books := RewriteBatch(cfg, Step(cfg, books, Reject), now);
      OthersEnqueue(rewriting);
      Requeue(requeued);
      publishRetries := publishRetries + |requeued|;
      publishDroppedItems := publishDroppedItems + droppedCount;
      queueDepth := |buffer|;
    }

    /** finishFlush, for the batch that Publish accepted. */
    method FinishFlush()
      requires Valid() && books.phase == Publishing
      modifies this`flushing, this`books
      ensures Valid() && !flushing
      ensures books == Step(cfg, Step(cfg, old(books), Ack), Finish)
    {
      hide Sound;
      StepKeepsSound(cfg, books, Ack);
      var b := Step(cfg, books, Ack);
      StepKeepsSound(cfg, b, Finish);
      flushing := false;
      books := Step(cfg, b, Finish);
    }

    /** flush, others enqueueing in its gaps. Whatever Publish answers, the flag is back down and
        every item of the batch is acknowledged, queued again in front of everything, given up
        or, when no id could be made, lost; what arrived meanwhile is behind. */
    method Flush(takenAt: nat, idOk: bool, published: bool, failedAt: nat, during: seq<Envelope>,
                 rewriting: seq<Envelope>)
      returns (attempted: seq<Item>)
      requires Valid()
      modifies this
      ensures Valid() && flushing == old(flushing)
      ensures books == FlushedBooks(cfg, old(books), takenAt, idOk, published, failedAt, during, rewriting)
      ensures Leads(cfg, old(books), books)
      ensures var n := if old(flushing) then 0 else ReadyCount(old(buffer), cfg.flushCount, takenAt);
              && attempted == (if idOk then old(buffer)[..n] else [])
              && (attempted == [] ==> buffer == old(buffer)[n..])
              && (attempted != [] && published ==> buffer == old(buffer)[n..] + FreshAll(during))
              && (attempted != [] && !published ==>
                    buffer == Survivors(cfg, attempted, failedAt)
                              + (old(buffer)[n..] + FreshAll(during) + FreshAll(rewriting)))
      ensures publishBatches == old(publishBatches) + (if attempted != [] && published then 1 else 0)
      ensures publishFailures == old(publishFailures) + (if attempted != [] && !published then 1 else 0)
    {
      hide Sound, Survivors, Dropped, ReadyCount, SubjectOf, SamplesOf, MarkFailed, MarkHanded, RewriteBatch, Arrived,
        Leads;
      LeadsNowhere(cfg, books);
      FlushIsARun(cfg, books, books, takenAt, idOk, published, failedAt, during, rewriting);
      attempted := [];
      var r := DequeueReadyBatch(takenAt, idOk);
      match r
      case NothingReady =>
      case NoTransmissionID =>
      case Ready(batch) =>
        attempted := batch.items;
        OthersEnqueue(during);
        if published {
          publishBatches := publishBatches + 1;
          FinishFlush();
        } else {
          publishFailures := publishFailures + 1;
          HandlePublishFailure(batch.items, failedAt, rewriting);
        }
    }

    /** What is proved of the books' reachable states holds of every valid publisher, the shape
        of the buffer for one. */
    lemma BufferShape(now: nat)
      requires Valid() && Tame(cfg)
      ensures ReadyCount(buffer, cfg.flushCount, now) == HeadScan(buffer, cfg.flushCount, now)
      ensures flushing ==> AllFresh(buffer)
    {
      BufferIsWindowThenFresh(cfg, books);
      ReachableIsWindowed(cfg, books);
      HeadDecides(cfg, books, now);
    }
  }
}

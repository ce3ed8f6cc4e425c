/** The books of one flush with what arrives in its gaps, and why they are a run's. */
module FlushRuns {
  import opened PublishQueue
  import opened QueueOrder
  import opened QueueTrails

  /** The books are those of some run, and in order. */
  ghost predicate Sound(c: Config, b: Books) {
    Reachable(c, b) && Fifo(c, b) && Recorded(c, b)
  }

  lemma OpeningIsSound(c: Config)
    ensures Sound(c, OPENING_BOOKS)
  {
    LeadsNowhere(c, OPENING_BOOKS);
    OpeningIsFifo(c);
    OpeningIsRecorded(c);
  }

  lemma StepKeepsSound(c: Config, b: Books, a: Action)
    requires Sound(c, b) && Enabled(b, a)
    ensures Sound(c, Step(c, b, a))
  {
    hide Leads, Fifo, Recorded;
    LeadsStep(c, OPENING_BOOKS, b, a);
    StepKeepsFifo(c, b, a);
    StepKeepsRecorded(c, b, a);
  }

  // ---- The subject of a batch ----

  /** A batch goes out under its first item's subject, or the configured one. */
  function SubjectOf(c: Config, items: seq<Item>): string
    requires items != []
  {
    if items[0].envelope.subject != "" then items[0].envelope.subject else c.subject
  }

  /** No envelope has a subject of its own, as Handle enqueues them. */
  predicate NoSubjects(envelopes: seq<Envelope>) {
    forall i :: 0 <= i < |envelopes| ==> envelopes[i].subject == ""
  }

  /** Then no item held or buffered has one. */
  lemma ConservedSubjects(b: Books)
    requires Conserved(b) && NoSubjects(b.history)
    ensures forall i :: 0 <= i < |b.held| ==> b.held[i].envelope.subject == ""
    ensures forall i :: 0 <= i < |b.buffer| ==> b.buffer[i].envelope.subject == ""
  {
    var s := |b.settled|;
    assert forall i :: 0 <= i < |b.held| ==> b.history[s + i] == b.held[i].envelope;
    assert forall i :: 0 <= i < |b.buffer| ==> b.history[s + |b.held| + i] == b.buffer[i].envelope;
  }

  lemma SoundSubjects(c: Config, b: Books)
    requires Sound(c, b)
    ensures NoSubjects(b.history) ==> forall i :: 0 <= i < |b.buffer| ==> b.buffer[i].envelope.subject == ""
  {
    if NoSubjects(b.history) { ConservedSubjects(b); }
  }

  // ---- What others enqueue in a gap ----

  function Arrived(c: Config, b: Books, envelopes: seq<Envelope>): (r: Books)
    ensures r.phase == b.phase && r.held == b.held && r.settled == b.settled
    decreases |envelopes|
  {
    if envelopes == [] then b
    else Step(c, Arrived(c, b, envelopes[..|envelopes| - 1]), Arrive(envelopes[|envelopes| - 1]))
  }

  function FreshAll(envelopes: seq<Envelope>): (r: seq<Item>)
    ensures |r| == |envelopes|
    ensures forall i :: 0 <= i < |envelopes| ==> r[i] == Fresh(envelopes[i])
  {
    seq(|envelopes|, i requires 0 <= i < |envelopes| => Fresh(envelopes[i]))
  }

  lemma {:induction false} ArrivedBuffer(c: Config, b: Books, envelopes: seq<Envelope>)
    ensures Arrived(c, b, envelopes).buffer == b.buffer + FreshAll(envelopes)
    decreases |envelopes|
  {
    if envelopes != [] {
      var init := envelopes[..|envelopes| - 1];
      ArrivedBuffer(c, b, init);
      assert FreshAll(envelopes) == FreshAll(init) + [Fresh(envelopes[|envelopes| - 1])];
    }
  }

  // ---- A flush as a run ----

  /** The books after one flush: `during` is enqueued while Publish is under way, `rewriting`
      between a failure and the requeue. */
  function FlushedBooks(c: Config, b: Books, takenAt: nat, idOk: bool, published: bool, failedAt: nat,
                        during: seq<Envelope>, rewriting: seq<Envelope>): Books {
    var out := Step(c, b, Take(takenAt, idOk));
    if b.phase != Idle || out.phase != Publishing then out
    else
      var asked := Arrived(c, out, during);
      if published then Step(c, Step(c, asked, Ack), Finish)
      else Step(c, Arrived(c, RewriteBatch(c, Step(c, asked, Reject), failedAt), rewriting), PutBack)
  }

  lemma {:induction false} LeadsArrived(c: Config, b: Books, b': Books, envelopes: seq<Envelope>)
    requires Leads(c, b, b')
    ensures Leads(c, b, Arrived(c, b', envelopes))
    decreases |envelopes|
  {
    hide Leads;
    if envelopes != [] {
      LeadsArrived(c, b, b', envelopes[..|envelopes| - 1]);
      LeadsStep(c, b, Arrived(c, b', envelopes[..|envelopes| - 1]), Arrive(envelopes[|envelopes| - 1]));
    }
  }

  /** A flush of the class, with what others enqueue in its gaps, is a run of the books. */
  lemma FlushIsARun(c: Config, b0: Books, b: Books, takenAt: nat, idOk: bool, published: bool, failedAt: nat,
                    during: seq<Envelope>, rewriting: seq<Envelope>)
    requires Leads(c, b0, b)
    ensures Leads(c, b0, FlushedBooks(c, b, takenAt, idOk, published, failedAt, during, rewriting))
  {
    hide Leads, TakeBatch, RewriteBatch;
    var out := Step(c, b, Take(takenAt, idOk));
    LeadsStep(c, b0, b, Take(takenAt, idOk));
    if b.phase == Idle && out.phase == Publishing {
      var asked := Arrived(c, out, during);
      LeadsArrived(c, b0, out, during);
      if published {
        LeadsStep(c, b0, asked, Ack);
        LeadsStep(c, b0, Step(c, asked, Ack), Finish);
      } else {
        var b1 := Step(c, asked, Reject);
        LeadsStep(c, b0, asked, Reject);
        LeadsStep(c, b0, b1, Rewrite(failedAt));
        RewrittenPhase(c, b1, failedAt);
        LeadsArrived(c, b0, Step(c, b1, Rewrite(failedAt)), rewriting);
        LeadsStep(c, b0, Arrived(c, Step(c, b1, Rewrite(failedAt)), rewriting), PutBack);
      }
    }
  }

  lemma RewrittenPhase(c: Config, b: Books, now: nat)
    ensures RewriteBatch(c, b, now).phase == Requeueing && RewriteBatch(c, b, now).held == Survivors(c, b.held, now)
    ensures RewriteBatch(c, b, now).buffer == b.buffer
  {
  }
}

/** The user service's outbox processor: every tick fetches up to 100 unprocessed
    records, oldest first, and for each one either skips it (five or more failed
    attempts), or publishes its payload to the "user.events" exchange and marks
    it processed, or records the failure and goes on with the next record.

    The broker and the database are inputs: a `Delivery` says, for the record at
    one position of the batch, whether the publish went through, whether marking
    it processed went through, whether recording the failure went through, the
    text of the exception and the clock reading. An exception thrown while
    recording a failure leaves ProcessOutboxEvents; ExecuteAsync logs it and the
    rest of that batch waits for the next tick. */
module UserDispatch {
  import opened Base
  import opened OutboxQueries
  import opened UserOutbox

  const BatchSize: int := 100
  const MaxRetries: int := 5
  const Exchange: string := "user.events"

  datatype Message = Message(exchange: string, routingKey: string, body: string)

  function MessageFor(r: OutboxRecord): Message {
    Message(Exchange, r.routingKey, r.eventData)
  }

  datatype Delivery = Delivery(published: bool, marked: bool, failureRecorded: bool, error: string, now: Time)

  /** The outbox collection, the messages published on the channel, and whether
      an exception has ended the current tick. */
  datatype TickState = TickState(records: seq<OutboxRecord>, sent: seq<Message>, aborted: bool)

  /** One iteration of the foreach loop, for batch record `r`. */
  function Handle(s: TickState, r: OutboxRecord, dv: Delivery): TickState {
    if r.retryCount >= MaxRetries then s
    else
      var sent := if dv.published then s.sent + [MessageFor(r)] else s.sent;
      if dv.published && dv.marked then TickState(MarkProcessedById(s.records, r.id, dv.now), sent, false)
      else if dv.failureRecorded then TickState(MarkFailedById(s.records, r.id, dv.error), sent, false)
      else TickState(s.records, sent, true)
  }

  /** The first i iterations of the loop; an exception stops it. */
  function ProcessBatch(s: TickState, batch: seq<OutboxRecord>, dvs: nat -> Delivery, i: nat): TickState
    requires i <= |batch|
  {
    if i == 0 then s
    else
      var p := ProcessBatch(s, batch, dvs, i - 1);
      if p.aborted then p else Handle(p, batch[i - 1], dvs(i - 1))
  }

  /** ProcessOutboxEvents. */
  function TickStep(records: seq<OutboxRecord>, sent: seq<Message>, dvs: nat -> Delivery): TickState {
    var batch := Unprocessed(records, BatchSize);
    if batch == [] then TickState(records, sent, false)
    else ProcessBatch(TickState(records, sent, false), batch, dvs, |batch|)
  }

  /** The iteration for batch position j throws out of the loop. */
  predicate AbortsAt(batch: seq<OutboxRecord>, dvs: nat -> Delivery, j: nat)
    requires j < |batch|
  {
    batch[j].retryCount < MaxRetries && !(dvs(j).published && dvs(j).marked) && !dvs(j).failureRecorded
  }

  /** The loop reaches batch position j. */
  predicate Live(batch: seq<OutboxRecord>, dvs: nat -> Delivery, j: nat)
    requires j <= |batch|
  {
    forall j' :: 0 <= j' < j ==> !AbortsAt(batch, dvs, j')
  }

  /** What handling batch record `r` does to the stored record `rec`. */
  function Fate(rec: OutboxRecord, r: OutboxRecord, dv: Delivery): (f: OutboxRecord)
    ensures f.id == rec.id && f.eventData == rec.eventData && f.routingKey == rec.routingKey
    ensures f.createdAt == rec.createdAt && f.eventType == rec.eventType
    ensures rec.isProcessed ==> f.isProcessed
    ensures f.retryCount == rec.retryCount || f.retryCount == rec.retryCount + 1
  {
    if rec.id != r.id || r.retryCount >= MaxRetries then rec
    else if dv.published && dv.marked then rec.(isProcessed := true, processedAt := Some(dv.now))
    else if dv.failureRecorded then rec.(retryCount := rec.retryCount + 1, lastError := Some(dv.error))
    else rec
  }

  /** The messages the first i iterations publish, in batch order. */
  function Published(batch: seq<OutboxRecord>, dvs: nat -> Delivery, i: nat): seq<Message>
    requires i <= |batch|
  {
    if i == 0 then []
    else
      Published(batch, dvs, i - 1)
      + (if Live(batch, dvs, i - 1) && batch[i - 1].retryCount < MaxRetries && dvs(i - 1).published
         then [MessageFor(batch[i - 1])] else [])
  }

  /** The loop keeps the collection's length and its ids. */
  lemma {:induction false} BatchKeepsIds(s: TickState, batch: seq<OutboxRecord>, dvs: nat -> Delivery, i: nat)
    requires i <= |batch|
    ensures var out := ProcessBatch(s, batch, dvs, i);
      |out.records| == |s.records| && forall k :: 0 <= k < |s.records| ==> out.records[k].id == s.records[k].id
  {
    if i > 0 {
      BatchKeepsIds(s, batch, dvs, i - 1);
    }
  }

  /** A stored record no batch record before position i names is left alone. */
  lemma {:induction false} BatchUntouched(s: TickState, batch: seq<OutboxRecord>, dvs: nat -> Delivery, i: nat, k: nat)
    requires i <= |batch| && k < |s.records|
    requires forall j :: 0 <= j < i ==> batch[j].id != s.records[k].id
    ensures |ProcessBatch(s, batch, dvs, i).records| == |s.records|
    ensures ProcessBatch(s, batch, dvs, i).records[k] == s.records[k]
  {
    BatchKeepsIds(s, batch, dvs, i);
    if i > 0 {
      BatchUntouched(s, batch, dvs, i - 1, k);
    }
  }

  /** The stored record batch position j names is handled by that position alone,
      if the loop reaches it. */
  lemma {:induction false} BatchHandled(s: TickState, batch: seq<OutboxRecord>, dvs: nat -> Delivery, i: nat, j: nat, k: nat)
    requires j < i <= |batch| && k < |s.records| && !s.aborted
    requires DistinctBy(batch, IdOf) && batch[j].id == s.records[k].id
    ensures |ProcessBatch(s, batch, dvs, i).records| == |s.records|
    ensures ProcessBatch(s, batch, dvs, i).records[k]
      == if Live(batch, dvs, j) then Fate(s.records[k], batch[j], dvs(j)) else s.records[k]
    decreases i
  {
    BatchKeepsIds(s, batch, dvs, i);
    BatchKeepsIds(s, batch, dvs, i - 1);
    BatchLog(s, batch, dvs, i - 1);
    var p := ProcessBatch(s, batch, dvs, i - 1);
    if !p.aborted {
      HandleAt(p, batch[i - 1], dvs(i - 1), k);
    }
    if i - 1 == j {
      forall j' | 0 <= j' < j ensures batch[j'].id != s.records[k].id {
        assert IdOf(batch[j']) != IdOf(batch[j]);
      }
      BatchUntouched(s, batch, dvs, j, k);
    } else {
      BatchHandled(s, batch, dvs, i - 1, j, k);
      assert IdOf(batch[j]) != IdOf(batch[i - 1]);
    }
  }

  /** One iteration does to each stored record what `Fate` says. */
  lemma HandleAt(s: TickState, r: OutboxRecord, dv: Delivery, k: nat)
    requires k < |s.records|
    ensures |Handle(s, r, dv).records| == |s.records|
    ensures Handle(s, r, dv).records[k] == Fate(s.records[k], r, dv)
  {
  }

  /** The tick publishes exactly the messages `Published` lists, and ends early
      exactly when some iteration it reached threw. */
  lemma {:induction false} BatchLog(s: TickState, batch: seq<OutboxRecord>, dvs: nat -> Delivery, i: nat)
    requires i <= |batch| && !s.aborted
    ensures var out := ProcessBatch(s, batch, dvs, i);
      out.sent == s.sent + Published(batch, dvs, i) && (out.aborted <==> !Live(batch, dvs, i))
  {
    if i > 0 {
      BatchLog(s, batch, dvs, i - 1);
      assert Live(batch, dvs, i) <==> Live(batch, dvs, i - 1) && !AbortsAt(batch, dvs, i - 1);
    }
  }

  /** Only non-skipped batch records are published, to "user.events" with their own
      routing key and payload, and each one the loop reaches with a working
      publish is. */
  lemma {:induction false} PublishedSpec(batch: seq<OutboxRecord>, dvs: nat -> Delivery, i: nat)
    requires i <= |batch|
    ensures |Published(batch, dvs, i)| <= i
    ensures forall m :: m in Published(batch, dvs, i) ==>
      m.exchange == Exchange
      && exists j :: 0 <= j < i && batch[j].retryCount < MaxRetries && dvs(j).published && m == MessageFor(batch[j])
    ensures forall j :: 0 <= j < i && Live(batch, dvs, j) && batch[j].retryCount < MaxRetries && dvs(j).published ==>
      MessageFor(batch[j]) in Published(batch, dvs, i)
  {
    if i > 0 {
      PublishedSpec(batch, dvs, i - 1);
    }
  }

  lemma BatchFromStore(records: seq<OutboxRecord>, batch: seq<OutboxRecord>)
    requires DistinctBy(records, IdOf)
    requires forall x :: x in batch ==> x in records
    ensures forall j, k :: 0 <= j < |batch| && 0 <= k < |records| && batch[j].id == records[k].id ==>
      batch[j] == records[k]
  {
    forall j, k | 0 <= j < |batch| && 0 <= k < |records| && batch[j].id == records[k].id
      ensures batch[j] == records[k]
    {
      assert batch[j] in records;
      var k' :| 0 <= k' < |records| && records[k'] == batch[j];
      assert IdOf(records[k']) == IdOf(records[k]);
    }
  }

  /** What the loop over a batch of unprocessed stored records with distinct ids
      does to the stored record at position k. */
  lemma StoreBatchAt(records: seq<OutboxRecord>, sent: seq<Message>, b: seq<OutboxRecord>, dvs: nat -> Delivery, k: nat)
    requires DistinctBy(records, IdOf) && DistinctBy(b, IdOf) && k < |records|
    requires forall x :: x in b ==> x in records && !x.isProcessed
    ensures var t := ProcessBatch(TickState(records, sent, false), b, dvs, |b|);
      |t.records| == |records| && TickRecordGrows(records[k], t.records[k])
      && (records[k].retryCount >= MaxRetries || records[k].isProcessed || records[k] !in b ==>
            t.records[k] == records[k])
      && (forall j :: 0 <= j < |b| && b[j].id == records[k].id && Live(b, dvs, j) ==>
            b[j] == records[k] && t.records[k] == Fate(records[k], b[j], dvs(j)))
  {
    var s := TickState(records, sent, false);
    BatchFromStore(records, b);
    BatchKeepsIds(s, b, dvs, |b|);
    if j :| 0 <= j < |b| && b[j].id == records[k].id {
      BatchHandled(s, b, dvs, |b|, j, k);
      assert b[j] in b;
      forall j' | 0 <= j' < |b| && b[j'].id == records[k].id ensures j' == j {
        assert IdOf(b[j']) == IdOf(b[j]);
      }
    } else {
      BatchUntouched(s, b, dvs, |b|, k);
    }
  }

  /** Running the loop over a batch of unprocessed stored records with distinct
      ids, on a store with unique ids. */
  lemma StoreBatch(records: seq<OutboxRecord>, sent: seq<Message>, b: seq<OutboxRecord>, dvs: nat -> Delivery)
    requires DistinctBy(records, IdOf) && DistinctBy(b, IdOf)
    requires forall x :: x in b ==> x in records && !x.isProcessed
    ensures var t := ProcessBatch(TickState(records, sent, false), b, dvs, |b|);
      |t.records| == |records| && Grows(records, t.records) && DistinctBy(t.records, IdOf)
      && (forall k :: 0 <= k < |records| && (records[k].retryCount >= MaxRetries || records[k].isProcessed) ==>
            t.records[k] == records[k])
      && (forall k :: 0 <= k < |records| && records[k] !in b ==> t.records[k] == records[k])
      && (forall k, j :: 0 <= k < |records| && 0 <= j < |b| && b[j].id == records[k].id && Live(b, dvs, j) ==>
            b[j] == records[k] && t.records[k] == Fate(records[k], b[j], dvs(j)))
  {
    var t := ProcessBatch(TickState(records, sent, false), b, dvs, |b|);
    BatchKeepsIds(TickState(records, sent, false), b, dvs, |b|);
    forall k | 0 <= k < |records|
      ensures TickRecordGrows(records[k], t.records[k])
      ensures records[k].retryCount >= MaxRetries || records[k].isProcessed || records[k] !in b ==>
        t.records[k] == records[k]
      ensures forall j :: 0 <= j < |b| && b[j].id == records[k].id && Live(b, dvs, j) ==>
        b[j] == records[k] && t.records[k] == Fate(records[k], b[j], dvs(j))
    {
      StoreBatchAt(records, sent, b, dvs, k);
    }
    assert DistinctBy(t.records, IdOf) by {
      forall i, j | 0 <= i < j < |t.records| ensures IdOf(t.records[i]) != IdOf(t.records[j]) {
        assert IdOf(records[i]) != IdOf(records[j]);
      }
    }
  }

  /** One tick, over a store with unique ids.
      - Nothing is deleted or reordered, no processed mark is lost, no retry count
        goes down, and ids stay unique.
      - A record with RetryCount of five or more, a processed record, and a record
        the fetch left out are left exactly as they were.
      - Each fetched record that the loop reaches is changed by its own delivery
        alone, whatever happened to the records before it (failure isolation).
      - The channel gains exactly the messages of `Published`, and the tick ends
        early exactly when recording some failure threw. */
  lemma TickSpec(records: seq<OutboxRecord>, sent: seq<Message>, dvs: nat -> Delivery)
    requires DistinctBy(records, IdOf)
    ensures var t := TickStep(records, sent, dvs); var b := Unprocessed(records, BatchSize);
      |t.records| == |records| && Grows(records, t.records) && DistinctBy(t.records, IdOf)
      && (forall k :: 0 <= k < |records| && (records[k].retryCount >= MaxRetries || records[k].isProcessed) ==>
            t.records[k] == records[k])
      && (forall k :: 0 <= k < |records| && records[k] !in b ==> t.records[k] == records[k])
      && (forall k, j :: 0 <= k < |records| && 0 <= j < |b| && b[j].id == records[k].id && Live(b, dvs, j) ==>
            b[j] == records[k] && t.records[k] == Fate(records[k], b[j], dvs(j)))
      && t.sent == sent + Published(b, dvs, |b|)
      && (t.aborted <==> !Live(b, dvs, |b|))
  {
    var t := TickStep(records, sent, dvs);
    var b := Unprocessed(records, BatchSize);
    var s := TickState(records, sent, false);
    TickIsBatch(records, sent, dvs);
    BatchKeepsIds(s, b, dvs, |b|);
    forall k | 0 <= k < |records|
      ensures TickRecordGrows(records[k], t.records[k])
      ensures records[k].retryCount >= MaxRetries || records[k].isProcessed || records[k] !in b ==>
        t.records[k] == records[k]
      ensures forall j :: 0 <= j < |b| && b[j].id == records[k].id && Live(b, dvs, j) ==>
        b[j] == records[k] && t.records[k] == Fate(records[k], b[j], dvs(j))
    {
      TickAt(records, sent, dvs, k);
    }
    assert DistinctBy(t.records, IdOf) by {
      forall i, j | 0 <= i < j < |t.records| ensures IdOf(t.records[i]) != IdOf(t.records[j]) {
        assert IdOf(records[i]) != IdOf(records[j]);
      }
    }
    BatchLog(s, b, dvs, |b|);
  }

  /** An empty fetch is the loop over no records. */
  lemma TickIsBatch(records: seq<OutboxRecord>, sent: seq<Message>, dvs: nat -> Delivery)
    ensures var b := Unprocessed(records, BatchSize);
      TickStep(records, sent, dvs) == ProcessBatch(TickState(records, sent, false), b, dvs, |b|)
  {
  }

  /** TickSpec for the stored record at position k. */
  lemma TickAt(records: seq<OutboxRecord>, sent: seq<Message>, dvs: nat -> Delivery, k: nat)
    requires DistinctBy(records, IdOf) && k < |records|
    ensures var t := TickStep(records, sent, dvs); var b := Unprocessed(records, BatchSize);
      |t.records| == |records| && TickRecordGrows(records[k], t.records[k])
      && (records[k].retryCount >= MaxRetries || records[k].isProcessed || records[k] !in b ==>
            t.records[k] == records[k])
      && (forall j :: 0 <= j < |b| && b[j].id == records[k].id && Live(b, dvs, j) ==>
            b[j] == records[k] && t.records[k] == Fate(records[k], b[j], dvs(j)))
  {
    var b := Unprocessed(records, BatchSize);
    UnprocessedSpec(records, BatchSize);
    QueryDistinct(records, IsUnprocessed, CreatedAtOf, BatchSize, IdOf);
    TickIsBatch(records, sent, dvs);
    StoreBatchAt(records, sent, b, dvs, k);
  }

  /** The per-record part of `Grows`. */
  predicate TickRecordGrows(before: OutboxRecord, after: OutboxRecord) {
    after.id == before.id && after.eventData == before.eventData
    && after.routingKey == before.routingKey && after.createdAt == before.createdAt
    && (before.isProcessed ==> after.isProcessed) && before.retryCount <= after.retryCount
  }

  /** Delivery is at least once: a record whose publish went through but whose mark
      failed is on the channel and still unprocessed, with one more failed
      attempt, so a later tick publishes it again. */
  lemma PublishedThenFailed(records: seq<OutboxRecord>, sent: seq<Message>, dvs: nat -> Delivery, k: nat)
    requires DistinctBy(records, IdOf) && k < |records|
    requires var b := Unprocessed(records, BatchSize);
      0 < |b| && b[0] == records[k] && b[0].retryCount < MaxRetries
      && dvs(0).published && !dvs(0).marked && dvs(0).failureRecorded
    ensures var t := TickStep(records, sent, dvs);
      |t.records| == |records| && MessageFor(records[k]) in t.sent && !t.records[k].isProcessed
      && t.records[k].retryCount == records[k].retryCount + 1
      && t.records[k].lastError == Some(dvs(0).error)
  {
    var b := Unprocessed(records, BatchSize);
    TickSpec(records, sent, dvs);
    PublishedSpec(b, dvs, |b|);
    UnprocessedSpec(records, BatchSize);
    assert b[0] in b;
    assert Live(b, dvs, 0);
  }

  /** ExecuteAsync runs ticks one after the other; an exception inside a tick is
      logged and the next tick starts. `fetchOk` false is GetUnprocessedAsync
      throwing, which leaves everything as it was. */
  datatype TickPlan = TickPlan(fetchOk: bool, deliveries: nat -> Delivery)

  function RunTicks(records: seq<OutboxRecord>, sent: seq<Message>, plans: seq<TickPlan>): (seq<OutboxRecord>, seq<Message>)
    decreases |plans|
  {
    if plans == [] then (records, sent)
    else
      var (r, m) := RunTicks(records, sent, plans[..|plans| - 1]);
      var p := plans[|plans| - 1];
      if !p.fetchOk then (r, m) else var t := TickStep(r, m, p.deliveries); (t.records, t.sent)
  }

  /** Over any run, records are never lost and only grow, ids stay unique, and the
      channel's log only grows. */
  lemma {:induction false} RunTicksGrow(records: seq<OutboxRecord>, sent: seq<Message>, plans: seq<TickPlan>)
    requires DistinctBy(records, IdOf)
    ensures var (r, m) := RunTicks(records, sent, plans);
      Grows(records, r) && DistinctBy(r, IdOf) && sent <= m
    decreases |plans|
  {
    if plans != [] {
      var front := plans[..|plans| - 1];
      RunTicksGrow(records, sent, front);
      var (r, m) := RunTicks(records, sent, front);
      var p := plans[|plans| - 1];
      if p.fetchOk {
        TickSpec(r, m, p.deliveries);
        GrowsTransitive(records, r, TickStep(r, m, p.deliveries).records);
      }
    }
  }

  // ---------------------------------------------------------------------------
  // Starvation: the fetch does not leave out exhausted records, so a hundred of
  // them that are older than every other pending record fill every batch.

  predicate Eligible(r: OutboxRecord) {
    !r.isProcessed && r.retryCount < MaxRetries
  }

  lemma {:induction false} SetOfSeqCard<T>(s: seq<T>)
    ensures |set x | x in s| <= |s|
    decreases |s|
  {
    if s != [] {
      SetOfSeqCard(s[1..]);
      assert (set x | x in s) == (set x | x in s[1..]) + {s[0]};
    }
  }

  lemma {:induction false} SubsetCard<T>(a: set<T>, b: set<T>)
    requires a <= b
    ensures |a| <= |b|
    decreases |a|
  {
    if a != {} {
      var x :| x in a;
      SubsetCard(a - {x}, b - {x});
    }
  }

  lemma {:induction false} AllSkipped(s: TickState, batch: seq<OutboxRecord>, dvs: nat -> Delivery, i: nat)
    requires i <= |batch| && !s.aborted
    requires forall x :: x in batch ==> x.retryCount >= MaxRetries
    ensures ProcessBatch(s, batch, dvs, i) == s
  {
    if i > 0 {
      AllSkipped(s, batch, dvs, i - 1);
      assert batch[i - 1] in batch;
    }
  }

  /** As written: when at least a hundred unprocessed records have used up their
      retries and are all older than every record still eligible, a tick fetches
      only those, skips them all, and changes nothing, whatever the broker does. */
  lemma StarvedTick(records: seq<OutboxRecord>, sent: seq<Message>, dvs: nat -> Delivery, dead: set<OutboxRecord>)
    requires |dead| >= BatchSize
    requires forall x :: x in dead ==> x in records && !x.isProcessed && x.retryCount >= MaxRetries
    requires forall x, y :: x in dead && y in records && Eligible(y) ==> x.createdAt < y.createdAt
    ensures TickStep(records, sent, dvs) == TickState(records, sent, false)
  {
    var b := Unprocessed(records, BatchSize);
    forall y | y in b ensures y.retryCount >= MaxRetries {
      FetchedIsExhausted(records, dead, y);
    }
    AllSkipped(TickState(records, sent, false), b, dvs, |b|);
  }

  /** Under the same conditions every record the fetch returns is exhausted: an
      eligible one would have all the older exhausted ones beside it in the batch,
      which is more than a hundred records. */
  lemma FetchedIsExhausted(records: seq<OutboxRecord>, dead: set<OutboxRecord>, y: OutboxRecord)
    requires |dead| >= BatchSize
    requires forall x :: x in dead ==> x in records && !x.isProcessed && x.retryCount >= MaxRetries
    requires forall x, y :: x in dead && y in records && Eligible(y) ==> x.createdAt < y.createdAt
    requires y in Unprocessed(records, BatchSize)
    ensures y.retryCount >= MaxRetries
  {
    var b := Unprocessed(records, BatchSize);
    UnprocessedSpec(records, BatchSize);
    if y.retryCount < MaxRetries {
      forall x | x in dead ensures x in b {
        if x !in b {
          QueryOmitsOnlyNewer(records, IsUnprocessed, CreatedAtOf, BatchSize, x, y);
        }
      }
      SubsetCard(dead + {y}, set z | z in b);
      SetOfSeqCard(b);
    }
  }

  /** ... and so no later tick changes anything either: an eligible record behind
      them is never published. */
  lemma {:induction false} StarvedForever(records: seq<OutboxRecord>, sent: seq<Message>, plans: seq<TickPlan>, dead: set<OutboxRecord>)
    requires |dead| >= BatchSize
    requires forall x :: x in dead ==> x in records && !x.isProcessed && x.retryCount >= MaxRetries
    requires forall x, y :: x in dead && y in records && Eligible(y) ==> x.createdAt < y.createdAt
    ensures RunTicks(records, sent, plans) == (records, sent)
    decreases |plans|
  {
    if plans != [] {
      StarvedForever(records, sent, plans[..|plans| - 1], dead);
      StarvedTick(records, sent, plans[|plans| - 1].deliveries, dead);
    }
  }

  /** Corrected fetch: unprocessed records that may still be retried. */
  function EligibleBatch(records: seq<OutboxRecord>, batchSize: int): seq<OutboxRecord> {
    Query(records, Eligible, CreatedAtOf, batchSize)
  }

  function CorrectedTickStep(records: seq<OutboxRecord>, sent: seq<Message>, dvs: nat -> Delivery): TickState {
    var batch := EligibleBatch(records, BatchSize);
    if batch == [] then TickState(records, sent, false)
    else ProcessBatch(TickState(records, sent, false), batch, dvs, |batch|)
  }

  /** Corrected: whenever some record is eligible, the tick attempts the oldest
      eligible record first, so its own delivery alone decides what happens to
      it: it is published if the publish goes through, and it ends processed or
      with one more failed attempt unless recording the failure throws. */
  lemma CorrectedTickProgress(records: seq<OutboxRecord>, sent: seq<Message>, dvs: nat -> Delivery, y: OutboxRecord)
    requires DistinctBy(records, IdOf)
    requires y in records && Eligible(y)
    ensures var b := EligibleBatch(records, BatchSize); var t := CorrectedTickStep(records, sent, dvs);
      b != [] && b[0] in records && Eligible(b[0])
      && (forall z :: z in records && Eligible(z) ==> b[0].createdAt <= z.createdAt)
      && (dvs(0).published ==> MessageFor(b[0]) in t.sent)
      && |t.records| == |records|
      && (forall k :: 0 <= k < |records| && records[k] == b[0] ==> t.records[k] == Fate(records[k], b[0], dvs(0)))
  {
    var b := EligibleBatch(records, BatchSize);
    OldestEligibleFirst(records, y);
    QueryDistinct(records, Eligible, CreatedAtOf, BatchSize, IdOf);
    StoreBatch(records, sent, b, dvs);
    var s := TickState(records, sent, false);
    BatchLog(s, b, dvs, |b|);
    PublishedSpec(b, dvs, |b|);
    assert Live(b, dvs, 0);
  }

  /** The corrected fetch starts with the oldest eligible record. */
  lemma OldestEligibleFirst(records: seq<OutboxRecord>, y: OutboxRecord)
    requires y in records && Eligible(y)
    ensures var b := EligibleBatch(records, BatchSize);
      b != [] && (forall x :: x in b ==> x in records && Eligible(x))
      && forall z :: z in records && Eligible(z) ==> b[0].createdAt <= z.createdAt
  {
    var b := EligibleBatch(records, BatchSize);
    QuerySpec(records, Eligible, CreatedAtOf, BatchSize);
    assert y in Filter(records, Eligible);
    assert b != [] by {
      if |Filter(records, Eligible)| <= BatchSize {
        assert y in multiset(Filter(records, Eligible));
        assert y in multiset(b);
      } else {
        assert |b| == BatchSize;
      }
    }
    forall z | z in records && Eligible(z) ensures b[0].createdAt <= z.createdAt {
      if z in b {
        var j :| 0 <= j < |b| && b[j] == z;
        assert SortedBy(b, CreatedAtOf);
        if j > 0 {
          assert CreatedAtOf(b[0]) <= CreatedAtOf(b[j]);
        }
      } else {
        QueryOmitsOnlyNewer(records, Eligible, CreatedAtOf, BatchSize, z, b[0]);
      }
    }
  }

  /** The hosted service, with the channel's publish log. */
  class OutboxProcessorService {
    const store: OutboxRepository
    var channel: seq<Message>

    constructor (store: OutboxRepository)
      ensures this.store == store && channel == []
    {
      this.store := store;
      channel := [];
    }

    /** ProcessOutboxEvents; `aborted` is an exception leaving it. */
    method ProcessOutboxEvents(dvs: nat -> Delivery) returns (aborted: bool)
      requires store.Valid()
      modifies this, store
      ensures store.Valid()
      ensures var t := TickStep(old(store.records), old(channel), dvs);
        store.records == t.records && channel == t.sent && aborted == t.aborted
    {
      var batch := store.GetUnprocessedAsync(BatchSize);
      if |batch| == 0 {
        return false;
      }
      ghost var s0 := TickState(store.records, channel, false);
      var i := 0;
      while i < |batch|
        invariant 0 <= i <= |batch| && store.Valid()
        invariant ProcessBatch(s0, batch, dvs, i) == TickState(store.records, channel, false)
      {
        var threw := HandleOne(batch[i], dvs(i));
        if threw {
          AbortedStays(s0, batch, dvs, i + 1, |batch|);
          return true;
        }
        i := i + 1;
      }
      return false;
    }

    /** One iteration of the foreach loop; `threw` is MarkAsFailedAsync throwing. */
    method HandleOne(r: OutboxRecord, dv: Delivery) returns (threw: bool)
      requires store.Valid()
      modifies this, store
      ensures store.Valid()
      ensures var t := Handle(TickState(old(store.records), old(channel), false), r, dv);
        store.records == t.records && channel == t.sent && threw == t.aborted
    {
      threw := false;
      if r.retryCount < MaxRetries {
        if dv.published {
          channel := channel + [MessageFor(r)];
        }
        if dv.published && dv.marked {
          store.MarkAsProcessedAsync(r.id, dv.now);
        } else if dv.failureRecorded {
          store.MarkAsFailedAsync(r.id, dv.error);
        } else {
          threw := true;
        }
      }
    }

    /** ExecuteAsync over a bounded number of ticks. */
    method Run(plans: seq<TickPlan>)
      requires store.Valid()
      modifies this, store
      ensures store.Valid()
      ensures (store.records, channel) == RunTicks(old(store.records), old(channel), plans)
    {
      var i := 0;
      while i < |plans|
        invariant 0 <= i <= |plans| && store.Valid()
        invariant (store.records, channel) == RunTicks(old(store.records), old(channel), plans[..i])
      {
        assert plans[..i + 1][..i] == plans[..i];
        if plans[i].fetchOk {
          var _ := ProcessOutboxEvents(plans[i].deliveries);
        }
        i := i + 1;
      }
      assert plans[..i] == plans;
    }
  }

  lemma {:induction false} AbortedStays(s: TickState, batch: seq<OutboxRecord>, dvs: nat -> Delivery, i: nat, n: nat)
    requires i <= n <= |batch|
    requires ProcessBatch(s, batch, dvs, i).aborted
    ensures ProcessBatch(s, batch, dvs, n) == ProcessBatch(s, batch, dvs, i)
    decreases n - i
  {
    if i < n {
      AbortedStays(s, batch, dvs, i, n - 1);
    }
  }
}

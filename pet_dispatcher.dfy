/** The pet service's outbox processor: every tick takes up to 100 pending records,
    oldest first, and for each one, until cancellation is requested, decodes the
    stored event, hands it to the publisher, marks the loaded record processed
    and writes it back with Update; when publishing or that Update throws, it
    charges the loaded record with a failed attempt and writes it back.

    Decoding (Type.GetType plus JsonSerializer) is a partial function of the
    record's EventType and EventData; the publisher, the database and the clock
    are inputs (`PetDelivery`); cancellation is the batch position at which the
    token is first seen set. An exception from the failure-recording Update leaves
    ProcessPendingEvents; ExecuteAsync logs it and the rest of the batch waits
    for the next tick. */
module PetDispatch {
  import opened Base
  import opened OutboxQueries
  import opened PetOutbox
  import Pets

  const BatchSize: int := 100

  type Decoder = (string, string) -> Option<Pets.PetEvent>

  /** What the publisher and the database do for one batch position. */
  datatype PetDelivery = PetDelivery(published: bool, updated: bool, failureUpdated: bool, error: string, now: Time)

  datatype TickEnv = TickEnv(decode: Decoder, deliveries: nat -> PetDelivery, cancelAt: nat)

  datatype TickState = TickState(records: seq<OutboxRecord>, published: seq<Pets.PetEvent>, aborted: bool)

  function DecodeRecord(env: TickEnv, r: OutboxRecord): Option<Pets.PetEvent> {
    env.decode(r.eventType, r.eventData)
  }

  /** The loaded record written back by the catch block: charged with a failure,
      after having been marked processed when the publish itself went through. */
  function FailedCopy(r: OutboxRecord, dv: PetDelivery): OutboxRecord {
    RecordFailureStep(if dv.published then MarkAsProcessedStep(r, dv.now) else r, dv.error)
  }

  /** One iteration of the foreach loop, for batch record `r`. */
  function Handle(s: TickState, r: OutboxRecord, dv: PetDelivery, e: Option<Pets.PetEvent>): TickState {
    if e.None? then s
    else
      var published := if dv.published then s.published + [e.value] else s.published;
      if dv.published && dv.updated then TickState(ReplaceById(s.records, MarkAsProcessedStep(r, dv.now)), published, false)
      else if dv.failureUpdated then TickState(ReplaceById(s.records, FailedCopy(r, dv)), published, false)
      else TickState(s.records, published, true)
  }

  /** The first i iterations of the loop: an iteration at or after cancelAt breaks
      out, and an exception ends it. */
  function ProcessBatch(s: TickState, batch: seq<OutboxRecord>, env: TickEnv, i: nat): TickState
    requires i <= |batch|
  {
    if i == 0 then s
    else
      var p := ProcessBatch(s, batch, env, i - 1);
      if p.aborted || i - 1 >= env.cancelAt then p
      else Handle(p, batch[i - 1], env.deliveries(i - 1), DecodeRecord(env, batch[i - 1]))
  }

  /** ProcessPendingEvents. */
  function TickStep(records: seq<OutboxRecord>, published: seq<Pets.PetEvent>, env: TickEnv): TickState {
    var batch := PendingEvents(records, BatchSize);
    if batch == [] then TickState(records, published, false)
    else ProcessBatch(TickState(records, published, false), batch, env, |batch|)
  }

  /** The iteration for batch position j runs and throws out of the loop. */
  predicate AbortsAt(batch: seq<OutboxRecord>, env: TickEnv, j: nat)
    requires j < |batch|
  {
    var dv := env.deliveries(j);
    j < env.cancelAt && DecodeRecord(env, batch[j]).Some? && !(dv.published && dv.updated) && !dv.failureUpdated
  }

  /** No iteration before position j threw. */
  predicate Live(batch: seq<OutboxRecord>, env: TickEnv, j: nat)
    requires j <= |batch|
  {
    forall j' :: 0 <= j' < j ==> !AbortsAt(batch, env, j')
  }

  /** The loop reaches batch position j and handles it. */
  predicate Reached(batch: seq<OutboxRecord>, env: TickEnv, j: nat)
    requires j <= |batch|
  {
    j < env.cancelAt && Live(batch, env, j)
  }

  /** What handling batch record `r` does to the stored record `rec`. */
  function Fate(rec: OutboxRecord, r: OutboxRecord, dv: PetDelivery, e: Option<Pets.PetEvent>): OutboxRecord {
    if rec.id != r.id || e.None? then rec
    else if dv.published && dv.updated then MarkAsProcessedStep(r, dv.now)
    else if dv.failureUpdated then FailedCopy(r, dv)
    else rec
  }

  /** A stored record handled by itself keeps its identity and payload, keeps a
      processed mark, and gains at most one failed attempt; it changes only when
      its event decodes. */
  lemma FateSpec(rec: OutboxRecord, dv: PetDelivery, e: Option<Pets.PetEvent>)
    ensures var f := Fate(rec, rec, dv, e);
      f.id == rec.id && f.eventType == rec.eventType && f.eventData == rec.eventData
      && f.occurredOn == rec.occurredOn
      && (rec.isProcessed ==> f.isProcessed)
      && (f.retryCount == rec.retryCount || f.retryCount == rec.retryCount + 1)
      && (e.None? ==> f == rec)
      && (e.Some? && dv.published && dv.updated ==> f.isProcessed && f.retryCount == rec.retryCount)
      && (e.Some? && !dv.published && dv.failureUpdated ==>
            f.isProcessed == rec.isProcessed && f.retryCount == rec.retryCount + 1 && f.lastError == Some(dv.error))
  {
  }

  /** A publish that went through followed by a failing Update and a working
      failure Update stores the record both processed and charged with a failed
      attempt: the loaded copy was marked before the exception. */
  lemma MarkedThenCharged(rec: OutboxRecord, dv: PetDelivery, e: Pets.PetEvent)
    requires dv.published && !dv.updated && dv.failureUpdated
    ensures var f := Fate(rec, rec, dv, Some(e));
      f.isProcessed && f.processedOn == Some(dv.now) && f.retryCount == rec.retryCount + 1
  {
  }

  /** The events the first i iterations hand to the publisher, in batch order. */
  function Handed(batch: seq<OutboxRecord>, env: TickEnv, i: nat): seq<Pets.PetEvent>
    requires i <= |batch|
  {
    if i == 0 then []
    else
      var e := DecodeRecord(env, batch[i - 1]);
      Handed(batch, env, i - 1)
      + (if Reached(batch, env, i - 1) && e.Some? && env.deliveries(i - 1).published then [e.value] else [])
  }

  lemma {:induction false} BatchKeepsIds(s: TickState, batch: seq<OutboxRecord>, env: TickEnv, i: nat)
    requires i <= |batch|
    requires forall x :: x in batch ==> x in s.records
    requires DistinctBy(s.records, IdOf)
    ensures var out := ProcessBatch(s, batch, env, i);
      |out.records| == |s.records| && forall k :: 0 <= k < |s.records| ==> out.records[k].id == s.records[k].id
  {
    if i > 0 {
      BatchKeepsIds(s, batch, env, i - 1);
    }
  }

  lemma {:induction false} BatchUntouched(s: TickState, batch: seq<OutboxRecord>, env: TickEnv, i: nat, k: nat)
    requires i <= |batch| && k < |s.records|
    requires forall x :: x in batch ==> x in s.records
    requires DistinctBy(s.records, IdOf)
    requires forall j :: 0 <= j < i ==> batch[j].id != s.records[k].id
    ensures |ProcessBatch(s, batch, env, i).records| == |s.records|
    ensures ProcessBatch(s, batch, env, i).records[k] == s.records[k]
  {
    BatchKeepsIds(s, batch, env, i);
    if i > 0 {
      BatchUntouched(s, batch, env, i - 1, k);
    }
  }

  lemma {:induction false} BatchLog(s: TickState, batch: seq<OutboxRecord>, env: TickEnv, i: nat)
    requires i <= |batch| && !s.aborted
    ensures var out := ProcessBatch(s, batch, env, i);
      out.published == s.published + Handed(batch, env, i) && (out.aborted <==> !Live(batch, env, i))
  {
    if i > 0 {
      BatchLog(s, batch, env, i - 1);
      assert Live(batch, env, i) <==> Live(batch, env, i - 1) && !AbortsAt(batch, env, i - 1);
    }
  }

  lemma {:induction false} BatchHandled(s: TickState, batch: seq<OutboxRecord>, env: TickEnv, i: nat, j: nat, k: nat)
    requires j < i <= |batch| && k < |s.records| && !s.aborted
    requires forall x :: x in batch ==> x in s.records
    requires DistinctBy(s.records, IdOf) && DistinctBy(batch, IdOf) && batch[j] == s.records[k]
    ensures |ProcessBatch(s, batch, env, i).records| == |s.records|
    ensures ProcessBatch(s, batch, env, i).records[k]
      == if Reached(batch, env, j) then Fate(s.records[k], batch[j], env.deliveries(j), DecodeRecord(env, batch[j]))
         else s.records[k]
    decreases i
  {
    BatchKeepsIds(s, batch, env, i);
    BatchKeepsIds(s, batch, env, i - 1);
    BatchLog(s, batch, env, i - 1);
    if i - 1 == j {
      forall j' | 0 <= j' < j ensures batch[j'].id != s.records[k].id {
        assert IdOf(batch[j']) != IdOf(batch[j]);
      }
      BatchUntouched(s, batch, env, j, k);
    } else {
      BatchHandled(s, batch, env, i - 1, j, k);
      assert IdOf(batch[j]) != IdOf(batch[i - 1]);
    }
  }

  predicate RecordGrows(before: OutboxRecord, after: OutboxRecord) {
    after.id == before.id && after.eventType == before.eventType && after.eventData == before.eventData
    && after.occurredOn == before.occurredOn
    && (before.isProcessed ==> after.isProcessed)
    && (after.retryCount == before.retryCount || after.retryCount == before.retryCount + 1)
  }

  /** What the loop over a batch of pending stored records with distinct ids does
      to the stored record at position k. */
  lemma StoreBatchAt(records: seq<OutboxRecord>, published: seq<Pets.PetEvent>, b: seq<OutboxRecord>, env: TickEnv, k: nat)
    requires DistinctBy(records, IdOf) && DistinctBy(b, IdOf) && k < |records|
    requires forall x :: x in b ==> x in records && IsPending(x)
    ensures var t := ProcessBatch(TickState(records, published, false), b, env, |b|);
      |t.records| == |records| && RecordGrows(records[k], t.records[k])
      && (records[k] !in b ==> t.records[k] == records[k])
      && (forall j :: 0 <= j < |b| && b[j] == records[k] ==>
            t.records[k] == if Reached(b, env, j)
                            then Fate(records[k], records[k], env.deliveries(j), DecodeRecord(env, records[k]))
                            else records[k])
  {
    var s := TickState(records, published, false);
    BatchIsStored(records, b);
    BatchKeepsIds(s, b, env, |b|);
    if j :| 0 <= j < |b| && b[j].id == records[k].id {
      BatchHandled(s, b, env, |b|, j, k);
      FateSpec(records[k], env.deliveries(j), DecodeRecord(env, b[j]));
      forall j' | 0 <= j' < |b| && b[j'] == records[k] ensures j' == j {
        assert IdOf(b[j']) == IdOf(b[j]);
      }
    } else {
      BatchUntouched(s, b, env, |b|, k);
    }
  }

  /** One tick, over a store with unique ids.
      - Nothing is deleted or reordered, no processed mark is lost, every retry
        count grows by at most one, and ids stay unique.
      - A record that is not fetched (processed, failed five times, or beyond the
        batch) is left as it was.
      - Each fetched record is changed only if the loop reaches it before
        cancellation, and then by its own decode and delivery alone; one whose
        event does not decode is left as it was.
      - The publisher receives exactly the events `Handed` lists, and the tick
        ends early exactly when a failure-recording Update threw. */
  lemma TickSpec(records: seq<OutboxRecord>, published: seq<Pets.PetEvent>, env: TickEnv)
    requires DistinctBy(records, IdOf)
    ensures var t := TickStep(records, published, env); var b := PendingEvents(records, BatchSize);
      |t.records| == |records| && DistinctBy(t.records, IdOf)
      && (forall k :: 0 <= k < |records| ==> RecordGrows(records[k], t.records[k]))
      && (forall k :: 0 <= k < |records| && records[k] !in b ==> t.records[k] == records[k])
      && (forall k, j :: 0 <= k < |records| && 0 <= j < |b| && b[j] == records[k] ==>
            t.records[k] == (if Reached(b, env, j)
                             then Fate(records[k], records[k], env.deliveries(j), DecodeRecord(env, records[k]))
                             else records[k]))
      && t.published == published + Handed(b, env, |b|)
      && (t.aborted <==> !Live(b, env, |b|))
  {
    var b := PendingEvents(records, BatchSize);
    var s := TickState(records, published, false);
    var t := ProcessBatch(s, b, env, |b|);
    PendingEventsSpec(records, BatchSize);
    QueryDistinct(records, IsPending, OccurredOnOf, BatchSize, IdOf);
    BatchLog(s, b, env, |b|);
    BatchKeepsIds(s, b, env, |b|);
    forall k | 0 <= k < |records|
      ensures RecordGrows(records[k], t.records[k])
      ensures records[k] !in b ==> t.records[k] == records[k]
      ensures forall j :: 0 <= j < |b| && b[j] == records[k] ==>
        t.records[k] == (if Reached(b, env, j)
                         then Fate(records[k], records[k], env.deliveries(j), DecodeRecord(env, records[k]))
                         else records[k])
    {
      StoreBatchAt(records, published, b, env, k);
    }
    assert DistinctBy(t.records, IdOf) by {
      forall i, j | 0 <= i < j < |t.records| ensures IdOf(t.records[i]) != IdOf(t.records[j]) {
        assert IdOf(records[i]) != IdOf(records[j]);
      }
    }
  }

  /** A record that is processed or has failed five times is never fetched, so a
      tick leaves it as it was. */
  lemma NotPendingUntouched(records: seq<OutboxRecord>, published: seq<Pets.PetEvent>, env: TickEnv, k: nat)
    requires DistinctBy(records, IdOf) && k < |records| && !IsPending(records[k])
    ensures |TickStep(records, published, env).records| == |records|
    ensures TickStep(records, published, env).records[k] == records[k]
  {
    TickSpec(records, published, env);
    PendingEventsSpec(records, BatchSize);
  }

  lemma BatchIsStored(records: seq<OutboxRecord>, batch: seq<OutboxRecord>)
    requires DistinctBy(records, IdOf)
    requires forall x :: x in batch ==> x in records
    ensures forall j, k :: 0 <= j < |batch| && 0 <= k < |records| && batch[j].id == records[k].id ==>
      batch[j] == records[k]
  {
    forall j, k | 0 <= j < |batch| && 0 <= k < |records| && batch[j].id == records[k].id
      ensures batch[j] == records[k]
    {
      assert batch[j] in records;
      var k' :| 0 <= k' < |records| && records[k'] == batch[j];
      assert IdOf(records[k']) == IdOf(records[k]);
    }
  }

  /** Once cancellation is requested, the rest of the batch is left untouched. */
  lemma CancelLeavesRest(records: seq<OutboxRecord>, published: seq<Pets.PetEvent>, env: TickEnv, k: nat)
    requires DistinctBy(records, IdOf) && k < |records|
    requires forall j :: 0 <= j < |PendingEvents(records, BatchSize)| && PendingEvents(records, BatchSize)[j] == records[k] ==>
      j >= env.cancelAt
    ensures |TickStep(records, published, env).records| == |records|
    ensures TickStep(records, published, env).records[k] == records[k]
  {
    TickSpec(records, published, env);
  }

  /** Only decoded events reach the publisher, each one the event of a batch record
      the loop reached before cancellation. */
  lemma {:induction false} HandedSpec(batch: seq<OutboxRecord>, env: TickEnv, i: nat)
    requires i <= |batch|
    ensures |Handed(batch, env, i)| <= i
    ensures forall e :: e in Handed(batch, env, i) ==>
      exists j :: 0 <= j < i && j < env.cancelAt && DecodeRecord(env, batch[j]) == Some(e) && env.deliveries(j).published
  {
    if i > 0 {
      HandedSpec(batch, env, i - 1);
    }
  }

  /** ExecuteAsync over a bounded number of ticks; `fetchOk` false is
      GetPendingEvents throwing, which leaves everything as it was. */
  datatype TickPlan = TickPlan(fetchOk: bool, env: TickEnv)

  function RunTicks(records: seq<OutboxRecord>, published: seq<Pets.PetEvent>, plans: seq<TickPlan>)
    : (seq<OutboxRecord>, seq<Pets.PetEvent>)
    decreases |plans|
  {
    if plans == [] then (records, published)
    else
      var (r, m) := RunTicks(records, published, plans[..|plans| - 1]);
      var p := plans[|plans| - 1];
      if !p.fetchOk then (r, m) else var t := TickStep(r, m, p.env); (t.records, t.published)
  }

  /** Over any run of n ticks, no record is lost, ids and payloads stay put, ids
      stay unique, a processed record stays processed, and each retry count grows
      by at most one per tick, so it never goes down. */
  lemma {:induction false} RunTicksKeep(records: seq<OutboxRecord>, published: seq<Pets.PetEvent>, plans: seq<TickPlan>)
    requires DistinctBy(records, IdOf)
    ensures var (r, m) := RunTicks(records, published, plans);
      |r| == |records| && DistinctBy(r, IdOf) && published <= m
      && forall k :: 0 <= k < |records| ==>
        r[k].id == records[k].id && r[k].eventData == records[k].eventData
        && r[k].eventType == records[k].eventType && r[k].occurredOn == records[k].occurredOn
        && (records[k].isProcessed ==> r[k].isProcessed)
        && records[k].retryCount <= r[k].retryCount <= records[k].retryCount + |plans|
    decreases |plans|
  {
    if plans != [] {
      var front := plans[..|plans| - 1];
      RunTicksKeep(records, published, front);
      var (r, m) := RunTicks(records, published, front);
      var p := plans[|plans| - 1];
      if p.fetchOk {
        TickSpec(r, m, p.env);
      }
    }
  }

  /** The hosted service, with what the publisher has been handed. */
  class OutboxProcessorService {
    const store: OutboxRepository
    var handed: seq<Pets.PetEvent>

    constructor (store: OutboxRepository)
      ensures this.store == store && handed == []
    {
      this.store := store;
      handed := [];
    }

    /** ProcessPendingEvents; `aborted` is an exception leaving it. */
    method ProcessPendingEvents(env: TickEnv) returns (aborted: bool)
      requires store.Valid()
      modifies this, store
      ensures store.Valid()
      ensures var t := TickStep(old(store.records), old(handed), env);
        store.records == t.records && handed == t.published && aborted == t.aborted
    {
      var pending := store.GetPendingEvents(BatchSize);
      if |pending| == 0 {
        return false;
      }
      ghost var s0 := TickState(store.records, handed, false);
      var i := 0;
      while i < |pending|
        invariant 0 <= i <= |pending| && store.Valid()
        invariant ProcessBatch(s0, pending, env, i) == TickState(store.records, handed, false)
      {
        if i >= env.cancelAt {
          NothingAfterCancel(s0, pending, env, i, |pending|);
          return false;
        }
        var dv := env.deliveries(i);
        var domainEvent := env.decode(pending[i].eventType, pending[i].eventData);
        var threw := HandleOne(pending[i], dv, domainEvent);
        if threw {
          AbortedStays(s0, pending, env, i + 1, |pending|);
          return true;
        }
        i := i + 1;
      }
      return false;
    }

    /** The body of the try block and its catch block, for one loaded record. */
    method HandleOne(r: OutboxRecord, dv: PetDelivery, domainEvent: Option<Pets.PetEvent>) returns (threw: bool)
      requires store.Valid()
      modifies this, store
      ensures store.Valid()
      ensures TickState(store.records, handed, threw)
        == Handle(TickState(old(store.records), old(handed), false), r, dv, domainEvent)
    {
      if domainEvent.None? {
        return false;
      }
      var outboxEvent := new OutboxEvent.Load(r);
      var failed := false;
      if dv.published {
        handed := handed + [domainEvent.value];
        outboxEvent.MarkAsProcessed(dv.now);
        if dv.updated {
          store.Update(outboxEvent.Data());
        } else {
          failed := true;
        }
      } else {
        failed := true;
      }
      if failed {
        outboxEvent.RecordFailure(dv.error);
        if dv.failureUpdated {
          store.Update(outboxEvent.Data());
        } else {
          return true;
        }
      }
      return false;
    }

    /** ExecuteAsync over a bounded number of ticks. */
    method Run(plans: seq<TickPlan>)
      requires store.Valid()
      modifies this, store
      ensures store.Valid()
      ensures (store.records, handed) == RunTicks(old(store.records), old(handed), plans)
    {
      var i := 0;
      while i < |plans|
        invariant 0 <= i <= |plans| && store.Valid()
        invariant (store.records, handed) == RunTicks(old(store.records), old(handed), plans[..i])
      {
        assert plans[..i + 1][..i] == plans[..i];
        if plans[i].fetchOk {
          var _ := ProcessPendingEvents(plans[i].env);
        }
        i := i + 1;
      }
      assert plans[..i] == plans;
    }
  }

  lemma {:induction false} AbortedStays(s: TickState, batch: seq<OutboxRecord>, env: TickEnv, i: nat, n: nat)
    requires i <= n <= |batch|
    requires ProcessBatch(s, batch, env, i).aborted
    ensures ProcessBatch(s, batch, env, n) == ProcessBatch(s, batch, env, i)
    decreases n - i
  {
    if i < n {
      AbortedStays(s, batch, env, i, n - 1);
    }
  }

  lemma {:induction false} NothingAfterCancel(s: TickState, batch: seq<OutboxRecord>, env: TickEnv, i: nat, n: nat)
    requires env.cancelAt <= i <= n <= |batch|
    ensures ProcessBatch(s, batch, env, n) == ProcessBatch(s, batch, env, i)
    decreases n - i
  {
    if i < n {
      NothingAfterCancel(s, batch, env, i, n - 1);
    }
  }
}

/** The pet service's transactional outbox: the OutboxEvent record, which a
    dispatcher marks processed or charges with a failed attempt, and the MongoDB
    collection that stores the records under a unique `_id`. */
module PetOutbox {
  import opened Base
  import opened OutboxQueries
  import Pets

  /** GetPendingEvents skips records that have failed this many times. */
  const MaxRetries: int := 5

  datatype OutboxRecord = OutboxRecord(
    id: Guid, eventType: string, eventData: string, occurredOn: Time,
    processedOn: Option<Time>, isProcessed: bool, retryCount: int, lastError: Option<string>)

  /** `new OutboxEvent(domainEvent, serializedEventData)`, with the Guid it draws. */
  function NewRecord(id: Guid, e: Pets.PetEvent, serialized: string): OutboxRecord {
    OutboxRecord(id, e.kind.TypeName(), serialized, e.occurredOn, None, false, 0, None)
  }

  /** MarkAsProcessed, `now` being the clock reading. */
  function MarkAsProcessedStep(r: OutboxRecord, now: Time): OutboxRecord {
    r.(isProcessed := true, processedOn := Some(now))
  }

  function RecordFailureStep(r: OutboxRecord, error: string): OutboxRecord {
    r.(retryCount := r.retryCount + 1, lastError := Some(error))
  }

  /** A new record is pending, has no failed attempts, and copies the event's type
      name and time. */
  lemma NewRecordIsPending(id: Guid, e: Pets.PetEvent, serialized: string)
    ensures var r := NewRecord(id, e, serialized);
      !r.isProcessed && r.retryCount == 0 && r.lastError.None? && r.processedOn.None?
      && r.eventType == e.kind.TypeName() && r.occurredOn == e.occurredOn && r.eventData == serialized
      && IsPending(r)
  {
  }

  /** The calls a dispatcher can make on a record. */
  datatype RecordCall = CallMarkAsProcessed(now: Time) | CallRecordFailure(error: string)

  function ApplyCall(r: OutboxRecord, c: RecordCall): OutboxRecord {
    match c
    case CallMarkAsProcessed(now) => MarkAsProcessedStep(r, now)
    case CallRecordFailure(error) => RecordFailureStep(r, error)
  }

  function ApplyCalls(r: OutboxRecord, cs: seq<RecordCall>): OutboxRecord
    decreases |cs|
  {
    if cs == [] then r else ApplyCalls(ApplyCall(r, cs[0]), cs[1..])
  }

  function FailureCount(cs: seq<RecordCall>): nat
    decreases |cs|
  {
    if cs == [] then 0 else (if cs[0].CallRecordFailure? then 1 else 0) + FailureCount(cs[1..])
  }

  predicate HasMark(cs: seq<RecordCall>)
    decreases |cs|
  {
    cs != [] && (cs[0].CallMarkAsProcessed? || HasMark(cs[1..]))
  }

  /** Over any sequence of calls: Id, EventType, EventData and OccurredOn never
      change, RetryCount grows by exactly one per recorded failure (so it never
      decreases), and IsProcessed, once set, stays set. */
  lemma {:induction false} CallsKeepRecord(r: OutboxRecord, cs: seq<RecordCall>)
    ensures var r' := ApplyCalls(r, cs);
      r'.id == r.id && r'.eventType == r.eventType && r'.eventData == r.eventData && r'.occurredOn == r.occurredOn
      && r'.retryCount == r.retryCount + FailureCount(cs)
      && r'.isProcessed == (r.isProcessed || HasMark(cs))
    decreases |cs|
  {
    if cs != [] {
      CallsKeepRecord(ApplyCall(r, cs[0]), cs[1..]);
    }
  }

  /** Marking twice leaves the record processed; only ProcessedOn moves. */
  lemma MarkTwice(r: OutboxRecord, t1: Time, t2: Time)
    ensures MarkAsProcessedStep(MarkAsProcessedStep(r, t1), t2) == MarkAsProcessedStep(r, t2)
    ensures MarkAsProcessedStep(r, t1).retryCount == r.retryCount
    ensures MarkAsProcessedStep(r, t1).lastError == r.lastError
  {
  }

  /** The OutboxEvent object. */
  class OutboxEvent {
    var id: Guid
    var eventType: string
    var eventData: string
    var occurredOn: Time
    var processedOn: Option<Time>
    var isProcessed: bool
    var retryCount: int
    var lastError: Option<string>

    function Data(): OutboxRecord
      reads this
    {
      OutboxRecord(id, eventType, eventData, occurredOn, processedOn, isProcessed, retryCount, lastError)
    }

    constructor (freshId: Guid, domainEvent: Pets.PetEvent, serializedEventData: string)
      ensures Data() == NewRecord(freshId, domainEvent, serializedEventData)
    {
      id := freshId;
      eventType := domainEvent.kind.TypeName();
      eventData := serializedEventData;
      occurredOn := domainEvent.occurredOn;
      processedOn := None;
      isProcessed := false;
      retryCount := 0;
      lastError := None;
    }

    /** The private constructor the MongoDB driver uses to materialise a stored
        document. */
    constructor Load(r: OutboxRecord)
      ensures Data() == r
    {
      id, eventType, eventData, occurredOn := r.id, r.eventType, r.eventData, r.occurredOn;
      processedOn, isProcessed, retryCount, lastError := r.processedOn, r.isProcessed, r.retryCount, r.lastError;
    }

    method MarkAsProcessed(now: Time)
      modifies this
      ensures Data() == MarkAsProcessedStep(old(Data()), now)
    {
      isProcessed := true;
      processedOn := Some(now);
    }

    method RecordFailure(error: string)
      modifies this
      ensures Data() == RecordFailureStep(old(Data()), error)
    {
      retryCount := retryCount + 1;
      lastError := Some(error);
    }
  }

  // ---------------------------------------------------------------- the collection

  function IdOf(r: OutboxRecord): Guid { r.id }

  function OccurredOnOf(r: OutboxRecord): Time { r.occurredOn }

  /** The filter of GetPendingEvents. */
  predicate IsPending(r: OutboxRecord) {
    !r.isProcessed && r.retryCount < MaxRetries
  }

  /** GetPendingEvents(batchSize): pending records, oldest first, batchSize at most. */
  function PendingEvents(records: seq<OutboxRecord>, batchSize: int): seq<OutboxRecord> {
    Query(records, IsPending, OccurredOnOf, batchSize)
  }

  /** A pending batch holds only pending stored records, oldest first, at most
      batchSize of them; it holds every pending record when they fit, and a
      pending record left out is no older than any record in the batch. */
  lemma PendingEventsSpec(records: seq<OutboxRecord>, batchSize: int)
    requires batchSize > 0
    ensures var b := PendingEvents(records, batchSize);
      (forall x :: x in b ==> x in records && !x.isProcessed && x.retryCount < MaxRetries)
      && (forall i, j :: 0 <= i < j < |b| ==> b[i].occurredOn <= b[j].occurredOn)
      && |b| <= batchSize
      && ((forall x :: x in records && IsPending(x) ==> x in b) <== |Filter(records, IsPending)| <= batchSize)
      && (forall x, y :: x in records && IsPending(x) && x !in b && y in b ==> y.occurredOn <= x.occurredOn)
  {
    QuerySpec(records, IsPending, OccurredOnOf, batchSize);
    var b := PendingEvents(records, batchSize);
    if |Filter(records, IsPending)| <= batchSize {
      forall x | x in records && IsPending(x) ensures x in b {
        assert x in multiset(Filter(records, IsPending));
      }
    }
    forall x, y | x in records && IsPending(x) && x !in b && y in b ensures y.occurredOn <= x.occurredOn {
      QueryOmitsOnlyNewer(records, IsPending, OccurredOnOf, batchSize, x, y);
    }
  }

  /** A write the collection refuses: the unique index on `_id` already holds the
      id, or (InsertMany only) the batch is empty, which the MongoDB .NET driver
      rejects with an ArgumentException before sending anything. */
  datatype StoreError = DuplicateKey(id: Guid) | EmptyBatch

  predicate HasId(records: seq<OutboxRecord>, id: Guid) {
    exists i :: 0 <= i < |records| && records[i].id == id
  }

  /** InsertMany in ordered mode: the records go in one at a time, and the first
      one whose id is already stored (or came earlier in the same batch) stops
      the batch with an error, keeping those inserted before it. */
  function InsertManyStep(records: seq<OutboxRecord>, batch: seq<OutboxRecord>): (r: (seq<OutboxRecord>, Outcome<StoreError>))
    decreases |batch|
  {
    if batch == [] then (records, Pass)
    else if HasId(records, batch[0].id) then (records, Fail(DuplicateKey(batch[0].id)))
    else InsertManyStep(records + [batch[0]], batch[1..])
  }

  /** InsertMany as the driver performs it: an empty batch is refused outright. */
  function InsertMany(records: seq<OutboxRecord>, batch: seq<OutboxRecord>): (r: (seq<OutboxRecord>, Outcome<StoreError>))
  {
    if batch == [] then (records, Fail(EmptyBatch)) else InsertManyStep(records, batch)
  }

  /** ReplaceOne(e => e.Id == r.Id, r) without upsert: the stored record with that
      id, if any, becomes `r`. */
  function ReplaceById(records: seq<OutboxRecord>, r: OutboxRecord): (s: seq<OutboxRecord>)
    ensures |s| == |records|
    ensures forall i :: 0 <= i < |s| ==> s[i] == (if records[i].id == r.id then r else records[i])
  {
    seq(|records|, i requires 0 <= i < |records| => if records[i].id == r.id then r else records[i])
  }

  /** The one-at-a-time loop: it keeps what was stored, appends a prefix of the
      batch and keeps ids unique; it stops short exactly when the next record's
      id is already present, and names that id. */
  lemma {:induction false} InsertManyStepSpec(records: seq<OutboxRecord>, batch: seq<OutboxRecord>)
    requires DistinctBy(records, IdOf)
    ensures var (s, o) := InsertManyStep(records, batch);
      DistinctBy(s, IdOf)
      && (exists k :: 0 <= k <= |batch| && s == records + batch[..k] && (o.Pass? <==> k == |batch|)
             && (k < |batch| ==> o == Fail(DuplicateKey(batch[k].id)) && HasId(s, batch[k].id)))
    decreases |batch|
  {
    if batch != [] && !HasId(records, batch[0].id) {
      var next := records + [batch[0]];
      assert DistinctBy(next, IdOf);
      InsertManyStepSpec(next, batch[1..]);
      var (s, o) := InsertManyStep(next, batch[1..]);
      var k :| 0 <= k <= |batch[1..]| && s == next + batch[1..][..k] && (o.Pass? <==> k == |batch[1..]|)
        && (k < |batch[1..]| ==> o == Fail(DuplicateKey(batch[1..][k].id)) && HasId(s, batch[1..][k].id));
      assert records + batch[..k + 1] == next + batch[1..][..k];
      assert k < |batch[1..]| ==> batch[k + 1] == batch[1..][k];
    } else {
      assert records + batch[..0] == records;
    }
  }

  /** An ordered InsertMany refuses an empty batch and leaves the collection as it
      was; otherwise it keeps what was stored, appends a prefix of the batch and
      keeps ids unique, reports success exactly when the whole batch went in, and
      on failure names the first record whose id was already present (stored, or
      earlier in the same batch). */
  lemma InsertManySpec(records: seq<OutboxRecord>, batch: seq<OutboxRecord>)
    requires DistinctBy(records, IdOf)
    ensures batch == [] ==> InsertMany(records, batch) == (records, Fail(EmptyBatch))
    ensures var (s, o) := InsertMany(records, batch);
      DistinctBy(s, IdOf)
      && (exists k :: 0 <= k <= |batch| && s == records + batch[..k] && (o.Pass? <==> batch != [] && k == |batch|)
             && (k < |batch| ==> o == Fail(DuplicateKey(batch[k].id)) && HasId(s, batch[k].id)))
  {
    if batch == [] {
      assert records + batch[..0] == records;
    } else {
      InsertManyStepSpec(records, batch);
    }
  }

  /** Replacing by id changes only the record with that id, keeps ids unique, and
      leaves the collection as it was when no record has the id. */
  lemma ReplaceByIdSpec(records: seq<OutboxRecord>, r: OutboxRecord)
    requires DistinctBy(records, IdOf)
    ensures DistinctBy(ReplaceById(records, r), IdOf)
    ensures !HasId(records, r.id) ==> ReplaceById(records, r) == records
    ensures forall i :: 0 <= i < |records| ==> ReplaceById(records, r)[i].id == records[i].id
  {
  }

  /** The OutboxEvents collection. */
  class OutboxRepository {
    var records: seq<OutboxRecord>

    /** The `_id` unique index. */
    predicate Valid()
      reads this
    {
      DistinctBy(records, IdOf)
    }

    constructor ()
      ensures records == [] && Valid()
    {
      records := [];
    }

    /** Add (InsertOne): the record is appended unless its id is already stored. */
    method Add(r: OutboxRecord) returns (o: Outcome<StoreError>)
      requires Valid()
      modifies this
      ensures Valid()
      ensures o.Pass? <==> !HasId(old(records), r.id)
      ensures o.Fail? ==> o.error == DuplicateKey(r.id)
      ensures records == (if o.Pass? then old(records) + [r] else old(records))
    {
      if exists i :: 0 <= i < |records| && records[i].id == r.id {
        return Fail(DuplicateKey(r.id));
      }
      records := records + [r];
      return Pass;
    }

    /** AddRange (InsertMany, ordered). */
    method AddRange(batch: seq<OutboxRecord>) returns (o: Outcome<StoreError>)
      requires Valid()
      modifies this
      ensures Valid()
      ensures (records, o) == InsertMany(old(records), batch)
    {
      if |batch| == 0 {
        return Fail(EmptyBatch);
      }
      InsertManyStepSpec(records, batch);
      var i := 0;
      while i < |batch|
        invariant 0 <= i <= |batch|
        invariant Valid()
        invariant InsertManyStep(records, batch[i..]) == InsertManyStep(old(records), batch)
        decreases |batch| - i
      {
        assert batch[i..][0] == batch[i] && batch[i..][1..] == batch[i + 1..];
        o := Add(batch[i]);
        if o.Fail? {
          return;
        }
        i := i + 1;
      }
      return Pass;
    }

    method GetPendingEvents(batchSize: int) returns (r: seq<OutboxRecord>)
      ensures r == PendingEvents(records, batchSize)
    {
      r := PendingEvents(records, batchSize);
    }

    /** Update (ReplaceOne by id, no upsert). */
    method Update(r: OutboxRecord)
      requires Valid()
      modifies this
      ensures Valid()
      ensures records == ReplaceById(old(records), r)
    {
      ReplaceByIdSpec(records, r);
      records := ReplaceById(records, r);
    }
  }
}

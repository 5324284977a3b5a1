/** The user service's outbox: a plain record and the MongoDB collection that
    stores it under a unique `_id`, with targeted updates by id. */
module UserOutbox {
  import opened Base
  import opened OutboxQueries

  datatype OutboxRecord = OutboxRecord(
    id: string, eventType: string, eventData: string, routingKey: string, createdAt: Time,
    processedAt: Option<Time>, isProcessed: bool, retryCount: int, lastError: Option<string>)

  /** `new OutboxEvent()`: a fresh Guid string as id, empty strings, the clock
      reading as CreatedAt, unprocessed, no failed attempts. */
  function DefaultRecord(freshId: string, now: Time): (r: OutboxRecord)
    ensures !r.isProcessed && r.retryCount == 0 && r.lastError.None? && r.processedAt.None?
    ensures r.eventType == "" && r.eventData == "" && r.routingKey == ""
    ensures r.id == freshId && r.createdAt == now
  {
    OutboxRecord(freshId, "", "", "", now, None, false, 0, None)
  }

  function IdOf(r: OutboxRecord): string { r.id }

  function CreatedAtOf(r: OutboxRecord): Time { r.createdAt }

  /** The filter of GetUnprocessedAsync; unlike the pet service's, it has no bound
      on RetryCount. */
  predicate IsUnprocessed(r: OutboxRecord) {
    !r.isProcessed
  }

  function Unprocessed(records: seq<OutboxRecord>, batchSize: int): seq<OutboxRecord> {
    Query(records, IsUnprocessed, CreatedAtOf, batchSize)
  }

  /** An unprocessed batch holds only unprocessed stored records, whatever their
      retry count, oldest first, at most batchSize of them; it holds every
      unprocessed record when they fit, and an unprocessed record left out is no
      older than any record in the batch. */
  lemma UnprocessedSpec(records: seq<OutboxRecord>, batchSize: int)
    requires batchSize > 0
    ensures var b := Unprocessed(records, batchSize);
      (forall x :: x in b ==> x in records && !x.isProcessed)
      && (forall i, j :: 0 <= i < j < |b| ==> b[i].createdAt <= b[j].createdAt)
      && |b| <= batchSize
      && ((forall x :: x in records && !x.isProcessed ==> x in b) <== |Filter(records, IsUnprocessed)| <= batchSize)
      && (forall x, y :: x in records && !x.isProcessed && x !in b && y in b ==> y.createdAt <= x.createdAt)
  {
    QuerySpec(records, IsUnprocessed, CreatedAtOf, batchSize);
    var b := Unprocessed(records, batchSize);
    if |Filter(records, IsUnprocessed)| <= batchSize {
      forall x | x in records && !x.isProcessed ensures x in b {
        assert IsUnprocessed(x);
        assert x in multiset(Filter(records, IsUnprocessed));
      }
    }
    forall x, y | x in records && !x.isProcessed && x !in b && y in b ensures y.createdAt <= x.createdAt {
      QueryOmitsOnlyNewer(records, IsUnprocessed, CreatedAtOf, batchSize, x, y);
    }
  }

  /** UpdateOne(_id == id, Set IsProcessed, Set ProcessedAt). */
  function MarkProcessedById(records: seq<OutboxRecord>, id: string, now: Time): seq<OutboxRecord> {
    seq(|records|, i requires 0 <= i < |records| =>
      if records[i].id == id then records[i].(isProcessed := true, processedAt := Some(now)) else records[i])
  }

  /** UpdateOne(_id == id, Inc RetryCount, Set LastError). */
  function MarkFailedById(records: seq<OutboxRecord>, id: string, error: string): seq<OutboxRecord> {
    seq(|records|, i requires 0 <= i < |records| =>
      if records[i].id == id then records[i].(retryCount := records[i].retryCount + 1, lastError := Some(error))
      else records[i])
  }

  predicate HasId(records: seq<OutboxRecord>, id: string) {
    exists i :: 0 <= i < |records| && records[i].id == id
  }

  /** The two updates touch only the record with the id, and only the fields they
      set; an unknown id leaves the collection as it was. */
  lemma MarkSpec(records: seq<OutboxRecord>, id: string, now: Time, error: string)
    ensures var p := MarkProcessedById(records, id, now);
      |p| == |records|
      && (forall i :: 0 <= i < |p| && records[i].id == id ==>
            p[i] == records[i].(isProcessed := true, processedAt := Some(now)))
      && (forall i :: 0 <= i < |p| && records[i].id != id ==> p[i] == records[i])
    ensures var f := MarkFailedById(records, id, error);
      |f| == |records|
      && (forall i :: 0 <= i < |f| && records[i].id == id ==>
            f[i].retryCount == records[i].retryCount + 1 && f[i].lastError == Some(error)
            && f[i].isProcessed == records[i].isProcessed
            && f[i].(retryCount := records[i].retryCount, lastError := records[i].lastError) == records[i])
      && (forall i :: 0 <= i < |f| && records[i].id != id ==> f[i] == records[i])
    ensures !HasId(records, id) ==> MarkProcessedById(records, id, now) == records && MarkFailedById(records, id, error) == records
  {
  }

  /** What a later collection keeps of an earlier one: every earlier record is still
      there at its place with the same id, payload and routing key, a processed
      record stays processed, and retry counts have not gone down. */
  predicate Grows(before: seq<OutboxRecord>, after: seq<OutboxRecord>) {
    |before| <= |after|
    && forall i :: 0 <= i < |before| ==>
      after[i].id == before[i].id && after[i].eventData == before[i].eventData
      && after[i].routingKey == before[i].routingKey && after[i].createdAt == before[i].createdAt
      && (before[i].isProcessed ==> after[i].isProcessed)
      && before[i].retryCount <= after[i].retryCount
  }

  lemma GrowsTransitive(a: seq<OutboxRecord>, b: seq<OutboxRecord>, c: seq<OutboxRecord>)
    requires Grows(a, b) && Grows(b, c)
    ensures Grows(a, c)
  {
  }

  /** The calls the user service makes on the collection. */
  datatype StoreCall =
    | CallAdd(r: OutboxRecord)
    | CallMarkAsProcessed(id: string, now: Time)
    | CallMarkAsFailed(id: string, error: string)

  function ApplyStoreCall(records: seq<OutboxRecord>, c: StoreCall): seq<OutboxRecord> {
    match c
    case CallAdd(r) => if HasId(records, r.id) then records else records + [r]
    case CallMarkAsProcessed(id, now) => MarkProcessedById(records, id, now)
    case CallMarkAsFailed(id, error) => MarkFailedById(records, id, error)
  }

  function ApplyStoreCalls(records: seq<OutboxRecord>, cs: seq<StoreCall>): seq<OutboxRecord>
    decreases |cs|
  {
    if cs == [] then records else ApplyStoreCalls(ApplyStoreCall(records, cs[0]), cs[1..])
  }

  /** No call deletes or reorders records, forgets a processed mark, or lowers a
      retry count, and the ids stay unique. */
  lemma {:induction false} StoreCallsGrow(records: seq<OutboxRecord>, cs: seq<StoreCall>)
    requires DistinctBy(records, IdOf)
    ensures Grows(records, ApplyStoreCalls(records, cs))
    ensures DistinctBy(ApplyStoreCalls(records, cs), IdOf)
    decreases |cs|
  {
    if cs != [] {
      var next := ApplyStoreCall(records, cs[0]);
      assert Grows(records, next);
      assert DistinctBy(next, IdOf);
      StoreCallsGrow(next, cs[1..]);
      GrowsTransitive(records, next, ApplyStoreCalls(next, cs[1..]));
    }
  }

  datatype StoreError = DuplicateKey(id: string)

  /** The OutboxEvents collection of the user database. */
  class OutboxRepository {
    var records: seq<OutboxRecord>

    /** The `_id` unique index. */
    predicate Valid()
      reads this
    {
      DistinctBy(records, IdOf)
    }

    constructor ()
      ensures records == [] && Valid()
    {
      records := [];
    }

    /** AddAsync (InsertOne): appended unless the id is already stored. */
    method AddAsync(r: OutboxRecord) returns (o: Outcome<StoreError>)
      requires Valid()
      modifies this
      ensures Valid()
      ensures o.Pass? <==> !HasId(old(records), r.id)
      ensures o.Fail? ==> o.error == DuplicateKey(r.id)
      ensures records == ApplyStoreCall(old(records), CallAdd(r))
    {
      if exists i :: 0 <= i < |records| && records[i].id == r.id {
        return Fail(DuplicateKey(r.id));
      }
      records := records + [r];
      return Pass;
    }

    method GetUnprocessedAsync(batchSize: int) returns (r: seq<OutboxRecord>)
      ensures r == Unprocessed(records, batchSize)
    {
      r := Unprocessed(records, batchSize);
    }

    method MarkAsProcessedAsync(id: string, now: Time)
      requires Valid()
      modifies this
      ensures Valid()
      ensures records == MarkProcessedById(old(records), id, now)
    {
      records := MarkProcessedById(records, id, now);
    }

    method MarkAsFailedAsync(id: string, error: string)
      requires Valid()
      modifies this
      ensures Valid()
      ensures records == MarkFailedById(old(records), id, error)
    {
      records := MarkFailedById(records, id, error);
    }
  }
}

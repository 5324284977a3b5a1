/** The user repository: the Users collection (one document per user, keyed by
    the id's string), the lookups on it, and SaveAsync, which writes the user and
    then queues one outbox record per pending domain event.

    SaveAsync runs its writes one after the other with no transaction, so a
    failing write leaves the earlier ones in place. Which writes fail is an input
    (`SaveEnv`), as are the JSON text of each event (JsonSerializer), the fresh
    Guid string and the clock reading behind each outbox record. */
module UserPersistence {
  import opened Base
  import opened UserValueObjects
  import opened Users
  import opened OutboxQueries
  import UserOutbox

  /** GetRoutingKey: the topic each event type is published under. */
  function GetRoutingKey(e: EventBody): string {
    match e
    case UserRegisteredEvent(_, _, _, _, _) => "user.registered.v1"
    case UserProfileUpdatedEvent(_, _, _, _) => "user.profile-updated.v1"
    case UserSuspendedEvent(_, _, _) => "user.suspended.v1"
    case UserPasswordChangedEvent(_, _) => "user.password-changed.v1"
    case UserRoleChangedEvent(_, _, _) => "user.role-changed.v1"
  }

  /** Routing keys tell event types apart, and all are versioned "user." topics. */
  lemma RoutingKeyIdentifiesType(a: EventBody, b: EventBody)
    ensures GetRoutingKey(a) == GetRoutingKey(b) <==> a.TypeName() == b.TypeName()
    ensures |GetRoutingKey(a)| > 8 && GetRoutingKey(a)[..5] == "user." && GetRoutingKey(a)[|GetRoutingKey(a)| - 3..] == ".v1"
  {
  }

  /** The outbox record SaveAsync builds for one event. */
  function RecordFor(e: UserEvent, freshId: string, serialized: string, now: Time): UserOutbox.OutboxRecord {
    UserOutbox.DefaultRecord(freshId, now).(
      eventType := e.body.TypeName(), eventData := serialized, routingKey := GetRoutingKey(e.body))
  }

  /** What the environment does during one SaveAsync: whether the user write and
      each outbox insert go through, and the values drawn for the k-th record. */
  datatype SaveEnv = SaveEnv(
    userWriteOk: bool, insertOk: nat -> bool,
    freshIds: nat -> string, clock: nat -> Time, serialize: UserEvent -> string)

  datatype SaveError = WriteFailed | DuplicateKey(id: string)

  /** The document stored for a user: the domain events are not mapped. */
  function Document(d: UserData): UserData {
    d.(events := [])
  }

  function UserIdOf(d: UserData): UserId { d.id }

  /** ReplaceOne(_id == d.id, d, IsUpsert = true). */
  function Upsert(users: seq<UserData>, d: UserData): seq<UserData>
    decreases |users|
  {
    if users == [] then [d]
    else if users[0].id == d.id then [d] + users[1..]
    else [users[0]] + Upsert(users[1..], d)
  }

  predicate HasUser(users: seq<UserData>, id: UserId) {
    exists i :: 0 <= i < |users| && users[i].id == id
  }

  lemma TailDistinct(users: seq<UserData>)
    requires users != [] && DistinctBy(users, UserIdOf)
    ensures DistinctBy(users[1..], UserIdOf)
  {
    var tail := users[1..];
    forall i, j | 0 <= i < j < |tail| ensures tail[i].id != tail[j].id {
      assert tail[i] == users[i + 1] && tail[j] == users[j + 1];
    }
  }

  /** An upsert stores the user exactly once and leaves every other user as it was. */
  lemma UpsertSpec(users: seq<UserData>, d: UserData)
    requires DistinctBy(users, UserIdOf)
    ensures var u := Upsert(users, d);
      DistinctBy(u, UserIdOf) && d in u
      && (forall x :: x in u && x.id != d.id <==> x in users && x.id != d.id)
  {
    UpsertKeepsOthers(users, d);
    UpsertDistinct(users, d);
  }

  lemma {:induction false} UpsertKeepsOthers(users: seq<UserData>, d: UserData)
    ensures var u := Upsert(users, d);
      d in u && (forall x :: x in u && x.id != d.id <==> x in users && x.id != d.id)
    decreases |users|
  {
    if users != [] {
      var tail := users[1..];
      assert users == [users[0]] + tail;
      if users[0].id != d.id {
        UpsertKeepsOthers(tail, d);
        assert Upsert(users, d) == [users[0]] + Upsert(tail, d);
      }
    }
  }

  lemma {:induction false} UpsertDistinct(users: seq<UserData>, d: UserData)
    requires DistinctBy(users, UserIdOf)
    ensures DistinctBy(Upsert(users, d), UserIdOf)
    decreases |users|
  {
    if users != [] {
      var tail := users[1..];
      TailDistinct(users);
      HeadNotInTail(users);
      if users[0].id != d.id {
        UpsertDistinct(tail, d);
        UpsertKeepsOthers(tail, d);
        DistinctCons(users[0], Upsert(tail, d));
      } else {
        DistinctCons(d, tail);
      }
    }
  }

  lemma HeadNotInTail(users: seq<UserData>)
    requires users != [] && DistinctBy(users, UserIdOf)
    ensures forall x :: x in users[1..] ==> x.id != users[0].id
  {
    forall x | x in users[1..] ensures x.id != users[0].id {
      var k :| 0 <= k < |users[1..]| && users[1..][k] == x;
      assert users[k + 1] == x;
    }
  }

  lemma DistinctCons(h: UserData, t: seq<UserData>)
    requires DistinctBy(t, UserIdOf) && forall x :: x in t ==> x.id != h.id
    ensures DistinctBy([h] + t, UserIdOf)
  {
    var u := [h] + t;
    forall i, j | 0 <= i < j < |u| ensures u[i].id != u[j].id {
      assert u[j] == t[j - 1];
      if i > 0 {
        assert u[i] == t[i - 1];
      }
    }
  }

  /** An upsert replaces a stored document with the same id rather than adding one. */
  lemma {:induction false} UpsertLength(users: seq<UserData>, d: UserData)
    ensures |Upsert(users, d)| == (if HasUser(users, d.id) then |users| else |users| + 1)
    decreases |users|
  {
    if users != [] && users[0].id != d.id {
      var tail := users[1..];
      UpsertLength(tail, d);
      if HasUser(users, d.id) {
        var i :| 0 <= i < |users| && users[i].id == d.id;
        assert tail[i - 1] == users[i];
      }
      if HasUser(tail, d.id) {
        var i :| 0 <= i < |tail| && tail[i].id == d.id;
        assert users[i + 1] == tail[i];
      }
    } else if users != [] {
      assert HasUser(users, d.id);
    }
  }

  /** Queues the events from index k on, one AddAsync per event, stopping at the
      first insert that fails; `records` is the outbox before event k. */
  function Enqueue(records: seq<UserOutbox.OutboxRecord>, events: seq<UserEvent>, env: SaveEnv, k: nat)
    : (seq<UserOutbox.OutboxRecord>, Outcome<SaveError>)
    requires k <= |events|
    decreases |events| - k
  {
    if k == |events| then (records, Pass)
    else
      var r := RecordFor(events[k], env.freshIds(k), env.serialize(events[k]), env.clock(k));
      if !env.insertOk(k) then (records, Fail(WriteFailed))
      else if UserOutbox.HasId(records, r.id) then (records, Fail(DuplicateKey(r.id)))
      else Enqueue(records + [r], events, env, k + 1)
  }

  /** The collections and the user after SaveAsync. */
  datatype Saved = Saved(
    users: seq<UserData>, outbox: seq<UserOutbox.OutboxRecord>, user: UserData, outcome: Outcome<SaveError>)

  function SaveStep(users: seq<UserData>, outbox: seq<UserOutbox.OutboxRecord>, d: UserData, env: SaveEnv): Saved {
    if !env.userWriteOk then Saved(users, outbox, d, Fail(WriteFailed))
    else
      var (records, o) := Enqueue(outbox, d.events, env, 0);
      Saved(Upsert(users, Document(d)), records, if o.Pass? then d.(events := []) else d, o)
  }

  /** The records the first n events of `d` turn into. */
  function RecordsFor(events: seq<UserEvent>, env: SaveEnv, n: nat): seq<UserOutbox.OutboxRecord>
    requires n <= |events|
  {
    seq(n, k requires 0 <= k < n => RecordFor(events[k], env.freshIds(k), env.serialize(events[k]), env.clock(k)))
  }

  /** Enqueueing appends, in event order, the records of the events before the
      first failing insert, and succeeds exactly when it gets through all of them. */
  lemma {:induction false} EnqueueSpec(records: seq<UserOutbox.OutboxRecord>, events: seq<UserEvent>, env: SaveEnv, k: nat)
    requires k <= |events|
    ensures var (after, o) := Enqueue(records, events, env, k);
      exists n :: k <= n <= |events|
        && after == records + RecordsFor(events, env, n)[k..]
        && (o.Pass? <==> n == |events|)
    decreases |events| - k
  {
    var all := RecordsFor(events, env, |events|);
    if k == |events| {
      assert RecordsFor(events, env, k)[k..] == [];
    } else {
      var r := RecordFor(events[k], env.freshIds(k), env.serialize(events[k]), env.clock(k));
      if !env.insertOk(k) || UserOutbox.HasId(records, r.id) {
        assert RecordsFor(events, env, k)[k..] == [];
      } else {
        EnqueueSpec(records + [r], events, env, k + 1);
        var (after, o) := Enqueue(records + [r], events, env, k + 1);
        var n :| k + 1 <= n <= |events| && after == records + [r] + RecordsFor(events, env, n)[k + 1..]
          && (o.Pass? <==> n == |events|);
        var tail := RecordsFor(events, env, n);
        assert tail[k] == r;
        assert tail[k..] == [r] + tail[k + 1..];
        PushThenAppend(records, r, tail[k + 1..]);
      }
    }
  }

  lemma PushThenAppend<T>(s: seq<T>, x: T, t: seq<T>)
    ensures s + [x] + t == s + ([x] + t)
  {
  }

  /** SaveAsync, in closed form.
      - When every write goes through, the user document is stored, the outbox
        gains one record per pending event, in event order, carrying the event's
        type name, payload and routing key, and the pending list is emptied.
      - When a write fails, what was written before it stays written: the user
        document if the user write went through, and the records of the events
        before the failing insert; the pending events are kept. */
  lemma SaveSpec(users: seq<UserData>, outbox: seq<UserOutbox.OutboxRecord>, d: UserData, env: SaveEnv)
    ensures var s := SaveStep(users, outbox, d, env);
      (!env.userWriteOk ==> s == Saved(users, outbox, d, Fail(WriteFailed)))
      && (env.userWriteOk ==>
            s.users == Upsert(users, Document(d))
            && exists n :: 0 <= n <= |d.events|
                 && s.outbox == outbox + RecordsFor(d.events, env, n)
                 && (s.outcome.Pass? <==> n == |d.events|))
      && (s.outcome.Pass? ==> s.user == d.(events := []))
      && (s.outcome.Fail? ==> s.user == d)
      && (d.events == [] && env.userWriteOk ==> s.outbox == outbox && s.outcome.Pass?)
  {
    if env.userWriteOk {
      EnqueueSpec(outbox, d.events, env, 0);
      var (after, o) := Enqueue(outbox, d.events, env, 0);
      var n :| 0 <= n <= |d.events| && after == outbox + RecordsFor(d.events, env, n)[0..] && (o.Pass? <==> n == |d.events|);
      assert RecordsFor(d.events, env, n)[0..] == RecordsFor(d.events, env, n);
    }
  }

  /** Each queued record is unprocessed, has never failed, and names its event's
      type and routing key. */
  lemma RecordsForSpec(events: seq<UserEvent>, env: SaveEnv, n: nat)
    requires n <= |events|
    ensures forall k :: 0 <= k < n ==>
      var r := RecordsFor(events, env, n)[k];
      !r.isProcessed && r.retryCount == 0 && r.eventType == events[k].body.TypeName()
      && r.routingKey == GetRoutingKey(events[k].body) && r.eventData == env.serialize(events[k])
  {
  }

  /** The Users collection. */
  class UserRepository {
    var users: seq<UserData>
    const outboxRepository: UserOutbox.OutboxRepository

    predicate Valid()
      reads this, outboxRepository
    {
      DistinctBy(users, UserIdOf) && outboxRepository.Valid()
    }

    constructor (outbox: UserOutbox.OutboxRepository)
      ensures users == [] && outboxRepository == outbox
      ensures outbox.Valid() ==> Valid()
    {
      users := [];
      outboxRepository := outbox;
    }

    /** GetByIdAsync: the first stored user with the id, or null. */
    function GetById(id: UserId): (r: Option<UserData>)
      reads this
      ensures r.Some? ==> r.value in users && r.value.id == id
      ensures r.None? <==> !HasUser(users, id)
    {
      FindFirst(users, id)
    }

    /** GetByEmailAsync: the first stored user with the e-mail, or null. */
    function GetByEmail(email: Email): (r: Option<UserData>)
      reads this
      ensures r.Some? ==> r.value in users && r.value.email == email
      ensures r.None? <==> forall i :: 0 <= i < |users| ==> users[i].email != email
    {
      FindEmail(users, email)
    }

    /** ExistsWithEmailAsync: CountDocuments(Email == email) > 0. */
    function ExistsWithEmail(email: Email): (b: bool)
      reads this
      ensures b <==> exists i :: 0 <= i < |users| && users[i].email == email
    {
      CountEmail(users, email) > 0
    }

    method SaveAsync(user: User, env: SaveEnv) returns (o: Outcome<SaveError>)
      requires Valid()
      modifies this, outboxRepository, user
      ensures Valid()
      ensures var s := SaveStep(old(users), old(outboxRepository.records), old(user.Data()), env);
        users == s.users && outboxRepository.records == s.outbox && user.Data() == s.user && o == s.outcome
    {
      if !env.userWriteOk {
        return Fail(WriteFailed);
      }
      UpsertSpec(users, Document(user.Data()));
      users := Upsert(users, Document(user.Data()));
      var events := user.domainEvents;
      ghost var start := outboxRepository.records;
      var k := 0;
      while k < |events|
        invariant 0 <= k <= |events|
        invariant outboxRepository.Valid()
        invariant user.Data() == old(user.Data()) && events == user.domainEvents
        invariant users == Upsert(old(users), Document(old(user.Data())))
        invariant Enqueue(outboxRepository.records, events, env, k) == Enqueue(start, events, env, 0)
        decreases |events| - k
      {
        var r := RecordFor(events[k], env.freshIds(k), env.serialize(events[k]), env.clock(k));
        ghost var before := outboxRepository.records;
        if !env.insertOk(k) {
          assert Enqueue(before, events, env, k) == (before, Fail(WriteFailed));
          return Fail(WriteFailed);
        }
        var added := outboxRepository.AddAsync(r);
        if added.Fail? {
          assert Enqueue(before, events, env, k) == (before, Fail(DuplicateKey(r.id)));
          return Fail(DuplicateKey(r.id));
        }
        assert outboxRepository.records == before + [r];
        assert Enqueue(before, events, env, k) == Enqueue(before + [r], events, env, k + 1);
        k := k + 1;
      }
      assert Enqueue(outboxRepository.records, events, env, k) == (outboxRepository.records, Pass);
      user.ClearDomainEvents();
      return Pass;
    }
  }

  function FindFirst(users: seq<UserData>, id: UserId): (r: Option<UserData>)
    ensures r.Some? ==> r.value in users && r.value.id == id
    ensures r.None? <==> !HasUser(users, id)
    decreases |users|
  {
    if users == [] then None
    else if users[0].id == id then Some(users[0])
    else
      FindFirst(users[1..], id)
  }

  function FindEmail(users: seq<UserData>, email: Email): (r: Option<UserData>)
    ensures r.Some? ==> r.value in users && r.value.email == email
    ensures r.None? <==> forall i :: 0 <= i < |users| ==> users[i].email != email
    decreases |users|
  {
    if users == [] then None
    else if users[0].email == email then Some(users[0])
    else
      var r := FindEmail(users[1..], email);
      assert r.None? ==> forall i :: 0 <= i < |users| ==> users[i].email != email by {
        if r.None? {
          forall i | 1 <= i < |users| ensures users[i].email != email {
            assert users[1..][i - 1] == users[i];
          }
        }
      }
      r
  }

  /** CountDocuments(Email == email). */
  function CountEmail(users: seq<UserData>, email: Email): (n: nat)
    ensures n > 0 <==> exists i :: 0 <= i < |users| && users[i].email == email
    decreases |users|
  {
    if users == [] then 0
    else
      var rest := CountEmail(users[1..], email);
      assert rest > 0 <==> exists i :: 1 <= i < |users| && users[i].email == email by {
        if rest > 0 {
          var i :| 0 <= i < |users[1..]| && users[1..][i].email == email;
          assert users[i + 1] == users[1..][i];
        }
        if exists i :: 1 <= i < |users| && users[i].email == email {
          var i :| 1 <= i < |users| && users[i].email == email;
          assert users[1..][i - 1] == users[i];
        }
      }
      (if users[0].email == email then 1 else 0) + rest
  }

  /** E-mail lookup and the existence check agree. */
  lemma ExistsMatchesLookup(users: seq<UserData>, email: Email)
    ensures CountEmail(users, email) > 0 <==> FindEmail(users, email).Some?
  {
  }
}

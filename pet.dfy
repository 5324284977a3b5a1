/** The Pet aggregate: Available -> Reserved -> Adopted, or back to Available by
    cancelling the reservation. It collects the domain events it raises until they
    are cleared, and keeps a version counter that only the persistence layer bumps. */
module Pets {
  import opened Base
  import opened PetErrors
  import PetNames

  datatype PetStatus = Available | Reserved | Adopted {
    function ToString(): string {
      match this
      case Available => "Available"
      case Reserved => "Reserved"
      case Adopted => "Adopted"
    }
  }

  /** The three event classes the aggregate raises. */
  datatype EventKind = PetReservedEvent | PetAdoptedEvent | PetReservationCancelledEvent {
    /** GetType().Name, as the outbox records it. */
    function TypeName(): string {
      match this
      case PetReservedEvent => "PetReservedEvent"
      case PetAdoptedEvent => "PetAdoptedEvent"
      case PetReservationCancelledEvent => "PetReservationCancelledEvent"
    }

    /** The status the pet is left in by the transition that raises this event. */
    function ResultingStatus(): PetStatus {
      match this
      case PetReservedEvent => Reserved
      case PetAdoptedEvent => Adopted
      case PetReservationCancelledEvent => Available
    }
  }

  /** A DomainEventBase with the pet's name: EventId is a fresh Guid and OccurredOn
      the clock reading, both supplied by the caller. */
  datatype PetEvent = PetEvent(kind: EventKind, eventId: Guid, aggregateId: Guid, petName: string, occurredOn: Time)

  datatype PetData = PetData(
    id: Guid, name: PetNames.PetName, petTypeId: Guid, status: PetStatus, version: int, events: seq<PetEvent>)

  /** The private constructor's guards and initial state. */
  function New(id: Guid, name: PetNames.PetName, petTypeId: Guid): (r: Result<PetData, Failure>)
    ensures id == EmptyGuid ==> r == Failure(ArgumentError("id"))
    ensures id != EmptyGuid && petTypeId == EmptyGuid ==> r == Failure(ArgumentError("petTypeId"))
    ensures r.Success? <==> id != EmptyGuid && petTypeId != EmptyGuid
    ensures r.Success? ==> r.value == PetData(id, name, petTypeId, Available, 0, [])
  {
    if id == EmptyGuid then Failure(ArgumentError("id"))
    else if petTypeId == EmptyGuid then Failure(ArgumentError("petTypeId"))
    else Success(PetData(id, name, petTypeId, Available, 0, []))
  }

  /** Pet.Create: the name is validated first (the PetName argument is built before
      the constructor runs), then the constructor's guards; `freshId` is Guid.NewGuid(). */
  function CreateStep(name: string, petTypeId: Guid, freshId: Guid): (r: Result<PetData, Failure>)
    ensures PetNames.New(name).Failure? ==> r == Failure(DomainError(InvalidPetName))
    ensures r.Success? <==> PetNames.New(name).Success? && freshId != EmptyGuid && petTypeId != EmptyGuid
    ensures r.Success? ==>
      r.value.status == Available && r.value.version == 0 && r.value.events == []
      && r.value.name.value == PetNames.New(name).value.value && r.value.id == freshId && r.value.petTypeId == petTypeId
  {
    match PetNames.New(name)
    case Failure(reason) => Failure(PetNames.RejectionFailure(reason))
    case Success(petName) => New(freshId, petName, petTypeId)
  }

  function Raise(d: PetData, kind: EventKind, eventId: Guid, now: Time): PetData {
    d.(status := kind.ResultingStatus(),
       events := d.events + [PetEvent(kind, eventId, d.id, d.name.value, now)])
  }

  /** Reserve: only an Available pet can be reserved. */
  function ReserveStep(d: PetData, eventId: Guid, now: Time): (r: Result<PetData, Failure>)
    ensures r.Success? <==> d.status == Available
    ensures r.Failure? ==> r.error == DomainError(PetNotAvailable)
    ensures r.Success? ==>
      r.value.status == Reserved
      && r.value.events == d.events + [PetEvent(PetReservedEvent, eventId, d.id, d.name.value, now)]
      && r.value.(status := d.status, events := d.events) == d
  {
    if d.status != Available then Failure(DomainError(PetNotAvailable))
    else Success(Raise(d, PetReservedEvent, eventId, now))
  }

  /** Adopt: only a Reserved pet can be adopted. */
  function AdoptStep(d: PetData, eventId: Guid, now: Time): (r: Result<PetData, Failure>)
    ensures r.Success? <==> d.status == Reserved
    ensures r.Failure? ==> r.error == DomainError(PetNotReserved)
    ensures r.Success? ==>
      r.value.status == Adopted
      && r.value.events == d.events + [PetEvent(PetAdoptedEvent, eventId, d.id, d.name.value, now)]
      && r.value.(status := d.status, events := d.events) == d
  {
    if d.status != Reserved then Failure(DomainError(PetNotReserved))
    else Success(Raise(d, PetAdoptedEvent, eventId, now))
  }

  /** CancelReservation: only a Reserved pet goes back to Available. */
  function CancelReservationStep(d: PetData, eventId: Guid, now: Time): (r: Result<PetData, Failure>)
    ensures r.Success? <==> d.status == Reserved
    ensures r.Failure? ==> r.error == DomainError(PetNotReserved)
    ensures r.Success? ==>
      r.value.status == Available
      && r.value.events == d.events + [PetEvent(PetReservationCancelledEvent, eventId, d.id, d.name.value, now)]
      && r.value.(status := d.status, events := d.events) == d
  {
    if d.status != Reserved then Failure(DomainError(PetNotReserved))
    else Success(Raise(d, PetReservationCancelledEvent, eventId, now))
  }

  /** Adopted is terminal: no transition succeeds from it. */
  lemma AdoptedIsTerminal(d: PetData, eventId: Guid, now: Time)
    requires d.status == Adopted
    ensures ReserveStep(d, eventId, now).Failure? && AdoptStep(d, eventId, now).Failure?
    ensures CancelReservationStep(d, eventId, now).Failure?
  {
  }

  /** The calls a command handler can make on a loaded pet. */
  datatype Command =
    | DoReserve(eventId: Guid, now: Time)
    | DoAdopt(eventId: Guid, now: Time)
    | DoCancel(eventId: Guid, now: Time)
    | DoIncrementVersion
    | DoClearDomainEvents

  /** One call: a transition that throws leaves the pet as it was. */
  function Apply(d: PetData, c: Command): PetData {
    match c
    case DoReserve(e, t) => var r := ReserveStep(d, e, t); if r.Success? then r.value else d
    case DoAdopt(e, t) => var r := AdoptStep(d, e, t); if r.Success? then r.value else d
    case DoCancel(e, t) => var r := CancelReservationStep(d, e, t); if r.Success? then r.value else d
    case DoIncrementVersion => d.(version := d.version + 1)
    case DoClearDomainEvents => d.(events := [])
  }

  function Run(d: PetData, cs: seq<Command>): PetData
    decreases |cs|
  {
    if cs == [] then d else Run(Apply(d, cs[0]), cs[1..])
  }

  /** Whether the call succeeds as a transition. */
  predicate IsSuccessfulTransition(d: PetData, c: Command) {
    match c
    case DoReserve(e, t) => ReserveStep(d, e, t).Success?
    case DoAdopt(e, t) => AdoptStep(d, e, t).Success?
    case DoCancel(e, t) => CancelReservationStep(d, e, t).Success?
    case _ => false
  }

  /** Whether some call in `cs` clears the pending events. */
  predicate HasClear(cs: seq<Command>)
    decreases |cs|
  {
    cs != [] && (cs[0].DoClearDomainEvents? || HasClear(cs[1..]))
  }

  /** The number of successful transitions in `cs` after its last clear. */
  function TransitionsSinceClear(d: PetData, cs: seq<Command>): nat
    decreases |cs|
  {
    if cs == [] then 0
    else
      var rest := TransitionsSinceClear(Apply(d, cs[0]), cs[1..]);
      if HasClear(cs[1..]) || !IsSuccessfulTransition(d, cs[0]) then rest else 1 + rest
  }

  function IncrementCount(cs: seq<Command>): nat
    decreases |cs|
  {
    if cs == [] then 0 else (if cs[0].DoIncrementVersion? then 1 else 0) + IncrementCount(cs[1..])
  }

  /** Pending events are exactly one per successful transition since the last
      clear, on top of those already pending if nothing cleared them. */
  lemma {:induction false} EventCountMatchesTransitions(d: PetData, cs: seq<Command>)
    ensures |Run(d, cs).events| == (if HasClear(cs) then 0 else |d.events|) + TransitionsSinceClear(d, cs)
    decreases |cs|
  {
    if cs != [] {
      EventCountMatchesTransitions(Apply(d, cs[0]), cs[1..]);
    }
  }

  /** Only IncrementVersion moves the version, by exactly one per call. */
  lemma {:induction false} VersionCountsIncrements(d: PetData, cs: seq<Command>)
    ensures Run(d, cs).version == d.version + IncrementCount(cs)
    decreases |cs|
  {
    if cs != [] {
      VersionCountsIncrements(Apply(d, cs[0]), cs[1..]);
    }
  }

  /** The pet's consistency invariant: every pending event carries the pet's id and
      name, and the newest one names the status the pet is in. */
  predicate EventsConsistent(d: PetData) {
    (forall i :: 0 <= i < |d.events| ==> d.events[i].aggregateId == d.id && d.events[i].petName == d.name.value)
    && (d.events != [] ==> d.events[|d.events| - 1].kind.ResultingStatus() == d.status)
  }

  lemma {:induction false} RunKeepsEventsConsistent(d: PetData, cs: seq<Command>)
    requires EventsConsistent(d)
    ensures EventsConsistent(Run(d, cs))
    ensures Run(d, cs).id == d.id && Run(d, cs).name == d.name && Run(d, cs).petTypeId == d.petTypeId
    decreases |cs|
  {
    if cs != [] {
      var d' := Apply(d, cs[0]);
      assert EventsConsistent(d') by {
        if d'.events != [] && d'.events != d.events {
          var n := |d'.events|;
          assert d'.events[n - 1].kind.ResultingStatus() == d'.status;
        }
      }
      RunKeepsEventsConsistent(d', cs[1..]);
    }
  }

  /** The pet object. */
  class Pet {
    var id: Guid
    var name: PetNames.PetName
    var petTypeId: Guid
    var status: PetStatus
    var version: int
    var domainEvents: seq<PetEvent>

    function Data(): PetData
      reads this
    {
      PetData(id, name, petTypeId, status, version, domainEvents)
    }

    constructor Init(d: PetData)
      ensures Data() == d
    {
      id, name, petTypeId, status, version, domainEvents := d.id, d.name, d.petTypeId, d.status, d.version, d.events;
    }

    /** Pet.Create with the Guid it draws. */
    static method Create(name: string, petTypeId: Guid, freshId: Guid) returns (r: Result<Pet, Failure>)
      ensures r.Failure? ==> CreateStep(name, petTypeId, freshId) == Failure(r.error)
      ensures r.Success? ==> fresh(r.value) && CreateStep(name, petTypeId, freshId) == Success(r.value.Data())
    {
      var petName := PetNames.New(name);
      if petName.Failure? {
        return Failure(PetNames.RejectionFailure(petName.error));
      }
      if freshId == EmptyGuid {
        return Failure(ArgumentError("id"));
      }
      if petTypeId == EmptyGuid {
        return Failure(ArgumentError("petTypeId"));
      }
      var p := new Pet.Init(PetData(freshId, petName.value, petTypeId, Available, 0, []));
      return Success(p);
    }

    method AddDomainEvent(e: PetEvent)
      modifies this
      ensures Data() == old(Data()).(events := old(domainEvents) + [e])
    {
      domainEvents := domainEvents + [e];
    }

    method Reserve(eventId: Guid, now: Time) returns (o: Outcome<Failure>)
      modifies this
      ensures var r := ReserveStep(old(Data()), eventId, now);
        (o.Pass? <==> r.Success?) && (o.Fail? ==> r == Failure(o.error))
        && Data() == (if r.Success? then r.value else old(Data()))
    {
      if status != Available {
        return Fail(DomainError(PetNotAvailable));
      }
      status := Reserved;
      AddDomainEvent(PetEvent(PetReservedEvent, eventId, id, name.value, now));
      return Pass;
    }

    method Adopt(eventId: Guid, now: Time) returns (o: Outcome<Failure>)
      modifies this
      ensures var r := AdoptStep(old(Data()), eventId, now);
        (o.Pass? <==> r.Success?) && (o.Fail? ==> r == Failure(o.error))
        && Data() == (if r.Success? then r.value else old(Data()))
    {
      if status != Reserved {
        return Fail(DomainError(PetNotReserved));
      }
      status := Adopted;
      AddDomainEvent(PetEvent(PetAdoptedEvent, eventId, id, name.value, now));
      return Pass;
    }

    method CancelReservation(eventId: Guid, now: Time) returns (o: Outcome<Failure>)
      modifies this
      ensures var r := CancelReservationStep(old(Data()), eventId, now);
        (o.Pass? <==> r.Success?) && (o.Fail? ==> r == Failure(o.error))
        && Data() == (if r.Success? then r.value else old(Data()))
    {
      if status != Reserved {
        return Fail(DomainError(PetNotReserved));
      }
      status := Available;
      AddDomainEvent(PetEvent(PetReservationCancelledEvent, eventId, id, name.value, now));
      return Pass;
    }

    method ClearDomainEvents()
      modifies this
      ensures Data() == old(Data()).(events := [])
    {
      domainEvents := [];
    }

    method IncrementVersion()
      modifies this
      ensures Data() == old(Data()).(version := old(version) + 1)
    {
      version := version + 1;
    }
  }
}

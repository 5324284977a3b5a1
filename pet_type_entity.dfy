/** The PetType entity that administrators manage: a normalised code, a display
    name, and an active flag that can be toggled. */
module PetTypes {
  import opened Base
  import opened Text
  import opened PetErrors

  const MinCodeLength: nat := 2
  const MaxCodeLength: nat := 50
  const MinNameLength: nat := 2
  const MaxNameLength: nat := 100

  /** Which validation rule rejected the input; each is thrown as a
      DomainException with code invalid_pet_type. */
  datatype Rejection = BlankCode | BlankName | CodeTooShort | CodeTooLong | NameLength {
    function ToFailure(): Failure { DomainError(InvalidPetType) }
  }

  /** The entity's fields. */
  datatype PetTypeData = PetTypeData(
    id: Guid, code: string, name: string, isActive: bool, createdAt: Time, updatedAt: Option<Time>)

  /** The name rule Create and UpdateName share: non-blank, 2..100 once trimmed. */
  function ValidateName(name: string): (r: Result<string, Rejection>)
    ensures r.Success? <==> !IsBlank(name) && MinNameLength <= Utf16Length(Trim(name)) <= MaxNameLength
    ensures r.Success? ==> r.value == Trim(name)
    ensures r.Failure? ==> r.error == (if IsBlank(name) then BlankName else NameLength)
  {
    if IsBlank(name) then Failure(BlankName)
    else
      var trimmed := Trim(name);
      if Utf16Length(trimmed) < MinNameLength || Utf16Length(trimmed) > MaxNameLength then Failure(NameLength)
      else Success(trimmed)
  }

  /** PetType.Create's checks, in the order the source makes them, and the
      private constructor's initial state. `id` is the fresh Guid and `now` the
      clock reading. */
  function CreateStep(code: string, name: string, id: Guid, now: Time): (r: Result<PetTypeData, Rejection>)
    ensures r.Success? <==>
      !IsBlank(code) && !IsBlank(name)
      && MinCodeLength <= Utf16Length(Trim(code)) <= MaxCodeLength
      && MinNameLength <= Utf16Length(Trim(name)) <= MaxNameLength
    ensures r.Success? ==>
      r.value == PetTypeData(id, ToLower(Trim(code)), Trim(name), true, now, None)
  {
    Utf16LengthToLower(Trim(code));
    if IsBlank(code) then Failure(BlankCode)
    else if IsBlank(name) then Failure(BlankName)
    else
      var normalizedCode := ToLower(Trim(code));
      var trimmedName := Trim(name);
      if Utf16Length(normalizedCode) < MinCodeLength then Failure(CodeTooShort)
      else if Utf16Length(normalizedCode) > MaxCodeLength then Failure(CodeTooLong)
      else if Utf16Length(trimmedName) < MinNameLength || Utf16Length(trimmedName) > MaxNameLength then Failure(NameLength)
      else Success(PetTypeData(id, normalizedCode, trimmedName, true, now, None))
  }

  /** Checks run in a fixed order: a blank code is reported whatever the name, and
      the code's length is checked before anything about the name's length. */
  lemma CreateRejectionOrder(code: string, name: string, id: Guid, now: Time)
    ensures IsBlank(code) ==> CreateStep(code, name, id, now) == Failure(BlankCode)
    ensures !IsBlank(code) && IsBlank(name) ==> CreateStep(code, name, id, now) == Failure(BlankName)
    ensures !IsBlank(code) && !IsBlank(name) && Utf16Length(Trim(code)) < MinCodeLength ==>
      CreateStep(code, name, id, now) == Failure(CodeTooShort)
    ensures !IsBlank(code) && !IsBlank(name) && Utf16Length(Trim(code)) > MaxCodeLength ==>
      CreateStep(code, name, id, now) == Failure(CodeTooLong)
  {
    Utf16LengthToLower(Trim(code));
  }

  /** The stored code is trimmed and lower case, and the stored name is trimmed, so
      creating a pet type again from the stored values gives the same code and name. */
  lemma {:induction false} CreateNormalises(code: string, name: string, id: Guid, now: Time)
    requires CreateStep(code, name, id, now).Success?
    ensures var d := CreateStep(code, name, id, now).value;
      ToLower(d.code) == d.code && Trim(d.code) == d.code && Trim(d.name) == d.name
      && CreateStep(d.code, d.name, id, now) == CreateStep(code, name, id, now)
  {
    var d := CreateStep(code, name, id, now).value;
    ToLowerIdempotent(Trim(code));
    TrimToLowerCommute(Trim(code));
    TrimIdempotent(code);
    TrimIdempotent(name);
    assert !IsBlank(d.code) && !IsBlank(d.name);
  }

  /** UpdateName: the shared name rule; only Name and UpdatedAt change. */
  function UpdateNameStep(d: PetTypeData, newName: string, now: Time): (r: Result<PetTypeData, Rejection>)
    ensures r.Success? <==> ValidateName(newName).Success?
    ensures r.Success? ==> r.value == d.(name := Trim(newName), updatedAt := Some(now))
    ensures r.Failure? ==> r.error in {BlankName, NameLength}
  {
    var trimmed :- ValidateName(newName);
    Success(d.(name := trimmed, updatedAt := Some(now)))
  }

  /** Deactivate: only an active pet type can be deactivated. */
  function DeactivateStep(d: PetTypeData, now: Time): (r: Result<PetTypeData, Failure>)
    ensures r.Success? <==> d.isActive
    ensures r.Success? ==> r.value == d.(isActive := false, updatedAt := Some(now))
    ensures r.Failure? ==> r.error == DomainError(InvalidOperation)
  {
    if !d.isActive then Failure(DomainError(InvalidOperation))
    else Success(d.(isActive := false, updatedAt := Some(now)))
  }

  /** Activate: only an inactive pet type can be activated. */
  function ActivateStep(d: PetTypeData, now: Time): (r: Result<PetTypeData, Failure>)
    ensures r.Success? <==> !d.isActive
    ensures r.Success? ==> r.value == d.(isActive := true, updatedAt := Some(now))
    ensures r.Failure? ==> r.error == DomainError(InvalidOperation)
  {
    if d.isActive then Failure(DomainError(InvalidOperation))
    else Success(d.(isActive := true, updatedAt := Some(now)))
  }

  /** Deactivate then Activate restores the pet type, apart from UpdatedAt; a
      second Deactivate in a row fails. */
  lemma DeactivateActivateRoundTrip(d: PetTypeData, t1: Time, t2: Time)
    requires d.isActive
    ensures DeactivateStep(d, t1).Success?
    ensures DeactivateStep(DeactivateStep(d, t1).value, t2).Failure?
    ensures ActivateStep(DeactivateStep(d, t1).value, t2) == Success(d.(updatedAt := Some(t2)))
  {
  }

  /** None of the operations touches Id, Code or CreatedAt. */
  lemma IdentityFieldsFixed(d: PetTypeData, newName: string, now: Time)
    ensures var r := UpdateNameStep(d, newName, now);
      r.Success? ==> (r.value.id, r.value.code, r.value.createdAt, r.value.isActive) == (d.id, d.code, d.createdAt, d.isActive)
    ensures var r := DeactivateStep(d, now); r.Success? ==> (r.value.id, r.value.code, r.value.name, r.value.createdAt) == (d.id, d.code, d.name, d.createdAt)
    ensures var r := ActivateStep(d, now); r.Success? ==> (r.value.id, r.value.code, r.value.name, r.value.createdAt) == (d.id, d.code, d.name, d.createdAt)
  {
  }

  /** The entity object; each method throws (returns a failure) without changing
      any field, or applies its step. */
  class PetType {
    var id: Guid
    var code: string
    var name: string
    var isActive: bool
    var createdAt: Time
    var updatedAt: Option<Time>

    function Data(): PetTypeData
      reads this
    {
      PetTypeData(id, code, name, isActive, createdAt, updatedAt)
    }

    /** The private constructor: active, created now, never updated. */
    constructor Init(id: Guid, code: string, name: string, now: Time)
      ensures Data() == PetTypeData(id, code, name, true, now, None)
    {
      this.id := id;
      this.code := code;
      this.name := name;
      this.isActive := true;
      this.createdAt := now;
      this.updatedAt := None;
    }

    /** PetType.Create: validation, then construction with the fresh id. */
    static method Create(code: string, name: string, id: Guid, now: Time) returns (r: Result<PetType, Rejection>)
      ensures r.Failure? ==> CreateStep(code, name, id, now) == Failure(r.error)
      ensures r.Success? ==> fresh(r.value) && CreateStep(code, name, id, now) == Success(r.value.Data())
    {
      if IsBlank(code) {
        return Failure(BlankCode);
      }
      if IsBlank(name) {
        return Failure(BlankName);
      }
      var normalizedCode := ToLower(Trim(code));
      var trimmedName := Trim(name);
      if Utf16Length(normalizedCode) < MinCodeLength {
        return Failure(CodeTooShort);
      }
      if Utf16Length(normalizedCode) > MaxCodeLength {
        return Failure(CodeTooLong);
      }
      if Utf16Length(trimmedName) < MinNameLength || Utf16Length(trimmedName) > MaxNameLength {
        return Failure(NameLength);
      }
      var t := new PetType.Init(id, normalizedCode, trimmedName, now);
      return Success(t);
    }

    method UpdateName(newName: string, now: Time) returns (o: Outcome<Rejection>)
      modifies this
      ensures var r := UpdateNameStep(old(Data()), newName, now);
        (o.Pass? <==> r.Success?) && (o.Fail? ==> r == Failure(o.error))
        && Data() == (if r.Success? then r.value else old(Data()))
    {
      if IsBlank(newName) {
        return Fail(BlankName);
      }
      var trimmedName := Trim(newName);
      if Utf16Length(trimmedName) < MinNameLength || Utf16Length(trimmedName) > MaxNameLength {
        return Fail(NameLength);
      }
      name := trimmedName;
      updatedAt := Some(now);
      return Pass;
    }

    method Deactivate(now: Time) returns (o: Outcome<Failure>)
      modifies this
      ensures var r := DeactivateStep(old(Data()), now);
        (o.Pass? <==> r.Success?) && (o.Fail? ==> r == Failure(o.error))
        && Data() == (if r.Success? then r.value else old(Data()))
    {
      if !isActive {
        return Fail(DomainError(InvalidOperation));
      }
      isActive := false;
      updatedAt := Some(now);
      return Pass;
    }

    method Activate(now: Time) returns (o: Outcome<Failure>)
      modifies this
      ensures var r := ActivateStep(old(Data()), now);
        (o.Pass? <==> r.Success?) && (o.Fail? ==> r == Failure(o.error))
        && Data() == (if r.Success? then r.value else old(Data()))
    {
      if isActive {
        return Fail(DomainError(InvalidOperation));
      }
      isActive := true;
      updatedAt := Some(now);
      return Pass;
    }
  }
}

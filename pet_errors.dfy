/** The pet service's domain error codes and the exceptions its domain throws. */
module PetErrors {
  import opened Base

  /** The snake_case subcodes exposed to API clients. */
  datatype ErrorCode =
    | PetNotAvailable
    | PetNotReserved
    | PetNotFound
    | ConcurrencyConflict
    | InvalidPetName
    | InvalidPetType
    | InvalidOperation
    | UnknownDomainError
  {
    /** The string constant the code stands for. */
    function Code(): string {
      match this
      case PetNotAvailable => "pet_not_available"
      case PetNotReserved => "pet_not_reserved"
      case PetNotFound => "pet_not_found"
      case ConcurrencyConflict => "concurrency_conflict"
      case InvalidPetName => "invalid_pet_name"
      case InvalidPetType => "invalid_pet_type"
      case InvalidOperation => "invalid_operation"
      case UnknownDomainError => "unknown_domain_error"
    }
  }

  /** Reads a subcode back from its string; None for any other string. */
  function FromCode(s: string): (r: Option<ErrorCode>)
    ensures r.Some? ==> r.value.Code() == s
  {
    if s == "pet_not_available" then Some(PetNotAvailable)
    else if s == "pet_not_reserved" then Some(PetNotReserved)
    else if s == "pet_not_found" then Some(PetNotFound)
    else if s == "concurrency_conflict" then Some(ConcurrencyConflict)
    else if s == "invalid_pet_name" then Some(InvalidPetName)
    else if s == "invalid_pet_type" then Some(InvalidPetType)
    else if s == "invalid_operation" then Some(InvalidOperation)
    else if s == "unknown_domain_error" then Some(UnknownDomainError)
    else None
  }

  /** Every code reads back as itself, so the strings are pairwise distinct. */
  lemma CodeRoundTrip(e: ErrorCode)
    ensures FromCode(e.Code()) == Some(e)
  {
  }

  lemma CodeInjective(e1: ErrorCode, e2: ErrorCode)
    ensures e1.Code() == e2.Code() <==> e1 == e2
  {
    CodeRoundTrip(e1);
    CodeRoundTrip(e2);
  }

  /** The exceptions the pet domain throws: a DomainException carrying a code
      (its interpolated message and metadata are not modelled), or an
      ArgumentException naming the offending parameter. */
  datatype Failure =
    | DomainError(code: ErrorCode)
    | ArgumentError(param: string)
}

/** ExceptionHandlingMiddleware: how a failure reaching the HTTP pipeline becomes a
    response status (RFC 9110 sections 15.5.1, 15.5.5, 15.5.10 and 15.6.1). */
module ErrorMapping {
  import opened PetErrors

  datatype HttpStatus = BadRequest | NotFound | Conflict | InternalServerError {
    function Code(): nat {
      match this
      case BadRequest => 400
      case NotFound => 404
      case Conflict => 409
      case InternalServerError => 500
    }
  }

  /** MapErrorCodeToHttpStatus: a switch over the subcode strings. */
  function MapErrorCodeToHttpStatus(code: string): (r: HttpStatus)
    ensures r == NotFound <==> code == PetNotFound.Code()
    ensures r == BadRequest <==> code == InvalidPetName.Code() || code == InvalidPetType.Code()
    ensures r == Conflict <==> code == PetNotAvailable.Code() || code == PetNotReserved.Code()
                               || code == ConcurrencyConflict.Code() || code == InvalidOperation.Code()
  {
    if code == "pet_not_found" then NotFound
    else if code == "invalid_pet_name" || code == "invalid_pet_type" then BadRequest
    else if code == "pet_not_available" || code == "pet_not_reserved"
         || code == "concurrency_conflict" || code == "invalid_operation" then Conflict
    else InternalServerError
  }

  /** What kind of rule each code reports, as the middleware's comments group them. */
  datatype Kind = Missing | Validation | BusinessRule | Unknown

  function KindOf(e: ErrorCode): Kind {
    match e
    case PetNotFound => Missing
    case InvalidPetName | InvalidPetType => Validation
    case PetNotAvailable | PetNotReserved | ConcurrencyConflict | InvalidOperation => BusinessRule
    case UnknownDomainError => Unknown
  }

  /** The RFC 9110 status for each kind of rule. */
  function StatusOfKind(k: Kind): HttpStatus {
    match k
    case Missing => NotFound
    case Validation => BadRequest
    case BusinessRule => Conflict
    case Unknown => InternalServerError
  }

  /** Every defined subcode gets the status of its kind; unknown_domain_error gets 500. */
  lemma MappingFollowsKind(e: ErrorCode)
    ensures MapErrorCodeToHttpStatus(e.Code()) == StatusOfKind(KindOf(e))
    ensures MapErrorCodeToHttpStatus(e.Code()).Code() in {400, 404, 409, 500}
  {
  }

  /** A string that is no subcode at all falls to the default arm. */
  lemma UnknownStringIsServerError(code: string)
    requires FromCode(code).None?
    ensures MapErrorCodeToHttpStatus(code) == InternalServerError
  {
  }

  /** InvokeAsync: a DomainException is answered with the mapped status; any other
      exception with 500. */
  function StatusForFailure(f: Failure): (r: HttpStatus)
    ensures f.ArgumentError? ==> r == InternalServerError
    ensures f.DomainError? ==> r == StatusOfKind(KindOf(f.code))
  {
    match f
    case DomainError(code) => MapErrorCodeToHttpStatus(code.Code())
    case ArgumentError(_) => InternalServerError
  }
}

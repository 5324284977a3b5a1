/** The PetName value object: a trimmed, non-blank name of at most 100 characters. */
module PetNames {
  import opened Base
  import opened Text
  import opened PetErrors

  const MaxLength: nat := 100
  const MinLength: nat := 1

  /** The "Reason" entry of the rejection's metadata. */
  datatype Reason = EmptyOrWhitespace | TooShort | TooLong

  datatype PetName = PetName(value: string) {
    /** ToString, and the implicit conversion to string. */
    function ToString(): string { value }

    /** Equals(PetName?): ordinal, case-sensitive comparison of the values. */
    predicate Equals(other: Option<PetName>) {
      other.Some? && value == other.value.value
    }

    function GetHashCode(): int { StringHash(value) }
  }

  /** The constructor `new PetName(value)`, which the explicit conversion from
      string also calls. Every rejection carries the code invalid_pet_name. */
  function New(value: string): (r: Result<PetName, Reason>)
    ensures r.Success? <==> !IsBlank(value) && Utf16Length(Trim(value)) <= MaxLength
    ensures r.Success? ==> r.value.value == Trim(value)
    ensures IsBlank(value) ==> r == Failure(EmptyOrWhitespace)
    ensures !IsBlank(value) && Utf16Length(Trim(value)) > MaxLength ==> r == Failure(TooLong)
  {
    TrimShape(value);
    if IsBlank(value) then Failure(EmptyOrWhitespace)
    else
      var trimmed := Trim(value);
      if Utf16Length(trimmed) < MinLength then Failure(TooShort)
      else if Utf16Length(trimmed) > MaxLength then Failure(TooLong)
      else Success(PetName(trimmed))
  }

  /** The limit is on UTF-16 code units, not characters: fifty-one dog faces
      (U+1F436, two units each) are too long, while a hundred letters fit. */
  lemma LengthCountsCodeUnits()
    ensures New(seq(51, _ => '\U{1F436}')) == Failure(TooLong)
    ensures New(seq(100, _ => 'a')).Success?
  {
    TrimOfTrimmed(seq(51, _ => '\U{1F436}'));
    TrimOfTrimmed(seq(100, _ => 'a'));
  }

  /** The exception a rejection is thrown as. */
  function RejectionFailure(reason: Reason): Failure {
    DomainError(InvalidPetName)
  }

  /** A valid name's own value is accepted again unchanged. */
  lemma NewIdempotent(value: string)
    requires New(value).Success?
    ensures New(New(value).value.ToString()) == New(value)
  {
    var t := Trim(value);
    TrimIdempotent(value);
    assert !IsBlank(t);
  }

  /** `==` on possibly-null names: two nulls are equal, a null and a name are not. */
  predicate Eq(left: Option<PetName>, right: Option<PetName>) {
    if left.Some? then left.value.Equals(right) else right.None?
  }

  /** Equality is a value comparison and the hash code agrees with it. */
  lemma EqualsIsValueEquality(a: PetName, b: PetName)
    ensures a.Equals(Some(b)) <==> a == b
    ensures a.Equals(Some(b)) ==> a.GetHashCode() == b.GetHashCode()
    ensures !a.Equals(None)
    ensures Eq(Some(a), Some(b)) == a.Equals(Some(b)) && Eq(None, None) && !Eq(Some(a), None) && !Eq(None, Some(a))
  {
  }

  /** Case matters: "Rex" and "rex" are different names. */
  lemma EqualsIsCaseSensitive()
    ensures New("Rex").Success? && New("rex").Success?
    ensures !New("Rex").value.Equals(Some(New("rex").value))
  {
    TrimOfTrimmed("Rex");
    TrimOfTrimmed("rex");
  }
}

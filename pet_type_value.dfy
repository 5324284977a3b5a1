/** The PetType value object: one of six species, held in its canonical spelling. */
module PetTypeValues {
  import opened Base
  import opened Text

  /** ValidTypes, in declaration order; membership ignores case. */
  const ValidTypes: seq<string> := ["Dog", "Cat", "Rabbit", "Bird", "Fish", "Hamster"]

  datatype Reason = EmptyOrWhitespace | InvalidType

  datatype PetTypeValue = PetTypeValue(value: string) {
    /** ToString, and the implicit conversion to string. */
    function ToString(): string { value }

    /** Equals(PetType?): OrdinalIgnoreCase comparison of the values. */
    predicate Equals(other: Option<PetTypeValue>) {
      other.Some? && EqualsIgnoreCase(value, other.value.value)
    }

    /** StringComparer.OrdinalIgnoreCase.GetHashCode: a hash of the case-folded value. */
    function GetHashCode(): int { StringHash(ToLower(value)) }
  }

  /** ValidTypes.FirstOrDefault(vt => EqualsIgnoreCase(vt, t)), from index `i` on. */
  function FirstMatch(t: string, i: nat): (r: Option<string>)
    requires i <= |ValidTypes|
    ensures r.Some? ==> r.value in ValidTypes[i..] && EqualsIgnoreCase(r.value, t)
    ensures r.None? <==> forall j :: i <= j < |ValidTypes| ==> !EqualsIgnoreCase(ValidTypes[j], t)
    decreases |ValidTypes| - i
  {
    if i == |ValidTypes| then None
    else if EqualsIgnoreCase(ValidTypes[i], t) then Some(ValidTypes[i])
    else FirstMatch(t, i + 1)
  }

  /** The constructor `new PetType(value)`, which the explicit conversion from
      string also calls. Every rejection carries the code invalid_pet_type. */
  function New(value: string): (r: Result<PetTypeValue, Reason>)
    ensures IsBlank(value) ==> r == Failure(EmptyOrWhitespace)
    ensures !IsBlank(value) ==>
      (r.Success? <==> exists vt :: vt in ValidTypes && EqualsIgnoreCase(vt, Trim(value)))
    ensures r.Success? ==> r.value.value in ValidTypes && EqualsIgnoreCase(r.value.value, Trim(value))
    ensures r.Failure? && !IsBlank(value) ==> r.error == InvalidType
  {
    if IsBlank(value) then Failure(EmptyOrWhitespace)
    else
      var trimmed := Trim(value);
      match FirstMatch(trimmed, 0)
      case None => Failure(InvalidType)
      case Some(canonical) => Success(PetTypeValue(canonical))
  }

  lemma LowerValidTypes(k: nat)
    requires k < |ValidTypes|
    ensures ToLower(ValidTypes[k]) == ["dog", "cat", "rabbit", "bird", "fish", "hamster"][k]
  {
    var vt := ValidTypes[k];
    var lower := ["dog", "cat", "rabbit", "bird", "fish", "hamster"][k];
    assert |ToLower(vt)| == |lower|;
    forall i | 0 <= i < |vt| ensures ToLower(vt)[i] == lower[i] {
      assert ToLower(vt)[i] == LowerChar(vt[i]);
    }
  }

  /** The six canonical spellings differ in more than case. */
  lemma ValidTypesDistinctIgnoringCase(i: nat, j: nat)
    requires i < |ValidTypes| && j < |ValidTypes|
    requires EqualsIgnoreCase(ValidTypes[i], ValidTypes[j])
    ensures i == j
  {
    LowerValidTypes(i);
    LowerValidTypes(j);
  }

  /** Each canonical spelling is trimmed. */
  lemma ValidTypeTrimmed(vt: string)
    requires vt in ValidTypes
    ensures Trim(vt) == vt
  {
    TrimOfTrimmed(vt);
  }

  /** Searching for a canonical spelling finds that spelling itself. */
  lemma {:induction false} FirstMatchFindsCanonical(k: nat, i: nat)
    requires i <= k < |ValidTypes|
    ensures FirstMatch(ValidTypes[k], i) == Some(ValidTypes[k])
    decreases k - i
  {
    if i < k {
      LowerValidTypes(i);
      LowerValidTypes(k);
      FirstMatchFindsCanonical(k, i + 1);
    }
  }

  /** Canonicalisation is idempotent: a value built from a PetType's own Value is
      the same value. */
  lemma NewIdempotent(v: PetTypeValue, s: string)
    requires New(s) == Success(v)
    ensures New(v.ToString()) == Success(v)
  {
    var k :| 0 <= k < |ValidTypes| && ValidTypes[k] == v.value;
    ValidTypeTrimmed(v.value);
    TrimShape(v.value);
    FirstMatchFindsCanonical(k, 0);
  }

  /** Spelling and padding do not matter: " dOG " and "Dog" give the same value. */
  lemma CaseAndPaddingIgnored()
    ensures New(" dOG ") == New("Dog") == Success(PetTypeValue("Dog"))
  {
    assert LeadingWhiteSpace(" dOG ") == 1;
    assert TrailingWhiteSpace("dOG ") == 1;
    assert Trim(" dOG ") == "dOG";
    TrimOfTrimmed("Dog");
    LowerDog();
  }

  lemma LowerDog()
    ensures ToLower("dOG") == "dog" && ToLower("Dog") == "dog"
  {
    assert ToLower("dOG") == "dog";
    assert ToLower("Dog") == "dog";
  }

  /** Equality ignores case, is symmetric, and equal values hash equally. */
  lemma EqualsConsistentWithHash(a: PetTypeValue, b: PetTypeValue)
    ensures a.Equals(Some(b)) <==> ToLower(a.value) == ToLower(b.value)
    ensures a.Equals(Some(b)) <==> b.Equals(Some(a))
    ensures a.Equals(Some(b)) ==> a.GetHashCode() == b.GetHashCode()
    ensures !a.Equals(None)
  {
  }

  /** On constructed values, case-insensitive equality is plain equality of the
      canonical spellings. */
  lemma EqualsOnCanonicalValues(a: PetTypeValue, b: PetTypeValue, s: string, t: string)
    requires New(s) == Success(a) && New(t) == Success(b)
    ensures a.Equals(Some(b)) <==> a == b
  {
    if a.Equals(Some(b)) {
      var i :| 0 <= i < |ValidTypes| && ValidTypes[i] == a.value;
      var j :| 0 <= j < |ValidTypes| && ValidTypes[j] == b.value;
      ValidTypesDistinctIgnoringCase(i, j);
    }
  }

  /** `==` on possibly-null values: `left?.Equals(right) ?? right is null`. */
  predicate Eq(left: Option<PetTypeValue>, right: Option<PetTypeValue>) {
    if left.Some? then left.value.Equals(right) else right.None?
  }

  /** A non-null value never equals null, and `!=` is the negation of `==`. */
  lemma EqNullAware(a: PetTypeValue, right: Option<PetTypeValue>)
    ensures !Eq(Some(a), None) && !Eq(None, Some(a)) && Eq(None, None)
    ensures Eq(Some(a), right) <==> right.Some? && EqualsIgnoreCase(a.value, right.value.value)
  {
  }
}

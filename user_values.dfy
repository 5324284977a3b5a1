/** The user service's value objects: Email, FullName, PhoneNumber, Password,
    UserId and UserPreferences. Each factory throws ArgumentException with a fixed
    message; the model returns that message as the failure. */
module UserValueObjects {
  import opened Base
  import opened Text

  /** The exceptions the user domain throws, with their messages. */
  datatype Failure = ArgumentError(message: string) | InvalidOperation(message: string)

  // ---------------------------------------------------------------- Email

  const MaxEmailLength: nat := 255

  datatype Email = Email(value: string) {
    function ToString(): string { value }
  }

  /** The text Email.From stores: trimmed, then lower-cased. */
  function NormalizeEmail(value: string): string {
    ToLower(Trim(value))
  }

  /** Email.From: blank check, then format ('@' and '.' somewhere), then length. */
  function EmailFrom(value: string): (r: Result<Email, Failure>)
    ensures IsBlank(value) ==> r == Failure(ArgumentError("Email cannot be empty"))
    ensures r.Success? <==>
      !IsBlank(value) && '@' in NormalizeEmail(value) && '.' in NormalizeEmail(value)
      && Utf16Length(NormalizeEmail(value)) <= MaxEmailLength
    ensures r.Success? ==> r.value.value == NormalizeEmail(value)
    ensures !IsBlank(value) && !('@' in NormalizeEmail(value) && '.' in NormalizeEmail(value)) ==>
      r == Failure(ArgumentError("Invalid email format"))
  {
    if IsBlank(value) then Failure(ArgumentError("Email cannot be empty"))
    else
      var trimmed := ToLower(Trim(value));
      if !('@' in trimmed) || !('.' in trimmed) then Failure(ArgumentError("Invalid email format"))
      else if Utf16Length(trimmed) > MaxEmailLength then Failure(ArgumentError("Email cannot exceed 255 characters"))
      else Success(Email(trimmed))
  }

  /** The stored text is already normal: trimmed and lower case. */
  lemma NormalizeEmailIdempotent(value: string)
    ensures NormalizeEmail(NormalizeEmail(value)) == NormalizeEmail(value)
  {
    var t := Trim(value);
    TrimToLowerCommute(t);
    TrimIdempotent(value);
    ToLowerIdempotent(t);
  }

  /** Email.From accepts its own output and returns it unchanged. */
  lemma EmailFromIdempotent(value: string)
    requires EmailFrom(value).Success?
    ensures EmailFrom(EmailFrom(value).value.ToString()) == EmailFrom(value)
  {
    NormalizeEmailIdempotent(value);
    var n := NormalizeEmail(value);
    assert !IsBlank(n) by {
      var i :| 0 <= i < |n| && n[i] == '@';
    }
  }

  /** Inputs that differ only in case and surrounding white space give the same
      result, success or failure. */
  lemma EmailIgnoresCaseAndPadding(a: string, b: string)
    requires EqualsIgnoreCase(Trim(a), Trim(b))
    ensures EmailFrom(a) == EmailFrom(b)
  {
    TrimShape(a);
    TrimShape(b);
    assert |Trim(a)| == |Trim(b)| by {
      assert |ToLower(Trim(a))| == |ToLower(Trim(b))|;
    }
  }

  /** For instance, padding and upper case are dropped. */
  lemma EmailPaddingAndCase(x: string, pre: string, post: string)
    requires IsBlank(pre) && IsBlank(post)
    ensures EmailFrom(pre + ToLower(x) + post) == EmailFrom(x)
  {
    TrimIgnoresPadding(pre, ToLower(x), post);
    TrimToLowerCommute(x);
    ToLowerIdempotent(Trim(x));
    EmailIgnoresCaseAndPadding(pre + ToLower(x) + post, x);
  }

  // ---------------------------------------------------------------- FullName

  const MinNameLength: nat := 2
  const MaxNameLength: nat := 100

  datatype FullName = FullName(value: string) {
    function ToString(): string { value }
  }

  /** FullName.From: blank check, then the trimmed length must be 2..100. */
  function FullNameFrom(value: string): (r: Result<FullName, Failure>)
    ensures IsBlank(value) ==> r == Failure(ArgumentError("Name cannot be empty"))
    ensures r.Success? <==> !IsBlank(value) && MinNameLength <= Utf16Length(Trim(value)) <= MaxNameLength
    ensures r.Success? ==> r.value.value == Trim(value)
    ensures !IsBlank(value) && Utf16Length(Trim(value)) < MinNameLength ==>
      r == Failure(ArgumentError("Name must be at least 2 characters"))
    ensures !IsBlank(value) && Utf16Length(Trim(value)) > MaxNameLength ==>
      r == Failure(ArgumentError("Name cannot exceed 100 characters"))
  {
    if IsBlank(value) then Failure(ArgumentError("Name cannot be empty"))
    else
      var trimmed := Trim(value);
      if Utf16Length(trimmed) < MinNameLength then Failure(ArgumentError("Name must be at least 2 characters"))
      else if Utf16Length(trimmed) > MaxNameLength then Failure(ArgumentError("Name cannot exceed 100 characters"))
      else Success(FullName(trimmed))
  }

  /** The length rule counts UTF-16 code units: one character outside the Basic
      Multilingual Plane (U+1F600, a surrogate pair) is long enough, while one
      letter is not. */
  lemma FullNameCountsCodeUnits()
    ensures FullNameFrom("\U{1F600}").Success?
    ensures FullNameFrom("a") == Failure(ArgumentError("Name must be at least 2 characters"))
  {
    TrimOfTrimmed("\U{1F600}");
    TrimOfTrimmed("a");
  }

  /** FullName.From accepts its own output unchanged and ignores padding. */
  lemma FullNameFromIdempotent(value: string, pre: string, post: string)
    requires FullNameFrom(value).Success?
    requires IsBlank(pre) && IsBlank(post)
    ensures FullNameFrom(FullNameFrom(value).value.ToString()) == FullNameFrom(value)
    ensures FullNameFrom(pre + value + post) == FullNameFrom(value)
  {
    TrimIdempotent(value);
    TrimIgnoresPadding(pre, value, post);
    assert !IsBlank(Trim(value));
    assert !IsBlank(pre + value + post) by {
      assert Trim(pre + value + post) != [];
    }
  }

  // ---------------------------------------------------------------- PhoneNumber

  const MinPhoneLength: nat := 10
  const MaxPhoneLength: nat := 15

  datatype PhoneNumber = PhoneNumber(value: string) {
    function ToString(): string { value }
  }

  predicate IsPhoneChar(c: char) {
    IsDigit(c) || c == '+'
  }

  /** trimmed.Where(c => char.IsDigit(c) || c == '+'): the digits and '+' signs,
      in order. */
  function KeepPhoneChars(s: string): (r: string)
    ensures |r| <= |s|
    ensures forall i :: 0 <= i < |r| ==> IsPhoneChar(r[i])
    decreases |s|
  {
    if s == [] then []
    else (if IsPhoneChar(s[0]) then [s[0]] else []) + KeepPhoneChars(s[1..])
  }

  lemma {:induction false} KeepPhoneCharsConcat(a: string, b: string)
    ensures KeepPhoneChars(a + b) == KeepPhoneChars(a) + KeepPhoneChars(b)
    decreases |a|
  {
    if a != [] {
      assert (a + b)[0] == a[0] && (a + b)[1..] == a[1..] + b;
      KeepPhoneCharsConcat(a[1..], b);
      var head: string := if IsPhoneChar(a[0]) then [a[0]] else [];
      calc {
        KeepPhoneChars(a + b);
        head + KeepPhoneChars(a[1..] + b);
        head + (KeepPhoneChars(a[1..]) + KeepPhoneChars(b));
        (head + KeepPhoneChars(a[1..])) + KeepPhoneChars(b);
      }
    } else {
      assert a + b == b;
    }
  }

  lemma {:induction false} KeepPhoneCharsBlank(s: string)
    requires IsBlank(s)
    ensures KeepPhoneChars(s) == []
    decreases |s|
  {
    if s != [] {
      assert IsWhiteSpace(s[0]);
      KeepPhoneCharsBlank(s[1..]);
    }
  }

  lemma {:induction false} KeepPhoneCharsOfPhoneChars(s: string)
    requires forall i :: 0 <= i < |s| ==> IsPhoneChar(s[i])
    ensures KeepPhoneChars(s) == s
    decreases |s|
  {
    if s != [] {
      KeepPhoneCharsOfPhoneChars(s[1..]);
    }
  }

  /** Trimming before filtering makes no difference: white space is never kept. */
  lemma KeepPhoneCharsIgnoresTrim(s: string)
    ensures KeepPhoneChars(Trim(s)) == KeepPhoneChars(s)
  {
    var pre, post := TrimSplit(s);
    KeepPhoneCharsConcat(pre + Trim(s), post);
    KeepPhoneCharsConcat(pre, Trim(s));
    KeepPhoneCharsBlank(pre);
    KeepPhoneCharsBlank(post);
  }

  /** PhoneNumber.FromOptional: null or blank means no phone number; otherwise the
      digits and '+' signs must number 10..15. Every kept character is ASCII,
      so the String.Length of the cleaned text is its number of characters. */
  function PhoneFromOptional(value: Option<string>): (r: Result<Option<PhoneNumber>, Failure>)
    ensures value.None? || IsBlank(value.value) ==> r == Success(None)
    ensures value.Some? && !IsBlank(value.value) ==>
      (r.Success? <==> MinPhoneLength <= |KeepPhoneChars(value.value)| <= MaxPhoneLength)
    ensures r.Success? && r.value.Some? ==> value.Some? && r.value.value.value == KeepPhoneChars(value.value)
    ensures r.Failure? ==> r.error == ArgumentError("Invalid phone number length (must be 10-15 digits)")
  {
    if value.None? || IsBlank(value.value) then Success(None)
    else
      var trimmed := Trim(value.value);
      var cleaned := KeepPhoneChars(trimmed);
      KeepPhoneCharsIgnoresTrim(value.value);
      if |cleaned| < MinPhoneLength || |cleaned| > MaxPhoneLength then
        Failure(ArgumentError("Invalid phone number length (must be 10-15 digits)"))
      else Success(Some(PhoneNumber(cleaned)))
  }

  /** A stored phone number holds only digits and '+', and reading it back through
      FromOptional reproduces it. */
  lemma PhoneRoundTrip(value: Option<string>)
    requires PhoneFromOptional(value).Success? && PhoneFromOptional(value).value.Some?
    ensures var p := PhoneFromOptional(value).value.value;
      (forall i :: 0 <= i < |p.value| ==> IsDigit(p.value[i]) || p.value[i] == '+')
      && PhoneFromOptional(Some(p.ToString())) == Success(Some(p))
  {
    var p := PhoneFromOptional(value).value.value;
    KeepPhoneCharsOfPhoneChars(p.value);
    assert !IsWhiteSpace(p.value[0]);
  }

  // ---------------------------------------------------------------- Password

  const MinPasswordLength: nat := 8
  const MaxPasswordLength: nat := 100

  datatype Password = Password(hashedValue: string)

  /** Password.FromHash: any non-blank hash, stored verbatim. */
  function PasswordFromHash(hash: string): (r: Result<Password, Failure>)
    ensures r.Success? <==> !IsBlank(hash)
    ensures r.Success? ==> r.value.hashedValue == hash
    ensures r.Failure? ==> r.error == ArgumentError("Password hash cannot be empty")
  {
    if IsBlank(hash) then Failure(ArgumentError("Password hash cannot be empty"))
    else Success(Password(hash))
  }

  /** Password.ValidatePlainText: the untrimmed length must be 8..100. */
  function ValidatePlainText(plain: string): (r: Outcome<Failure>)
    ensures r.Pass? <==> !IsBlank(plain) && MinPasswordLength <= Utf16Length(plain) <= MaxPasswordLength
    ensures IsBlank(plain) ==> r == Fail(ArgumentError("Password cannot be empty"))
    ensures !IsBlank(plain) && Utf16Length(plain) < MinPasswordLength ==> r == Fail(ArgumentError("Password must be at least 8 characters"))
    ensures !IsBlank(plain) && Utf16Length(plain) > MaxPasswordLength ==> r == Fail(ArgumentError("Password cannot exceed 100 characters"))
  {
    if IsBlank(plain) then Fail(ArgumentError("Password cannot be empty"))
    else if Utf16Length(plain) < MinPasswordLength then Fail(ArgumentError("Password must be at least 8 characters"))
    else if Utf16Length(plain) > MaxPasswordLength then Fail(ArgumentError("Password cannot exceed 100 characters"))
    else Pass
  }

  /** The length rule counts white space: seven spaces and one letter pass, while
      the hash is kept with its padding. */
  lemma PasswordsAreNotTrimmed()
    ensures ValidatePlainText("       x").Pass?
    ensures Trim("       x") == "x"
    ensures PasswordFromHash(" h ") == Success(Password(" h "))
  {
    assert !IsWhiteSpace("       x"[7]);
    assert LeadingWhiteSpace("       x") == 7;
    assert TrailingWhiteSpace("x") == 0;
    assert !IsWhiteSpace(" h "[1]);
  }

  // ---------------------------------------------------------------- UserId

  datatype UserId = UserId(value: string) {
    function ToString(): string { value }
  }

  /** UserId.From: any non-blank string, kept verbatim. */
  function UserIdFrom(value: string): (r: Result<UserId, Failure>)
    ensures r.Success? <==> !IsBlank(value)
    ensures r.Success? ==> r.value.ToString() == value
    ensures r.Failure? ==> r.error == ArgumentError("UserId cannot be empty")
  {
    if IsBlank(value) then Failure(ArgumentError("UserId cannot be empty"))
    else Success(UserId(value))
  }

  /** Ids are compared by value and From does not normalise: different strings give
      different ids, and From(id.ToString()) gives the id back. */
  lemma UserIdFromInjective(a: string, b: string)
    requires UserIdFrom(a).Success? && UserIdFrom(b).Success?
    ensures UserIdFrom(a) == UserIdFrom(b) <==> a == b
    ensures UserIdFrom(UserIdFrom(a).value.ToString()) == UserIdFrom(a)
  {
  }

  // ---------------------------------------------------------------- UserPreferences

  datatype UserPreferences = UserPreferences(
    preferredPetType: Option<string>,
    preferredSizes: Option<seq<string>>,
    preferredAgeRange: Option<string>,
    receiveEmailNotifications: bool,
    receiveSmsNotifications: bool)

  /** UserPreferences.Default(): no preferences, e-mail on, SMS off. */
  function DefaultPreferences(): (p: UserPreferences)
    ensures p.preferredPetType.None? && p.preferredSizes.None? && p.preferredAgeRange.None?
    ensures p.receiveEmailNotifications && !p.receiveSmsNotifications
  {
    UserPreferences(None, None, None, true, false)
  }
}

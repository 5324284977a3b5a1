/** The .NET string primitives the validators rely on.

    - IsWhiteSpace is char.IsWhiteSpace: the Unicode White_Space characters
      (categories Zs, Zl, Zp, plus U+0009..U+000D and U+0085).
    - Trim is String.Trim(), which strips exactly those characters at both ends;
      IsBlank is String.IsNullOrWhiteSpace on a non-null string.
    - ToLower (String.ToLowerInvariant), EqualsIgnoreCase
      (StringComparison.OrdinalIgnoreCase) and IsDigit (char.IsDigit) are modelled
      at ASCII level only: letters outside A..Z and digits outside 0..9 are not
      case-mapped or recognised.
    - Utf16Length is String.Length, which counts UTF-16 code units rather than
      characters. */
module Text {

  predicate IsWhiteSpace(c: char) {
    c == ' ' || ('\t' <= c <= '\r') || ('\U{85}' <= c && IsWideWhiteSpace(c))
  }

  /** The White_Space characters from U+0085 up. */
  predicate IsWideWhiteSpace(c: char) {
    c == '\U{85}' || c == '\U{A0}' || c == '\U{1680}'
    || ('\U{2000}' <= c <= '\U{200A}') || c == '\U{2028}' || c == '\U{2029}'
    || c == '\U{202F}' || c == '\U{205F}' || c == '\U{3000}'
  }

  /** String.IsNullOrWhiteSpace: empty, or white space only. */
  predicate IsBlank(s: string) {
    forall i :: 0 <= i < |s| ==> IsWhiteSpace(s[i])
  }

  /** The number of white-space characters at the start of `s`. */
  function LeadingWhiteSpace(s: string): (n: nat)
    ensures n <= |s|
    decreases |s|
  {
    if |s| == 0 || !IsWhiteSpace(s[0]) then 0 else 1 + LeadingWhiteSpace(s[1..])
  }

  /** The number of white-space characters at the end of `s`. */
  function TrailingWhiteSpace(s: string): (n: nat)
    ensures n <= |s|
    decreases |s|
  {
    if |s| == 0 || !IsWhiteSpace(s[|s| - 1]) then 0 else 1 + TrailingWhiteSpace(s[..|s| - 1])
  }

  /** LeadingWhiteSpace counts the longest white-space prefix. */
  lemma {:induction false} LeadingWhiteSpaceSpec(s: string)
    ensures forall i :: 0 <= i < LeadingWhiteSpace(s) ==> IsWhiteSpace(s[i])
    ensures LeadingWhiteSpace(s) < |s| ==> !IsWhiteSpace(s[LeadingWhiteSpace(s)])
    decreases |s|
  {
    if |s| > 0 && IsWhiteSpace(s[0]) {
      LeadingWhiteSpaceSpec(s[1..]);
      forall i | 1 <= i < LeadingWhiteSpace(s) ensures IsWhiteSpace(s[i]) {
        assert s[i] == s[1..][i - 1];
      }
    }
  }

  /** TrailingWhiteSpace counts the longest white-space suffix. */
  lemma {:induction false} TrailingWhiteSpaceSpec(s: string)
    ensures forall i :: |s| - TrailingWhiteSpace(s) <= i < |s| ==> IsWhiteSpace(s[i])
    ensures TrailingWhiteSpace(s) < |s| ==> !IsWhiteSpace(s[|s| - TrailingWhiteSpace(s) - 1])
    decreases |s|
  {
    if |s| > 0 && IsWhiteSpace(s[|s| - 1]) {
      var f := s[..|s| - 1];
      TrailingWhiteSpaceSpec(f);
      forall i | |s| - TrailingWhiteSpace(s) <= i < |s| - 1 ensures IsWhiteSpace(s[i]) {
        assert s[i] == f[i];
      }
      if TrailingWhiteSpace(s) < |s| {
        assert s[|s| - TrailingWhiteSpace(s) - 1] == f[|f| - TrailingWhiteSpace(f) - 1];
      }
    }
  }

  lemma {:induction false} LeadingWhiteSpaceUnique(s: string, n: nat)
    requires n <= |s|
    requires forall i :: 0 <= i < n ==> IsWhiteSpace(s[i])
    requires n < |s| ==> !IsWhiteSpace(s[n])
    ensures LeadingWhiteSpace(s) == n
    decreases n
  {
    if n > 0 {
      assert IsWhiteSpace(s[0]);
      LeadingWhiteSpaceUnique(s[1..], n - 1);
    }
  }

  lemma {:induction false} TrailingWhiteSpaceUnique(s: string, n: nat)
    requires n <= |s|
    requires forall i :: |s| - n <= i < |s| ==> IsWhiteSpace(s[i])
    requires n < |s| ==> !IsWhiteSpace(s[|s| - n - 1])
    ensures TrailingWhiteSpace(s) == n
    decreases n
  {
    if n > 0 {
      assert IsWhiteSpace(s[|s| - 1]);
      TrailingWhiteSpaceUnique(s[..|s| - 1], n - 1);
    }
  }

  /** String.Trim(). */
  function Trim(s: string): (r: string)
    ensures |r| <= |s|
  {
    var a := LeadingWhiteSpace(s);
    var t := s[a..];
    t[..|t| - TrailingWhiteSpace(t)]
  }

  /** A string with no white space at either end. */
  predicate IsTrimmed(s: string) {
    s == [] || (!IsWhiteSpace(s[0]) && !IsWhiteSpace(s[|s| - 1]))
  }

  /** Trim gives the empty string exactly for blank input, and otherwise a string
      with no white space at either end. */
  lemma TrimShape(s: string)
    ensures Trim(s) == [] <==> IsBlank(s)
    ensures IsTrimmed(Trim(s))
  {
    var a := LeadingWhiteSpace(s);
    var t := s[a..];
    var b := TrailingWhiteSpace(t);
    LeadingWhiteSpaceSpec(s);
    TrailingWhiteSpaceSpec(t);
    if Trim(s) != [] {
      assert Trim(s)[0] == s[a];
      assert Trim(s)[|Trim(s)| - 1] == t[|t| - b - 1];
    }
  }

  /** Trimming a string that is already trimmed changes nothing. */
  lemma TrimOfTrimmed(s: string)
    requires IsTrimmed(s)
    ensures Trim(s) == s
  {
    LeadingWhiteSpaceUnique(s, 0);
    assert s[0..] == s;
    TrailingWhiteSpaceUnique(s, 0);
  }

  /** Trim is idempotent. */
  lemma TrimIdempotent(s: string)
    ensures Trim(Trim(s)) == Trim(s)
  {
    TrimShape(s);
    TrimOfTrimmed(Trim(s));
  }

  lemma SliceBlank(s: string, i: nat, j: nat)
    requires i <= j <= |s|
    requires forall k :: i <= k < j ==> IsWhiteSpace(s[k])
    ensures IsBlank(s[i..j])
  {
    forall k | 0 <= k < j - i ensures IsWhiteSpace(s[i..j][k]) {
      assert s[i..j][k] == s[i + k];
    }
  }

  lemma SplitInThree(s: string, a: nat, k: nat)
    requires a <= |s| && k <= |s| - a
    ensures s == s[..a] + s[a..][..k] + s[a..][k..]
  {
    assert s[a..] == s[a..][..k] + s[a..][k..];
  }

  /** Trim removes a blank prefix and a blank suffix and nothing else. */
  lemma TrimSplit(s: string) returns (pre: string, post: string)
    ensures s == pre + Trim(s) + post
    ensures IsBlank(pre) && IsBlank(post)
  {
    var a := LeadingWhiteSpace(s);
    var t := s[a..];
    var b := TrailingWhiteSpace(t);
    pre, post := s[..a], t[|t| - b..];
    assert Trim(s) == t[..|t| - b];
    SplitInThree(s, a, |t| - b);
    BlankEnds(s);
  }

  /** What Trim cuts off at either end is white space. */
  lemma BlankEnds(s: string)
    ensures var a := LeadingWhiteSpace(s); var t := s[a..];
      IsBlank(s[..a]) && IsBlank(t[|t| - TrailingWhiteSpace(t)..])
  {
    LeadingBlank(s);
    TrailingBlank(s[LeadingWhiteSpace(s)..]);
  }

  lemma LeadingBlank(s: string)
    ensures IsBlank(s[..LeadingWhiteSpace(s)])
  {
    var a := LeadingWhiteSpace(s);
    LeadingWhiteSpaceSpec(s);
    forall k | 0 <= k < a ensures IsWhiteSpace(s[..a][k]) {
      assert s[..a][k] == s[k];
    }
  }

  lemma TrailingBlank(t: string)
    ensures IsBlank(t[|t| - TrailingWhiteSpace(t)..])
  {
    var b := TrailingWhiteSpace(t);
    var suffix := t[|t| - b..];
    forall k | 0 <= k < |suffix| ensures IsWhiteSpace(suffix[k]) {
      TrailingWhiteSpaceAt(t, |t| - b + k);
      assert suffix[k] == t[|t| - b + k];
    }
  }

  lemma {:induction false} TrailingWhiteSpaceAt(s: string, i: nat)
    requires |s| - TrailingWhiteSpace(s) <= i < |s|
    ensures IsWhiteSpace(s[i])
    decreases |s|
  {
    if i < |s| - 1 {
      var f := s[..|s| - 1];
      TrailingWhiteSpaceAt(f, i);
      assert s[i] == f[i];
    }
  }

  /** Surrounding white space does not survive Trim. */
  lemma TrimIgnoresPadding(pre: string, x: string, post: string)
    requires IsBlank(pre) && IsBlank(post)
    ensures Trim(pre + x + post) == Trim(x)
  {
    if IsBlank(x) {
      BlankConcat(pre, x, post);
      TrimShape(x);
      TrimShape(pre + x + post);
    } else {
      TrimPadded(pre, x, post);
    }
  }

  lemma TrimPadded(pre: string, x: string, post: string)
    requires IsBlank(pre) && IsBlank(post) && !IsBlank(x)
    ensures Trim(pre + x + post) == Trim(x)
  {
    var a := LeadingWhiteSpace(x);
    var tx := x[a..];
    var b := TrailingWhiteSpace(tx);
    PaddedCounts(pre, x, post);
    SliceOfPadded(pre, x, post, a, |tx| - b);
  }

  /** Where the white space ends in a padded string that is not blank. */
  lemma PaddedCounts(pre: string, x: string, post: string)
    requires IsBlank(pre) && IsBlank(post) && !IsBlank(x)
    ensures var a := LeadingWhiteSpace(x); var tx := x[a..];
      a < |x| && TrailingWhiteSpace(tx) < |tx|
      && LeadingWhiteSpace(pre + x + post) == |pre| + a
      && TrailingWhiteSpace(tx + post) == |post| + TrailingWhiteSpace(tx)
  {
    TrimShape(x);
    var a := LeadingWhiteSpace(x);
    LeadingWhiteSpaceSpec(x);
    LeadingPastPadding(pre, x, post, a);
    var tx := x[a..];
    TrailingWhiteSpaceSpec(tx);
    TrailingPastPadding(tx, post, TrailingWhiteSpace(tx));
  }

  /** The sequence identities TrimPadded needs, apart from any white space. */
  lemma SliceOfPadded(pre: string, x: string, post: string, a: nat, k: nat)
    requires a <= |x| && k <= |x| - a
    ensures (pre + x + post)[|pre| + a..] == x[a..] + post
    ensures (x[a..] + post)[..k] == x[a..][..k]
  {
  }

  lemma BlankConcat(pre: string, x: string, post: string)
    requires IsBlank(pre) && IsBlank(x) && IsBlank(post)
    ensures IsBlank(pre + x + post)
  {
    var s := pre + x + post;
    forall i | 0 <= i < |s| ensures IsWhiteSpace(s[i]) {
      if i < |pre| { assert s[i] == pre[i]; }
      else if i < |pre| + |x| { assert s[i] == x[i - |pre|]; }
      else { assert s[i] == post[i - |pre| - |x|]; }
    }
  }

  lemma LeadingPastPadding(pre: string, x: string, post: string, a: nat)
    requires IsBlank(pre)
    requires a < |x| && !IsWhiteSpace(x[a])
    requires forall i :: 0 <= i < a ==> IsWhiteSpace(x[i])
    ensures LeadingWhiteSpace(pre + x + post) == |pre| + a
  {
    var s := pre + x + post;
    forall i | 0 <= i < |pre| + a ensures IsWhiteSpace(s[i]) {
      if i < |pre| { assert s[i] == pre[i]; } else { assert s[i] == x[i - |pre|]; }
    }
    assert s[|pre| + a] == x[a];
    LeadingWhiteSpaceUnique(s, |pre| + a);
  }

  lemma TrailingPastPadding(tx: string, post: string, b: nat)
    requires IsBlank(post)
    requires b < |tx| && !IsWhiteSpace(tx[|tx| - b - 1])
    requires forall i :: |tx| - b <= i < |tx| ==> IsWhiteSpace(tx[i])
    ensures TrailingWhiteSpace(tx + post) == |post| + b
  {
    var ts := tx + post;
    forall i | |ts| - (|post| + b) <= i < |ts| ensures IsWhiteSpace(ts[i]) {
      if i < |tx| { assert ts[i] == tx[i]; } else { assert ts[i] == post[i - |tx|]; }
    }
    assert ts[|ts| - (|post| + b) - 1] == tx[|tx| - b - 1];
    TrailingWhiteSpaceUnique(ts, |post| + b);
  }

  /** How many UTF-16 code units one character takes: a Dafny char is a Unicode
      scalar value, and one above U+FFFF is a surrogate pair in a .NET string. */
  function CodeUnits(c: char): nat {
    if c as int > 0xFFFF then 2 else 1
  }

  /** String.Length: the number of UTF-16 code units, which is at least the
      number of characters and at most twice it: it equals the number of
      characters exactly when every character is in the Basic Multilingual
      Plane, and is twice it when none is. */
  function Utf16Length(s: string): (n: nat)
    ensures |s| <= n <= 2 * |s|
    ensures (forall i :: 0 <= i < |s| ==> s[i] as int <= 0xFFFF) ==> n == |s|
    ensures (exists i :: 0 <= i < |s| && s[i] as int > 0xFFFF) ==> n > |s|
    ensures (forall i :: 0 <= i < |s| ==> s[i] as int > 0xFFFF) ==> n == 2 * |s|
    decreases |s|
  {
    if s == [] then 0 else CodeUnits(s[0]) + Utf16Length(s[1..])
  }

  /** ASCII lower-casing of one character. */
  function LowerChar(c: char): char {
    if 'A' <= c <= 'Z' then (c as int + 32) as char else c
  }

  /** String.ToLowerInvariant, at ASCII level: no upper-case letter is left, an
      upper-case letter becomes the letter 32 code points above it, and every other
      character is kept in place. */
  function ToLower(s: string): (r: string)
    ensures |r| == |s|
    ensures forall i :: 0 <= i < |r| ==> !('A' <= r[i] <= 'Z')
    ensures forall i :: 0 <= i < |s| && 'A' <= s[i] <= 'Z' ==> r[i] as int == s[i] as int + 32
    ensures forall i :: 0 <= i < |s| && !('A' <= s[i] <= 'Z') ==> r[i] == s[i]
  {
    seq(|s|, i requires 0 <= i < |s| => LowerChar(s[i]))
  }

  /** StringComparison.OrdinalIgnoreCase, at ASCII level. */
  predicate EqualsIgnoreCase(a: string, b: string) {
    ToLower(a) == ToLower(b)
  }

  /** char.IsDigit, at ASCII level. */
  predicate IsDigit(c: char) {
    '0' <= c <= '9'
  }

  /** Lower-casing only touches A..Z, so it keeps the UTF-16 length. */
  lemma {:induction false} Utf16LengthToLower(s: string)
    ensures Utf16Length(ToLower(s)) == Utf16Length(s)
    decreases |s|
  {
    if s != [] {
      assert ToLower(s)[1..] == ToLower(s[1..]);
      Utf16LengthToLower(s[1..]);
    }
  }

  lemma ToLowerIdempotent(s: string)
    ensures ToLower(ToLower(s)) == ToLower(s)
  {
  }

  lemma LowerCharWhiteSpace(c: char)
    ensures IsWhiteSpace(LowerChar(c)) == IsWhiteSpace(c)
  {
  }

  /** Lower-casing neither creates nor removes white space, so it commutes with Trim. */
  lemma TrimToLowerCommute(s: string)
    ensures Trim(ToLower(s)) == ToLower(Trim(s))
  {
    var a := LeadingWhiteSpace(s);
    LeadingToLower(s);
    var t := s[a..];
    ToLowerSuffix(s, a);
    TrailingToLower(t);
    ToLowerPrefix(t, |t| - TrailingWhiteSpace(t));
  }

  lemma LeadingToLower(s: string)
    ensures LeadingWhiteSpace(ToLower(s)) == LeadingWhiteSpace(s)
  {
    var l := ToLower(s);
    forall i | 0 <= i < |s| ensures IsWhiteSpace(l[i]) == IsWhiteSpace(s[i]) {
      LowerCharWhiteSpace(s[i]);
    }
    LeadingWhiteSpaceSpec(s);
    LeadingWhiteSpaceUnique(l, LeadingWhiteSpace(s));
  }

  lemma TrailingToLower(s: string)
    ensures TrailingWhiteSpace(ToLower(s)) == TrailingWhiteSpace(s)
  {
    var l := ToLower(s);
    forall i | 0 <= i < |s| ensures IsWhiteSpace(l[i]) == IsWhiteSpace(s[i]) {
      LowerCharWhiteSpace(s[i]);
    }
    TrailingWhiteSpaceSpec(s);
    TrailingWhiteSpaceUnique(l, TrailingWhiteSpace(s));
  }

  lemma ToLowerSuffix(s: string, a: nat)
    requires a <= |s|
    ensures ToLower(s)[a..] == ToLower(s[a..])
  {
  }

  lemma ToLowerPrefix(s: string, k: nat)
    requires k <= |s|
    ensures ToLower(s)[..k] == ToLower(s[..k])
  {
  }

  /** Lower-casing keeps blank strings blank and non-blank strings non-blank. */
  lemma BlankToLower(s: string)
    ensures IsBlank(ToLower(s)) <==> IsBlank(s)
  {
    forall i | 0 <= i < |s| ensures IsWhiteSpace(ToLower(s)[i]) == IsWhiteSpace(s[i]) {
      LowerCharWhiteSpace(s[i]);
    }
  }

  /** A stand-in for String.GetHashCode: the model only relies on it being a
      function of the string, which is all the .NET contract promises. */
  function StringHash(s: string): int
    decreases |s|
  {
    if s == [] then 0 else StringHash(s[..|s| - 1]) * 31 + s[|s| - 1] as int
  }
}

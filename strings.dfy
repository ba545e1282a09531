/** The string helpers the request pipeline relies on: .NET's `char.IsWhiteSpace`,
    `string.IsNullOrWhiteSpace` (the `Empty()` extension), `Trim()` and
    `ToLowerInvariant()` (together the `TrimToLower()` extension).
    A C# string that may be null is an `Option<string>`. */
module Strings {
  import opened Wrappers

  /** The characters `char.IsWhiteSpace` accepts (Unicode classes Zs, Zl, Zp and the
      control characters U+0009..U+000D, U+0085). No ASCII letter or digit is white space. */
  function IsWhiteSpace(c: char): (b: bool)
    ensures c == ' ' ==> b
    ensures b ==> !('0' <= c <= '9') && !('A' <= c <= 'Z') && !('a' <= c <= 'z')
  {
    || c == ' '
    || ('\t' <= c <= '\r')
    || c == '\U{85}'
    || c == '\U{A0}'
    || c == '\U{1680}'
    || ('\U{2000}' <= c <= '\U{200A}')
    || c == '\U{2028}'
    || c == '\U{2029}'
    || c == '\U{202F}'
    || c == '\U{205F}'
    || c == '\U{3000}'
  }

  /** Every character of `s` is white space (true of the empty string). */
  predicate IsBlank(s: string)
  {
    forall i :: 0 <= i < |s| ==> IsWhiteSpace(s[i])
  }

  /** `string.IsNullOrWhiteSpace`, which the `Empty()` extension stands for: null, or a
      string that `Trim()` empties. */
  function IsNullOrWhiteSpace(s: Option<string>): (b: bool)
    ensures b <==> s.None? || Trim(s.value) == []
    ensures s == Some([]) ==> b
  {
    s.None? || IsBlank(s.value)
  }

  /** Neither the first nor the last character of `s` is white space. */
  predicate IsTrimmed(s: string)
  {
    |s| == 0 || (!IsWhiteSpace(s[0]) && !IsWhiteSpace(s[|s| - 1]))
  }

  /** `s` is some white space, then `core`, then some white space: `core` is what is
      left of `s` once an outer run of white space is cut off at each end. */
  predicate IsPaddedBy(s: string, core: string)
  {
    exists i {:trigger s[..i]} ::
      && 0 <= i <= |s| - |core|
      && IsBlank(s[..i])
      && core == s[i..][..|core|]
      && IsBlank(s[i..][|core|..])
  }

  /** Drops the leading white space of `s`. */
  function TrimStart(s: string): (r: string)
    ensures |r| <= |s| && r == s[|s| - |r|..]
    ensures forall i :: 0 <= i < |s| - |r| ==> IsWhiteSpace(s[i])
    ensures |r| > 0 ==> !IsWhiteSpace(r[0])
  {
    if |s| > 0 && IsWhiteSpace(s[0]) then TrimStart(s[1..]) else s
  }

  /** Drops the trailing white space of `s`. */
  function TrimEnd(s: string): (r: string)
    ensures |r| <= |s| && r == s[..|r|]
    ensures forall i :: |r| <= i < |s| ==> IsWhiteSpace(s[i])
    ensures |r| > 0 ==> !IsWhiteSpace(r[|r| - 1])
  {
    if |s| > 0 && IsWhiteSpace(s[|s| - 1]) then TrimEnd(s[..|s| - 1]) else s
  }

  /** `string.Trim()`: `s` without its leading and trailing white space, that is, the
      longest infix of `s` that neither starts nor ends with white space. */
  function Trim(s: string): (r: string)
    ensures IsPaddedBy(s, r) && IsTrimmed(r)
    ensures r == [] <==> IsBlank(s)
  {
    var t := TrimStart(s);
    var r := TrimEnd(t);
    TrimIsPadded(s, t, r);
    r
  }

  /** The two halves of `Trim` put together: cutting the leading white space and then the
      trailing white space leaves `s` padded by the result, which is empty exactly when
      `s` is blank. */
  lemma TrimIsPadded(s: string, t: string, r: string)
    requires t == TrimStart(s) && r == TrimEnd(t)
    ensures IsPaddedBy(s, r) && IsTrimmed(r)
    ensures r == [] <==> IsBlank(s)
  {
    var i := |s| - |t|;
    assert s[i..] == t;
    assert IsBlank(s[..i]) && r == s[i..][..|r|] && IsBlank(s[i..][|r|..]);
    if r == [] {
      assert forall k :: 0 <= k < |s| ==> s[k] == if k < i then s[..i][k] else t[k - i];
    }
  }

  /** `char.ToLowerInvariant` restricted to ASCII: A-Z are lowered, every other character
      is kept (so a non-ASCII upper-case letter such as 'Ä' stays as it is). */
  function ToLowerChar(c: char): (r: char)
    ensures 'A' <= c <= 'Z' ==> r as int == c as int + 32
    ensures !('A' <= c <= 'Z') ==> r == c
  {
    if 'A' <= c <= 'Z' then (c as int - 'A' as int + 'a' as int) as char else c
  }

  /** No letter A-Z occurs in `s`. */
  predicate IsLowerCase(s: string)
  {
    forall i :: 0 <= i < |s| ==> !('A' <= s[i] <= 'Z')
  }

  /** `r` is `s` with A-Z lowered character by character (`ToLowerChar`). */
  predicate IsLoweringOf(r: string, s: string)
  {
    |r| == |s| && forall i :: 0 <= i < |s| ==> r[i] == ToLowerChar(s[i])
  }

  /** `string.ToLowerInvariant()` restricted to ASCII: every letter A-Z becomes its
      lower-case letter, every other character is kept. */
  function ToLowerInvariant(s: string): (r: string)
    ensures IsLoweringOf(r, s) && IsLowerCase(r)
    ensures forall i :: 0 <= i < |s| && 'A' <= s[i] <= 'Z' ==> r[i] as int == s[i] as int + 32
    ensures forall i :: 0 <= i < |s| && !('A' <= s[i] <= 'Z') ==> r[i] == s[i]
    ensures forall i :: 0 <= i < |s| ==> IsWhiteSpace(r[i]) == IsWhiteSpace(s[i])
    ensures IsLowerCase(s) ==> r == s
  {
    seq(|s|, i requires 0 <= i < |s| => ToLowerChar(s[i]))
  }

  /** `r` is `s` without its outer white space, with A-Z lowered character by character. */
  ghost predicate IsNormalisationOf(r: string, s: string)
  {
    exists core :: IsPaddedBy(s, core) && IsTrimmed(core) && IsLoweringOf(r, core)
  }

  /** The `TrimToLower()` extension: `Trim()` followed by `ToLowerInvariant()`. The result
      is the lower-casing of `s` without its outer white space. */
  function TrimToLower(s: string): (r: string)
    ensures IsNormalisationOf(r, s)
    ensures IsTrimmed(r) && IsLowerCase(r)
    ensures r == [] <==> IsBlank(s)
  {
    var t := Trim(s);
    var r := ToLowerInvariant(t);
    LoweringPreservesTrim(t, r);
    assert IsNormalisationOf(r, s) by {
      assert IsPaddedBy(s, t) && IsTrimmed(t) && IsLoweringOf(r, t);
    }
    r
  }

  /** Lower-casing a trimmed string keeps it trimmed. */
  lemma LoweringPreservesTrim(t: string, r: string)
    requires IsTrimmed(t) && IsLoweringOf(r, t)
    ensures IsTrimmed(r)
  {
    if |r| > 0 {
      assert r[0] == ToLowerChar(t[0]) && r[|r| - 1] == ToLowerChar(t[|t| - 1]);
    }
  }

  /** A string that is already trimmed is left alone by `Trim()`. */
  lemma {:induction false} TrimOfTrimmed(s: string)
    requires IsTrimmed(s)
    ensures Trim(s) == s
  {
  }

  /** `TrimToLower()` is idempotent: normalising a normalised string changes nothing. */
  lemma {:induction false} TrimToLowerIdempotent(s: string)
    ensures TrimToLower(TrimToLower(s)) == TrimToLower(s)
  {
    var r := TrimToLower(s);
    TrimOfTrimmed(r);
  }
}

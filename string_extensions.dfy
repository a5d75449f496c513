/** The string helpers the stores and contact records validate their
    arguments with (Utils/StringExtentsion.cs). */
module StringExtensions {
  import opened Common

  /** .NET's Char.IsWhiteSpace: the Unicode space, line and paragraph
      separators together with the control characters U+0009 to U+000D
      and U+0085. */
  predicate IsWhiteSpace(c: char) {
    || ('\U{9}' <= c <= '\U{D}')
    || c == '\U{20}' || c == '\U{85}' || c == '\U{A0}' || c == '\U{1680}'
    || ('\U{2000}' <= c <= '\U{200A}')
    || c == '\U{2028}' || c == '\U{2029}' || c == '\U{202F}' || c == '\U{205F}'
    || c == '\U{3000}'
  }

  /** String.IsNullOrWhiteSpace's scan over a non-null string, one character
      at a time from the front. */
  predicate AllWhiteSpace(s: string) {
    |s| == 0 || (IsWhiteSpace(s[0]) && AllWhiteSpace(s[1..]))
  }

  /** `IsEmpty`: null, empty, or nothing but white space. */
  function IsEmpty(source: Option<string>): (r: bool)
    ensures r <==> source.None? || forall i :: 0 <= i < |source.value| ==> IsWhiteSpace(source.value[i])
  {
    if source.None? then true
    else
      AllWhiteSpaceIff(source.value);
      AllWhiteSpace(source.value)
  }

  /** `IsNotEmpty`: the negation of `IsEmpty`. */
  function IsNotEmpty(source: Option<string>): (r: bool)
    ensures r <==> source.Some? && exists i :: 0 <= i < |source.value| && !IsWhiteSpace(source.value[i])
  {
    !IsEmpty(source)
  }

  /** The front-to-back scan decides exactly "every character is white space". */
  lemma {:induction false} AllWhiteSpaceIff(s: string)
    ensures AllWhiteSpace(s) <==> forall i :: 0 <= i < |s| ==> IsWhiteSpace(s[i])
  {
    if |s| > 0 {
      AllWhiteSpaceIff(s[1..]);
      assert forall i :: 1 <= i < |s| ==> s[i] == s[1..][i - 1];
    }
  }

  /** A null string is empty. */
  lemma IsEmptyOfNull()
    ensures IsEmpty(None)
  {
  }

  /** The empty string and every string of white space only are empty. */
  lemma IsEmptyOfBlank(s: string)
    requires forall i :: 0 <= i < |s| ==> IsWhiteSpace(s[i])
    ensures IsEmpty(Some(s))
  {
    AllWhiteSpaceIff(s);
  }

  /** A non-null string is non-empty exactly when it holds a character that
      is not white space. */
  lemma IsNotEmptyIff(s: string)
    ensures IsNotEmpty(Some(s)) <==> exists i :: 0 <= i < |s| && !IsWhiteSpace(s[i])
  {
    AllWhiteSpaceIff(s);
  }

  /** `ThrowIfStringEmpty`, the argument check the stores and `UserMobile`
      apply to required strings: ArgumentException when `IsEmpty`. */
  function ThrowIfStringEmpty(source: Option<string>): (r: Outcome)
    ensures r.Fail? <==> IsEmpty(source)
    ensures r.Fail? ==> r.error == Argument
  {
    if IsEmpty(source) then Fail(Argument) else Pass
  }

  /** `ThrowIfNull`: ArgumentNullException for a null reference. */
  function ThrowIfNull<T>(obj: Option<T>): (r: Outcome)
    ensures r.Fail? <==> obj.None?
    ensures r.Fail? ==> r.error == ArgumentNull
  {
    if obj.None? then Fail(ArgumentNull) else Pass
  }
}

/** The .NET string predicates and trimming that the controllers use. */
module Text {
  import opened Wrappers

  /** `char.IsWhiteSpace`: the Unicode space separators, line and paragraph
      separators, and the control characters U+0009..U+000D and U+0085. */
  predicate IsWhiteSpace(c: char) {
    c == ' ' || ('\t' <= c <= '\r') || c == '\U{85}' || c == '\U{A0}' || c == '\U{1680}' ||
    ('\U{2000}' <= c <= '\U{200A}') || c == '\U{2028}' || c == '\U{2029}' ||
    c == '\U{202F}' || c == '\U{205F}' || c == '\U{3000}'
  }

  predicate AllWhiteSpace(s: string) {
    forall i :: 0 <= i < |s| ==> IsWhiteSpace(s[i])
  }

  /** `string.IsNullOrEmpty`. */
  predicate IsNullOrEmpty(s: Option<string>) {
    s.None? || s.value == ""
  }

  /** `string.IsNullOrWhiteSpace`. */
  predicate IsNullOrWhiteSpace(s: Option<string>) {
    s.None? || AllWhiteSpace(s.value)
  }

  /** The number of white-space characters at the start of `s`. */
  function LeadingWhiteSpace(s: string): (n: nat)
    ensures n <= |s| && AllWhiteSpace(s[..n])
    ensures n < |s| ==> !IsWhiteSpace(s[n])
  {
    if s != [] && IsWhiteSpace(s[0]) then
      var m := LeadingWhiteSpace(s[1..]);
      assert s[..m + 1] == [s[0]] + s[1..][..m];
      m + 1
    else 0
  }

  /** The number of white-space characters at the end of `s`. */
  function TrailingWhiteSpace(s: string): (n: nat)
    ensures n <= |s| && AllWhiteSpace(s[|s| - n..])
    ensures n < |s| ==> !IsWhiteSpace(s[|s| - n - 1])
  {
    if s != [] && IsWhiteSpace(s[|s| - 1]) then
      var t := s[..|s| - 1];
      var m := TrailingWhiteSpace(t);
      assert s[|s| - (m + 1)..] == t[|t| - m..] + [s[|s| - 1]];
      m + 1
    else 0
  }

  /** `string.Trim()`: the slice between the leading and the trailing white space. */
  function Trim(s: string): string {
    var u := s[LeadingWhiteSpace(s)..];
    u[..|u| - TrailingWhiteSpace(u)]
  }

  /** `Trim` returns the slice of its input left after dropping white space at
      both ends; when that slice is not empty, it starts and ends with a
      character that is not white space. */
  lemma TrimIsCoreSlice(s: string)
    ensures exists i, j :: 0 <= i <= j <= |s| && Trim(s) == s[i..j] &&
                           AllWhiteSpace(s[..i]) && AllWhiteSpace(s[j..])
    ensures Trim(s) != [] ==> !IsWhiteSpace(Trim(s)[0]) && !IsWhiteSpace(Trim(s)[|Trim(s)| - 1])
  {
    var i := LeadingWhiteSpace(s);
    var u := s[i..];
    var k := TrailingWhiteSpace(u);
    var j := i + |u| - k;
    assert Trim(s) == s[i..j];
    assert u[|u| - k..] == s[j..];
    if Trim(s) != [] {
      assert Trim(s)[0] == s[i];
      assert Trim(s)[|Trim(s)| - 1] == u[|u| - k - 1];
    }
  }

  lemma LeadingOfTrimmed(s: string)
    requires s == [] || !IsWhiteSpace(s[0])
    ensures LeadingWhiteSpace(s) == 0
  {
  }

  lemma TrailingOfTrimmed(s: string)
    requires s == [] || !IsWhiteSpace(s[|s| - 1])
    ensures TrailingWhiteSpace(s) == 0
  {
  }

  /** Trimming twice is trimming once. */
  lemma TrimIdempotent(s: string)
    ensures Trim(Trim(s)) == Trim(s)
  {
    TrimIsCoreSlice(s);
    var t := Trim(s);
    LeadingOfTrimmed(t);
    assert t[0..] == t;
    TrailingOfTrimmed(t);
    assert t[..|t|] == t;
  }

  /** A string is white space only exactly when trimming it leaves nothing:
      a patient id that passes the `IsNullOrWhiteSpace` guard has a non-empty trim. */
  lemma {:induction false} WhiteSpaceIffTrimEmpty(s: string)
    ensures AllWhiteSpace(s) <==> Trim(s) == []
  {
    TrimIsCoreSlice(s);
    var i, j :| 0 <= i <= j <= |s| && Trim(s) == s[i..j] &&
                AllWhiteSpace(s[..i]) && AllWhiteSpace(s[j..]);
    if Trim(s) == [] {
      assert i == j;
      forall k | 0 <= k < |s| ensures IsWhiteSpace(s[k]) {
        if k < i { assert s[k] == s[..i][k]; } else { assert s[k] == s[j..][k - j]; }
      }
    }
  }
}

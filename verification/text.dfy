/** Characters and trimming, standing in for Foundation's
    `CharacterSet.whitespacesAndNewlines` and `String.trimmingCharacters(in:)`.
    A `string` here is a sequence of Unicode scalar values. */
module Text {

  /** Membership in `whitespacesAndNewlines`, as CoreFoundation tests it:
      the space separators (general category Zs) together with U+200B ZERO
      WIDTH SPACE, which the range U+2000 to U+200B takes in; CHARACTER
      TABULATION; the newlines U+000A through U+000D and U+0085; and the line
      and paragraph separators U+2028 and U+2029. */
  predicate IsWhitespace(c: char) {
    || c == '\t'
    || ('\n' <= c <= '\r')
    || c == ' '
    || c == '\U{0085}'
    || c == '\U{00A0}'
    || c == '\U{1680}'
    || ('\U{2000}' <= c <= '\U{200B}')
    || c == '\U{2028}'
    || c == '\U{2029}'
    || c == '\U{202F}'
    || c == '\U{205F}'
    || c == '\U{3000}'
  }

  /** Every character of `s` is whitespace (vacuously so for ""). */
  predicate AllWhitespace(s: string) {
    forall i :: 0 <= i < |s| ==> IsWhitespace(s[i])
  }

  lemma AllWhitespaceConcat(x: string, y: string)
    ensures AllWhitespace(x + y) <==> AllWhitespace(x) && AllWhitespace(y)
  {
    assert forall i :: 0 <= i < |x| ==> x[i] == (x + y)[i];
    assert forall i :: 0 <= i < |y| ==> y[i] == (x + y)[|x| + i];
  }

  /** Length of the longest all-whitespace prefix of `s`. */
  function LeadingWhitespace(s: string): (n: nat)
    ensures n <= |s|
    ensures AllWhitespace(s[..n])
    ensures n < |s| ==> !IsWhitespace(s[n])
  {
    if |s| == 0 || !IsWhitespace(s[0]) then 0
    else
      var m := LeadingWhitespace(s[1..]);
      assert s[1..][..m] == s[1..m + 1];
      1 + m
  }

  /** Length of the longest all-whitespace suffix of `s`. */
  function TrailingWhitespace(s: string): (n: nat)
    ensures n <= |s|
    ensures forall i :: |s| - n <= i < |s| ==> IsWhitespace(s[i])
    ensures n < |s| ==> !IsWhitespace(s[|s| - n - 1])
  {
    if |s| == 0 || !IsWhitespace(s[|s| - 1]) then 0
    else
      var init := s[..|s| - 1];
      var m := TrailingWhitespace(init);
      assert forall i :: |init| - m <= i < |init| ==> init[i] == s[i];
      1 + m
  }

  /** What is left after the leading whitespace: empty, or starting with a
      character that is not whitespace; and `s` is blank exactly when it is. */
  lemma AfterLeadingWhitespace(s: string)
    ensures var rest := s[LeadingWhitespace(s)..];
            && (|rest| > 0 ==> !IsWhitespace(rest[0]))
            && (AllWhitespace(s) <==> AllWhitespace(rest))
  {
    var a := LeadingWhitespace(s);
    assert s == s[..a] + s[a..];
    AllWhitespaceConcat(s[..a], s[a..]);
  }

  /** Cutting the trailing whitespace off `rest` leaves a prefix that is
      empty exactly when `rest` is blank, given that `rest` does not start
      with whitespace. */
  lemma BeforeTrailingWhitespace(rest: string)
    requires |rest| > 0 ==> !IsWhitespace(rest[0])
    ensures var r := rest[..|rest| - TrailingWhitespace(rest)];
            && (|r| == 0 <==> AllWhitespace(rest))
            && (|r| > 0 ==> !IsWhitespace(r[0]) && !IsWhitespace(r[|r| - 1]))
            && AllWhitespace(rest[|r|..])
  {
    var b := TrailingWhitespace(rest);
    var r := rest[..|rest| - b];
    assert forall i :: 0 <= i < |rest[|r|..]| ==> rest[|r|..][i] == rest[|r| + i];
  }

  /** The trimmed text sits at offset `a` of `s`, with only whitespace on
      either side of it. */
  lemma TrimIsSlice(s: string, a: nat, r: string)
    requires a == LeadingWhitespace(s)
    requires |s[a..]| > 0 ==> !IsWhitespace(s[a..][0])
    requires r == s[a..][..|s[a..]| - TrailingWhitespace(s[a..])]
    ensures 0 <= a <= |s| - |r| && r == s[a..a + |r|]
    ensures AllWhitespace(s[..a]) && AllWhitespace(s[a + |r|..])
  {
    var rest := s[a..];
    BeforeTrailingWhitespace(rest);
    assert s[a + |r|..] == rest[|r|..];
  }

  /** `s.trimmingCharacters(in: .whitespacesAndNewlines)`: `s` without its
      leading and trailing whitespace. The result is a contiguous slice of
      `s`, it is empty exactly when `s` is blank, and otherwise it neither
      starts nor ends with whitespace. */
  function Trim(s: string): (r: string)
    ensures exists a :: 0 <= a <= |s| - |r| && r == s[a..a + |r|]
                        && AllWhitespace(s[..a]) && AllWhitespace(s[a + |r|..])
    ensures |r| == 0 <==> AllWhitespace(s)
    ensures |r| > 0 ==> !IsWhitespace(r[0]) && !IsWhitespace(r[|r| - 1])
  {
    var a := LeadingWhitespace(s);
    var rest := s[a..];
    AfterLeadingWhitespace(s);
    BeforeTrailingWhitespace(rest);
    var r := rest[..|rest| - TrailingWhitespace(rest)];
    TrimIsSlice(s, a, r);
    r
  }
}

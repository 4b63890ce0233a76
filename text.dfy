/** The pieces of Python's `str` behaviour that the pipeline relies on. */
module Text {

  /** `c.isspace()`: the characters that `str.strip()` removes. */
  predicate IsSpace(c: char) {
    c == ' ' || '\t' <= c <= '\r' || '\U{001C}' <= c <= '\U{001F}'
    || c == '\U{0085}' || c == '\U{00A0}' || c == '\U{1680}'
    || '\U{2000}' <= c <= '\U{200A}' || c == '\U{2028}' || c == '\U{2029}'
    || c == '\U{202F}' || c == '\U{205F}' || c == '\U{3000}'
  }

  predicate AllSpace(s: string) {
    forall i | 0 <= i < |s| :: IsSpace(s[i])
  }

  /** `s.startswith(prefix)` */
  predicate StartsWith(s: string, prefix: string) {
    |prefix| <= |s| && s[..|prefix|] == prefix
  }

  /** The number of whitespace characters at the start of s. */
  function LeadingSpace(s: string): (n: nat)
    ensures n <= |s|
    ensures n < |s| ==> !IsSpace(s[n])
    decreases |s|
  {
    if |s| > 0 && IsSpace(s[0]) then 1 + LeadingSpace(s[1..]) else 0
  }

  /** Every character that LeadingSpace counts is whitespace. */
  lemma {:induction false} LeadingSpaceIsSpace(s: string)
    ensures forall i | 0 <= i < LeadingSpace(s) :: IsSpace(s[i])
    decreases |s|
  {
    if |s| > 0 && IsSpace(s[0]) {
      LeadingSpaceIsSpace(s[1..]);
      assert forall i | 1 <= i < LeadingSpace(s) :: s[i] == s[1..][i - 1];
    }
  }

  /** The number of whitespace characters at the end of s. */
  function TrailingSpace(s: string): (n: nat)
    ensures n <= |s|
    ensures n < |s| ==> !IsSpace(s[|s| - 1 - n])
    decreases |s|
  {
    if |s| > 0 && IsSpace(s[|s| - 1]) then 1 + TrailingSpace(s[..|s| - 1]) else 0
  }

  /** Every character that TrailingSpace counts is whitespace. */
  lemma {:induction false} TrailingSpaceIsSpace(s: string)
    ensures forall i | |s| - TrailingSpace(s) <= i < |s| :: IsSpace(s[i])
    decreases |s|
  {
    if |s| > 0 && IsSpace(s[|s| - 1]) {
      TrailingSpaceIsSpace(s[..|s| - 1]);
      assert forall i | |s| - TrailingSpace(s) <= i < |s| - 1 :: s[i] == s[..|s| - 1][i];
    }
  }

  /** `s.strip()`: s without its leading and trailing whitespace. */
  function Strip(s: string): (r: string)
    ensures |r| <= |s|
    ensures |r| == 0 <==> AllSpace(s)
    ensures |r| > 0 ==> !IsSpace(r[0]) && !IsSpace(r[|r| - 1])
  {
    var lead := LeadingSpace(s);
    var t := s[lead..];
    LeadingSpaceIsSpace(s);
    TrailingSpaceIsSpace(t);
    assert lead < |s| ==> t[0] == s[lead];
    t[..|t| - TrailingSpace(t)]
  }

  /** r sits at offset lead in s and everything around it is whitespace. */
  predicate StrippedAt(s: string, lead: int, r: string) {
    && 0 <= lead <= lead + |r| <= |s|
    && (forall i | 0 <= i < |r| :: r[i] == s[lead + i])
    && (forall i | 0 <= i < lead :: IsSpace(s[i]))
    && (forall i | lead + |r| <= i < |s| :: IsSpace(s[i]))
  }

  /** Strip removes whitespace only, and only at the two ends. */
  lemma StripRemovesOnlyEnds(s: string)
    ensures StrippedAt(s, LeadingSpace(s), Strip(s))
  {
    LeadingSpaceIsSpace(s);
    StripKeepsMiddle(s);
    StripDropsTrailing(s);
  }

  lemma StripKeepsMiddle(s: string)
    ensures LeadingSpace(s) + |Strip(s)| <= |s|
    ensures forall i | 0 <= i < |Strip(s)| :: Strip(s)[i] == s[LeadingSpace(s) + i]
  {
  }

  lemma StripDropsTrailing(s: string)
    ensures forall i | LeadingSpace(s) + |Strip(s)| <= i < |s| :: IsSpace(s[i])
  {
    var lead := LeadingSpace(s);
    var t := s[lead..];
    TrailingSpaceIsSpace(t);
    assert forall j | lead <= j < |s| :: s[j] == t[j - lead];
  }

  /** Stripping twice is stripping once. */
  lemma StripIdempotent(s: string)
    ensures Strip(Strip(s)) == Strip(s)
  {
    StripFixpoint(Strip(s));
  }

  /** A string with no whitespace at either end is its own strip. */
  lemma StripFixpoint(r: string)
    requires |r| > 0 ==> !IsSpace(r[0]) && !IsSpace(r[|r| - 1])
    ensures Strip(r) == r
  {
    assert LeadingSpace(r) == 0;
    assert r[0..] == r;
    assert TrailingSpace(r) == 0;
  }
}

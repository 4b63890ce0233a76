/**
 * The article scorer: the heading counter behind `section_count` and the
 * composite score that weighs structure similarity, section count and
 * readability (scoring/bert_scorer.py).
 */
module Scoring {
  import opened Wrappers

  // ---------------------------------------------------------------------
  // Heading counter: non-overlapping matches of a heading regex
  // ---------------------------------------------------------------------

  /** The character class `[A-Z]`: ASCII capitals only. */
  predicate IsAsciiUpper(c: char) {
    'A' <= c <= 'Z'
  }

  /** Index of the first '\n' in s at or after i, or |s| when there is none. */
  function NewlineFrom(s: string, i: nat): (k: nat)
    requires i <= |s|
    ensures i <= k <= |s|
    ensures k < |s| ==> s[k] == '\n'
    decreases |s| - i
  {
    if i == |s| || s[i] == '\n' then i else NewlineFrom(s, i + 1)
  }

  /** Index of the first '\n' in s, or |s| when s has none. */
  function FirstNewline(s: string): (k: nat)
    ensures k <= |s|
    ensures k < |s| ==> s[k] == '\n'
  {
    NewlineFrom(s, 0)
  }

  /** Searching a suffix finds the same newline, shifted. */
  lemma {:induction false} NewlineFromDrop(s: string, d: nat, i: nat)
    requires d + i <= |s|
    ensures NewlineFrom(s[d..], i) == NewlineFrom(s, d + i) - d
    decreases |s| - i
  {
    if d + i < |s| && s[d + i] != '\n' {
      assert s[d..][i] == s[d + i];
      NewlineFromDrop(s, d, i + 1);
    }
  }

  /** Past a first character that is no newline, the search goes on in the rest. */
  lemma FirstNewlineStep(s: string)
    requires |s| > 0 && s[0] != '\n'
    ensures FirstNewline(s) == 1 + FirstNewline(s[1..])
  {
    NewlineFromDrop(s, 1, 0);
  }

  /** No newline comes before the one found. */
  lemma {:induction false} NoNewlineBetween(s: string, i: nat)
    requires i <= |s|
    ensures forall j | i <= j < NewlineFrom(s, i) :: s[j] != '\n'
    decreases |s| - i
  {
    if i < |s| && s[i] != '\n' {
      NoNewlineBetween(s, i + 1);
    }
  }

  /** No newline comes before the first one. */
  lemma NoNewlineBefore(s: string)
    ensures forall j | 0 <= j < FirstNewline(s) :: s[j] != '\n'
  {
    NoNewlineBetween(s, 0);
  }

  /**
   * The pattern matches at the start of s with n characters taken by
   * `[^\n]{3,40}`: a newline, a capital, n non-newlines and a newline.
   */
  predicate HeadingMatch(s: string, n: nat) {
    3 <= n <= 40 && n + 3 <= |s| && s[0] == '\n' && IsAsciiUpper(s[1])
    && (forall j | 2 <= j < n + 2 :: s[j] != '\n') && s[n + 2] == '\n'
  }

  /**
   * Whether the pattern matches at the start of s, and with which n. The
   * bounded repetition cannot cross a newline, so at most one n fits and
   * backtracking cannot produce another.
   */
  function MatchAt(s: string): (m: Option<nat>)
    ensures m.Some? ==> HeadingMatch(s, m.value)
    ensures m.None? ==> forall n: nat :: !HeadingMatch(s, n)
  {
    if 2 <= |s| && s[0] == '\n' && IsAsciiUpper(s[1]) then
      var k := FirstNewline(s[2..]);
      NoNewlineBefore(s[2..]);
      assert forall n: nat | HeadingMatch(s, n) :: n == k by {
        forall n: nat | HeadingMatch(s, n) ensures n == k {
          assert s[2..][n] == '\n';
        }
      }
      if 3 <= k <= 40 && k + 2 < |s| then Some(k) else None
    else None
  }

  /** Number of '\n' characters in s. */
  function Newlines(s: string): nat {
    multiset(s)['\n']
  }

  /**
   * `len(re.findall(...))`: scan left to right; after a match resume just
   * past its closing newline, otherwise move on by one character.
   */
  function CountSections(text: string): nat
    decreases |text|
  {
    if |text| == 0 then 0
    else match MatchAt(text)
      case Some(n) => 1 + CountSections(text[n + 3..])
      case None => CountSections(text[1..])
  }

  /** Every match uses up two newlines of its own, so there are at most half as many matches as newlines. */
  lemma {:induction false} CountSectionsBounded(text: string)
    ensures 2 * CountSections(text) <= Newlines(text)
    decreases |text|
  {
    if |text| > 0 {
      match MatchAt(text)
      case Some(n) =>
        MatchUsesTwoNewlines(text, n);
        CountSectionsBounded(text[n + 3..]);
      case None =>
        assert text == [text[0]] + text[1..];
        CountSectionsBounded(text[1..]);
    }
  }

  lemma MatchUsesTwoNewlines(text: string, n: nat)
    requires HeadingMatch(text, n)
    ensures Newlines(text) >= 2 + Newlines(text[n + 3..])
  {
    var head := text[..n + 3];
    assert text == head + text[n + 3..];
    assert head == [text[0]] + text[1..n + 2] + [text[n + 2]];
    assert multiset(head)['\n'] >= 2;
  }

  // ---------------------------------------------------------------------
  // Reference view by lines
  // ---------------------------------------------------------------------

  /** The lines of s that a newline closes: the split without its last line. */
  function ClosedLines(s: string): seq<string>
    decreases |s|
  {
    var k := FirstNewline(s);
    if k == |s| then [] else [s[..k]] + ClosedLines(s[k + 1..])
  }

  /** The text after the last newline of s: all of s when it has none. */
  function LastLine(s: string): string
    decreases |s|
  {
    var k := FirstNewline(s);
    if k == |s| then s else LastLine(s[k + 1..])
  }

  /** `s.split('\n')`: the lines a newline closes, then the rest after the last newline. */
  function Lines(s: string): seq<string> {
    ClosedLines(s) + [LastLine(s)]
  }

  /** `'\n'.join(lines)`. */
  function JoinLines(lines: seq<string>): string
    requires |lines| >= 1
  {
    if |lines| == 1 then lines[0] else lines[0] + "\n" + JoinLines(lines[1..])
  }

  /** Splitting at newlines loses nothing. */
  lemma {:induction false} JoinSplit(s: string)
    ensures JoinLines(Lines(s)) == s
    decreases |s|
  {
    var k := FirstNewline(s);
    if k < |s| {
      JoinSplit(s[k + 1..]);
      LinesCons(s);
      JoinCons(s[..k], Lines(s[k + 1..]));
      SplitAt(s, k);
    } else {
      LinesLast(s);
    }
  }

  lemma JoinCons(x: string, ys: seq<string>)
    requires |ys| >= 1
    ensures JoinLines([x] + ys) == x + "\n" + JoinLines(ys)
  {
    assert ([x] + ys)[1..] == ys;
  }

  lemma SplitAt(s: string, k: nat)
    requires k < |s| && s[k] == '\n'
    ensures s == s[..k] + "\n" + s[k + 1..]
  {
  }

  /** A line the heuristic accepts: 4 to 41 characters, the first a capital. */
  predicate IsHeadingLine(line: string) {
    4 <= |line| <= 41 && IsAsciiUpper(line[0])
  }

  /** The lines that have a newline on both sides: all but the first and the last. */
  function InteriorLines(text: string): seq<string> {
    var ls := Lines(text);
    if |ls| < 2 then [] else ls[1..|ls| - 1]
  }

  /** The list without its last element. */
  function ButLast<T>(xs: seq<T>): seq<T>
    requires |xs| >= 1
  {
    xs[..|xs| - 1]
  }

  /** The list without its first element. */
  function Tail<T>(xs: seq<T>): seq<T> {
    if |xs| == 0 then [] else xs[1..]
  }

  /** Count heading lines in order; a counted line hides the line after it. */
  function GreedyHeadings(lines: seq<string>): nat
    decreases |lines|
  {
    if |lines| == 0 then 0
    else if IsHeadingLine(lines[0]) then
      1 + GreedyHeadings(lines[if |lines| >= 2 then 2 else 1..])
    else GreedyHeadings(lines[1..])
  }

  /** Number of heading lines, with no hiding. */
  function HeadingLines(lines: seq<string>): nat
    decreases |lines|
  {
    if |lines| == 0 then 0
    else (if IsHeadingLine(lines[0]) then 1 else 0) + HeadingLines(lines[1..])
  }

  /** No match starts inside a line, so the scan skips to the next newline. */
  lemma {:induction false} SkipToNewline(s: string)
    ensures CountSections(s) == CountSections(s[FirstNewline(s)..])
    decreases |s|
  {
    if FirstNewline(s) > 0 {
      FirstNewlineStep(s);
      SkipToNewline(s[1..]);
      assert s[1..][FirstNewline(s[1..])..] == s[FirstNewline(s)..];
    }
  }

  lemma {:induction false} FirstNewlineConcat(a: string, b: string)
    ensures FirstNewline(a + b) == if FirstNewline(a) < |a| then FirstNewline(a) else |a| + FirstNewline(b)
    decreases |a|
  {
    if |a| == 0 {
      assert a + b == b;
    } else if a[0] != '\n' {
      assert (a + b)[1..] == a[1..] + b;
      FirstNewlineStep(a);
      FirstNewlineStep(a + b);
      FirstNewlineConcat(a[1..], b);
    }
  }

  lemma NoNewline(s: string)
    requires '\n' !in s
    ensures FirstNewline(s) == |s|
  {
  }

  /** The closed lines are the split without its last piece. */
  lemma ClosedLinesButLast(s: string)
    ensures ClosedLines(s) == ButLast(Lines(s))
  {
    assert Lines(s)[..|Lines(s)| - 1] == ClosedLines(s);
  }

  lemma ClosedLinesCons(r: string)
    requires FirstNewline(r) < |r|
    ensures ClosedLines(r) == [r[..FirstNewline(r)]] + ClosedLines(r[FirstNewline(r) + 1..])
  {
  }

  lemma LinesCons(r: string)
    requires FirstNewline(r) < |r|
    ensures Lines(r) == [r[..FirstNewline(r)]] + Lines(r[FirstNewline(r) + 1..])
  {
    var k := FirstNewline(r);
    var r2 := r[k + 1..];
    ClosedLinesCons(r);
    LastLineCons(r);
    ConsThenSnoc(r[..k], ClosedLines(r2), LastLine(r2));
  }

  lemma LastLineCons(r: string)
    requires FirstNewline(r) < |r|
    ensures LastLine(r) == LastLine(r[FirstNewline(r) + 1..])
  {
  }

  lemma ConsThenSnoc<T>(x: T, xs: seq<T>, y: T)
    ensures [x] + xs + [y] == [x] + (xs + [y])
  {
  }

  lemma LinesLast(r: string)
    requires FirstNewline(r) == |r|
    ensures Lines(r) == [r]
  {
  }

  lemma ButLastCons<T>(x: T, ys: seq<T>)
    requires |ys| >= 1
    ensures ButLast([x] + ys) == [x] + ButLast(ys)
  {
    assert ([x] + ys)[..|ys|] == [x] + ys[..|ys| - 1];
  }

  lemma GreedyCons(line: string, xs: seq<string>)
    ensures GreedyHeadings([line] + xs)
      == if IsHeadingLine(line) then 1 + GreedyHeadings(Tail(xs)) else GreedyHeadings(xs)
  {
    var ys := [line] + xs;
    assert ys[1..] == xs;
    if |xs| >= 1 {
      assert ys[2..] == xs[1..];
    }
  }

  /** At a newline the pattern matches exactly when the next line is a heading line that ends in a newline. */
  lemma MatchAfterNewline(r: string)
    ensures var k := FirstNewline(r);
      MatchAt("\n" + r) == if k < |r| && IsHeadingLine(r[..k]) then Some(k - 1) else None
  {
    var s := "\n" + r;
    if |r| > 0 {
      assert s[1] == r[0];
      if r[0] != '\n' {
        FirstNewlineStep(r);
        assert s[2..] == r[1..];
      }
    }
  }

  /** One step of the scan at s, when no match starts there. */
  lemma ScanStepNoMatch(s: string)
    requires |s| > 0 && MatchAt(s).None?
    ensures CountSections(s) == CountSections(s[1..])
  {
  }

  /** One step of the scan at s, when a match of n+3 characters starts there. */
  lemma ScanStepMatch(s: string, n: nat)
    requires |s| > 0 && MatchAt(s) == Some(n)
    ensures CountSections(s) == 1 + CountSections(s[n + 3..])
  {
  }

  /** The scan from a newline counts greedily over the closed lines that follow it. */
  lemma {:induction false} ScanFromNewline(r: string)
    ensures CountSections("\n" + r) == GreedyHeadings(ClosedLines(r))
    decreases |r|, 2
  {
    var k := FirstNewline(r);
    if k == |r| {
      ScanNewlineOpenLine(r);
    } else if IsHeadingLine(r[..k]) {
      ScanNewlineHeading(r);
    } else {
      ScanNewlinePlainLine(r);
    }
  }

  /** A newline followed by a line that nothing closes: no match, and no closed lines. */
  lemma ScanNewlineOpenLine(r: string)
    requires FirstNewline(r) == |r|
    ensures CountSections("\n" + r) == GreedyHeadings(ClosedLines(r))
  {
    var s := "\n" + r;
    MatchAfterNewline(r);
    ScanStepNoMatch(s);
    assert s[1..] == r;
    SkipToNewline(r);
    assert r[|r|..] == [];
  }

  /** A newline followed by a closed heading line: one match, and the scan resumes at the start of the line after. */
  lemma {:induction false} ScanNewlineHeading(r: string)
    requires FirstNewline(r) < |r| && IsHeadingLine(r[..FirstNewline(r)])
    ensures CountSections("\n" + r) == GreedyHeadings(ClosedLines(r))
    decreases |r|, 1
  {
    var s := "\n" + r;
    var k := FirstNewline(r);
    var r2 := r[k + 1..];
    MatchAfterNewline(r);
    ScanStepMatch(s, k - 1);
    assert s[k + 2..] == r2;
    ScanFromLineStart(r2);
    GreedyCons(r[..k], ClosedLines(r2));
  }

  /** A newline followed by a closed line that is no heading: no match, and the scan moves on to the line's own newline. */
  lemma {:induction false} ScanNewlinePlainLine(r: string)
    requires FirstNewline(r) < |r| && !IsHeadingLine(r[..FirstNewline(r)])
    ensures CountSections("\n" + r) == GreedyHeadings(ClosedLines(r))
    decreases |r|, 1
  {
    var s := "\n" + r;
    var k := FirstNewline(r);
    var r2 := r[k + 1..];
    MatchAfterNewline(r);
    ScanStepNoMatch(s);
    assert s[1..] == r;
    SkipToNewline(r);
    assert r[k..] == "\n" + r2;
    ScanFromNewline(r2);
    GreedyCons(r[..k], ClosedLines(r2));
  }

  /** The scan from the start of a line skips that line and goes on from the next newline. */
  lemma {:induction false} ScanFromLineStart(r: string)
    ensures CountSections(r) == GreedyHeadings(Tail(ClosedLines(r)))
    decreases |r|, 0
  {
    var k := FirstNewline(r);
    SkipToNewline(r);
    if k < |r| {
      var r2 := r[k + 1..];
      assert r[k..] == "\n" + r2;
      ScanFromNewline(r2);
      ClosedLinesCons(r);
      assert Tail([r[..k]] + ClosedLines(r2)) == ClosedLines(r2);
    } else {
      assert |r[k..]| == 0;
      assert |ClosedLines(r)| == 0;
    }
  }

  /**
   * Independent view of `count_sections`: split the text into lines, keep
   * those with a newline on both sides, and count heading lines greedily,
   * a counted line hiding the next one (the two share a newline).
   */
  lemma CountSectionsByLines(text: string)
    ensures CountSections(text) == GreedyHeadings(InteriorLines(text))
  {
    ScanFromLineStart(text);
    ClosedLinesButLast(text);
    var ls := Lines(text);
    if |ls| >= 2 {
      assert Tail(ButLast(ls)) == ls[1..|ls| - 1];
    }
  }

  /** Greedy hiding only loses lines: at most the plain count, and exactly it when no two heading lines are adjacent. */
  lemma {:induction false} GreedyVersusPlain(lines: seq<string>)
    ensures GreedyHeadings(lines) <= HeadingLines(lines)
    ensures (forall i | 0 <= i < |lines| - 1 :: !(IsHeadingLine(lines[i]) && IsHeadingLine(lines[i + 1])))
      ==> GreedyHeadings(lines) == HeadingLines(lines)
    decreases |lines|
  {
    if |lines| > 0 {
      GreedyVersusPlain(lines[1..]);
      if IsHeadingLine(lines[0]) && |lines| >= 2 {
        GreedyVersusPlain(lines[2..]);
        assert lines[1..][1..] == lines[2..];
      }
    }
  }

  /** Isolated heading lines are each counted. */
  lemma IsolatedHeadingsAllCounted(text: string)
    requires var ls := InteriorLines(text);
      forall i | 0 <= i < |ls| - 1 :: !(IsHeadingLine(ls[i]) && IsHeadingLine(ls[i + 1]))
    ensures CountSections(text) == HeadingLines(InteriorLines(text))
  {
    CountSectionsByLines(text);
    GreedyVersusPlain(InteriorLines(text));
  }

  lemma LinesAfterFirstLine(first: string, rest: string)
    requires '\n' !in first
    ensures Lines(first + "\n" + rest) == [first] + Lines(rest)
  {
    var s := first + "\n" + rest;
    NoNewline(first);
    FirstNewlineConcat(first, "\n" + rest);
    assert s == first + ("\n" + rest);
    assert s[..|first|] == first && s[|first| + 1..] == rest;
  }

  /** The first line never counts: it has no newline before it. */
  lemma FirstLineNeverCounts(first1: string, first2: string, rest: string)
    requires '\n' !in first1 && '\n' !in first2
    ensures CountSections(first1 + "\n" + rest) == CountSections(first2 + "\n" + rest)
  {
    CountAfterFirstLine(first1, rest);
    CountAfterFirstLine(first2, rest);
  }

  /** After a first line, the count is the greedy count over the lines of the rest that a newline closes. */
  lemma CountAfterFirstLine(first: string, rest: string)
    requires '\n' !in first
    ensures CountSections(first + "\n" + rest) == GreedyHeadings(ButLast(Lines(rest)))
  {
    LinesAfterFirstLine(first, rest);
    CountSectionsByLines(first + "\n" + rest);
    var ls := Lines(rest);
    assert InteriorLines(first + "\n" + rest) == ls[..|ls| - 1];
  }

  lemma {:induction false} LinesBeforeLastLine(front: string, last: string)
    requires '\n' !in last
    ensures Lines(front + "\n" + last) == Lines(front) + [last]
    decreases |front|
  {
    var k := FirstNewline(front);
    if k == |front| {
      LinesOfTwoLines(front, last);
    } else {
      LinesBeforeLastLine(front[k + 1..], last);
      LinesAppendStep(front, last);
    }
  }

  lemma LinesOfTwoLines(front: string, last: string)
    requires '\n' !in last && FirstNewline(front) == |front|
    ensures Lines(front + "\n" + last) == Lines(front) + [last]
  {
    var s := front + "\n" + last;
    FirstNewlineConcat(front, "\n" + last);
    assert s == front + ("\n" + last);
    LinesCons(s);
    assert s[..|front|] == front && s[|front| + 1..] == last;
    NoNewline(last);
    LinesLast(last);
    LinesLast(front);
  }

  lemma LinesAppendStep(front: string, last: string)
    requires FirstNewline(front) < |front|
    requires var rest := front[FirstNewline(front) + 1..];
      Lines(rest + "\n" + last) == Lines(rest) + [last]
    ensures Lines(front + "\n" + last) == Lines(front) + [last]
  {
    var s := front + "\n" + last;
    var k := FirstNewline(front);
    var rest := front[k + 1..];
    FirstNewlineConcat(front, "\n" + last);
    assert s == front + ("\n" + last);
    LinesCons(s);
    assert s[..k] == front[..k];
    assert s[k + 1..] == rest + "\n" + last;
    LinesCons(front);
    assert [front[..k]] + (Lines(rest) + [last]) == [front[..k]] + Lines(rest) + [last];
  }

  /** A last line without a closing newline never counts, whatever it says. */
  lemma LastLineNeverCounts(front: string, last1: string, last2: string)
    requires '\n' !in last1 && '\n' !in last2
    ensures CountSections(front + "\n" + last1) == CountSections(front + "\n" + last2)
  {
    LinesBeforeLastLine(front, last1);
    LinesBeforeLastLine(front, last2);
    CountSectionsByLines(front + "\n" + last1);
    CountSectionsByLines(front + "\n" + last2);
    var ls := Lines(front);
    assert (ls + [last1])[1..|ls|] == (ls + [last2])[1..|ls|];
  }

  /** A single line and its closing newline hold no match: nothing precedes the line. */
  lemma LineAloneCountsZero(b: string)
    requires '\n' !in b
    ensures CountSections(b + "\n") == 0
  {
    NoNewline(b);
    FirstNewlineConcat(b, "\n");
    SkipToNewline(b + "\n");
    assert (b + "\n")[|b|..] == "\n";
    ScanStepNoMatch("\n");
  }

  /** Two adjacent heading lines share a newline, so only the first is counted. */
  lemma AdjacentHeadingsCountOnce(a: string, b: string)
    requires IsHeadingLine(a) && '\n' !in a
    requires IsHeadingLine(b) && '\n' !in b
    ensures CountSections("\n" + a + "\n" + b + "\n") == 1
  {
    HeadingThenRest(a, b + "\n");
    assert "\n" + a + "\n" + (b + "\n") == "\n" + a + "\n" + b + "\n";
    LineAloneCountsZero(b);
  }

  /** With a blank line between them, both heading lines count. */
  lemma SeparatedHeadingsBothCount(a: string, b: string)
    requires IsHeadingLine(a) && '\n' !in a
    requires IsHeadingLine(b) && '\n' !in b
    ensures CountSections("\n" + a + "\n\n" + b + "\n") == 2
  {
    HeadingThenRest(a, "\n" + b + "\n");
    BlankLineBetween(a, b);
    HeadingAlone(b);
  }

  lemma BlankLineBetween(a: string, b: string)
    ensures "\n" + a + "\n" + ("\n" + b + "\n") == "\n" + a + "\n\n" + b + "\n"
  {
  }

  /** A heading line between two newlines, and nothing else, counts once. */
  lemma HeadingAlone(b: string)
    requires IsHeadingLine(b) && '\n' !in b
    ensures CountSections("\n" + b + "\n") == 1
  {
    HeadingThenRest(b, "");
    assert "\n" + b + "\n" + "" == "\n" + b + "\n";
  }

  /** For example, "\nAbcd\nEfgh\n" holds one counted heading, not two. */
  lemma AdjacentHeadingsExample()
    ensures CountSections("\nAbcd\nEfgh\n") == 1
  {
    assert "\nAbcd\nEfgh\n" == "\n" + "Abcd" + "\n" + "Efgh" + "\n";
    AdjacentHeadingsCountOnce("Abcd", "Efgh");
  }

  /** A heading line between two newlines is counted and the scan resumes right after the second newline. */
  lemma HeadingThenRest(line: string, rest: string)
    requires IsHeadingLine(line) && '\n' !in line
    ensures CountSections("\n" + line + "\n" + rest) == 1 + CountSections(rest)
  {
    var r := line + "\n" + rest;
    NoNewline(line);
    FirstNewlineConcat(line, "\n" + rest);
    assert r == line + ("\n" + rest);
    assert r[..|line|] == line;
    MatchAfterNewline(r);
    assert "\n" + line + "\n" + rest == "\n" + r;
    ScanStepMatch("\n" + r, |line| - 1);
    assert ("\n" + r)[|line| + 2..] == rest;
  }

  // ---------------------------------------------------------------------
  // Composite score
  // ---------------------------------------------------------------------

  /** `min(section_count, 5) / 5 * 0.3`: the section term saturates at five headings. */
  function SectionTerm(count: nat): (t: real)
    ensures 0.0 <= t <= 0.3
    ensures count >= 5 ==> t == 0.3
    ensures count < 5 ==> t < 0.3
  {
    (if count < 5 then count else 5) as real / 5.0 * 0.3
  }

  /** Python truthiness of the readability value: None and exactly zero are falsy. */
  predicate IsFalsy(readability: Option<real>) {
    readability.None? || readability.value == 0.0
  }

  /** `readability_score or 50`: the value used in the weighting. */
  function WeightedReadability(readability: Option<real>): (w: real)
    ensures IsFalsy(readability) ==> w == 50.0
    ensures !IsFalsy(readability) ==> w == readability.value
  {
    if IsFalsy(readability) then 50.0 else readability.value
  }

  /** `readability_score or 0`: the value shown in the report. */
  function ReportedReadability(readability: Option<real>): (v: real)
    ensures IsFalsy(readability) ==> v == 0.0
    ensures !IsFalsy(readability) ==> v == readability.value
  {
    if IsFalsy(readability) then 0.0 else readability.value
  }

  /**
   * The composite score before rounding: 100 times the weighted sum of
   * structure (0.5), capped section count (0.3) and readability over 100 (0.2).
   * It stays in [0, 100] when structure lies in [0, 1] and readability in [0, 100].
   */
  function FinalScore(structure: real, count: nat, readability: Option<real>): (f: real)
    ensures 0.0 <= structure <= 1.0 && 0.0 <= WeightedReadability(readability) <= 100.0
      ==> 0.0 <= f <= 100.0
  {
    100.0 * (structure * 0.5 + SectionTerm(count) + WeightedReadability(readability) / 100.0 * 0.2)
  }

  /** The dictionary returned by `score_article`; its four keys are the four fields. */
  datatype ScoreReport = ScoreReport(
    structureSimilarity: real,
    sectionCount: nat,
    readability: real,
    finalScore: real)

  /**
   * `score_article`, with the embedding similarity and the reading-ease
   * value given. The section count is reported uncapped, while the score
   * uses the capped count; the readability field and the score treat a
   * falsy readability differently.
   */
  function ScoreArticle(article: string, structure: real, readability: Option<real>): (report: ScoreReport)
    ensures report.sectionCount == CountSections(article)
    ensures report.structureSimilarity == structure
    ensures report.readability == ReportedReadability(readability)
    ensures report.finalScore == FinalScore(structure, CountSections(article), readability)
  {
    var count := CountSections(article);
    ScoreReport(structure, count, ReportedReadability(readability), FinalScore(structure, count, readability))
  }

  /** A falsy readability scores exactly as a readability of 50 would, yet is reported as 0. */
  lemma FalsyReadabilityAsymmetry(article: string, structure: real, readability: Option<real>)
    requires IsFalsy(readability)
    ensures ScoreArticle(article, structure, readability).finalScore
         == ScoreArticle(article, structure, Some(50.0)).finalScore
    ensures ScoreArticle(article, structure, readability).readability == 0.0
    ensures ScoreArticle(article, structure, Some(50.0)).readability == 50.0
  {
  }

  /** Beyond five headings more headings change the reported count but not the score. */
  lemma SectionCountSaturates(structure: real, c1: nat, c2: nat, readability: Option<real>)
    requires c1 >= 5 && c2 >= 5
    ensures FinalScore(structure, c1, readability) == FinalScore(structure, c2, readability)
  {
  }

  /** The score never decreases when the structure similarity grows. */
  lemma MonotoneInStructure(s1: real, s2: real, count: nat, readability: Option<real>)
    requires s1 <= s2
    ensures FinalScore(s1, count, readability) <= FinalScore(s2, count, readability)
  {
  }

  /** The score never decreases when the section count grows. */
  lemma MonotoneInSections(structure: real, c1: nat, c2: nat, readability: Option<real>)
    requires c1 <= c2
    ensures FinalScore(structure, c1, readability) <= FinalScore(structure, c2, readability)
  {
  }

  /** The falsy substitution breaks monotonicity in readability: 0 scores above 1. */
  lemma ZeroReadabilityOutscoresOne(structure: real, count: nat)
    ensures FinalScore(structure, count, Some(0.0)) > FinalScore(structure, count, Some(1.0))
  {
  }

  /** The boundary cases: a perfect article scores 100, an empty one with no readability 10. */
  lemma ScoreBoundaries()
    ensures FinalScore(1.0, 5, Some(100.0)) == 100.0
    ensures FinalScore(0.0, 0, None) == 10.0
    ensures ReportedReadability(None) == 0.0
  {
  }

  /** Nothing clamps the score: a reading ease above 100 lifts it past 100. */
  lemma ScoreCanExceedHundred()
    ensures FinalScore(1.0, 5, Some(120.0)) == 104.0
  {
  }
}

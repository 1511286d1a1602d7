/**
 * One attempt of the price pattern `(\d{2,5})\s+for\s+(\d+)` at the start
 * of a string, with Python's backtracking resolved: `\d{2,5}` can only be
 * followed by `\s` when it took the whole digit run, `\s+` can only be
 * followed by `for` or a digit when it took the whole whitespace run, and
 * the final `\d+` is greedy.
 */
module PricePattern {
  import opened Options
  import opened CharClasses
  import opened Sequences

  /** A match: group 1, the two whitespace runs, and group 2. */
  datatype Match = Match(first: string, gap1: string, gap2: string, second: string)

  /** group(0): the whole text the match consumed. */
  function Text(m: Match): string {
    m.first + m.gap1 + "for" + m.gap2 + m.second
  }

  /** The pattern's shape, independently of how a match is found. */
  predicate WellFormed(m: Match) {
    && 2 <= |m.first| <= 5 && All(m.first, Digit)
    && |m.gap1| >= 1 && All(m.gap1, Space)
    && |m.gap2| >= 1 && All(m.gap2, Space)
    && |m.second| >= 1 && All(m.second, Digit)
  }

  /** A match cut out of consecutive slices of `s` spells out a prefix of `s`. */
  lemma TextOfSlices(s: string, a: nat, b: nat, c: nat, e: nat)
    requires a <= b && b + 3 <= c <= e <= |s| && s[b..b + 3] == "for"
    ensures Text(Match(s[..a], s[a..b], s[b + 3..c], s[c..e])) == s[..e]
  {
  }

  /** A prefix `x + y` of `s` splits into the prefix `x` and the slice `y` right after it. */
  lemma PrefixSplits(s: string, x: string, y: string)
    requires StartsWith(s, x + y)
    ensures StartsWith(s, x) && s[|x|..|x| + |y|] == y
  {
    assert s[..|x|] == (x + y)[..|x|];
    assert s[|x|..|x| + |y|] == (x + y)[|x|..];
  }

  /** Conversely, a match that is a prefix of `s` is made of consecutive slices of `s`. */
  lemma SlicesOfText(s: string, m: Match)
    requires StartsWith(s, Text(m))
    ensures var a, b := |m.first|, |m.first| + |m.gap1|;
      var c := b + 3 + |m.gap2|;
      && s[..a] == m.first && s[a..b] == m.gap1 && s[b..b + 3] == "for"
      && s[b + 3..c] == m.gap2 && s[c..c + |m.second|] == m.second
  {
    PrefixSplits(s, m.first + m.gap1 + "for" + m.gap2, m.second);
    PrefixSplits(s, m.first + m.gap1 + "for", m.gap2);
    PrefixSplits(s, m.first + m.gap1, "for");
    PrefixSplits(s, m.first, m.gap1);
  }

  /**
   * The four runs MatchAt measures, cut out of `s`, form a match of the
   * pattern's shape that spells out the prefix `s[..e]` and ends the
   * digit run.
   */
  lemma SlicesFormMatch(s: string, a: nat, b: nat, c: nat, e: nat)
    requires a == SpanFrom(s, 0, Digit) && 2 <= a <= 5
    requires b == a + SpanFrom(s, a, Space) && b > a
    requires b + 3 <= |s| && s[b..b + 3] == "for"
    requires c == b + 3 + SpanFrom(s, b + 3, Space) && c > b + 3
    requires e == c + SpanFrom(s, c, Digit) && e > c
    ensures WellFormed(Match(s[..a], s[a..b], s[b + 3..c], s[c..e]))
    ensures Text(Match(s[..a], s[a..b], s[b + 3..c], s[c..e])) == s[..e]
    ensures RunStopsAt(s, e, Digit)
  {
    TextOfSlices(s, a, b, c, e);
    SpanFromIsMaximalRun(s, 0, Digit);
    SpanFromIsMaximalRun(s, a, Space);
    SpanFromIsMaximalRun(s, b + 3, Space);
    SpanFromIsMaximalRun(s, c, Digit);
  }

  /**
   * The match the regex engine finds when it tries the pattern at the
   * first character of `s`, or None when the attempt fails. The attempt
   * goes element by element; `a`, `b`, `c` and `e` are the positions
   * where group 1, the first whitespace run, the second whitespace run
   * and group 2 end. A match is never empty, so the scan always advances.
   */
  function MatchAt(s: string): (r: Option<Match>)
    ensures r.Some? ==> 7 <= |Text(r.value)| <= |s|
  {
    var a := SpanFrom(s, 0, Digit);
    if 2 <= a <= 5 then AfterFirst(s, a) else None
  }

  /** `\s+for` after group 1. */
  function AfterFirst(s: string, a: nat): (r: Option<Match>)
    requires 2 <= a <= |s|
    ensures r.Some? ==> 7 <= |Text(r.value)| <= |s|
  {
    var b := a + SpanFrom(s, a, Space);
    if b > a && b + 3 <= |s| && s[b..b + 3] == "for" then AfterFor(s, a, b) else None
  }

  /** `\s+` after `for`. */
  function AfterFor(s: string, a: nat, b: nat): (r: Option<Match>)
    requires 2 <= a < b && b + 3 <= |s|
    ensures r.Some? ==> 7 <= |Text(r.value)| <= |s|
  {
    var c := b + 3 + SpanFrom(s, b + 3, Space);
    if c > b + 3 then AfterSecondGap(s, a, b, c) else None
  }

  /** Group 2, `\d+`, taken greedily. */
  function AfterSecondGap(s: string, a: nat, b: nat, c: nat): (r: Option<Match>)
    requires 2 <= a < b && b + 3 < c <= |s|
    ensures r.Some? ==> 7 <= |Text(r.value)| <= |s|
  {
    var e := c + SpanFrom(s, c, Digit);
    if e > c then Some(Match(s[..a], s[a..b], s[b + 3..c], s[c..e])) else None
  }

  /**
   * Whatever the attempt at `s` finds has the pattern's shape, is a prefix
   * of `s`, and its group 2 runs to the end of the digits.
   */
  lemma MatchAtSound(s: string)
    requires MatchAt(s).Some?
    ensures WellFormed(MatchAt(s).value) && StartsWith(s, Text(MatchAt(s).value))
    ensures RunStopsAt(s, |Text(MatchAt(s).value)|, Digit)
    ensures |MatchAt(s).value.first| == SpanFrom(s, 0, Digit)
  {
    var a := SpanFrom(s, 0, Digit);
    var b := a + SpanFrom(s, a, Space);
    var c := b + 3 + SpanFrom(s, b + 3, Space);
    var e := c + SpanFrom(s, c, Digit);
    assert MatchAt(s) == Some(Match(s[..a], s[a..b], s[b + 3..c], s[c..e]));
    SlicesFormMatch(s, a, b, c, e);
  }

  /** The attempt at `s` succeeds once its four runs are known to have the lengths the pattern needs. */
  lemma AttemptSucceeds(s: string, a: nat, b: nat, c: nat)
    requires a == SpanFrom(s, 0, Digit) && 2 <= a <= 5
    requires b == a + SpanFrom(s, a, Space) && b > a
    requires b + 3 <= |s| && s[b..b + 3] == "for"
    requires c == b + 3 + SpanFrom(s, b + 3, Space) && c > b + 3
    requires SpanFrom(s, c, Digit) > 0
    ensures MatchAt(s) == Some(Match(s[..a], s[a..b], s[b + 3..c], s[c..c + SpanFrom(s, c, Digit)]))
  {
    assert AfterFor(s, a, b) == AfterSecondGap(s, a, b, c);
  }

  /**
   * The attempt succeeds wherever `s` is laid out as the pattern asks:
   * digits up to `a`, whitespace up to `b`, `for`, whitespace up to `c`,
   * and `n` digits from `c`; group 2 then takes at least those `n` digits.
   */
  lemma AttemptSucceedsOnLayout(s: string, a: nat, b: nat, c: nat, n: nat)
    requires 2 <= a <= 5 && a < b && b + 3 < c && 0 < n && c + n <= |s|
    requires All(s[..a], Digit) && All(s[a..b], Space) && s[b..b + 3] == "for"
    requires All(s[b + 3..c], Space) && All(s[c..c + n], Digit)
    ensures SpanFrom(s, c, Digit) >= n
    ensures RunStopsAt(s, c + n, Digit) ==> SpanFrom(s, c, Digit) == n
    ensures MatchAt(s) == Some(Match(s[..a], s[a..b], s[b + 3..c], s[c..c + SpanFrom(s, c, Digit)]))
  {
    assert SpanFrom(s, 0, Digit) == a by {
      assert s[0..a] == s[..a];
      assert !InClass(s[a], Digit) by { assert s[a..b][0] == s[a]; }
      SpanFromCovers(s, 0, a, Digit);
    }
    assert SpanFrom(s, a, Space) == b - a by {
      assert s[b] == 'f';
      SpanFromCovers(s, a, b - a, Space);
    }
    assert SpanFrom(s, b + 3, Space) == c - (b + 3) by {
      assert !InClass(s[c], Space) by { assert s[c..c + n][0] == s[c]; }
      SpanFromCovers(s, b + 3, c - (b + 3), Space);
    }
    SpanFromCovers(s, c, n, Digit);
    AttemptSucceeds(s, a, b, c);
  }

  /**
   * Whenever `s` starts with a text of the pattern's shape, the attempt at
   * `s` finds the same group 1 and whitespace runs, and a group 2 that
   * takes the whole digit run starting where the given group 2 starts.
   */
  lemma MatchAtGroups(s: string, m: Match, c: nat)
    requires WellFormed(m) && StartsWith(s, Text(m))
    requires c == |m.first| + |m.gap1| + 3 + |m.gap2|
    ensures c + |m.second| <= |s| && s[c..c + |m.second|] == m.second
    ensures |m.second| <= SpanFrom(s, c, Digit)
    ensures RunStopsAt(s, c + |m.second|, Digit) ==> SpanFrom(s, c, Digit) == |m.second|
    ensures MatchAt(s) == Some(Match(m.first, m.gap1, m.gap2, s[c..c + SpanFrom(s, c, Digit)]))
    ensures StartsWith(MatchAt(s).value.second, m.second)
  {
    var a := |m.first|;
    var b := a + |m.gap1|;
    assert s[..a] == m.first && s[a..b] == m.gap1 && s[b..b + 3] == "for"
      && s[b + 3..c] == m.gap2 && s[c..c + |m.second|] == m.second by {
      SlicesOfText(s, m);
    }
    MatchAtOnSlices(s, m, a, b, c);
  }

  /** `MatchAtGroups` for a text already cut into the slices of `m`. */
  lemma MatchAtOnSlices(s: string, m: Match, a: nat, b: nat, c: nat)
    requires WellFormed(m) && a == |m.first| && b == a + |m.gap1| && c == b + 3 + |m.gap2|
    requires c + |m.second| <= |s|
    requires s[..a] == m.first && s[a..b] == m.gap1 && s[b..b + 3] == "for"
    requires s[b + 3..c] == m.gap2 && s[c..c + |m.second|] == m.second
    ensures |m.second| <= SpanFrom(s, c, Digit)
    ensures RunStopsAt(s, c + |m.second|, Digit) ==> SpanFrom(s, c, Digit) == |m.second|
    ensures MatchAt(s) == Some(Match(m.first, m.gap1, m.gap2, s[c..c + SpanFrom(s, c, Digit)]))
    ensures StartsWith(MatchAt(s).value.second, m.second)
  {
    AttemptSucceedsOnLayout(s, a, b, c, |m.second|);
    GroupTwoRun(s, c, m.second);
  }

  /**
   * Whenever `s` starts with any text of the pattern's shape, the attempt
   * at `s` succeeds, with the same group 1 and whitespace runs and a
   * group 2 that extends the given one; when the given group 2 already
   * ends the digit run, the attempt finds exactly the given match.
   */
  lemma MatchAtComplete(s: string, m: Match)
    requires WellFormed(m) && StartsWith(s, Text(m))
    ensures MatchAt(s).Some?
    ensures MatchAt(s).value.first == m.first
    ensures MatchAt(s).value.gap1 == m.gap1 && MatchAt(s).value.gap2 == m.gap2
    ensures StartsWith(MatchAt(s).value.second, m.second)
    ensures RunStopsAt(s, |Text(m)|, Digit) ==> MatchAt(s) == Some(m)
  {
    MatchAtGroups(s, m, |m.first| + |m.gap1| + 3 + |m.gap2|);
    if RunStopsAt(s, |Text(m)|, Digit) {
      MatchAtExact(s, m);
    }
  }

  /** When group 2 already ends the digit run, the attempt finds exactly `m`. */
  lemma MatchAtExact(s: string, m: Match)
    requires WellFormed(m) && StartsWith(s, Text(m))
    requires RunStopsAt(s, |Text(m)|, Digit)
    ensures MatchAt(s) == Some(m)
  {
    var c := |m.first| + |m.gap1| + 3 + |m.gap2|;
    assert |Text(m)| == c + |m.second|;
    MatchAtGroups(s, m, c);
    GroupTwoRun(s, c, m.second);
    assert s[c..c + SpanFrom(s, c, Digit)] == m.second;
  }

  /**
   * A group 2 that takes the whole digit run from `c` starts with any
   * digits found at `c`, and is exactly those digits when the run ends
   * after them.
   */
  lemma GroupTwoRun(s: string, c: nat, second: string)
    requires c + |second| <= |s| && s[c..c + |second|] == second
    requires |second| <= SpanFrom(s, c, Digit)
    requires RunStopsAt(s, c + |second|, Digit) ==> SpanFrom(s, c, Digit) == |second|
    ensures StartsWith(s[c..c + SpanFrom(s, c, Digit)], second)
    ensures RunStopsAt(s, c + |second|, Digit) ==> s[c..c + SpanFrom(s, c, Digit)] == second
  {
    TakeOfSlice(s, c, c + SpanFrom(s, c, Digit), |second|);
  }
}
